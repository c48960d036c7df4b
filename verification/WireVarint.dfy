/**
 Base-128 varints as the generated protobuf code writes, measures and reads them
 (api/logbroker.pb.go; "Base 128 Varints" in the Protocol Buffers Encoding guide).
 Machine integers are modelled by their ranges and explicit wrap-around.
 */
module WireVarint {

  const TWO31 := 0x8000_0000
  const TWO32 := 0x1_0000_0000
  const TWO63 := 0x8000_0000_0000_0000
  const TWO64 := 0x1_0000_0000_0000_0000

  type byte = x: int | 0 <= x < 256
  type uint64 = x: int | 0 <= x < TWO64
  type int64 = x: int | -TWO63 <= x < TWO63
  type int32 = x: int | -TWO31 <= x < TWO31

  datatype Error =
    | IntOverflow | UnexpectedEOF | InvalidLength | UnexpectedEndOfGroup
    | EndGroupForNonGroup | IllegalTag | WrongWireType | IllegalWireType

  datatype Result<+T> = Ok(value: T) | Err(error: Error)

  /** Go's conversions between machine integers. */
  function ToU64(v: int): (r: uint64) { v % TWO64 }
  function ToI64(v: uint64): (r: int64) { if v < TWO63 then v else v - TWO64 }
  function ToI32(v: uint64): (r: int32) {
    var low := v % TWO32;
    if low < TWO31 then low else low - TWO32
  }

  /** A signed value survives the trip through its sign-extended unsigned form. */
  lemma SignExtension(x: int64, y: int32)
    ensures ToI64(ToU64(x)) == x && ToI32(ToU64(y)) == y
    ensures x < 0 ==> |Varint(ToU64(x))| == 10
  {
    if x < 0 {
      assert ToU64(x) == x + TWO64;
      VarintLength(x + TWO64, 9);
      VarintFits(x + TWO64);
    }
    if y < 0 {
      assert ToU64(y) == y + TWO64;
      assert (y + TWO64) % TWO32 == y + TWO32;
    }
  }

  // ---- the encoding ----

  /** The bytes of `v`, low groups first, every byte but the last with its top bit set. */
  function Varint(v: nat): (r: seq<byte>)
    ensures |r| >= 1
  {
    if v < 128 then [v] else [v % 128 + 128] + Varint(v / 128)
  }

  function Pow128(k: nat): (r: nat)
    ensures r >= 1
  {
    if k == 0 then 1 else 128 * Pow128(k - 1)
  }

  lemma {:induction false} VarintLength(v: nat, k: nat)
    ensures v < Pow128(k) && k > 0 ==> |Varint(v)| <= k
    ensures v >= Pow128(k) ==> |Varint(v)| > k
    decreases k
  {
    if k > 0 {
      VarintLength(v / 128, k - 1);
      if v >= 128 {
        assert v < 128 * Pow128(k - 1) ==> v / 128 < Pow128(k - 1);
        assert v >= 128 * Pow128(k - 1) ==> v / 128 >= Pow128(k - 1);
      }
    }
  }

  lemma VarintFits(v: uint64)
    ensures |Varint(v)| <= 10
  {
    VarintLength(v, 10);
  }

  // ---- its length in closed form ----

  /** `bits.Len64` */
  function BitLen(v: nat): nat { if v == 0 then 0 else 1 + BitLen(v / 2) }

  function OrOne(v: nat): nat { if v % 2 == 0 then v + 1 else v }

  /** `sovLogbroker` */
  function Sov(v: uint64): nat { (BitLen(OrOne(v)) + 6) / 7 }

  lemma BitLenOrOne(v: nat)
    requires v > 0
    ensures BitLen(OrOne(v)) == BitLen(v)
  {
    assert OrOne(v) / 2 == v / 2;
  }

  lemma BitLenEighth(v: nat)
    ensures BitLen(v) <= 3 + BitLen(v / 8)
    ensures v >= 8 ==> BitLen(v) == 3 + BitLen(v / 8)
  {
    var a := v / 2;
    var b := a / 2;
    assert b / 2 == v / 8;
    assert BitLen(v) <= 1 + BitLen(a) && BitLen(a) <= 1 + BitLen(b) && BitLen(b) <= 1 + BitLen(b / 2);
  }

  lemma BitLenOfByte(v: nat)
    requires 1 <= v < 128
    ensures 1 <= BitLen(v) <= 7
  {
    BitLenEighth(v);
    BitLenEighth(v / 8);
  }

  lemma BitLenOfRest(v: nat)
    requires v >= 128
    ensures BitLen(v) == 7 + BitLen(v / 128)
  {
    BitLenEighth(v);
    BitLenEighth(v / 8);
    assert v / 8 / 8 / 2 == v / 128;
  }

  /** The closed form counts exactly the bytes the encoder's loop writes. */
  lemma {:induction false} SovIsVarintLength(v: uint64)
    ensures Sov(v) == |Varint(v)|
  {
    if v < 128 {
      BitLenOfByte(OrOne(v));
    } else {
      BitLenOrOne(v);
      BitLenOfRest(v);
      BitLenOrOne(v / 128);
      SovIsVarintLength(v / 128);
    }
  }

  // ---- reading ----

  /** The word after the 7 bits of a further byte; Go shifts and ORs 64-bit words. */
  function Gathered(acc: uint64, b: byte, k: nat): uint64 { (acc + b % 128 * Pow128(k)) % TWO64 }

  /** The parser's loop after `k` bytes (shift 7k) with `acc` accumulated: the group is shifted into
      a 64-bit word, bits beyond it are lost, and an eleventh byte is an overflow. */
  function ReadFrom(d: seq<byte>, i: nat, k: nat, acc: uint64): (r: Result<(uint64, nat)>)
    ensures r.Ok? ==> i < r.value.1 <= |d|
    decreases 10 - k
  {
    if k >= 10 then Err(IntOverflow)
    else if i >= |d| then Err(UnexpectedEOF)
    else
      var acc' := Gathered(acc, d[i], k);
      if d[i] < 128 then Ok((acc', i + 1)) else ReadFrom(d, i + 1, k + 1, acc')
  }

  function Read(d: seq<byte>, i: nat): (r: Result<(uint64, nat)>)
    ensures r.Ok? ==> i < r.value.1 <= |d|
  {
    ReadFrom(d, i, 0, 0)
  }

  /** `d` holds `part` at position `i`. */
  predicate At(d: seq<byte>, i: nat, part: seq<byte>) { i + |part| <= |d| && d[i..i + |part|] == part }

  lemma SplitGroup(v: nat, p: nat)
    ensures v * p == v / 128 * (128 * p) + v % 128 * p
    ensures v / 128 * (128 * p) >= 0 && v % 128 * p >= 0
  {
    var q, r := v / 128, v % 128;
    calc {
      v * p;
      (128 * q + r) * p;
      128 * q * p + r * p;
      q * (128 * p) + r * p;
    }
  }

  lemma GatheredFits(acc: uint64, b: byte, k: nat, r: nat)
    requires b % 128 == r && acc + r * Pow128(k) < TWO64
    ensures Gathered(acc, b, k) == acc + r * Pow128(k)
  {
    assert r * Pow128(k) >= 0;
  }

  /** One round of the loop, when the word does not overflow. */
  lemma ReadStep(d: seq<byte>, i: nat, k: nat, acc: uint64, r: nat)
    requires i < |d| && k < 10 && d[i] % 128 == r && acc + r * Pow128(k) < TWO64
    ensures ReadFrom(d, i, k, acc)
         == if d[i] < 128 then Ok((acc + r * Pow128(k), i + 1))
            else ReadFrom(d, i + 1, k + 1, acc + r * Pow128(k))
  {
    GatheredFits(acc, d[i], k, r);
  }

  lemma FirstByte(d: seq<byte>, i: nat, v: nat)
    requires At(d, i, Varint(v))
    ensures d[i] % 128 == v % 128 && (d[i] < 128 <==> v < 128)
    ensures v >= 128 ==> At(d, i + 1, Varint(v / 128)) && |Varint(v)| == 1 + |Varint(v / 128)|
  {
    var bs := Varint(v);
    assert d[i] == d[i..i + |bs|][0] == bs[0];
    if v >= 128 {
      assert bs[1..] == Varint(v / 128);
      assert d[i + 1..i + 1 + |Varint(v / 128)|] == d[i..i + |bs|][1..];
    }
  }

  /** The low group of `v` and the rest make up its contribution to the word. */
  lemma Groups(acc: nat, v: nat, k: nat) returns (low: nat)
    requires acc + v * Pow128(k) < TWO64
    ensures low == v % 128 * Pow128(k) && acc + low < TWO64
    ensures acc + low + v / 128 * Pow128(k + 1) == acc + v * Pow128(k)
    ensures v < 128 ==> low == v * Pow128(k)
  {
    SplitGroup(v, Pow128(k));
    low := v % 128 * Pow128(k);
  }

  lemma {:induction false} ReadFromVarint(d: seq<byte>, i: nat, k: nat, acc: uint64, v: nat)
    requires At(d, i, Varint(v)) && k + |Varint(v)| <= 10
    requires acc + v * Pow128(k) < TWO64
    ensures ReadFrom(d, i, k, acc) == Ok((acc + v * Pow128(k), i + |Varint(v)|))
    decreases v
  {
    FirstByte(d, i, v);
    var low := Groups(acc, v, k);
    ReadStep(d, i, k, acc, v % 128);
    if v >= 128 { ReadFromVarint(d, i + 1, k + 1, acc + low, v / 128); }
  }

  /** Reading a written varint gives the value back and ends right behind it. */
  lemma ReadVarint(d: seq<byte>, i: nat, v: uint64)
    requires At(d, i, Varint(v))
    ensures Read(d, i) == Ok((v, i + |Varint(v)|))
  {
    VarintFits(v);
    ReadFromVarint(d, i, 0, 0, v);
  }
}
