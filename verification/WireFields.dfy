/**
 The fields the generated `Marshal` code emits, and that the parser reads each
 of them back.
 */
module WireFields {
  import opened WireVarint
  import opened WireSkip
  import opened WireDecode
  import opened WireLaws

  type FieldNum = x: int | 1 <= x < 0x2000_0000 witness 1

  /** A field's tag: its number and its wire type. */
  function Tag(num: FieldNum, wt: nat): (r: uint64)
    requires wt < 8
    ensures r % 8 == wt && ToI32(r / 8) == num
  {
    num * 8 + wt
  }

  /** A varint field: tag, value. */
  function VarField(num: FieldNum, v: uint64): seq<byte> { Varint(Tag(num, 0)) + Varint(v) }

  /** A length-delimited field: tag, length, payload. */
  function LenField(num: FieldNum, data: seq<byte>): seq<byte> { Varint(Tag(num, 2)) + Varint(|data|) + data }

  /** Repeated fields, in order. */
  function VarFields(num: FieldNum, vs: seq<uint64>): seq<byte> {
    if vs == [] then [] else VarField(num, vs[0]) + VarFields(num, vs[1..])
  }

  function LenFields(num: FieldNum, ds: seq<seq<byte>>): seq<byte> {
    if ds == [] then [] else LenField(num, ds[0]) + LenFields(num, ds[1..])
  }

  /** Proto3 leaves a zero number and an empty string out. */
  function OptVar(num: FieldNum, v: uint64): seq<byte> { if v == 0 then [] else VarField(num, v) }
  function OptLen(num: FieldNum, data: seq<byte>): seq<byte> { if data == [] then [] else LenField(num, data) }

  // ---- each field parses into what its case does ----

  lemma TagIs(d: seq<byte>, num: FieldNum, wt: nat)
    requires wt < 8 && At(d, 0, Varint(Tag(num, wt)))
    ensures Read(d, 0) == Ok((Tag(num, wt), |Varint(Tag(num, wt))|))
  {
    ReadVarint(d, 0, Tag(num, wt));
  }

  lemma VarFieldDecodes<M>(sc: Schema<M>, num: FieldNum, v: uint64, m: M)
    requires sc.kind(num).VarintField? || sc.kind(num).PackableField?
    ensures Decode(sc, VarField(num, v), 0, m) == Ok(sc.onVarint(m, num, v))
  {
    var d, n := VarField(num, v), |Varint(Tag(num, 0))|;
    assert d[0..n] == Varint(Tag(num, 0)) && d[n..n + |Varint(v)|] == Varint(v);
    TagIs(d, num, 0);
    ReadVarint(d, n, v);
    assert DecodeField(sc, d, 0, m) == Ok((sc.onVarint(m, num, v), |d|));
  }

  lemma AtMiddle(a: seq<byte>, b: seq<byte>, c: seq<byte>)
    ensures At(a + b + c, |a|, b)
  {
  }

  lemma PayloadBehind(tag: seq<byte>, len: seq<byte>, data: seq<byte>)
    requires len == Varint(|data|) && |tag + len + data| < TWO63
    ensures Payload(tag + len + data, |tag|) == Ok((|tag| + |len|, |tag + len + data|))
  {
    AtMiddle(tag, len, data);
    ReadVarint(tag + len + data, |tag|, |data|);
  }

  lemma PayloadOf(num: FieldNum, data: seq<byte>)
    requires |LenField(num, data)| < TWO63
    ensures var d, n := LenField(num, data), |Varint(Tag(num, 2))|;
            Payload(d, n) == Ok((|d| - |data|, |d|)) && d[|d| - |data|..|d|] == data
  {
    PayloadBehind(Varint(Tag(num, 2)), Varint(|data|), data);
  }

  lemma LenFieldDecodes<M>(sc: Schema<M>, num: FieldNum, data: seq<byte>, m: M)
    requires sc.kind(num).BytesField? && |LenField(num, data)| < TWO63 && sc.onBytes(m, num, data).Ok?
    ensures Decode(sc, LenField(num, data), 0, m) == sc.onBytes(m, num, data)
  {
    var d, n := LenField(num, data), |Varint(Tag(num, 2))|;
    assert d[0..n] == Varint(Tag(num, 2));
    TagIs(d, num, 2);
    PayloadOf(num, data);
    assert Dispatch(sc, d, 0, n, num, 2, m) == Ok((sc.onBytes(m, num, data).value, |d|));
    assert DecodeField(sc, d, 0, m) == Ok((sc.onBytes(m, num, data).value, |d|));
  }

  // ---- repeated numbers, packed or not ----

  /** The message after the values `vs` of a repeated number. */
  function Folded<M>(sc: Schema<M>, num: int, vs: seq<uint64>, m: M): M {
    if vs == [] then m else Folded(sc, num, vs[1..], sc.onVarint(m, num, vs[0]))
  }

  function Varints(vs: seq<uint64>): seq<byte> {
    if vs == [] then [] else Varint(vs[0]) + Varints(vs[1..])
  }

  /** The bytes of the values `vs` stand between `i` and `post`. */
  predicate HoldsVarints(d: seq<byte>, i: nat, post: nat, vs: seq<uint64>) {
    At(d, i, Varints(vs)) && post == i + |Varints(vs)|
  }

  lemma FirstVarint(d: seq<byte>, i: nat, post: nat, vs: seq<uint64>) returns (n: nat)
    requires HoldsVarints(d, i, post, vs) && vs != []
    ensures Read(d, i) == Ok((vs[0], n)) && i < n && HoldsVarints(d, n, post, vs[1..])
  {
    n := i + |Varint(vs[0])|;
    AtParts(d, i, Varint(vs[0]), Varints(vs[1..]));
    ReadVarint(d, i, vs[0]);
  }

  lemma {:induction false} PackedReads<M>(sc: Schema<M>, d: seq<byte>, i: nat, post: nat, num: int, vs: seq<uint64>, m: M)
    requires i <= post <= |d| && HoldsVarints(d, i, post, vs)
    ensures Packed(sc, d, i, post, num, m) == Ok((Folded(sc, num, vs, m), post))
    decreases |vs|
  {
    if vs != [] {
      var n := FirstVarint(d, i, post, vs);
      PackedReads(sc, d, n, post, num, vs[1..], sc.onVarint(m, num, vs[0]));
    }
  }

  lemma PackedCase<M>(sc: Schema<M>, d: seq<byte>, tag: uint64, n: nat, start: nat, m: M)
    requires 0 < n <= |d| && Read(d, 0) == Ok((tag, n)) && Payload(d, n) == Ok((start, |d|))
    requires tag % 8 == 2 && ToI32(tag / 8) > 0 && sc.kind(ToI32(tag / 8)).PackableField?
    ensures DecodeField(sc, d, 0, m) == Packed(sc, d, start, |d|, ToI32(tag / 8), m)
  {
  }

  lemma PackedPayload<M>(sc: Schema<M>, num: FieldNum, data: seq<byte>, m: M) returns (start: nat)
    requires sc.kind(num).PackableField? && |LenField(num, data)| < TWO63
    ensures var d := LenField(num, data);
            && 0 < start <= |d| && d[start..|d|] == data
            && DecodeField(sc, d, 0, m) == Packed(sc, d, start, |d|, num, m)
  {
    var d, n := LenField(num, data), |Varint(Tag(num, 2))|;
    assert d[0..n] == Varint(Tag(num, 2));
    TagIs(d, num, 2);
    PayloadOf(num, data);
    start := |d| - |data|;
    PackedCase(sc, d, Tag(num, 2), n, start, m);
  }

  lemma PackedWhole<M>(sc: Schema<M>, d: seq<byte>, start: nat, num: int, vs: seq<uint64>, m: M)
    requires 0 < start <= |d| && d[start..|d|] == Varints(vs)
    requires DecodeField(sc, d, 0, m) == Packed(sc, d, start, |d|, num, m)
    ensures Decode(sc, d, 0, m) == Ok(Folded(sc, num, vs, m))
  {
    assert HoldsVarints(d, start, |d|, vs);
    PackedReads(sc, d, start, |d|, num, vs, m);
  }

  lemma PackDecodes<M>(sc: Schema<M>, num: FieldNum, vs: seq<uint64>, m: M)
    requires sc.kind(num).PackableField? && |LenField(num, Varints(vs))| < TWO63
    ensures Decode(sc, LenField(num, Varints(vs)), 0, m) == Ok(Folded(sc, num, vs, m))
  {
    var start := PackedPayload(sc, num, Varints(vs), m);
    PackedWhole(sc, LenField(num, Varints(vs)), start, num, vs, m);
  }

  /** One piece of a repeated number on the wire. */
  datatype Chunk = One(v: uint64) | Pack(vs: seq<uint64>)

  function ChunkBytes(num: FieldNum, c: Chunk): seq<byte> {
    match c
    case One(v) => VarField(num, v)
    case Pack(vs) => LenField(num, Varints(vs))
  }

  function ChunksBytes(num: FieldNum, cs: seq<Chunk>): seq<byte> {
    if cs == [] then [] else ChunkBytes(num, cs[0]) + ChunksBytes(num, cs[1..])
  }

  function Values(cs: seq<Chunk>): seq<uint64> {
    if cs == [] then []
    else (match cs[0] case One(v) => [v] case Pack(vs) => vs) + Values(cs[1..])
  }

  lemma {:induction false} FoldedConcat<M>(sc: Schema<M>, num: int, a: seq<uint64>, b: seq<uint64>, m: M)
    ensures Folded(sc, num, a + b, m) == Folded(sc, num, b, Folded(sc, num, a, m))
    decreases |a|
  {
    if a == [] { assert a + b == b; }
    else {
      assert (a + b)[1..] == a[1..] + b;
      FoldedConcat(sc, num, a[1..], b, sc.onVarint(m, num, a[0]));
    }
  }

  /** Any mix of packed and unpacked pieces parses into the concatenation of their values. */
  lemma {:induction false} ChunksDecode<M>(sc: Schema<M>, num: FieldNum, cs: seq<Chunk>, m: M)
    requires sc.kind(num).PackableField? && |ChunksBytes(num, cs)| < TWO63
    ensures Decode(sc, ChunksBytes(num, cs), 0, m) == Ok(Folded(sc, num, Values(cs), m))
    decreases |cs|
  {
    if cs != [] {
      var vs := match cs[0] case One(v) => [v] case Pack(vs) => vs;
      match cs[0] {
        case One(v) =>
          VarFieldDecodes(sc, num, v, m);
          assert vs[1..] == [];
          assert Folded(sc, num, vs[1..], sc.onVarint(m, num, v)) == sc.onVarint(m, num, v);
        case Pack(_) => PackDecodes(sc, num, vs, m);
      }
      var m1 := Folded(sc, num, vs, m);
      ChunksDecode(sc, num, cs[1..], m1);
      FoldedConcat(sc, num, vs, Values(cs[1..]), m);
      Then(sc, ChunkBytes(num, cs[0]), ChunksBytes(num, cs[1..]), m, m1, Folded(sc, num, Values(cs[1..]), m1));
    }
  }

  lemma {:induction false} VarFieldsDecode<M>(sc: Schema<M>, num: FieldNum, vs: seq<uint64>, m: M)
    requires sc.kind(num).PackableField? && |VarFields(num, vs)| < TWO63
    ensures Decode(sc, VarFields(num, vs), 0, m) == Ok(Folded(sc, num, vs, m))
    decreases |vs|
  {
    if vs != [] {
      VarFieldDecodes(sc, num, vs[0], m);
      var m1 := sc.onVarint(m, num, vs[0]);
      VarFieldsDecode(sc, num, vs[1..], m1);
      Then(sc, VarField(num, vs[0]), VarFields(num, vs[1..]), m, m1, Folded(sc, num, vs[1..], m1));
    }
  }

  /** Repeated payloads, when each parses: `ms[k]` is the message before payload `k`. */
  lemma {:induction false} LenFieldsDecode<M>(sc: Schema<M>, num: FieldNum, ds: seq<seq<byte>>, ms: seq<M>)
    requires sc.kind(num).BytesField? && |LenFields(num, ds)| < TWO63 && |ms| == |ds| + 1
    requires forall k :: 0 <= k < |ds| ==> sc.onBytes(ms[k], num, ds[k]) == Ok(ms[k + 1])
    ensures Decode(sc, LenFields(num, ds), 0, ms[0]) == Ok(ms[|ds|])
    decreases |ds|
  {
    if ds != [] {
      assert sc.onBytes(ms[0], num, ds[0]) == Ok(ms[0 + 1]);
      LenFieldDecodes(sc, num, ds[0], ms[0]);
      LenFieldsDecode(sc, num, ds[1..], ms[1..]);
      Then(sc, LenField(num, ds[0]), LenFields(num, ds[1..]), ms[0], ms[1], ms[|ds|]);
    }
  }

  // ---- unknown fields of every shape, nested groups included ----

  /** A field as the wire format defines it. */
  datatype Rec =
    | VarRec(num: FieldNum, v: uint64)
    | Fix64Rec(num: FieldNum, bytes: seq<byte>)
    | LenRec(num: FieldNum, data: seq<byte>)
    | GroupRec(num: FieldNum, fields: seq<Rec>)
    | Fix32Rec(num: FieldNum, bytes: seq<byte>)

  predicate WellFormed(r: Rec) {
    match r
    case Fix64Rec(_, bs) => |bs| == 8
    case Fix32Rec(_, bs) => |bs| == 4
    case GroupRec(_, fs) => forall i :: 0 <= i < |fs| ==> WellFormed(fs[i])
    case _ => true
  }

  function WireType(r: Rec): (wt: nat)
    ensures wt < 8 && wt != 4
  {
    match r
    case VarRec(_, _) => 0
    case Fix64Rec(_, _) => 1
    case LenRec(_, _) => 2
    case GroupRec(_, _) => 3
    case Fix32Rec(_, _) => 5
  }

  /** What stands behind the tag. */
  function RecBody(r: Rec): seq<byte>
    decreases r, 2
  {
    match r
    case VarRec(_, v) => Varint(v)
    case Fix64Rec(_, bs) => bs
    case LenRec(_, data) => Varint(|data|) + data
    case GroupRec(num, fs) => RecsBytes(fs) + Varint(Tag(num, 4))
    case Fix32Rec(_, bs) => bs
  }

  function RecBytes(r: Rec): seq<byte>
    decreases r, 3
  {
    Varint(Tag(r.num, WireType(r))) + RecBody(r)
  }

  function RecsBytes(rs: seq<Rec>): seq<byte>
    decreases rs, 1
  {
    if rs == [] then [] else RecBytes(rs[0]) + RecsBytes(rs[1..])
  }

  lemma AtParts(d: seq<byte>, i: nat, a: seq<byte>, b: seq<byte>)
    requires At(d, i, a + b)
    ensures At(d, i, a) && At(d, i + |a|, b)
  {
    assert d[i..i + |a|] == d[i..i + |a + b|][..|a|];
    assert d[i + |a|..i + |a| + |b|] == d[i..i + |a + b|][|a|..];
  }

  /** The parser's view of the tag of `r`; `n` is where its body starts. */
  lemma RecTag(d: seq<byte>, i: nat, r: Rec) returns (n: nat)
    requires At(d, i, RecBytes(r))
    ensures Read(d, i).Ok? && Read(d, i).value.1 == n
    ensures Read(d, i).value.0 % 8 == WireType(r) && ToI32(Read(d, i).value.0 / 8) == r.num
    ensures At(d, n, RecBody(r)) && n + |RecBody(r)| == i + |RecBytes(r)|
  {
    var tag := Tag(r.num, WireType(r));
    AtParts(d, i, Varint(tag), RecBody(r));
    ReadVarint(d, i, tag);
    n := i + |Varint(tag)|;
  }

  lemma LeafBodyEnds(d: seq<byte>, n: nat, r: Rec)
    requires |d| < TWO63 && WellFormed(r) && !r.GroupRec? && At(d, n, RecBody(r))
    ensures LeafEnd(d, WireType(r), n) == Ok(n + |RecBody(r)|)
  {
    match r
    case VarRec(_, v) => ReadVarint(d, n, v);
    case LenRec(_, data) =>
      AtParts(d, n, Varint(|data|), data);
      ReadVarint(d, n, |data|);
    case _ =>
  }

  /** The skipper passes exactly one field of the format, whatever is nested in it. */
  lemma {:induction false} RecIsOneField(d: seq<byte>, i: nat, r: Rec)
    requires |d| < TWO63 && WellFormed(r) && At(d, i, RecBytes(r))
    ensures FieldEnd(d, i) == Ok(i + |RecBytes(r)|)
    decreases r, 0
  {
    var n := RecTag(d, i, r);
    if r.GroupRec? { RecsAreOneGroup(d, n, r.fields, Tag(r.num, 4), i + |RecBytes(r)|); } else { LeafBodyEnds(d, n, r); }
  }

  lemma EndGroup(d: seq<byte>, i: nat, tag: uint64)
    requires |d| < TWO63 && At(d, i, Varint(tag)) && tag % 8 == 4
    ensures GroupEnd(d, i) == Ok(i + |Varint(tag)|)
  {
    ReadVarint(d, i, tag);
  }

  /** The fields `rs` of a group and its end tag stand between `i` and `e`. */
  predicate GroupAt(d: seq<byte>, i: nat, rs: seq<Rec>, tag: uint64, e: nat) {
    At(d, i, RecsBytes(rs) + Varint(tag)) && e == i + |RecsBytes(rs) + Varint(tag)|
  }

  lemma FirstRec(d: seq<byte>, i: nat, rs: seq<Rec>, tag: uint64, e: nat) returns (next: nat)
    requires rs != [] && GroupAt(d, i, rs, tag, e)
    ensures At(d, i, RecBytes(rs[0])) && next == i + |RecBytes(rs[0])| && GroupAt(d, next, rs[1..], tag, e)
  {
    var first, rest := RecBytes(rs[0]), RecsBytes(rs[1..]) + Varint(tag);
    assert RecsBytes(rs) + Varint(tag) == first + rest;
    AtParts(d, i, first, rest);
    next := i + |first|;
  }

  lemma GroupAtEnd(d: seq<byte>, i: nat, tag: uint64, e: nat)
    requires GroupAt(d, i, [], tag, e)
    ensures At(d, i, Varint(tag)) && e == i + |Varint(tag)|
  {
    assert RecsBytes([]) + Varint(tag) == Varint(tag);
  }

  lemma NoRec(d: seq<byte>, i: nat, tag: uint64, e: nat)
    requires |d| < TWO63 && tag % 8 == 4 && GroupAt(d, i, [], tag, e)
    ensures GroupEnd(d, i) == Ok(e)
  {
    GroupAtEnd(d, i, tag, e);
    EndGroup(d, i, tag);
  }

  lemma PassRec(d: seq<byte>, i: nat, n: nat)
    requires i < |d| && FieldEnd(d, i) == Ok(n) && Read(d, i).value.0 % 8 != 4
    ensures GroupEnd(d, i) == GroupEnd(d, n)
  {
  }

  lemma {:induction false} RecsAreOneGroup(d: seq<byte>, i: nat, rs: seq<Rec>, tag: uint64, e: nat)
    requires |d| < TWO63 && (forall k :: 0 <= k < |rs| ==> WellFormed(rs[k]))
    requires tag % 8 == 4 && GroupAt(d, i, rs, tag, e)
    ensures GroupEnd(d, i) == Ok(e)
    decreases rs, 1
  {
    if rs == [] {
      NoRec(d, i, tag, e);
    } else {
      var next := FirstRec(d, i, rs, tag, e);
      var n := RecTag(d, i, rs[0]);
      RecIsOneField(d, i, rs[0]);
      PassRec(d, i, next);
      RecsAreOneGroup(d, next, rs[1..], tag, e);
    }
  }

  lemma RecIsUnknown<M>(sc: Schema<M>, r: Rec)
    requires |RecBytes(r)| < TWO63 && WellFormed(r) && sc.kind(r.num).Unknown?
    ensures UnknownField(sc, RecBytes(r))
  {
    var u := RecBytes(r);
    assert u[0..|u|] == u;
    var n := RecTag(u, 0, r);
    RecIsOneField(u, 0, r);
  }

  /** So every well-formed field with an unknown number may be inserted anywhere between the parts
      of a message without changing what it parses into. */
  lemma InsertedRecIsIgnored<M>(sc: Schema<M>, a: seq<byte>, r: Rec, b: seq<byte>, m: M)
    requires |a + RecBytes(r) + b| < TWO63 && WellFormed(r) && sc.kind(r.num).Unknown?
    requires Decode(sc, a, 0, m).Ok?
    requires var m1 := Decode(sc, a, 0, m).value; sc.onUnknown(m1, RecBytes(r)) == m1
    ensures var x, x' := Decode(sc, a + b, 0, m), Decode(sc, a + RecBytes(r) + b, 0, m);
            (x.Ok? <==> x'.Ok?) && (x.Ok? ==> x' == x)
  {
    var u := RecBytes(r);
    RecIsUnknown(sc, r);
    UnknownIsIgnored(sc, a, u, b, m);
  }
}
