/**
 The generated `Unmarshal` loops (api/logbroker.pb.go, api/snapshot.pb.go). The
 generator emits the same loop for every message; only the switch over field
 numbers differs, and that is a message's schema.
 */
module WireDecode {
  import opened WireVarint
  import opened WireSkip

  /** How a message's switch treats a field number. */
  datatype Kind = Unknown | VarintField | BytesField | PackableField

  /** The cases of a message's switch: what they do to the message under construction. */
  datatype Schema<!M> = Schema(
    kind: int -> Kind,
    onVarint: (M, int, uint64) -> M,
    onBytes: (M, int, seq<byte>) -> Result<M>,
    onUnknown: (M, seq<byte>) -> M)

  /** A length-delimited payload behind `n`: its bounds, checked like the source does. */
  function Payload(d: seq<byte>, n: nat): (r: Result<(nat, nat)>)
    ensures r.Ok? ==> n < r.value.0 <= r.value.1 <= |d|
  {
    match Read(d, n)
    case Err(e) => Err(e)
    case Ok(p) =>
      if p.0 >= TWO63 || p.1 + p.0 >= TWO63 then Err(InvalidLength)
      else if p.1 + p.0 > |d| then Err(UnexpectedEOF)
      else Ok((p.1, p.1 + p.0))
  }

  /** The loop over a packed payload. It is bounded by the input, not by the payload, while it
      reads an element. */
  function Packed<M>(sc: Schema<M>, d: seq<byte>, i: nat, post: nat, num: int, m: M): (r: Result<(M, nat)>)
    requires i <= |d|
    ensures r.Ok? ==> i <= r.value.1 <= |d| && post <= r.value.1
    decreases |d| - i
  {
    if i >= post then Ok((m, i))
    else match Read(d, i)
      case Err(e) => Err(e)
      case Ok(p) => Packed(sc, d, p.1, post, num, sc.onVarint(m, num, p.0))
  }

  /** The default case: skip the field that starts at `i`. */
  function Skipped(d: seq<byte>, i: nat): (r: Result<nat>)
    requires i < |d|
    ensures r.Ok? ==> i < r.value <= |d|
  {
    match FieldEnd(d[i..], 0)
    case Err(e) => Err(e)
    case Ok(n) =>
      if i + n >= TWO63 then Err(InvalidLength)
      else if i + n > |d| then Err(UnexpectedEOF)
      else Ok(i + n)
  }

  /** The switch, for field `num` of wire type `wt` that starts at `i` and whose tag ends at `n`. */
  function Dispatch<M>(sc: Schema<M>, d: seq<byte>, i: nat, n: nat, num: int, wt: nat, m: M): (r: Result<(M, nat)>)
    requires i < n <= |d|
    ensures r.Ok? ==> i < r.value.1 <= |d|
  {
    var kind := sc.kind(num);
    if kind.Unknown? then
      match Skipped(d, i)
      case Err(e) => Err(e)
      case Ok(e) => Ok((sc.onUnknown(m, d[i..e]), e))
    else if wt == 0 && !kind.BytesField? then
      match Read(d, n)
      case Err(e) => Err(e)
      case Ok(p) => Ok((sc.onVarint(m, num, p.0), p.1))
    else if wt == 2 && !kind.VarintField? then
      match Payload(d, n)
      case Err(e) => Err(e)
      case Ok(b) =>
        if kind.PackableField? then Packed(sc, d, b.0, b.1, num, m)
        else match sc.onBytes(m, num, d[b.0..b.1])
          case Err(e) => Err(e)
          case Ok(m') => Ok((m', b.1))
    else Err(WrongWireType)
  }

  /** The checks of the tag. */
  function DecodeTagged<M>(sc: Schema<M>, d: seq<byte>, i: nat, n: nat, num: int, wt: nat, m: M): (r: Result<(M, nat)>)
    requires i < n <= |d|
    ensures r.Ok? ==> i < r.value.1 <= |d|
  {
    if wt == 4 then Err(EndGroupForNonGroup)
    else if num <= 0 then Err(IllegalTag)
    else Dispatch(sc, d, i, n, num, wt, m)
  }

  /** One round of the loop. */
  function DecodeField<M>(sc: Schema<M>, d: seq<byte>, i: nat, m: M): (r: Result<(M, nat)>)
    requires i < |d|
    ensures r.Ok? ==> i < r.value.1 <= |d|
  {
    match Read(d, i)
    case Err(e) => Err(e)
    case Ok(p) =>
      DecodeTagged(sc, d, i, p.1, ToI32(p.0 / 8), p.0 % 8, m)
  }

  /** `Unmarshal` from index `i` on. */
  function Decode<M>(sc: Schema<M>, d: seq<byte>, i: nat, m: M): (r: Result<M>)
    requires i <= |d|
    decreases |d| - i
  {
    if i == |d| then Ok(m)
    else match DecodeField(sc, d, i, m)
      case Err(e) => Err(e)
      case Ok(p) => Decode(sc, d, p.1, p.0)
  }

  // ---- the loops of the source ----

  method UnmarshalPacked<M>(sc: Schema<M>, d: seq<byte>, start: nat, post: nat, num: int, m0: M)
    returns (r: Result<(M, nat)>)
    requires start <= |d|
    ensures r == Packed(sc, d, start, post, num, m0)
  {
    var i, m := start, m0;
    while i < post
      invariant i <= |d| && Packed(sc, d, start, post, num, m0) == Packed(sc, d, i, post, num, m)
      decreases |d| - i
    {
      var v := Varint64(d, i);
      if v.Err? { return Err(v.error); }
      m, i := sc.onVarint(m, num, v.value.0), v.value.1;
    }
    return Ok((m, i));
  }

  /** The body of a known case, its wire type already found right. */
  method UnmarshalKnown<M>(sc: Schema<M>, d: seq<byte>, i: nat, n: nat, num: int, wt: nat, m: M)
    returns (r: Result<(M, nat)>)
    requires i < n <= |d| && !sc.kind(num).Unknown?
    ensures r == Dispatch(sc, d, i, n, num, wt, m)
  {
    var kind := sc.kind(num);
    if wt == 0 && !kind.BytesField? {
      var v := Varint64(d, n);
      return if v.Err? then Err(v.error) else Ok((sc.onVarint(m, num, v.value.0), v.value.1));
    }
    if wt != 2 || kind.VarintField? { return Err(WrongWireType); }
    var len := Varint64(d, n);
    if len.Err? { return Err(len.error); }
    if len.value.0 >= TWO63 { return Err(InvalidLength); }
    var post := len.value.1 + len.value.0;
    if post >= TWO63 { return Err(InvalidLength); }
    if post > |d| { return Err(UnexpectedEOF); }
    if kind.PackableField? {
      r := UnmarshalPacked(sc, d, len.value.1, post, num, m);
    } else {
      var m' := sc.onBytes(m, num, d[len.value.1..post]);
      r := if m'.Err? then Err(m'.error) else Ok((m'.value, post));
    }
  }

  /** The default case: skip, then check where that ends. */
  method SkipUnknown(d: seq<byte>, i: nat) returns (r: Result<nat>)
    requires i < |d| < TWO63
    ensures r == Skipped(d, i)
  {
    var n := Skip(d[i..]);
    if n.Err? { return Err(n.error); }
    if i + n.value >= TWO63 { return Err(InvalidLength); }
    if i + n.value > |d| { return Err(UnexpectedEOF); }
    return Ok(i + n.value);
  }

  /** The body of the loop. */
  method UnmarshalField<M>(sc: Schema<M>, d: seq<byte>, i: nat, m: M) returns (r: Result<(M, nat)>)
    requires i < |d| < TWO63
    ensures r == DecodeField(sc, d, i, m)
  {
    var tag := Varint64(d, i);
    if tag.Err? { return Err(tag.error); }
    var num, wt := ToI32(tag.value.0 / 8), tag.value.0 % 8;
    if wt == 4 { return Err(EndGroupForNonGroup); }
    if num <= 0 { return Err(IllegalTag); }
    if sc.kind(num).Unknown? {
      var e := SkipUnknown(d, i);
      if e.Err? { return Err(e.error); }
      return Ok((sc.onUnknown(m, d[i..e.value]), e.value));
    }
    r := UnmarshalKnown(sc, d, i, tag.value.1, num, wt, m);
  }

  /** `Unmarshal` into the message `m0`. */
  method Unmarshal<M>(sc: Schema<M>, d: seq<byte>, m0: M) returns (r: Result<M>)
    requires |d| < TWO63
    ensures r == Decode(sc, d, 0, m0)
  {
    var i: nat, m := 0, m0;
    while i < |d|
      invariant i <= |d| && Decode(sc, d, 0, m0) == Decode(sc, d, i, m)
    {
      var f := UnmarshalField(sc, d, i, m);
      if f.Err? { return Err(f.error); }
      m, i := f.value.0, f.value.1;
    }
    return Ok(m);
  }
}
