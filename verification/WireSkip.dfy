/**
 Skipping one unknown field (api/logbroker.pb.go, `skipLogbroker`). The source
 counts open groups in a loop; the wire format defines a group recursively
 ("Groups" in the Protocol Buffers Encoding guide). They agree on every input.
 */
module WireSkip {
  import opened WireVarint

  /** Move an index; past the largest `int` it turns negative, which the source reports. */
  function Bump(i: nat, k: nat): Result<nat> {
    if i + k >= TWO63 then Err(InvalidLength) else Ok(i + k)
  }

  /** The end of a field that is not a group, from its wire type and the index behind its tag. */
  function LeafEnd(d: seq<byte>, wireType: nat, n: nat): (r: Result<nat>)
    requires wireType != 3
    ensures r.Ok? ==> n < r.value
  {
    match wireType
    case 0 => (match Read(d, n) case Ok(p) => Bump(p.1, 0) case Err(e) => Err(e))
    case 1 => Bump(n, 8)
    case 2 =>
      (match Read(d, n)
       case Ok(p) => if p.0 >= TWO63 then Err(InvalidLength) else Bump(p.1, p.0)
       case Err(e) => Err(e))
    case 4 => Err(UnexpectedEndOfGroup)
    case 5 => Bump(n, 4)
    case _ => Err(IllegalWireType)
  }

  /** What is left of the input at an index. */
  function Left(d: seq<byte>, i: nat): nat { if i < |d| then |d| - i else 0 }

  /** The grammar: where the field that starts at `i` ends. */
  function FieldEnd(d: seq<byte>, i: nat): (r: Result<nat>)
    ensures r.Ok? ==> i < r.value
    decreases Left(d, i), 0
  {
    match Read(d, i)
    case Err(e) => Err(e)
    case Ok(p) => if p.0 % 8 == 3 then GroupEnd(d, p.1) else LeafEnd(d, p.0 % 8, p.1)
  }

  /** Where the group whose fields start at `i` ends: fields up to an end-group tag. */
  function GroupEnd(d: seq<byte>, i: nat): (r: Result<nat>)
    ensures r.Ok? ==> i < r.value
    decreases Left(d, i), 1
  {
    if i >= |d| then Err(UnexpectedEOF)
    else match Read(d, i)
      case Err(e) => Err(e)
      case Ok(p) =>
        if p.0 % 8 == 4 then Bump(p.1, 0)
        else match FieldEnd(d, i)
          case Err(e) => Err(e)
          case Ok(n) => GroupEnd(d, n)
  }

  /** Where `depth` nested groups end. */
  function Unwind(d: seq<byte>, i: nat, depth: nat): Result<nat>
    decreases depth
  {
    if depth == 0 then Ok(i)
    else match GroupEnd(d, i)
      case Err(e) => Err(e)
      case Ok(n) => Unwind(d, n, depth - 1)
  }

  /** What is still to be found by a skipper at `i` inside `depth` open groups. */
  function Resume(d: seq<byte>, i: nat, depth: nat): Result<nat> {
    if depth == 0 then FieldEnd(d, i) else Unwind(d, i, depth)
  }

  lemma OpenGroup(d: seq<byte>, i: nat, depth: nat)
    requires i < |d| && Read(d, i).Ok? && Read(d, i).value.0 % 8 == 3
    ensures Resume(d, i, depth) == Unwind(d, Read(d, i).value.1, depth + 1)
  {
    var n := Read(d, i).value.1;
    assert FieldEnd(d, i) == GroupEnd(d, n);
    if GroupEnd(d, n).Ok? && depth == 0 { assert Unwind(d, GroupEnd(d, n).value, 0) == GroupEnd(d, n); }
    if GroupEnd(d, n).Ok? && depth > 0 { assert GroupEnd(d, i) == GroupEnd(d, GroupEnd(d, n).value); }
  }

  lemma CloseGroup(d: seq<byte>, i: nat, depth: nat)
    requires i < |d| < TWO63 && Read(d, i).Ok? && Read(d, i).value.0 % 8 == 4 && depth > 0
    ensures Resume(d, i, depth) == Unwind(d, Read(d, i).value.1, depth - 1)
  {
    assert GroupEnd(d, i) == Ok(Read(d, i).value.1);
  }

  lemma PassLeaf(d: seq<byte>, i: nat, depth: nat)
    requires i < |d| && Read(d, i).Ok? && Read(d, i).value.0 % 8 != 3 && Read(d, i).value.0 % 8 != 4
    ensures var e := LeafEnd(d, Read(d, i).value.0 % 8, Read(d, i).value.1);
            Resume(d, i, depth) == if e.Err? || depth == 0 then e else Unwind(d, e.value, depth)
  {
    var e := LeafEnd(d, Read(d, i).value.0 % 8, Read(d, i).value.1);
    assert FieldEnd(d, i) == e;
    if depth > 0 { assert e.Ok? ==> GroupEnd(d, i) == GroupEnd(d, e.value); }
  }

  /** The varint loop. */
  method Varint64(d: seq<byte>, start: nat) returns (r: Result<(uint64, nat)>)
    ensures r == Read(d, start)
  {
    var i, k, acc: uint64 := start, 0, 0;
    while k < 10
      invariant k <= 10 && i == start + k
      invariant Read(d, start) == ReadFrom(d, i, k, acc)
    {
      if i >= |d| { return Err(UnexpectedEOF); }
      var b := d[i];
      i := i + 1;
      acc := (acc + b % 128 * Pow128(k)) % TWO64;
      if b < 128 { return Ok((acc, i)); }
      k := k + 1;
    }
    return Err(IntOverflow);
  }

  /** The cases of the skipper that move the index over one payload. */
  method SkipLeaf(d: seq<byte>, wireType: nat, start: nat) returns (r: Result<nat>)
    requires wireType != 3 && wireType != 4
    ensures r == LeafEnd(d, wireType, start)
  {
    var next := start;
    match wireType {
      case 0 =>
        var v := Varint64(d, next);
        if v.Err? { return Err(v.error); }
        next := v.value.1;
      case 1 => next := next + 8;
      case 2 =>
        var v := Varint64(d, next);
        if v.Err? { return Err(v.error); }
        if v.value.0 >= TWO63 { return Err(InvalidLength); }
        next := v.value.1 + v.value.0;
      case 5 => next := next + 4;
      case _ => return Err(IllegalWireType);
    }
    return if next >= TWO63 then Err(InvalidLength) else Ok(next);
  }

  /** `skipLogbroker`: the depth counter finds exactly the end the grammar defines. */
  method Skip(d: seq<byte>) returns (r: Result<nat>)
    requires |d| < TWO63
    ensures r == FieldEnd(d, 0)
  {
    var i: nat, depth: nat := 0, 0;
    while i < |d|
      invariant FieldEnd(d, 0) == Resume(d, i, depth)
      invariant depth == 0 ==> i == 0
      decreases Left(d, i)
    {
      var tag := Varint64(d, i);
      if tag.Err? { return Err(tag.error); }
      var wireType := tag.value.0 % 8;
      if wireType == 3 {
        OpenGroup(d, i, depth);
        i, depth := tag.value.1, depth + 1;
      } else if wireType == 4 {
        if depth == 0 { return Err(UnexpectedEndOfGroup); }
        CloseGroup(d, i, depth);
        i, depth := tag.value.1, depth - 1;
      } else {
        PassLeaf(d, i, depth);
        i := tag.value.1;
        var leaf := SkipLeaf(d, wireType, i);
        if leaf.Err? { return leaf; }
        i := leaf.value;
      }
      if depth == 0 { return Ok(i); }
    }
    return Err(UnexpectedEOF);
  }
}
