/**
 Writing backwards: the generated `MarshalToSizedBuffer` code fills a buffer of
 exactly `Size` bytes from its end, moving an index towards the front.
 */
module WireWrite {
  import opened WireVarint
  import opened WireFields

  /** `now` is `was` with `bs` in place of the bytes from `i` to `end`. */
  ghost predicate Wrote(was: seq<byte>, now: seq<byte>, i: int, end: int, bs: seq<byte>) {
    0 <= i <= end <= |was| && i + |bs| == end && now == was[..i] + bs + was[end..]
  }

  /** Two writes, the second in front of the first. */
  lemma WroteInFront(was: seq<byte>, mid: seq<byte>, now: seq<byte>, j: int, i: int, end: int,
                     front: seq<byte>, bs: seq<byte>)
    requires Wrote(was, mid, i, end, bs) && Wrote(mid, now, j, i, front)
    ensures Wrote(was, now, j, end, front + bs)
  {
    assert mid[..j] == was[..j];
    assert mid[i..] == bs + was[end..];
  }

  lemma WroteOne(was: seq<byte>, mid: seq<byte>, i: int, o: int, bs: seq<byte>, b: byte)
    requires Wrote(was, mid, i, o, bs) && o < |was|
    ensures Wrote(was, mid[o := b], i, o + 1, bs + [b])
  {
  }

  /** Pieces written back to front read front to back. */
  lemma Assoc(p: seq<byte>, q: seq<byte>, r: seq<byte>, s: seq<byte>)
    ensures p + (q + (r + [])) == p + q + r
    ensures p + (q + (r + (s + []))) == p + q + r + s
  {
  }

  lemma Assoc5(p: seq<byte>, q: seq<byte>, r: seq<byte>, s: seq<byte>, t: seq<byte>)
    ensures p + (q + (r + (s + (t + [])))) == p + q + r + s + t
  {
    Assoc(q, r, s, t);
  }

  /** A write over the whole buffer. */
  lemma WroteAll(was: seq<byte>, now: seq<byte>, bs: seq<byte>)
    requires Wrote(was, now, 0, |was|, bs)
    ensures now == bs
  {
  }

  /** The bytes `bs` of `v0` are written and `v` is what is left of it. */
  ghost predicate Remains(bs: seq<byte>, v: nat, v0: nat) { bs + Varint(v) == Varint(v0) }

  lemma RemainsStep(bs: seq<byte>, v: nat, v0: nat)
    requires Remains(bs, v, v0)
    ensures v >= 128 ==> Remains(bs + [v % 128 + 128], v / 128, v0) && |Varint(v)| == 1 + |Varint(v / 128)|
    ensures v < 128 ==> bs + [v] == Varint(v0) && |Varint(v)| == 1
  {
    if v >= 128 { assert bs + Varint(v) == bs + [v % 128 + 128] + Varint(v / 128); }
  }

  /** The loop has written `bs` up to `o`, and the bytes of `v` are still to come, up to `offset`. */
  ghost predicate Writing(was: seq<byte>, now: seq<byte>, base: int, o: int, offset: int, bs: seq<byte>, v: nat, v0: nat) {
    Wrote(was, now, base, o, bs) && Remains(bs, v, v0) && o + |Varint(v)| == offset <= |was|
  }

  lemma WritingNext(was: seq<byte>, now: seq<byte>, base: int, o: int, offset: int, bs: seq<byte>, v: nat, v0: nat)
    requires Writing(was, now, base, o, offset, bs, v, v0) && v >= 128
    ensures o < |now| && Writing(was, now[o := v % 128 + 128], base, o + 1, offset, bs + [v % 128 + 128], v / 128, v0)
  {
    RemainsStep(bs, v, v0);
    WroteOne(was, now, base, o, bs, v % 128 + 128);
  }

  lemma WritingLast(was: seq<byte>, now: seq<byte>, base: int, o: int, offset: int, bs: seq<byte>, v: nat, v0: nat)
    requires Writing(was, now, base, o, offset, bs, v, v0) && v < 128
    ensures o < |now| && Wrote(was, now[o := v], base, offset, Varint(v0))
  {
    RemainsStep(bs, v, v0);
    WroteOne(was, now, base, o, bs, v);
  }

  /** `encodeVarintLogbroker`: the loop ends exactly at the offset it started from. */
  method PutVarint(a: array<byte>, offset: nat, v0: uint64) returns (base: nat)
    requires |Varint(v0)| <= offset <= a.Length
    modifies a
    ensures base == offset - |Varint(v0)|
    ensures Wrote(old(a[..]), a[..], base, offset, Varint(v0))
  {
    SovIsVarintLength(v0);
    base := offset - Sov(v0);
    var o, v := base, v0;
    ghost var was, bs: seq<byte> := a[..], [];
    assert [] + Varint(v0) == Varint(v0);
    while v >= 128
      invariant 0 <= v && 0 <= o && Writing(was, a[..], base, o, offset, bs, v, v0)
    {
      WritingNext(was, a[..], base, o, offset, bs, v, v0);
      ghost var next := a[..][o := v % 128 + 128];
      a[o] := v % 128 + 128;
      assert a[..] == next;
      bs := bs + [v % 128 + 128];
      v := v / 128;
      o := o + 1;
    }
    WritingLast(was, a[..], base, o, offset, bs, v, v0);
    ghost var next := a[..][o := v];
    a[o] := v;
    assert a[..] == next;
  }

  method PutByte(a: array<byte>, i: nat, b: byte) returns (j: nat)
    requires 1 <= i <= a.Length
    modifies a
    ensures j == i - 1 && Wrote(old(a[..]), a[..], j, i, [b])
  {
    j := i - 1;
    a[j] := b;
  }

  /** `i -= len(data); copy(dAtA[i:], data)` */
  method PutBytes(a: array<byte>, i: nat, data: seq<byte>) returns (j: nat)
    requires |data| <= i <= a.Length
    modifies a
    ensures j == i - |data| && Wrote(old(a[..]), a[..], j, i, data)
  {
    j := i - |data|;
    forall k | 0 <= k < |data| { a[j + k] := data[k]; }
  }

  /** Tags of the modelled messages are below 128, so a tag is one byte. */
  lemma SmallTag(num: FieldNum, wt: nat)
    requires num < 16 && wt < 8
    ensures Varint(Tag(num, wt)) == [Tag(num, wt)]
  {
  }

  method PutVarField(a: array<byte>, i: nat, num: FieldNum, v: uint64) returns (j: nat)
    requires num < 16 && |VarField(num, v)| <= i <= a.Length
    modifies a
    ensures Wrote(old(a[..]), a[..], j, i, VarField(num, v))
  {
    SmallTag(num, 0);
    j := PutVarint(a, i, v);
    ghost var mid := a[..];
    ghost var n := j;
    j := PutByte(a, j, Tag(num, 0));
    WroteInFront(old(a[..]), mid, a[..], j, n, i, [Tag(num, 0)], Varint(v));
  }

  /** The length and the tag in front of a payload already written up to `i`. */
  method PutHeader(a: array<byte>, i: nat, num: FieldNum, size: uint64) returns (j: nat)
    requires num < 16 && 1 + |Varint(size)| <= i <= a.Length
    modifies a
    ensures Wrote(old(a[..]), a[..], j, i, Varint(Tag(num, 2)) + Varint(size))
  {
    SmallTag(num, 2);
    j := PutVarint(a, i, size);
    ghost var mid := a[..];
    ghost var n := j;
    j := PutByte(a, j, Tag(num, 2));
    WroteInFront(old(a[..]), mid, a[..], j, n, i, [Tag(num, 2)], Varint(size));
  }

  method PutLenField(a: array<byte>, i: nat, num: FieldNum, data: seq<byte>) returns (j: nat)
    requires num < 16 && |data| < TWO63 && |LenField(num, data)| <= i <= a.Length
    modifies a
    ensures Wrote(old(a[..]), a[..], j, i, LenField(num, data))
  {
    SmallTag(num, 2);
    j := PutBytes(a, i, data);
    ghost var mid := a[..];
    ghost var n := j;
    j := PutHeader(a, j, num, |data|);
    WroteInFront(old(a[..]), mid, a[..], j, n, i, Varint(Tag(num, 2)) + Varint(|data|), data);
  }
}
