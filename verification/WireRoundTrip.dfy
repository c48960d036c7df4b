/**
 The writer of the cluster snapshot, and the round trips through the generated code as a whole: the
 size, the backwards writer, the parser.
 */
module WireRoundTrip {
  import opened WireVarint
  import opened WireDecode
  import opened WireFields
  import opened WireWrite
  import opened WireMessages
  import opened WireMarshal
  import opened WireSnapshot

  method SizeRemoved(vs: seq<uint64>) returns (n: nat)
    ensures n == |VarFields(2, vs)|
  {
    n := 0;
    for k := 0 to |vs|
      invariant n + |VarFields(2, vs[k..])| == |VarFields(2, vs)|
    {
      FieldSizes(2, vs[k], []);
      assert vs[k..][1..] == vs[k + 1..];
      n := n + 1 + Sov(vs[k]);
    }
  }

  method SizeSnapshot<M>(c: Codec<M>, s: ClusterSnapshot<M>) returns (n: nat)
    requires |EncSnapshot(c, s)| < TWO63
    ensures n == |EncSnapshot(c, s)|
  {
    var members := SizeLenFields(1, MemberBytes(c, s.members));
    var removed := SizeRemoved(s.removed);
    n := members + removed;
  }

  method PutRemoved(a: array<byte>, i: nat, vs: seq<uint64>) returns (j: nat)
    requires |VarFields(2, vs)| <= i <= a.Length
    modifies a
    ensures Wrote(old(a[..]), a[..], j, i, VarFields(2, vs))
  {
    ghost var was := a[..];
    j := i;
    ghost var written: seq<byte> := [];
    for k := |vs| downto 0
      invariant written == VarFields(2, vs[k..]) && Wrote(was, a[..], j, i, written)
    {
      ghost var mid, n := a[..], j;
      VarFieldsFit(2, vs, k);
      assert vs[k..][1..] == vs[k + 1..];
      j := PutVarField(a, j, 2, vs[k]);
      WroteInFront(was, mid, a[..], j, n, i, VarField(2, vs[k]), written);
      written := VarField(2, vs[k]) + written;
    }
    assert vs[0..] == vs;
  }

  /** `MarshalToSizedBuffer` of the snapshot; a member's own writer puts down its encoding. */
  method MarshalSnapshot<M>(c: Codec<M>, s: ClusterSnapshot<M>, a: array<byte>, end: nat) returns (n: nat)
    requires |EncSnapshot(c, s)| <= end <= a.Length && |EncSnapshot(c, s)| < TWO63
    modifies a
    ensures n == |EncSnapshot(c, s)| && Wrote(old(a[..]), a[..], end - n, end, EncSnapshot(c, s))
  {
    ghost var was := a[..];
    var i := PutRemoved(a, end, s.removed);
    i := PutLenFields(a, i, 1, MemberBytes(c, s.members), was, end, VarFields(2, s.removed));
    n := end - i;
  }

  method SnapshotBytesOf<M>(c: Codec<M>, s: ClusterSnapshot<M>) returns (out: seq<byte>)
    requires |EncSnapshot(c, s)| < TWO63
    ensures out == EncSnapshot(c, s)
  {
    var size := SizeSnapshot(c, s);
    var a := new byte[size];
    ghost var was := a[..];
    var n := MarshalSnapshot(c, s, a, size);
    WroteAll(was, a[..], EncSnapshot(c, s));
    out := a[..n];
  }

  // ---- Marshal, then Unmarshal ----

  method SnapshotSurvives<M(!new)>(c: Codec<M>, s: ClusterSnapshot<M>) returns (r: Result<ClusterSnapshot<M>>)
    requires |EncSnapshot(c, s)| < TWO63 && Lossless(c)
    ensures r == Ok(s)
  {
    var bytes := SnapshotBytesOf(c, s);
    r := Unmarshal(SnapshotSchema(c), bytes, ClusterSnapshot([], []));
    SnapshotRoundTrip(c, s);
  }

  method SubscriptionSurvives(m: SubscriptionMessage) returns (r: Result<SubscriptionMessage>)
    requires |EncSubscription(m)| < TWO63
    ensures r == Ok(m)
  {
    var bytes := SubscriptionBytesOf(m);
    r := Unmarshal(SubscriptionSchema(), bytes, NO_SUBSCRIPTION);
    SubscriptionRoundTrip(m);
  }

  method PublishSurvives(m: PublishLogsMessage) returns (r: Result<PublishLogsMessage>)
    requires |EncPublish(m)| < TWO63
    ensures r == Ok(m)
  {
    var bytes := PublishBytesOf(m);
    r := Unmarshal(PublishSchema(), bytes, NO_PUBLISH);
    PublishRoundTrip(m);
  }
}
