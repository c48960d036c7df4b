/**
 The raft snapshot's cluster membership on the wire (api/snapshot.pb.go). The
 codec of a member is a parameter; the removed IDs are the repeated number whose
 parser takes packed and unpacked input.
 */
module WireSnapshot {
  import opened WireVarint
  import opened WireDecode
  import opened WireLaws
  import opened WireFields
  import opened WireMessages

  datatype ClusterSnapshot<M> = ClusterSnapshot(members: seq<M>, removed: seq<uint64>)

  /** How a member is written and read. */
  datatype Codec<!M> = Codec(enc: M -> seq<byte>, dec: seq<byte> -> Result<M>)

  ghost predicate Lossless<M(!new)>(c: Codec<M>) { forall m: M :: c.dec(c.enc(m)) == Ok(m) }

  function MemberBytes<M>(c: Codec<M>, ms: seq<M>): seq<seq<byte>> {
    seq(|ms|, i requires 0 <= i < |ms| => c.enc(ms[i]))
  }

  function EncSnapshot<M>(c: Codec<M>, s: ClusterSnapshot<M>): seq<byte> {
    LenFields(1, MemberBytes(c, s.members)) + VarFields(2, s.removed)
  }

  function AddMember<M>(c: Codec<M>, s: ClusterSnapshot<M>, data: seq<byte>): Result<ClusterSnapshot<M>> {
    match c.dec(data)
    case Ok(x) => Ok(s.(members := s.members + [x]))
    case Err(e) => Err(e)
  }

  function SnapshotSchema<M>(c: Codec<M>): Schema<ClusterSnapshot<M>> {
    Schema(num => if num == 1 then BytesField else if num == 2 then PackableField else Unknown,
           (s: ClusterSnapshot<M>, num, v) => s.(removed := s.removed + [v]),
           (s: ClusterSnapshot<M>, num, data) => AddMember(c, s, data),
           (s: ClusterSnapshot<M>, u) => s)
  }

  lemma {:induction false} RemovedFold<M>(c: Codec<M>, vs: seq<uint64>, s: ClusterSnapshot<M>)
    ensures Folded(SnapshotSchema(c), 2, vs, s) == s.(removed := s.removed + vs)
    decreases |vs|
  {
    if vs == [] { assert s.removed + vs == s.removed; }
    else {
      var s1 := s.(removed := s.removed + [vs[0]]);
      RemovedFold(c, vs[1..], s1);
      assert s1.removed + vs[1..] == s.removed + vs;
    }
  }

  lemma MembersDecode<M(!new)>(c: Codec<M>, members: seq<M>)
    requires Lossless(c) && |LenFields(1, MemberBytes(c, members))| < TWO63
    ensures Decode(SnapshotSchema(c), LenFields(1, MemberBytes(c, members)), 0, ClusterSnapshot([], []))
         == Ok(ClusterSnapshot(members, []))
  {
    var sc, ds := SnapshotSchema(c), MemberBytes(c, members);
    var ms := seq(|members| + 1, k requires 0 <= k <= |members| => ClusterSnapshot(members[..k], []));
    forall k | 0 <= k < |members| ensures sc.onBytes(ms[k], 1, ds[k]) == Ok(ms[k + 1]) {
      assert c.dec(c.enc(members[k])) == Ok(members[k]);
      assert members[..k] + [members[k]] == members[..k + 1];
      assert AddMember(c, ms[k], ds[k]) == Ok(ms[k + 1]);
    }
    LenFieldsDecode(sc, 1, ds, ms);
    assert members[..0] == [] && members[..|members|] == members;
  }

  /** Parsing the encoding of a snapshot returns it, if the codec of its members is lossless. */
  lemma SnapshotRoundTrip<M(!new)>(c: Codec<M>, s: ClusterSnapshot<M>)
    requires Lossless(c) && |EncSnapshot(c, s)| < TWO63
    ensures Decode(SnapshotSchema(c), EncSnapshot(c, s), 0, ClusterSnapshot([], [])) == Ok(s)
  {
    var sc, m1 := SnapshotSchema(c), ClusterSnapshot(s.members, []);
    MembersDecode(c, s.members);
    VarFieldsDecode(sc, 2, s.removed, m1);
    RemovedFold(c, s.removed, m1);
    assert m1.removed + s.removed == s.removed;
    Then(sc, LenFields(1, MemberBytes(c, s.members)), VarFields(2, s.removed), ClusterSnapshot([], []), m1, s);
  }

  /** Whatever mix of packed and unpacked pieces carries the removed IDs, they are appended in
      order. */
  lemma RemovedInAnyPieces<M>(c: Codec<M>, cs: seq<Chunk>, s: ClusterSnapshot<M>)
    requires |ChunksBytes(2, cs)| < TWO63
    ensures Decode(SnapshotSchema(c), ChunksBytes(2, cs), 0, s) == Ok(s.(removed := s.removed + Values(cs)))
  {
    ChunksDecode(SnapshotSchema(c), 2, cs, s);
    RemovedFold(c, Values(cs), s);
  }

  /** A snapshot parses the same with any well-formed unknown field inserted between two parts. */
  lemma SnapshotIgnoresUnknown<M>(c: Codec<M>, a: seq<byte>, r: Rec, b: seq<byte>, s: ClusterSnapshot<M>)
    requires |a + RecBytes(r) + b| < TWO63 && WellFormed(r) && r.num > 2
    requires Decode(SnapshotSchema(c), a, 0, s).Ok?
    ensures var x, x' := Decode(SnapshotSchema(c), a + b, 0, s), Decode(SnapshotSchema(c), a + RecBytes(r) + b, 0, s);
            (x.Ok? <==> x'.Ok?) && (x.Ok? ==> x' == x)
  {
    InsertedRecIsIgnored(SnapshotSchema(c), a, r, b, s);
  }

  function I32s(vs: seq<uint64>): seq<int32> { seq(|vs|, i requires 0 <= i < |vs| => ToI32(vs[i])) }

  /** The same for the streams of a log subscription, whose values the parser narrows to 32 bits. */
  lemma {:induction false} StreamsFoldWide(vs: seq<uint64>, m: LogSubscriptionOptions)
    ensures Folded(OptionsSchema(), 1, vs, m) == m.(streams := m.streams + I32s(vs))
    decreases |vs|
  {
    var all := I32s(vs);
    if vs == [] { assert m.streams + all == m.streams; }
    else {
      var m1 := m.(streams := m.streams + [ToI32(vs[0])]);
      StreamsFoldWide(vs[1..], m1);
      assert all == [ToI32(vs[0])] + all[1..];
      assert all[1..] == I32s(vs[1..]);
      assert m1.streams + all[1..] == m.streams + all;
    }
  }

  lemma StreamsInAnyPieces(cs: seq<Chunk>, m: LogSubscriptionOptions)
    requires |ChunksBytes(1, cs)| < TWO63
    ensures Decode(OptionsSchema(), ChunksBytes(1, cs), 0, m) == Ok(m.(streams := m.streams + I32s(Values(cs))))
  {
    ChunksDecode(OptionsSchema(), 1, cs, m);
    StreamsFoldWide(Values(cs), m);
  }
}
