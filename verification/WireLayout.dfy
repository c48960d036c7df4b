/**
 The wire format spelled out: what number the bytes of a varint stand for and when they stand for
 none, the bytes of each message with the tags as numbers, and what the parser refuses.
 */
module WireLayout {
  import opened Api
  import opened WireVarint
  import opened WireSkip
  import opened WireDecode
  import opened WireLaws
  import opened WireFields
  import opened WireMessages
  import opened WireSnapshot

  // ---- varints ----

  /** The number written in groups of seven bits, the low group first. */
  function Number(bs: seq<byte>): nat { if bs == [] then 0 else bs[0] % 128 + 128 * Number(bs[1..]) }

  lemma ModAdd(x: nat, y: nat)
    ensures (x % TWO64 + y) % TWO64 == (x + y) % TWO64
  {
  }

  lemma Shifted(b: nat, rest: nat, p: nat)
    ensures (b + 128 * rest) * p == b * p + rest * (128 * p)
    ensures b * p >= 0 && rest * (128 * p) >= 0 && (b + 128 * rest) * p >= 0
  {
  }

  lemma GatherNext(acc: uint64, b: byte, k: nat, rest: nat)
    ensures (Gathered(acc, b, k) + rest * Pow128(k + 1)) % TWO64 == (acc + (b % 128 + 128 * rest) * Pow128(k)) % TWO64
  {
    Shifted(b % 128, rest, Pow128(k));
    ModAdd(acc + b % 128 * Pow128(k), rest * Pow128(k + 1));
  }

  /** `n` bytes from `i` on say that another follows. */
  ghost predicate Continues(d: seq<byte>, i: nat, n: nat) { i + n <= |d| && forall j :: i <= j < i + n ==> d[j] >= 128 }

  lemma {:induction false} ReadFromExactly(d: seq<byte>, i: nat, k: nat, acc: uint64, n: nat)
    requires Continues(d, i, n) && k + n <= 10 && (k + n < 10 ==> i + n == |d| || d[i + n] < 128)
    ensures ReadFrom(d, i, k, acc)
         == if k + n == 10 then Err(IntOverflow) else if i + n == |d| then Err(UnexpectedEOF)
            else Ok(((acc + Number(d[i..i + n + 1]) * Pow128(k)) % TWO64, i + n + 1))
    decreases n
  {
    if n > 0 {
      ReadFromExactly(d, i + 1, k + 1, Gathered(acc, d[i], k), n - 1);
      if k + n < 10 && i + n < |d| {
        var bs := d[i..i + n + 1];
        assert bs[0] == d[i] && bs[1..] == d[i + 1..i + 1 + n];
        GatherNext(acc, d[i], k, Number(bs[1..]));
      }
    } else if k < 10 && i < |d| {
      var bs := d[i..i + 1];
      assert bs[0] == d[i] && bs[1..] == [];
      assert Number(bs) == d[i] % 128;
    }
  }

  /** Reading a varint at any place of any input: `n` bytes that another follows, then one that ends it.
      The value is the number so written, modulo 2^64; ten bytes that do not end it are an overflow, and
      fewer at the end of the input an unexpected end. */
  lemma ReadExactly(d: seq<byte>, i: nat, n: nat)
    requires Continues(d, i, n) && n <= 10 && (n < 10 ==> i + n == |d| || d[i + n] < 128)
    ensures Read(d, i)
         == if n == 10 then Err(IntOverflow) else if i + n == |d| then Err(UnexpectedEOF)
            else Ok((Number(d[i..i + n + 1]) % TWO64, i + n + 1))
  {
    ReadFromExactly(d, i, 0, 0, n);
  }

  /** Every input has such an `n`. */
  lemma {:induction false} ContinuesUpTo(d: seq<byte>, i: nat, n0: nat) returns (n: nat)
    requires Continues(d, i, n0) && n0 <= 10
    ensures Continues(d, i, n) && n <= 10 && (n < 10 ==> i + n == |d| || d[i + n] < 128)
    decreases 10 - n0
  {
    n := n0;
    if n0 < 10 && i + n0 < |d| && d[i + n0] >= 128 { n := ContinuesUpTo(d, i, n0 + 1); }
  }

  // ---- the bytes of the messages ----

  /** A tag byte, the length, the payload. */
  function Delimited(tag: byte, data: seq<byte>): seq<byte> { [tag] + Varint(|data|) + data }

  function Each(tag: byte, ds: seq<seq<byte>>): seq<byte> {
    if ds == [] then [] else Delimited(tag, ds[0]) + Each(tag, ds[1..])
  }

  function Numbers(tag: byte, vs: seq<uint64>): seq<byte> {
    if vs == [] then [] else [tag] + Varint(vs[0]) + Numbers(tag, vs[1..])
  }

  /** A string or number is left out if it is empty or zero; a message only if it is absent. */
  function IfAny(tag: byte, data: seq<byte>): seq<byte> { if data == [] then [] else Delimited(tag, data) }

  function IfNonZero(tag: byte, v: uint64): seq<byte> { if v == 0 then [] else [tag] + Varint(v) }

  function IfPresent(tag: byte, data: Option<seq<byte>>): seq<byte> {
    if data.None? then [] else Delimited(tag, data.value)
  }

  lemma TagByte(num: FieldNum, wt: nat)
    requires num < 16 && wt < 8
    ensures Varint(Tag(num, wt)) == [8 * num + wt]
  {
  }

  lemma {:induction false} EachIs(num: FieldNum, ds: seq<seq<byte>>)
    requires num < 16
    ensures LenFields(num, ds) == Each(8 * num + 2, ds)
  {
    TagByte(num, 2);
    if ds != [] { EachIs(num, ds[1..]); }
  }

  lemma {:induction false} NumbersIs(num: FieldNum, vs: seq<uint64>)
    requires num < 16
    ensures VarFields(num, vs) == Numbers(8 * num, vs)
  {
    TagByte(num, 0);
    if vs != [] { NumbersIs(num, vs[1..]); }
  }

  lemma NumberIs(num: FieldNum, v: uint64)
    requires num < 16
    ensures OptVar(num, v) == IfNonZero(8 * num, v)
  {
    TagByte(num, 0);
  }

  lemma BytesAre(num: FieldNum, data: seq<byte>)
    requires num < 16
    ensures OptLen(num, data) == IfAny(8 * num + 2, data)
    ensures LenField(num, data) == Delimited(8 * num + 2, data)
  {
    TagByte(num, 2);
  }

  lemma FlagIs(num: FieldNum, b: bool)
    requires num < 16
    ensures Flag(num, b) == if b then [8 * num, 1] else []
  {
    TagByte(num, 0);
    assert Varint(1) == [1];
  }

  lemma PresentIs(num: FieldNum, data: Option<seq<byte>>)
    requires num < 16
    ensures OptMsg(num, data) == IfPresent(8 * num + 2, data)
  {
    TagByte(num, 2);
  }

  function SelectorBytes(m: LogSelector): seq<byte> {
    Each(0x0a, m.serviceIDs) + Each(0x12, m.nodeIDs) + Each(0x1a, m.taskIDs)
  }

  lemma SelectorLayout(m: LogSelector)
    ensures EncSelector(m) == SelectorBytes(m)
  {
    EachIs(1, m.serviceIDs);
    EachIs(2, m.nodeIDs);
    EachIs(3, m.taskIDs);
  }

  function TimestampBytes(t: Timestamp): seq<byte> {
    IfNonZero(0x08, t.seconds % TWO64) + IfNonZero(0x10, t.nanos % TWO64)
  }

  lemma TimestampLayout(t: Timestamp)
    ensures EncTimestamp(t) == TimestampBytes(t)
  {
    NumberIs(1, ToU64(t.seconds));
    NumberIs(2, ToU64(t.nanos));
  }

  function IfTimestamp(tag: byte, t: Option<Timestamp>): seq<byte> {
    if t.None? then [] else Delimited(tag, TimestampBytes(t.value))
  }

  lemma IfTimestampIs(num: FieldNum, t: Option<Timestamp>)
    requires num < 16
    ensures EncOptTimestamp(num, t) == IfTimestamp(8 * num + 2, t)
  {
    TagByte(num, 2);
    if t.Some? { TimestampLayout(t.value); }
  }

  function Wide(vs: seq<int32>): seq<uint64> { seq(|vs|, i requires 0 <= i < |vs| => vs[i] % TWO64) }

  function OptionsLaidOut(m: LogSubscriptionOptions): seq<byte> {
    Numbers(0x08, Wide(m.streams)) + (if m.follow then [0x10, 1] else []) + IfNonZero(0x18, m.tail % TWO64)
    + IfTimestamp(0x22, m.since)
  }

  lemma OptionsLayout(m: LogSubscriptionOptions)
    ensures EncOptions(m) == OptionsLaidOut(m)
  {
    assert U64s(m.streams) == Wide(m.streams);
    NumbersIs(1, U64s(m.streams));
    FlagIs(2, m.follow);
    NumberIs(3, ToU64(m.tail));
    IfTimestampIs(4, m.since);
  }

  function ContextLaidOut(m: LogContext): seq<byte> {
    IfAny(0x0a, m.serviceID) + IfAny(0x12, m.nodeID) + IfAny(0x1a, m.taskID)
  }

  lemma ContextLayout(m: LogContext)
    ensures EncContext(m) == ContextLaidOut(m)
  {
    BytesAre(1, m.serviceID);
    BytesAre(2, m.nodeID);
    BytesAre(3, m.taskID);
  }

  function AttrLaidOut(m: LogAttr): seq<byte> { IfAny(0x0a, m.key) + IfAny(0x12, m.value) }

  function AttrsLaidOut(ms: seq<LogAttr>): seq<seq<byte>> { seq(|ms|, i requires 0 <= i < |ms| => AttrLaidOut(ms[i])) }

  lemma AttrLayout(m: LogAttr)
    ensures EncAttr(m) == AttrLaidOut(m)
  {
    BytesAre(1, m.key);
    BytesAre(2, m.value);
  }

  lemma AttrsLayout(ms: seq<LogAttr>)
    ensures EncAttrs(ms) == AttrsLaidOut(ms)
  {
    forall i | 0 <= i < |ms| ensures EncAttrs(ms)[i] == AttrsLaidOut(ms)[i] { AttrLayout(ms[i]); }
  }

  /** The context is not a pointer: it is written even when empty. */
  function MessageLaidOut(m: LogMessage): seq<byte> {
    Delimited(0x0a, ContextLaidOut(m.context)) + IfTimestamp(0x12, m.timestamp) + IfNonZero(0x18, m.stream % TWO64)
    + IfAny(0x22, m.data) + Each(0x2a, AttrsLaidOut(m.attrs))
  }

  lemma MessageHead(m: LogMessage)
    ensures LenField(1, EncContext(m.context)) == Delimited(0x0a, ContextLaidOut(m.context))
    ensures EncOptTimestamp(2, m.timestamp) == IfTimestamp(0x12, m.timestamp)
    ensures OptVar(3, ToU64(m.stream)) == IfNonZero(0x18, m.stream % TWO64)
  {
    ContextLayout(m.context);
    BytesAre(1, EncContext(m.context));
    IfTimestampIs(2, m.timestamp);
    NumberIs(3, ToU64(m.stream));
  }

  lemma MessageTail(m: LogMessage)
    ensures OptLen(4, m.data) == IfAny(0x22, m.data)
    ensures LenFields(5, EncAttrs(m.attrs)) == Each(0x2a, AttrsLaidOut(m.attrs))
  {
    BytesAre(4, m.data);
    AttrsLayout(m.attrs);
    EachIs(5, EncAttrs(m.attrs));
  }

  lemma MessageLayout(m: LogMessage)
    ensures EncMessage(m) == MessageLaidOut(m)
  {
    MessageHead(m);
    MessageTail(m);
  }

  function MessagesLaidOut(ms: seq<LogMessage>): seq<seq<byte>> {
    seq(|ms|, i requires 0 <= i < |ms| => MessageLaidOut(ms[i]))
  }

  lemma MessagesLayout(ms: seq<LogMessage>)
    ensures EncMessages(ms) == MessagesLaidOut(ms)
  {
    forall i | 0 <= i < |ms| ensures EncMessages(ms)[i] == MessagesLaidOut(ms)[i] { MessageLayout(ms[i]); }
  }

  /** The bytes of a log publication, tag by tag. */
  lemma PublishLayout(m: PublishLogsMessage)
    ensures EncPublish(m)
         == IfAny(0x0a, m.subscriptionID) + Each(0x12, MessagesLaidOut(m.messages)) + (if m.close then [0x18, 1] else [])
  {
    BytesAre(1, m.subscriptionID);
    MessagesLayout(m.messages);
    EachIs(2, EncMessages(m.messages));
    FlagIs(3, m.close);
  }

  lemma SubscriptionParts(m: SubscriptionMessage)
    ensures OptMsg(2, if m.selector.None? then None else Some(EncSelector(m.selector.value)))
         == IfPresent(0x12, if m.selector.None? then None else Some(SelectorBytes(m.selector.value)))
    ensures OptMsg(3, if m.options.None? then None else Some(EncOptions(m.options.value)))
         == IfPresent(0x1a, if m.options.None? then None else Some(OptionsLaidOut(m.options.value)))
  {
    if m.selector.Some? { SelectorLayout(m.selector.value); }
    if m.options.Some? { OptionsLayout(m.options.value); }
    PresentIs(2, if m.selector.None? then None else Some(EncSelector(m.selector.value)));
    PresentIs(3, if m.options.None? then None else Some(EncOptions(m.options.value)));
  }

  /** The bytes of a subscription message, tag by tag. */
  lemma SubscriptionLayout(m: SubscriptionMessage)
    ensures EncSubscription(m)
         == IfAny(0x0a, m.id)
            + IfPresent(0x12, if m.selector.None? then None else Some(SelectorBytes(m.selector.value)))
            + IfPresent(0x1a, if m.options.None? then None else Some(OptionsLaidOut(m.options.value)))
            + (if m.close then [0x20, 1] else [])
  {
    BytesAre(1, m.id);
    SubscriptionParts(m);
    FlagIs(4, m.close);
  }

  /** The bytes of a cluster snapshot, tag by tag. */
  lemma SnapshotLayout<M>(c: Codec<M>, s: ClusterSnapshot<M>)
    ensures EncSnapshot(c, s) == Each(0x0a, MemberBytes(c, s.members)) + Numbers(0x10, s.removed)
  {
    EachIs(1, MemberBytes(c, s.members));
    NumbersIs(2, s.removed);
  }

  // ---- what the parser refuses ----

  lemma TagAhead(d: seq<byte>, tag: uint64)
    requires At(d, 0, Varint(tag))
    ensures d != [] && Read(d, 0) == Ok((tag, |Varint(tag)|))
  {
    ReadVarint(d, 0, tag);
  }

  /** Whatever follows, a message is refused at an end-group tag, at a field number that is not
      positive, and at a field of its own with the wrong wire type. */
  lemma BadTagIsRefused<M>(sc: Schema<M>, d: seq<byte>, tag: uint64, m: M)
    requires At(d, 0, Varint(tag))
    ensures var num, wt := ToI32(tag / 8), tag % 8;
            && (wt == 4 ==> Decode(sc, d, 0, m) == Err(EndGroupForNonGroup))
            && (wt != 4 && num <= 0 ==> Decode(sc, d, 0, m) == Err(IllegalTag))
            && (wt != 4 && num > 0 && WrongType(sc.kind(num), wt) ==> Decode(sc, d, 0, m) == Err(WrongWireType))
  {
    TagAhead(d, tag);
  }

  /** A number comes as wire type 0, a string or message as 2, a packable number as either. */
  predicate WrongType(k: Kind, wt: nat) {
    match k
    case Unknown => false
    case VarintField => wt != 0
    case BytesField => wt != 2
    case PackableField => wt != 0 && wt != 2
  }

  /** A payload that is cut short is an unexpected end. */
  lemma CutPayloadIsRefused<M>(sc: Schema<M>, num: FieldNum, size: uint64, data: seq<byte>, m: M)
    requires sc.kind(num).BytesField? || sc.kind(num).PackableField?
    requires |data| < size && |Varint(Tag(num, 2)) + Varint(size)| + size < TWO63
    ensures Decode(sc, Varint(Tag(num, 2)) + Varint(size) + data, 0, m) == Err(UnexpectedEOF)
  {
    var tag, len := Varint(Tag(num, 2)), Varint(size);
    var d := tag + len + data;
    assert d[0..|tag|] == tag;
    TagAhead(d, Tag(num, 2));
    AtMiddle(tag, len, data);
    ReadVarint(d, |tag|, size);
  }

  // ---- an embedded message in several pieces ----

  /** Both fail, or both give the same. */
  ghost predicate Same<M>(r: Result<M>, r': Result<M>) { (r.Ok? <==> r'.Ok?) && (r.Ok? ==> r' == r) }

  /** Two pieces of an embedded message, one after the other, are its bytes in one piece: the second is
      merged into what the first left. */
  ghost predicate Merges<M>(sc: Schema<M>, num: int, a: seq<byte>, b: seq<byte>, m: M) {
    var one := sc.onBytes(m, num, a);
    one.Ok? ==> Same(sc.onBytes(one.value, num, b), sc.onBytes(m, num, a + b))
  }

  lemma TimestampMerges(a: seq<byte>, b: seq<byte>, m: LogMessage)
    requires |a + b| < TWO63
    ensures Merges(MessageSchema(), 2, a, b, m)
  {
    var t := OrElse(m.timestamp, ZERO_TIMESTAMP);
    if Decode(TimestampSchema(), a, 0, t).Ok? { Merge(TimestampSchema(), a, b, t); }
    assert MessageSchema().onBytes(m, 2, a) == MessageBytes(m, 2, a);
  }

  lemma ContextMerges(a: seq<byte>, b: seq<byte>, m: LogMessage)
    requires |a + b| < TWO63
    ensures Merges(MessageSchema(), 1, a, b, m)
  {
    if Decode(ContextSchema(), a, 0, m.context).Ok? { Merge(ContextSchema(), a, b, m.context); }
    assert MessageSchema().onBytes(m, 1, a) == MessageBytes(m, 1, a);
  }

  lemma SinceMerges(a: seq<byte>, b: seq<byte>, m: LogSubscriptionOptions)
    requires |a + b| < TWO63
    ensures Merges(OptionsSchema(), 4, a, b, m)
  {
    var t := OrElse(m.since, ZERO_TIMESTAMP);
    if Decode(TimestampSchema(), a, 0, t).Ok? { Merge(TimestampSchema(), a, b, t); }
    assert OptionsSchema().onBytes(m, 4, a) == OptionsBytes(m, 4, a);
  }

  /** The selector and the options of a subscription merge. */
  lemma SubscriptionMerges(a: seq<byte>, b: seq<byte>, m: SubscriptionMessage)
    requires |a + b| < TWO63
    ensures Merges(SubscriptionSchema(), 2, a, b, m) && Merges(SubscriptionSchema(), 3, a, b, m)
  {
    var s, o := OrElse(m.selector, NO_SELECTOR), OrElse(m.options, NO_OPTIONS);
    if Decode(SelectorSchema(), a, 0, s).Ok? { Merge(SelectorSchema(), a, b, s); }
    if Decode(OptionsSchema(), a, 0, o).Ok? { Merge(OptionsSchema(), a, b, o); }
    assert SubscriptionSchema().onBytes(m, 2, a) == SubscriptionBytes(m, 2, a);
    assert SubscriptionSchema().onBytes(m, 3, a) == SubscriptionBytes(m, 3, a);
  }

  // ---- fields of later versions ----

  /** With a well-formed field of number `r.num` inserted between two parts, the message parses the same. */
  ghost predicate Ignores<M>(sc: Schema<M>, a: seq<byte>, r: Rec, b: seq<byte>, m: M) {
    |a + RecBytes(r) + b| < TWO63 && WellFormed(r) && Decode(sc, a, 0, m).Ok? ==>
      Same(Decode(sc, a + b, 0, m), Decode(sc, a + RecBytes(r) + b, 0, m))
  }

  lemma IgnoresUnknown<M>(sc: Schema<M>, a: seq<byte>, r: Rec, b: seq<byte>, m: M)
    requires sc.kind(r.num).Unknown? && forall x: M, u :: sc.onUnknown(x, u) == x
    ensures Ignores(sc, a, r, b, m)
  {
    if |a + RecBytes(r) + b| < TWO63 && WellFormed(r) && Decode(sc, a, 0, m).Ok? { InsertedRecIsIgnored(sc, a, r, b, m); }
  }

  /** A subscription and its parts ignore every field number they do not have. */
  lemma SubscriptionIgnores(a: seq<byte>, r: Rec, b: seq<byte>)
    ensures r.num > 4 ==> forall m :: Ignores(SubscriptionSchema(), a, r, b, m)
    ensures r.num > 4 ==> forall m :: Ignores(OptionsSchema(), a, r, b, m)
    ensures r.num > 3 ==> forall m :: Ignores(SelectorSchema(), a, r, b, m)
    ensures r.num > 2 ==> forall m :: Ignores(TimestampSchema(), a, r, b, m)
  {
    if r.num > 4 {
      forall m ensures Ignores(SubscriptionSchema(), a, r, b, m) { IgnoresUnknown(SubscriptionSchema(), a, r, b, m); }
      forall m ensures Ignores(OptionsSchema(), a, r, b, m) { IgnoresUnknown(OptionsSchema(), a, r, b, m); }
    }
    if r.num > 3 {
      forall m ensures Ignores(SelectorSchema(), a, r, b, m) { IgnoresUnknown(SelectorSchema(), a, r, b, m); }
    }
    if r.num > 2 {
      forall m ensures Ignores(TimestampSchema(), a, r, b, m) { IgnoresUnknown(TimestampSchema(), a, r, b, m); }
    }
  }

  /** So do a log publication and its parts. */
  lemma PublishIgnores(a: seq<byte>, r: Rec, b: seq<byte>)
    ensures r.num > 3 ==> forall m :: Ignores(PublishSchema(), a, r, b, m)
    ensures r.num > 5 ==> forall m :: Ignores(MessageSchema(), a, r, b, m)
    ensures r.num > 3 ==> forall m :: Ignores(ContextSchema(), a, r, b, m)
    ensures r.num > 2 ==> forall m :: Ignores(AttrSchema(), a, r, b, m)
  {
    if r.num > 3 {
      forall m ensures Ignores(PublishSchema(), a, r, b, m) { IgnoresUnknown(PublishSchema(), a, r, b, m); }
      forall m ensures Ignores(ContextSchema(), a, r, b, m) { IgnoresUnknown(ContextSchema(), a, r, b, m); }
    }
    if r.num > 5 {
      forall m ensures Ignores(MessageSchema(), a, r, b, m) { IgnoresUnknown(MessageSchema(), a, r, b, m); }
    }
    if r.num > 2 {
      forall m ensures Ignores(AttrSchema(), a, r, b, m) { IgnoresUnknown(AttrSchema(), a, r, b, m); }
    }
  }
}
