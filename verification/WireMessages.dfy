/**
 The log broker's messages on the wire (api/logbroker.pb.go): what they encode
 to, and that parsing the encoding returns the message. Strings are byte
 sequences; nil and empty slices are one value.
 */
module WireMessages {
  import opened Api
  import opened WireVarint
  import opened WireDecode
  import opened WireLaws
  import opened WireFields

  datatype Timestamp = Timestamp(seconds: int64, nanos: int32)
  datatype LogSubscriptionOptions =
    LogSubscriptionOptions(streams: seq<int32>, follow: bool, tail: int64, since: Option<Timestamp>)
  datatype LogSelector = LogSelector(serviceIDs: seq<seq<byte>>, nodeIDs: seq<seq<byte>>, taskIDs: seq<seq<byte>>)
  datatype LogContext = LogContext(serviceID: seq<byte>, nodeID: seq<byte>, taskID: seq<byte>)
  datatype LogAttr = LogAttr(key: seq<byte>, value: seq<byte>)
  datatype LogMessage =
    LogMessage(context: LogContext, timestamp: Option<Timestamp>, stream: int32, data: seq<byte>, attrs: seq<LogAttr>)
  datatype SubscriptionMessage =
    SubscriptionMessage(id: seq<byte>, selector: Option<LogSelector>, options: Option<LogSubscriptionOptions>, close: bool)
  datatype PublishLogsMessage =
    PublishLogsMessage(subscriptionID: seq<byte>, messages: seq<LogMessage>, close: bool)

  // ---- encodings ----

  function Flag(num: FieldNum, b: bool): seq<byte> { if b then VarField(num, 1) else [] }

  function OptMsg(num: FieldNum, data: Option<seq<byte>>): seq<byte> {
    if data.None? then [] else LenField(num, data.value)
  }

  function U64s(vs: seq<int32>): seq<uint64> { seq(|vs|, i requires 0 <= i < |vs| => ToU64(vs[i])) }

  function EncTimestamp(t: Timestamp): seq<byte> { OptVar(1, ToU64(t.seconds)) + OptVar(2, ToU64(t.nanos)) }

  function EncOptTimestamp(num: FieldNum, t: Option<Timestamp>): seq<byte> {
    OptMsg(num, if t.None? then None else Some(EncTimestamp(t.value)))
  }

  function EncOptions(m: LogSubscriptionOptions): seq<byte> {
    VarFields(1, U64s(m.streams)) + Flag(2, m.follow) + OptVar(3, ToU64(m.tail)) + EncOptTimestamp(4, m.since)
  }

  function EncSelector(m: LogSelector): seq<byte> {
    LenFields(1, m.serviceIDs) + LenFields(2, m.nodeIDs) + LenFields(3, m.taskIDs)
  }

  function EncContext(m: LogContext): seq<byte> { OptLen(1, m.serviceID) + OptLen(2, m.nodeID) + OptLen(3, m.taskID) }

  function EncAttr(m: LogAttr): seq<byte> { OptLen(1, m.key) + OptLen(2, m.value) }

  function EncAttrs(ms: seq<LogAttr>): seq<seq<byte>> { seq(|ms|, i requires 0 <= i < |ms| => EncAttr(ms[i])) }

  function EncMessage(m: LogMessage): seq<byte> {
    LenField(1, EncContext(m.context)) + EncOptTimestamp(2, m.timestamp) + OptVar(3, ToU64(m.stream))
    + OptLen(4, m.data) + LenFields(5, EncAttrs(m.attrs))
  }

  function EncMessages(ms: seq<LogMessage>): seq<seq<byte>> { seq(|ms|, i requires 0 <= i < |ms| => EncMessage(ms[i])) }

  function EncSubscription(m: SubscriptionMessage): seq<byte> {
    OptLen(1, m.id)
    + OptMsg(2, if m.selector.None? then None else Some(EncSelector(m.selector.value)))
    + OptMsg(3, if m.options.None? then None else Some(EncOptions(m.options.value)))
    + Flag(4, m.close)
  }

  function EncPublish(m: PublishLogsMessage): seq<byte> {
    OptLen(1, m.subscriptionID) + LenFields(2, EncMessages(m.messages)) + Flag(3, m.close)
  }

  // ---- the parsers' switches ----

  const ZERO_TIMESTAMP := Timestamp(0, 0)
  const NO_OPTIONS := LogSubscriptionOptions([], false, 0, None)
  const NO_SELECTOR := LogSelector([], [], [])
  const NO_CONTEXT := LogContext([], [], [])
  const NO_ATTR := LogAttr([], [])
  const NO_MESSAGE := LogMessage(NO_CONTEXT, None, 0, [], [])
  const NO_SUBSCRIPTION := SubscriptionMessage([], None, None, false)
  const NO_PUBLISH := PublishLogsMessage([], [], false)

  function OrElse<T>(o: Option<T>, d: T): T { if o.Some? then o.value else d }

  function TimestampSchema(): Schema<Timestamp> {
    Schema(num => if num == 1 || num == 2 then VarintField else Unknown,
           (m: Timestamp, num, v) => if num == 1 then m.(seconds := ToI64(v)) else m.(nanos := ToI32(v)),
           (m: Timestamp, num, data) => Ok(m),
           (m: Timestamp, u) => m)
  }

  function OptionsBytes(m: LogSubscriptionOptions, num: int, data: seq<byte>): Result<LogSubscriptionOptions> {
    match Decode(TimestampSchema(), data, 0, OrElse(m.since, ZERO_TIMESTAMP))
    case Ok(t) => Ok(m.(since := Some(t)))
    case Err(e) => Err(e)
  }

  function OptionsSchema(): Schema<LogSubscriptionOptions> {
    Schema(num => if num == 1 then PackableField else if num == 2 || num == 3 then VarintField
                  else if num == 4 then BytesField else Unknown,
           (m: LogSubscriptionOptions, num, v) =>
             if num == 1 then m.(streams := m.streams + [ToI32(v)])
             else if num == 2 then m.(follow := v != 0) else m.(tail := ToI64(v)),
           OptionsBytes,
           (m: LogSubscriptionOptions, u) => m)
  }

  function SelectorSchema(): Schema<LogSelector> {
    Schema(num => if 1 <= num <= 3 then BytesField else Unknown,
           (m: LogSelector, num, v) => m,
           (m: LogSelector, num, data) =>
             Ok(if num == 1 then m.(serviceIDs := m.serviceIDs + [data])
                else if num == 2 then m.(nodeIDs := m.nodeIDs + [data]) else m.(taskIDs := m.taskIDs + [data])),
           (m: LogSelector, u) => m)
  }

  function ContextSchema(): Schema<LogContext> {
    Schema(num => if 1 <= num <= 3 then BytesField else Unknown,
           (m: LogContext, num, v) => m,
           (m: LogContext, num, data) =>
             Ok(if num == 1 then m.(serviceID := data) else if num == 2 then m.(nodeID := data) else m.(taskID := data)),
           (m: LogContext, u) => m)
  }

  function AttrSchema(): Schema<LogAttr> {
    Schema(num => if num == 1 || num == 2 then BytesField else Unknown,
           (m: LogAttr, num, v) => m,
           (m: LogAttr, num, data) => Ok(if num == 1 then m.(key := data) else m.(value := data)),
           (m: LogAttr, u) => m)
  }

  function MessageBytes(m: LogMessage, num: int, data: seq<byte>): Result<LogMessage> {
    if num == 1 then
      match Decode(ContextSchema(), data, 0, m.context)
      case Ok(c) => Ok(m.(context := c))
      case Err(e) => Err(e)
    else if num == 2 then
      match Decode(TimestampSchema(), data, 0, OrElse(m.timestamp, ZERO_TIMESTAMP))
      case Ok(t) => Ok(m.(timestamp := Some(t)))
      case Err(e) => Err(e)
    else if num == 4 then Ok(m.(data := data))
    else
      match Decode(AttrSchema(), data, 0, NO_ATTR)
      case Ok(x) => Ok(m.(attrs := m.attrs + [x]))
      case Err(e) => Err(e)
  }

  function MessageSchema(): Schema<LogMessage> {
    Schema(num => if num == 3 then VarintField else if 1 <= num <= 5 then BytesField else Unknown,
           (m: LogMessage, num, v) => m.(stream := ToI32(v)),
           MessageBytes,
           (m: LogMessage, u) => m)
  }

  function SubscriptionBytes(m: SubscriptionMessage, num: int, data: seq<byte>): Result<SubscriptionMessage> {
    if num == 1 then Ok(m.(id := data))
    else if num == 2 then
      match Decode(SelectorSchema(), data, 0, OrElse(m.selector, NO_SELECTOR))
      case Ok(s) => Ok(m.(selector := Some(s)))
      case Err(e) => Err(e)
    else
      match Decode(OptionsSchema(), data, 0, OrElse(m.options, NO_OPTIONS))
      case Ok(o) => Ok(m.(options := Some(o)))
      case Err(e) => Err(e)
  }

  function SubscriptionSchema(): Schema<SubscriptionMessage> {
    Schema(num => if num == 4 then VarintField else if 1 <= num <= 3 then BytesField else Unknown,
           (m: SubscriptionMessage, num, v) => m.(close := v != 0),
           SubscriptionBytes,
           (m: SubscriptionMessage, u) => m)
  }

  function PublishBytes(m: PublishLogsMessage, num: int, data: seq<byte>): Result<PublishLogsMessage> {
    if num == 1 then Ok(m.(subscriptionID := data))
    else
      match Decode(MessageSchema(), data, 0, NO_MESSAGE)
      case Ok(x) => Ok(m.(messages := m.messages + [x]))
      case Err(e) => Err(e)
  }

  function PublishSchema(): Schema<PublishLogsMessage> {
    Schema(num => if num == 3 then VarintField else if num == 1 || num == 2 then BytesField else Unknown,
           (m: PublishLogsMessage, num, v) => m.(close := v != 0),
           PublishBytes,
           (m: PublishLogsMessage, u) => m)
  }

  // ---- the optional pieces of a message ----

  lemma OptVarDecodes<M>(sc: Schema<M>, num: FieldNum, v: uint64, m: M, m': M)
    requires sc.kind(num).VarintField? && m' == if v == 0 then m else sc.onVarint(m, num, v)
    ensures Decode(sc, OptVar(num, v), 0, m) == Ok(m')
  {
    if v != 0 { VarFieldDecodes(sc, num, v, m); }
  }

  lemma FlagDecodes<M>(sc: Schema<M>, num: FieldNum, b: bool, m: M, m': M)
    requires sc.kind(num).VarintField? && m' == if b then sc.onVarint(m, num, 1) else m
    ensures Decode(sc, Flag(num, b), 0, m) == Ok(m')
  {
    if b { VarFieldDecodes(sc, num, 1, m); }
  }

  lemma OptLenDecodes<M>(sc: Schema<M>, num: FieldNum, data: seq<byte>, m: M, m': M)
    requires sc.kind(num).BytesField? && |OptLen(num, data)| < TWO63
    requires if data == [] then m' == m else sc.onBytes(m, num, data) == Ok(m')
    ensures Decode(sc, OptLen(num, data), 0, m) == Ok(m')
  {
    if data != [] { LenFieldDecodes(sc, num, data, m); }
  }

  lemma OptMsgDecodes<M>(sc: Schema<M>, num: FieldNum, data: Option<seq<byte>>, m: M, m': M)
    requires sc.kind(num).BytesField? && |OptMsg(num, data)| < TWO63
    requires if data.None? then m' == m else sc.onBytes(m, num, data.value) == Ok(m')
    ensures Decode(sc, OptMsg(num, data), 0, m) == Ok(m')
  {
    if data.Some? { LenFieldDecodes(sc, num, data.value, m); }
  }

  // ---- round trips ----

  lemma OptVarFits(num: FieldNum, v: uint64)
    ensures |OptVar(num, v)| <= 20
  {
    VarintFits(Tag(num, 0));
    VarintFits(v);
  }

  lemma TimestampFits(t: Timestamp)
    ensures |EncTimestamp(t)| < TWO63
  {
    OptVarFits(1, ToU64(t.seconds));
    OptVarFits(2, ToU64(t.nanos));
  }

  lemma SecondsPart(t: Timestamp)
    ensures Decode(TimestampSchema(), OptVar(1, ToU64(t.seconds)), 0, ZERO_TIMESTAMP)
         == Ok(ZERO_TIMESTAMP.(seconds := t.seconds))
  {
    SignExtension(t.seconds, t.nanos);
    OptVarDecodes(TimestampSchema(), 1, ToU64(t.seconds), ZERO_TIMESTAMP, ZERO_TIMESTAMP.(seconds := t.seconds));
  }

  lemma NanosPart(t: Timestamp, m: Timestamp)
    requires m == ZERO_TIMESTAMP.(seconds := t.seconds)
    ensures Decode(TimestampSchema(), OptVar(2, ToU64(t.nanos)), 0, m) == Ok(t)
  {
    SignExtension(t.seconds, t.nanos);
    OptVarDecodes(TimestampSchema(), 2, ToU64(t.nanos), m, t);
  }

  lemma TimestampRoundTrip(t: Timestamp)
    ensures |EncTimestamp(t)| < TWO63
    ensures Decode(TimestampSchema(), EncTimestamp(t), 0, ZERO_TIMESTAMP) == Ok(t)
  {
    var sc, m1 := TimestampSchema(), ZERO_TIMESTAMP.(seconds := t.seconds);
    TimestampFits(t);
    SecondsPart(t);
    NanosPart(t, m1);
    Then(sc, OptVar(1, ToU64(t.seconds)), OptVar(2, ToU64(t.nanos)), ZERO_TIMESTAMP, m1, t);
  }

  lemma ContextRoundTrip(m: LogContext)
    requires |EncContext(m)| < TWO63
    ensures Decode(ContextSchema(), EncContext(m), 0, NO_CONTEXT) == Ok(m)
  {
    var sc := ContextSchema();
    var a, b, c := OptLen(1, m.serviceID), OptLen(2, m.nodeID), OptLen(3, m.taskID);
    var m1 := LogContext(m.serviceID, [], []);
    var m2 := LogContext(m.serviceID, m.nodeID, []);
    OptLenDecodes(sc, 1, m.serviceID, NO_CONTEXT, m1);
    OptLenDecodes(sc, 2, m.nodeID, m1, m2);
    OptLenDecodes(sc, 3, m.taskID, m2, m);
    Then(sc, a, b, NO_CONTEXT, m1, m2);
    Then(sc, a + b, c, NO_CONTEXT, m2, m);
  }

  lemma AttrRoundTrip(m: LogAttr)
    requires |EncAttr(m)| < TWO63
    ensures Decode(AttrSchema(), EncAttr(m), 0, NO_ATTR) == Ok(m)
  {
    var sc := AttrSchema();
    var m1 := LogAttr(m.key, []);
    OptLenDecodes(sc, 1, m.key, NO_ATTR, m1);
    OptLenDecodes(sc, 2, m.value, m1, m);
    Then(sc, OptLen(1, m.key), OptLen(2, m.value), NO_ATTR, m1, m);
  }

  lemma {:induction false} PayloadBound(num: FieldNum, ds: seq<seq<byte>>, k: nat)
    requires k < |ds|
    ensures |ds[k]| <= |LenFields(num, ds)|
    decreases k
  {
    if k > 0 { PayloadBound(num, ds[1..], k - 1); }
  }

  lemma {:induction false} StreamsFold(vs: seq<int32>, m: LogSubscriptionOptions)
    ensures Folded(OptionsSchema(), 1, U64s(vs), m) == m.(streams := m.streams + vs)
    decreases |vs|
  {
    if vs == [] { assert m.streams + vs == m.streams; }
    else {
      SignExtension(0, vs[0]);
      assert U64s(vs)[1..] == U64s(vs[1..]);
      var m1 := m.(streams := m.streams + [vs[0]]);
      StreamsFold(vs[1..], m1);
      assert m1.streams + vs[1..] == m.streams + vs;
    }
  }

  lemma OptionsRoundTrip(m: LogSubscriptionOptions)
    requires |EncOptions(m)| < TWO63
    ensures Decode(OptionsSchema(), EncOptions(m), 0, NO_OPTIONS) == Ok(m)
  {
    var sc := OptionsSchema();
    var a, b, c, d := VarFields(1, U64s(m.streams)), Flag(2, m.follow), OptVar(3, ToU64(m.tail)), EncOptTimestamp(4, m.since);
    var m1 := LogSubscriptionOptions(m.streams, false, 0, None);
    var m2 := m1.(follow := m.follow);
    var m3 := m2.(tail := m.tail);
    VarFieldsDecode(sc, 1, U64s(m.streams), NO_OPTIONS);
    StreamsFold(m.streams, NO_OPTIONS);
    assert NO_OPTIONS.streams + m.streams == m.streams;
    SignExtension(m.tail, 0);
    FlagDecodes(sc, 2, m.follow, m1, m2);
    OptVarDecodes(sc, 3, ToU64(m.tail), m2, m3);
    if m.since.Some? { TimestampRoundTrip(m.since.value); }
    OptMsgDecodes(sc, 4, if m.since.None? then None else Some(EncTimestamp(m.since.value)), m3, m);
    Then(sc, a, b, NO_OPTIONS, m1, m2);
    Then(sc, a + b, c, NO_OPTIONS, m2, m3);
    Then(sc, a + b + c, d, NO_OPTIONS, m3, m);
  }

  /** The selector with `ids` appended to the list of field `num`. */
  function WithIDs(m: LogSelector, num: FieldNum, ids: seq<seq<byte>>): LogSelector {
    if num == 1 then m.(serviceIDs := ids) else if num == 2 then m.(nodeIDs := ids) else m.(taskIDs := ids)
  }

  lemma IDsDecode(num: FieldNum, ids: seq<seq<byte>>, m: LogSelector)
    requires num <= 3 && |LenFields(num, ids)| < TWO63 && WithIDs(m, num, []) == m
    ensures Decode(SelectorSchema(), LenFields(num, ids), 0, m) == Ok(WithIDs(m, num, ids))
  {
    var ms := seq(|ids| + 1, k requires 0 <= k <= |ids| => WithIDs(m, num, ids[..k]));
    forall k | 0 <= k < |ids| ensures SelectorSchema().onBytes(ms[k], num, ids[k]) == Ok(ms[k + 1]) {
      assert ids[..k] + [ids[k]] == ids[..k + 1];
    }
    LenFieldsDecode(SelectorSchema(), num, ids, ms);
    assert ids[..0] == [] && ids[..|ids|] == ids;
  }

  lemma SelectorRoundTrip(m: LogSelector)
    requires |EncSelector(m)| < TWO63
    ensures Decode(SelectorSchema(), EncSelector(m), 0, NO_SELECTOR) == Ok(m)
  {
    var sc := SelectorSchema();
    var a, b, c := LenFields(1, m.serviceIDs), LenFields(2, m.nodeIDs), LenFields(3, m.taskIDs);
    var m1 := LogSelector(m.serviceIDs, [], []);
    var m2 := LogSelector(m.serviceIDs, m.nodeIDs, []);
    IDsDecode(1, m.serviceIDs, NO_SELECTOR);
    IDsDecode(2, m.nodeIDs, m1);
    IDsDecode(3, m.taskIDs, m2);
    Then(sc, a, b, NO_SELECTOR, m1, m2);
    Then(sc, a + b, c, NO_SELECTOR, m2, m);
  }

  // Each case of the larger messages' switches, on what the writer emits for it.

  lemma AttrCase(x: LogAttr, m: LogMessage)
    requires |EncAttr(x)| < TWO63
    ensures MessageSchema().onBytes(m, 5, EncAttr(x)) == Ok(m.(attrs := m.attrs + [x]))
  {
    AttrRoundTrip(x);
    assert MessageBytes(m, 5, EncAttr(x)) == Ok(m.(attrs := m.attrs + [x]));
  }

  lemma AttrsDecode(attrs: seq<LogAttr>, m: LogMessage)
    requires |LenFields(5, EncAttrs(attrs))| < TWO63 && m.attrs == []
    ensures Decode(MessageSchema(), LenFields(5, EncAttrs(attrs)), 0, m) == Ok(m.(attrs := attrs))
  {
    var sc, ds := MessageSchema(), EncAttrs(attrs);
    var ms := seq(|attrs| + 1, k requires 0 <= k <= |attrs| => m.(attrs := attrs[..k]));
    forall k | 0 <= k < |attrs| ensures sc.onBytes(ms[k], 5, ds[k]) == Ok(ms[k + 1]) {
      PayloadBound(5, ds, k);
      AttrCase(attrs[k], ms[k]);
      assert attrs[..k] + [attrs[k]] == attrs[..k + 1];
    }
    LenFieldsDecode(sc, 5, ds, ms);
    assert attrs[..0] == [] && attrs[..|attrs|] == attrs;
  }

  lemma ContextPart(c: LogContext)
    requires |LenField(1, EncContext(c))| < TWO63
    ensures Decode(MessageSchema(), LenField(1, EncContext(c)), 0, NO_MESSAGE) == Ok(NO_MESSAGE.(context := c))
  {
    ContextRoundTrip(c);
    LenFieldDecodes(MessageSchema(), 1, EncContext(c), NO_MESSAGE);
  }

  lemma TimestampPart(t: Option<Timestamp>, m: LogMessage)
    requires |EncOptTimestamp(2, t)| < TWO63 && m.timestamp.None?
    ensures Decode(MessageSchema(), EncOptTimestamp(2, t), 0, m) == Ok(m.(timestamp := t))
  {
    if t.Some? { TimestampRoundTrip(t.value); }
    OptMsgDecodes(MessageSchema(), 2, if t.None? then None else Some(EncTimestamp(t.value)), m, m.(timestamp := t));
  }

  lemma StreamPart(v: int32, m: LogMessage)
    requires m.stream == 0
    ensures Decode(MessageSchema(), OptVar(3, ToU64(v)), 0, m) == Ok(m.(stream := v))
  {
    SignExtension(0, v);
    OptVarDecodes(MessageSchema(), 3, ToU64(v), m, m.(stream := v));
  }

  lemma DataPart(data: seq<byte>, m: LogMessage)
    requires |OptLen(4, data)| < TWO63 && m.data == []
    ensures Decode(MessageSchema(), OptLen(4, data), 0, m) == Ok(m.(data := data))
  {
    OptLenDecodes(MessageSchema(), 4, data, m, m.(data := data));
  }

  lemma MessageRoundTrip(m: LogMessage)
    requires |EncMessage(m)| < TWO63
    ensures Decode(MessageSchema(), EncMessage(m), 0, NO_MESSAGE) == Ok(m)
  {
    var sc := MessageSchema();
    var a, b, c := LenField(1, EncContext(m.context)), EncOptTimestamp(2, m.timestamp), OptVar(3, ToU64(m.stream));
    var d, e := OptLen(4, m.data), LenFields(5, EncAttrs(m.attrs));
    var m1 := NO_MESSAGE.(context := m.context);
    var m2 := m1.(timestamp := m.timestamp);
    var m3 := m2.(stream := m.stream);
    var m4 := m3.(data := m.data);
    ContextPart(m.context);
    TimestampPart(m.timestamp, m1);
    StreamPart(m.stream, m2);
    DataPart(m.data, m3);
    AttrsDecode(m.attrs, m4);
    Then3(sc, a, b, c, NO_MESSAGE, m1, m2, m3);
    Then3(sc, a + b + c, d, e, NO_MESSAGE, m3, m4, m);
  }

  lemma SelectorPart(s: Option<LogSelector>, m: SubscriptionMessage)
    requires m.selector.None?
    requires |OptMsg(2, if s.None? then None else Some(EncSelector(s.value)))| < TWO63
    ensures Decode(SubscriptionSchema(), OptMsg(2, if s.None? then None else Some(EncSelector(s.value))), 0, m)
         == Ok(m.(selector := s))
  {
    if s.Some? { SelectorRoundTrip(s.value); }
    OptMsgDecodes(SubscriptionSchema(), 2, if s.None? then None else Some(EncSelector(s.value)), m, m.(selector := s));
  }

  lemma OptionsPart(o: Option<LogSubscriptionOptions>, m: SubscriptionMessage)
    requires m.options.None?
    requires |OptMsg(3, if o.None? then None else Some(EncOptions(o.value)))| < TWO63
    ensures Decode(SubscriptionSchema(), OptMsg(3, if o.None? then None else Some(EncOptions(o.value))), 0, m)
         == Ok(m.(options := o))
  {
    if o.Some? { OptionsRoundTrip(o.value); }
    OptMsgDecodes(SubscriptionSchema(), 3, if o.None? then None else Some(EncOptions(o.value)), m, m.(options := o));
  }

  lemma IDAndClose(id: seq<byte>, close: bool, m: SubscriptionMessage)
    requires m.id == [] && !m.close && |OptLen(1, id)| < TWO63
    ensures Decode(SubscriptionSchema(), OptLen(1, id), 0, m) == Ok(m.(id := id))
    ensures Decode(SubscriptionSchema(), Flag(4, close), 0, m.(id := id)) == Ok(m.(id := id, close := close))
  {
    OptLenDecodes(SubscriptionSchema(), 1, id, m, m.(id := id));
    FlagDecodes(SubscriptionSchema(), 4, close, m.(id := id), m.(id := id, close := close));
  }

  /** Parsing the encoding of a subscription message returns it. */
  lemma SubscriptionRoundTrip(m: SubscriptionMessage)
    requires |EncSubscription(m)| < TWO63
    ensures Decode(SubscriptionSchema(), EncSubscription(m), 0, NO_SUBSCRIPTION) == Ok(m)
  {
    var sc := SubscriptionSchema();
    var sel := if m.selector.None? then None else Some(EncSelector(m.selector.value));
    var opt := if m.options.None? then None else Some(EncOptions(m.options.value));
    var a, b, c, d := OptLen(1, m.id), OptMsg(2, sel), OptMsg(3, opt), Flag(4, m.close);
    var m1 := NO_SUBSCRIPTION.(id := m.id);
    var m2 := m1.(selector := m.selector);
    var m3 := m2.(options := m.options);
    IDAndClose(m.id, m.close, NO_SUBSCRIPTION);
    SelectorPart(m.selector, m1);
    OptionsPart(m.options, m2);
    IDAndClose(m.id, m.close, m3.(id := []));
    Then3(sc, a, b, c, NO_SUBSCRIPTION, m1, m2, m3);
    Then(sc, a + b + c, d, NO_SUBSCRIPTION, m3, m);
  }

  ghost predicate ParsesTo(data: seq<byte>, x: LogMessage) {
    Decode(MessageSchema(), data, 0, NO_MESSAGE) == Ok(x)
  }

  lemma MessageStep(x: LogMessage, data: seq<byte>, m: PublishLogsMessage)
    requires ParsesTo(data, x)
    ensures PublishSchema().onBytes(m, 2, data) == Ok(m.(messages := m.messages + [x]))
  {
    assert PublishBytes(m, 2, data) == Ok(m.(messages := m.messages + [x]));
  }

  lemma MessagesDecode(messages: seq<LogMessage>, ds: seq<seq<byte>>, m: PublishLogsMessage)
    requires |ds| == |messages| && |LenFields(2, ds)| < TWO63 && m.messages == []
    requires forall k :: 0 <= k < |ds| ==> ParsesTo(ds[k], messages[k])
    ensures Decode(PublishSchema(), LenFields(2, ds), 0, m) == Ok(m.(messages := messages))
  {
    var sc := PublishSchema();
    var ms := seq(|messages| + 1, k requires 0 <= k <= |messages| => m.(messages := messages[..k]));
    forall k | 0 <= k < |messages| ensures sc.onBytes(ms[k], 2, ds[k]) == Ok(ms[k + 1]) {
      MessageStep(messages[k], ds[k], ms[k]);
      assert messages[..k] + [messages[k]] == messages[..k + 1];
    }
    LenFieldsDecode(sc, 2, ds, ms);
    assert messages[..0] == [] && messages[..|messages|] == messages;
  }

  lemma MessagesParse(messages: seq<LogMessage>)
    requires |LenFields(2, EncMessages(messages))| < TWO63
    ensures forall k :: 0 <= k < |messages| ==> ParsesTo(EncMessages(messages)[k], messages[k])
  {
    forall k | 0 <= k < |messages| ensures ParsesTo(EncMessages(messages)[k], messages[k]) {
      PayloadBound(2, EncMessages(messages), k);
      MessageRoundTrip(messages[k]);
    }
  }

  /** Parsing the encoding of a log publication returns it. */
  lemma PublishRoundTrip(m: PublishLogsMessage)
    requires |EncPublish(m)| < TWO63
    ensures Decode(PublishSchema(), EncPublish(m), 0, NO_PUBLISH) == Ok(m)
  {
    var sc := PublishSchema();
    var a, b, c := OptLen(1, m.subscriptionID), LenFields(2, EncMessages(m.messages)), Flag(3, m.close);
    var m1 := NO_PUBLISH.(subscriptionID := m.subscriptionID);
    var m2 := m1.(messages := m.messages);
    OptLenDecodes(sc, 1, m.subscriptionID, NO_PUBLISH, m1);
    MessagesParse(m.messages);
    MessagesDecode(m.messages, EncMessages(m.messages), m1);
    FlagDecodes(sc, 3, m.close, m2, m);
    Then(sc, a, b, NO_PUBLISH, m1, m2);
    Then(sc, a + b, c, NO_PUBLISH, m2, m);
  }
}
