/**
 `Size`, `MarshalToSizedBuffer` and `Marshal` of the log broker's messages: the
 size computed in closed form is the length of the encoding, and the backwards
 writer fills a buffer of that size exactly, never running below its start.
 */
module WireMarshal {
  import opened Api
  import opened WireVarint
  import opened WireFields
  import opened WireWrite
  import opened WireMessages

  // ---- sizes ----

  lemma FieldSizes(num: FieldNum, v: uint64, data: seq<byte>)
    requires num < 16 && |data| < TWO63
    ensures |VarField(num, v)| == 1 + Sov(v)
    ensures |LenField(num, data)| == 1 + |data| + Sov(|data|)
  {
    SmallTag(num, 0);
    SmallTag(num, 2);
    SovIsVarintLength(v);
    SovIsVarintLength(|data|);
  }

  method SizeOptLen(num: FieldNum, data: seq<byte>) returns (n: nat)
    requires num < 16 && |data| < TWO63
    ensures n == |OptLen(num, data)|
  {
    FieldSizes(num, 0, data);
    n := 0;
    var l := |data|;
    if l > 0 { n := 1 + l + Sov(l); }
  }

  method SizeOptVar(num: FieldNum, v: uint64) returns (n: nat)
    requires num < 16
    ensures n == |OptVar(num, v)|
  {
    FieldSizes(num, v, []);
    n := 0;
    if v != 0 { n := 1 + Sov(v); }
  }

  method SizeFlag(num: FieldNum, b: bool) returns (n: nat)
    requires num < 16
    ensures n == |Flag(num, b)|
  {
    FieldSizes(num, 1, []);
    SovIsVarintLength(1);
    n := if b then 2 else 0;
  }

  method SizeLenFields(num: FieldNum, ds: seq<seq<byte>>) returns (n: nat)
    requires num < 16 && |LenFields(num, ds)| < TWO63
    ensures n == |LenFields(num, ds)|
  {
    n := 0;
    for k := 0 to |ds|
      invariant n + |LenFields(num, ds[k..])| == |LenFields(num, ds)|
    {
      PayloadBound(num, ds, k);
      FieldSizes(num, 0, ds[k]);
      assert ds[k..][1..] == ds[k + 1..];
      var l := |ds[k]|;
      n := n + 1 + l + Sov(l);
    }
  }

  method SizeTimestamp(t: Timestamp) returns (n: nat)
    ensures n == |EncTimestamp(t)| && n < TWO63
  {
    TimestampRoundTrip(t);
    var a := SizeOptVar(1, ToU64(t.seconds));
    var b := SizeOptVar(2, ToU64(t.nanos));
    n := a + b;
  }

  method SizeOptTimestamp(num: FieldNum, t: Option<Timestamp>) returns (n: nat)
    requires num < 16
    ensures n == |EncOptTimestamp(num, t)|
  {
    n := 0;
    if t.Some? {
      var l := SizeTimestamp(t.value);
      FieldSizes(num, 0, EncTimestamp(t.value));
      n := 1 + l + Sov(l);
    }
  }

  method SizeOptions(m: LogSubscriptionOptions) returns (n: nat)
    ensures n == |EncOptions(m)|
  {
    n := 0;
    for k := 0 to |m.streams|
      invariant n + |VarFields(1, U64s(m.streams)[k..])| == |VarFields(1, U64s(m.streams))|
    {
      FieldSizes(1, ToU64(m.streams[k]), []);
      assert U64s(m.streams)[k..][1..] == U64s(m.streams)[k + 1..];
      n := n + 1 + Sov(ToU64(m.streams[k]));
    }
    var follow := SizeFlag(2, m.follow);
    var tail := SizeOptVar(3, ToU64(m.tail));
    var since := SizeOptTimestamp(4, m.since);
    n := n + follow + tail + since;
  }

  method SizeSelector(m: LogSelector) returns (n: nat)
    requires |EncSelector(m)| < TWO63
    ensures n == |EncSelector(m)|
  {
    var a := SizeLenFields(1, m.serviceIDs);
    var b := SizeLenFields(2, m.nodeIDs);
    var c := SizeLenFields(3, m.taskIDs);
    n := a + b + c;
  }

  method SizeContext(m: LogContext) returns (n: nat)
    requires |EncContext(m)| < TWO63
    ensures n == |EncContext(m)|
  {
    var a := SizeOptLen(1, m.serviceID);
    var b := SizeOptLen(2, m.nodeID);
    var c := SizeOptLen(3, m.taskID);
    n := a + b + c;
  }

  method SizeAttr(m: LogAttr) returns (n: nat)
    requires |EncAttr(m)| < TWO63
    ensures n == |EncAttr(m)|
  {
    var a := SizeOptLen(1, m.key);
    var b := SizeOptLen(2, m.value);
    n := a + b;
  }

  method SizeAttrs(attrs: seq<LogAttr>) returns (n: nat)
    requires |LenFields(5, EncAttrs(attrs))| < TWO63
    ensures n == |LenFields(5, EncAttrs(attrs))|
  {
    ghost var ds := EncAttrs(attrs);
    n := 0;
    for k := 0 to |attrs|
      invariant n + |LenFields(5, ds[k..])| == |LenFields(5, ds)|
    {
      PayloadBound(5, ds, k);
      var l := SizeAttr(attrs[k]);
      FieldSizes(5, 0, ds[k]);
      assert ds[k..][1..] == ds[k + 1..];
      n := n + 1 + l + Sov(l);
    }
  }

  method SizeMessage(m: LogMessage) returns (n: nat)
    requires |EncMessage(m)| < TWO63
    ensures n == |EncMessage(m)|
  {
    var l := SizeContext(m.context);
    FieldSizes(1, 0, EncContext(m.context));
    var timestamp := SizeOptTimestamp(2, m.timestamp);
    var stream := SizeOptVar(3, ToU64(m.stream));
    var data := SizeOptLen(4, m.data);
    var attrs := SizeAttrs(m.attrs);
    n := 1 + l + Sov(l) + timestamp + stream + data + attrs;
  }

  method SizeMessages(messages: seq<LogMessage>) returns (n: nat)
    requires |LenFields(2, EncMessages(messages))| < TWO63
    ensures n == |LenFields(2, EncMessages(messages))|
  {
    ghost var ds := EncMessages(messages);
    n := 0;
    for k := 0 to |messages|
      invariant n + |LenFields(2, ds[k..])| == |LenFields(2, ds)|
    {
      PayloadBound(2, ds, k);
      var l := SizeMessage(messages[k]);
      FieldSizes(2, 0, ds[k]);
      assert ds[k..][1..] == ds[k + 1..];
      n := n + 1 + l + Sov(l);
    }
  }

  method SizeSubscription(m: SubscriptionMessage) returns (n: nat)
    requires |EncSubscription(m)| < TWO63
    ensures n == |EncSubscription(m)|
  {
    n := SizeOptLen(1, m.id);
    if m.selector.Some? {
      var l := SizeSelector(m.selector.value);
      FieldSizes(2, 0, EncSelector(m.selector.value));
      n := n + 1 + l + Sov(l);
    }
    if m.options.Some? {
      var l := SizeOptions(m.options.value);
      FieldSizes(3, 0, EncOptions(m.options.value));
      n := n + 1 + l + Sov(l);
    }
    var close := SizeFlag(4, m.close);
    n := n + close;
  }

  method SizePublish(m: PublishLogsMessage) returns (n: nat)
    requires |EncPublish(m)| < TWO63
    ensures n == |EncPublish(m)|
  {
    var id := SizeOptLen(1, m.subscriptionID);
    var messages := SizeMessages(m.messages);
    var close := SizeFlag(3, m.close);
    n := id + messages + close;
  }

  // ---- the pieces of the backwards writer ----
  //
  // `was` is the buffer before the message, `done` what already stands between `i` and `end`; each
  // piece puts its bytes in front of `done`.

  method PutOptLen(a: array<byte>, i: nat, num: FieldNum, data: seq<byte>,
                   ghost was: seq<byte>, ghost end: nat, ghost done: seq<byte>) returns (j: nat)
    requires Wrote(was, a[..], i, end, done) && num < 16 && |OptLen(num, data)| <= i && |data| < TWO63
    modifies a
    ensures Wrote(was, a[..], j, end, OptLen(num, data) + done)
  {
    ghost var mid := a[..];
    j := i;
    if |data| > 0 {
      j := PutLenField(a, i, num, data);
      WroteInFront(was, mid, a[..], j, i, end, LenField(num, data), done);
    } else {
      assert OptLen(num, data) + done == done;
    }
  }

  method PutOptVar(a: array<byte>, i: nat, num: FieldNum, v: uint64,
                   ghost was: seq<byte>, ghost end: nat, ghost done: seq<byte>) returns (j: nat)
    requires Wrote(was, a[..], i, end, done) && num < 16 && |OptVar(num, v)| <= i
    modifies a
    ensures Wrote(was, a[..], j, end, OptVar(num, v) + done)
  {
    ghost var mid := a[..];
    j := i;
    if v != 0 {
      j := PutVarField(a, i, num, v);
      WroteInFront(was, mid, a[..], j, i, end, VarField(num, v), done);
    } else {
      assert OptVar(num, v) + done == done;
    }
  }

  method PutFlag(a: array<byte>, i: nat, num: FieldNum, b: bool,
                 ghost was: seq<byte>, ghost end: nat, ghost done: seq<byte>) returns (j: nat)
    requires Wrote(was, a[..], i, end, done) && num < 16 && |Flag(num, b)| <= i
    modifies a
    ensures Wrote(was, a[..], j, end, Flag(num, b) + done)
  {
    j := PutOptVar(a, i, num, if b then 1 else 0, was, end, done);
  }

  /** Length and tag in front of a submessage just written down to `i`. */
  method PutSubHeader(a: array<byte>, i: nat, num: FieldNum, size: nat, ghost payload: seq<byte>,
                      ghost was: seq<byte>, ghost end: nat, ghost done: seq<byte>) returns (j: nat)
    requires Wrote(was, a[..], i, end, payload + done) && size == |payload| < TWO63
    requires num < 16 && |LenField(num, payload)| <= i + size
    modifies a
    ensures Wrote(was, a[..], j, end, LenField(num, payload) + done)
  {
    ghost var mid := a[..];
    SmallTag(num, 2);
    j := PutHeader(a, i, num, size);
    WroteInFront(was, mid, a[..], j, i, end, Varint(Tag(num, 2)) + Varint(size), payload + done);
    assert Varint(Tag(num, 2)) + Varint(size) + (payload + done) == LenField(num, payload) + done;
  }

  /** The header in front of an embedded message whose `size` bytes were just written up to `i`. */
  method PutNested(a: array<byte>, i: nat, num: FieldNum, size: nat, ghost payload: seq<byte>, ghost mid: seq<byte>,
                   ghost was: seq<byte>, ghost end: nat, ghost done: seq<byte>) returns (j: nat)
    requires Wrote(was, mid, i, end, done) && size == |payload| < TWO63 && Wrote(mid, a[..], i - size, i, payload)
    requires num < 16 && |LenField(num, payload)| <= i
    modifies a
    ensures Wrote(was, a[..], j, end, LenField(num, payload) + done)
  {
    WroteInFront(was, mid, a[..], i - size, i, end, payload, done);
    j := PutSubHeader(a, i - size, num, size, payload, was, end, done);
  }

  method PutLenFields(a: array<byte>, i: nat, num: FieldNum, ds: seq<seq<byte>>,
                      ghost was: seq<byte>, ghost end: nat, ghost done: seq<byte>) returns (j: nat)
    requires Wrote(was, a[..], i, end, done) && num < 16 && |LenFields(num, ds)| <= i
    requires |LenFields(num, ds)| < TWO63
    modifies a
    ensures Wrote(was, a[..], j, end, LenFields(num, ds) + done)
  {
    j := i;
    ghost var written := done;
    assert LenFields(num, ds[|ds|..]) + done == done;
    for k := |ds| downto 0
      invariant written == LenFields(num, ds[k..]) + done
      invariant Wrote(was, a[..], j, end, written)
    {
      ghost var mid, n := a[..], j;
      FieldsFit(num, ds, k);
      FieldsInFront(num, ds, k, done);
      j := PutLenField(a, j, num, ds[k]);
      WroteInFront(was, mid, a[..], j, n, end, LenField(num, ds[k]), written);
      written := LenField(num, ds[k]) + written;
    }
    assert ds[0..] == ds;
  }

  /** What is left of the room for repeated fields always holds the next one. */
  lemma {:induction false} FieldsFit(num: FieldNum, ds: seq<seq<byte>>, k: nat)
    requires k < |ds|
    ensures |LenField(num, ds[k])| + |LenFields(num, ds[k + 1..])| <= |LenFields(num, ds)|
    ensures |ds[k]| <= |LenFields(num, ds)|
    decreases k
  {
    if k > 0 {
      FieldsFit(num, ds[1..], k - 1);
      assert ds[1..][k..] == ds[k + 1..];
    }
  }

  lemma FieldsInFront(num: FieldNum, ds: seq<seq<byte>>, k: nat, done: seq<byte>)
    requires k < |ds|
    ensures LenField(num, ds[k]) + (LenFields(num, ds[k + 1..]) + done) == LenFields(num, ds[k..]) + done
  {
    assert ds[k..][1..] == ds[k + 1..];
    var x, y := LenField(num, ds[k]), LenFields(num, ds[k + 1..]);
    assert x + (y + done) == x + y + done;
  }

  // ---- MarshalToSizedBuffer ----

  method MarshalTimestamp(t: Timestamp, a: array<byte>, end: nat) returns (n: nat)
    requires |EncTimestamp(t)| <= end <= a.Length
    modifies a
    ensures n == |EncTimestamp(t)| && Wrote(old(a[..]), a[..], end - n, end, EncTimestamp(t))
  {
    ghost var was := a[..];
    var i := PutOptVar(a, end, 2, ToU64(t.nanos), was, end, []);
    i := PutOptVar(a, i, 1, ToU64(t.seconds), was, end, OptVar(2, ToU64(t.nanos)) + []);
    assert OptVar(1, ToU64(t.seconds)) + (OptVar(2, ToU64(t.nanos)) + []) == EncTimestamp(t);
    n := end - i;
  }

  method PutTimestamp(a: array<byte>, i: nat, num: FieldNum, t: Timestamp,
                      ghost was: seq<byte>, ghost end: nat, ghost done: seq<byte>) returns (j: nat)
    requires Wrote(was, a[..], i, end, done) && num < 16 && |LenField(num, EncTimestamp(t))| <= i
    modifies a
    ensures Wrote(was, a[..], j, end, LenField(num, EncTimestamp(t)) + done)
  {
    ghost var mid := a[..];
    TimestampFits(t);
    var size := MarshalTimestamp(t, a, i);
    WroteInFront(was, mid, a[..], i - size, i, end, EncTimestamp(t), done);
    j := PutSubHeader(a, i - size, num, size, EncTimestamp(t), was, end, done);
  }

  method PutOptTimestamp(a: array<byte>, i: nat, num: FieldNum, t: Option<Timestamp>,
                         ghost was: seq<byte>, ghost end: nat, ghost done: seq<byte>) returns (j: nat)
    requires Wrote(was, a[..], i, end, done) && num < 16 && |EncOptTimestamp(num, t)| <= i
    modifies a
    ensures Wrote(was, a[..], j, end, EncOptTimestamp(num, t) + done)
  {
    j := i;
    if t.Some? { j := PutTimestamp(a, i, num, t.value, was, end, done); }
    else { assert EncOptTimestamp(num, t) + done == done; }
  }

  method MarshalContext(m: LogContext, a: array<byte>, end: nat) returns (n: nat)
    requires |EncContext(m)| <= end <= a.Length && |EncContext(m)| < TWO63
    modifies a
    ensures n == |EncContext(m)| && Wrote(old(a[..]), a[..], end - n, end, EncContext(m))
  {
    ghost var was := a[..];
    ghost var p, q, r := OptLen(1, m.serviceID), OptLen(2, m.nodeID), OptLen(3, m.taskID);
    var i := PutOptLen(a, end, 3, m.taskID, was, end, []);
    i := PutOptLen(a, i, 2, m.nodeID, was, end, r + []);
    i := PutOptLen(a, i, 1, m.serviceID, was, end, q + (r + []));
    Assoc(p, q, r, []);
    n := end - i;
  }

  method MarshalAttr(m: LogAttr, a: array<byte>, end: nat) returns (n: nat)
    requires |EncAttr(m)| <= end <= a.Length && |EncAttr(m)| < TWO63
    modifies a
    ensures n == |EncAttr(m)| && Wrote(old(a[..]), a[..], end - n, end, EncAttr(m))
  {
    ghost var was := a[..];
    var i := PutOptLen(a, end, 2, m.value, was, end, []);
    i := PutOptLen(a, i, 1, m.key, was, end, OptLen(2, m.value) + []);
    assert OptLen(1, m.key) + (OptLen(2, m.value) + []) == EncAttr(m);
    n := end - i;
  }

  method MarshalSelector(m: LogSelector, a: array<byte>, end: nat) returns (n: nat)
    requires |EncSelector(m)| <= end <= a.Length && |EncSelector(m)| < TWO63
    modifies a
    ensures n == |EncSelector(m)| && Wrote(old(a[..]), a[..], end - n, end, EncSelector(m))
  {
    ghost var was := a[..];
    ghost var p, q, r := LenFields(1, m.serviceIDs), LenFields(2, m.nodeIDs), LenFields(3, m.taskIDs);
    var i := PutLenFields(a, end, 3, m.taskIDs, was, end, []);
    i := PutLenFields(a, i, 2, m.nodeIDs, was, end, r + []);
    i := PutLenFields(a, i, 1, m.serviceIDs, was, end, q + (r + []));
    Assoc(p, q, r, []);
    n := end - i;
  }

  method PutStreams(a: array<byte>, i: nat, streams: seq<int32>,
                    ghost was: seq<byte>, ghost end: nat, ghost done: seq<byte>) returns (j: nat)
    requires Wrote(was, a[..], i, end, done) && |VarFields(1, U64s(streams))| <= i
    modifies a
    ensures Wrote(was, a[..], j, end, VarFields(1, U64s(streams)) + done)
  {
    ghost var vs := U64s(streams);
    j := i;
    ghost var written := done;
    assert VarFields(1, vs[|vs|..]) + done == done;
    for k := |streams| downto 0
      invariant written == VarFields(1, vs[k..]) + done
      invariant Wrote(was, a[..], j, end, written)
    {
      ghost var mid, n := a[..], j;
      VarFieldsFit(1, vs, k);
      assert vs[k..][1..] == vs[k + 1..];
      j := PutVarField(a, j, 1, ToU64(streams[k]));
      WroteInFront(was, mid, a[..], j, n, end, VarField(1, vs[k]), written);
      written := VarField(1, vs[k]) + written;
      assert written == VarFields(1, vs[k..]) + done;
    }
    assert vs[0..] == vs;
  }

  lemma {:induction false} VarFieldsFit(num: FieldNum, vs: seq<uint64>, k: nat)
    requires k < |vs|
    ensures |VarField(num, vs[k])| + |VarFields(num, vs[k + 1..])| <= |VarFields(num, vs)|
    decreases k
  {
    if k > 0 {
      VarFieldsFit(num, vs[1..], k - 1);
      assert vs[1..][k..] == vs[k + 1..];
    }
  }

  method MarshalOptions(m: LogSubscriptionOptions, a: array<byte>, end: nat) returns (n: nat)
    requires |EncOptions(m)| <= end <= a.Length
    modifies a
    ensures n == |EncOptions(m)| && Wrote(old(a[..]), a[..], end - n, end, EncOptions(m))
  {
    ghost var was := a[..];
    ghost var o, p, q, r := VarFields(1, U64s(m.streams)), Flag(2, m.follow), OptVar(3, ToU64(m.tail)),
                            EncOptTimestamp(4, m.since);
    var i := PutOptTimestamp(a, end, 4, m.since, was, end, []);
    i := PutOptVar(a, i, 3, ToU64(m.tail), was, end, r + []);
    i := PutFlag(a, i, 2, m.follow, was, end, q + (r + []));
    i := PutStreams(a, i, m.streams, was, end, p + (q + (r + [])));
    Assoc(o, p, q, r);
    n := end - i;
  }

  method PutAttrs(a: array<byte>, i: nat, attrs: seq<LogAttr>,
                  ghost was: seq<byte>, ghost end: nat, ghost done: seq<byte>) returns (j: nat)
    requires Wrote(was, a[..], i, end, done) && |LenFields(5, EncAttrs(attrs))| <= i
    requires |LenFields(5, EncAttrs(attrs))| < TWO63
    modifies a
    ensures Wrote(was, a[..], j, end, LenFields(5, EncAttrs(attrs)) + done)
  {
    ghost var ds := EncAttrs(attrs);
    j := i;
    ghost var written := done;
    assert LenFields(5, ds[|ds|..]) + done == done;
    for k := |attrs| downto 0
      invariant written == LenFields(5, ds[k..]) + done
      invariant Wrote(was, a[..], j, end, written)
    {
      ghost var mid, n := a[..], j;
      FieldsFit(5, ds, k);
      FieldsInFront(5, ds, k, done);
      var size := MarshalAttr(attrs[k], a, j);
      WroteInFront(was, mid, a[..], j - size, j, end, ds[k], written);
      j := PutSubHeader(a, j - size, 5, size, ds[k], was, end, written);
      written := LenField(5, ds[k]) + written;
    }
    assert ds[0..] == ds;
  }

  method MarshalMessage(m: LogMessage, a: array<byte>, end: nat) returns (n: nat)
    requires |EncMessage(m)| <= end <= a.Length && |EncMessage(m)| < TWO63
    modifies a
    ensures n == |EncMessage(m)| && Wrote(old(a[..]), a[..], end - n, end, EncMessage(m))
  {
    ghost var was := a[..];
    ghost var o, p, q := LenField(1, EncContext(m.context)), EncOptTimestamp(2, m.timestamp), OptVar(3, ToU64(m.stream));
    ghost var r, s := OptLen(4, m.data), LenFields(5, EncAttrs(m.attrs));
    var i := PutAttrs(a, end, m.attrs, was, end, []);
    i := PutOptLen(a, i, 4, m.data, was, end, s + []);
    i := PutOptVar(a, i, 3, ToU64(m.stream), was, end, r + (s + []));
    i := PutOptTimestamp(a, i, 2, m.timestamp, was, end, q + (r + (s + [])));
    i := PutContext(a, i, m.context, was, end, p + (q + (r + (s + []))));
    Assoc5(o, p, q, r, s);
    n := end - i;
  }

  method PutContext(a: array<byte>, i: nat, c: LogContext,
                    ghost was: seq<byte>, ghost end: nat, ghost done: seq<byte>) returns (j: nat)
    requires Wrote(was, a[..], i, end, done) && |LenField(1, EncContext(c))| <= i && |EncContext(c)| < TWO63
    modifies a
    ensures Wrote(was, a[..], j, end, LenField(1, EncContext(c)) + done)
  {
    ghost var mid := a[..];
    var size := MarshalContext(c, a, i);
    j := PutNested(a, i, 1, size, EncContext(c), mid, was, end, done);
  }

  method PutMessage(a: array<byte>, i: nat, m: LogMessage,
                    ghost was: seq<byte>, ghost end: nat, ghost done: seq<byte>) returns (j: nat)
    requires Wrote(was, a[..], i, end, done) && |LenField(2, EncMessage(m))| <= i && |EncMessage(m)| < TWO63
    modifies a
    ensures Wrote(was, a[..], j, end, LenField(2, EncMessage(m)) + done)
  {
    ghost var mid := a[..];
    var size := MarshalMessage(m, a, i);
    j := PutNested(a, i, 2, size, EncMessage(m), mid, was, end, done);
  }

  method PutMessages(a: array<byte>, i: nat, messages: seq<LogMessage>,
                     ghost was: seq<byte>, ghost end: nat, ghost done: seq<byte>) returns (j: nat)
    requires Wrote(was, a[..], i, end, done) && |LenFields(2, EncMessages(messages))| <= i
    requires |LenFields(2, EncMessages(messages))| < TWO63
    modifies a
    ensures Wrote(was, a[..], j, end, LenFields(2, EncMessages(messages)) + done)
  {
    ghost var ds := EncMessages(messages);
    j := i;
    ghost var written := done;
    assert LenFields(2, ds[|ds|..]) + done == done;
    for k := |messages| downto 0
      invariant written == LenFields(2, ds[k..]) + done
      invariant Wrote(was, a[..], j, end, written)
    {
      FieldsFit(2, ds, k);
      FieldsInFront(2, ds, k, done);
      j := PutMessage(a, j, messages[k], was, end, written);
      written := LenField(2, ds[k]) + written;
    }
    assert ds[0..] == ds;
  }

  method MarshalPublish(m: PublishLogsMessage, a: array<byte>, end: nat) returns (n: nat)
    requires |EncPublish(m)| <= end <= a.Length && |EncPublish(m)| < TWO63
    modifies a
    ensures n == |EncPublish(m)| && Wrote(old(a[..]), a[..], end - n, end, EncPublish(m))
  {
    ghost var was := a[..];
    ghost var p, q, r := OptLen(1, m.subscriptionID), LenFields(2, EncMessages(m.messages)), Flag(3, m.close);
    var i := PutFlag(a, end, 3, m.close, was, end, []);
    i := PutMessages(a, i, m.messages, was, end, r + []);
    i := PutOptLen(a, i, 1, m.subscriptionID, was, end, q + (r + []));
    Assoc(p, q, r, []);
    n := end - i;
  }

  method PutOptions(a: array<byte>, i: nat, m: LogSubscriptionOptions,
                    ghost was: seq<byte>, ghost end: nat, ghost done: seq<byte>) returns (j: nat)
    requires Wrote(was, a[..], i, end, done) && |LenField(3, EncOptions(m))| <= i && |EncOptions(m)| < TWO63
    modifies a
    ensures Wrote(was, a[..], j, end, LenField(3, EncOptions(m)) + done)
  {
    ghost var mid := a[..];
    var size := MarshalOptions(m, a, i);
    j := PutNested(a, i, 3, size, EncOptions(m), mid, was, end, done);
  }

  method PutOptOptions(a: array<byte>, i: nat, m: Option<LogSubscriptionOptions>,
                       ghost was: seq<byte>, ghost end: nat, ghost done: seq<byte>) returns (j: nat)
    requires var q := OptMsg(3, if m.None? then None else Some(EncOptions(m.value)));
             Wrote(was, a[..], i, end, done) && |q| <= i && |q| < TWO63
    modifies a
    ensures Wrote(was, a[..], j, end, OptMsg(3, if m.None? then None else Some(EncOptions(m.value))) + done)
  {
    j := i;
    if m.Some? { j := PutOptions(a, i, m.value, was, end, done); }
    else { assert [] + done == done; }
  }

  method PutSelector(a: array<byte>, i: nat, m: LogSelector,
                     ghost was: seq<byte>, ghost end: nat, ghost done: seq<byte>) returns (j: nat)
    requires Wrote(was, a[..], i, end, done) && |LenField(2, EncSelector(m))| <= i && |EncSelector(m)| < TWO63
    modifies a
    ensures Wrote(was, a[..], j, end, LenField(2, EncSelector(m)) + done)
  {
    ghost var mid := a[..];
    var size := MarshalSelector(m, a, i);
    j := PutNested(a, i, 2, size, EncSelector(m), mid, was, end, done);
  }

  method PutOptSelector(a: array<byte>, i: nat, m: Option<LogSelector>,
                        ghost was: seq<byte>, ghost end: nat, ghost done: seq<byte>) returns (j: nat)
    requires var p := OptMsg(2, if m.None? then None else Some(EncSelector(m.value)));
             Wrote(was, a[..], i, end, done) && |p| <= i && |p| < TWO63
    modifies a
    ensures Wrote(was, a[..], j, end, OptMsg(2, if m.None? then None else Some(EncSelector(m.value))) + done)
  {
    j := i;
    assert [] + done == done;
    if m.Some? { j := PutSelector(a, i, m.value, was, end, done); }
  }

  /** The end of a subscription: its options and its closing flag. */
  method PutSubscriptionEnd(m: SubscriptionMessage, a: array<byte>, end: nat) returns (i: nat)
    requires |OptOptions(m)| + |Flag(4, m.close)| <= end <= a.Length && |OptOptions(m)| < TWO63
    modifies a
    ensures Wrote(old(a[..]), a[..], i, end, OptOptions(m) + Flag(4, m.close))
  {
    ghost var was, r := a[..], Flag(4, m.close);
    i := PutFlag(a, end, 4, m.close, was, end, []);
    assert r + [] == r;
    i := PutOptOptions(a, i, m.options, was, end, r);
  }

  ghost function OptOptions(m: SubscriptionMessage): seq<byte> {
    OptMsg(3, if m.options.None? then None else Some(EncOptions(m.options.value)))
  }

  ghost function OptSelector(m: SubscriptionMessage): seq<byte> {
    OptMsg(2, if m.selector.None? then None else Some(EncSelector(m.selector.value)))
  }

  lemma SubscriptionParts(m: SubscriptionMessage)
    ensures EncSubscription(m) == OptLen(1, m.id) + (OptSelector(m) + (OptOptions(m) + Flag(4, m.close)))
  {
    Assoc(OptLen(1, m.id), OptSelector(m), OptOptions(m), Flag(4, m.close));
    assert Flag(4, m.close) + [] == Flag(4, m.close);
  }

  method MarshalSubscription(m: SubscriptionMessage, a: array<byte>, end: nat) returns (n: nat)
    requires |EncSubscription(m)| <= end <= a.Length && |EncSubscription(m)| < TWO63
    modifies a
    ensures n == |EncSubscription(m)| && Wrote(old(a[..]), a[..], end - n, end, EncSubscription(m))
  {
    SubscriptionParts(m);
    ghost var was, q := a[..], OptOptions(m) + Flag(4, m.close);
    var i := PutSubscriptionEnd(m, a, end);
    i := PutOptSelector(a, i, m.selector, was, end, q);
    i := PutOptLen(a, i, 1, m.id, was, end, OptSelector(m) + q);
    n := end - i;
  }

  // ---- Marshal ----

  /** A buffer of the computed size, filled from the back, is the encoding. */
  method SubscriptionBytesOf(m: SubscriptionMessage) returns (out: seq<byte>)
    requires |EncSubscription(m)| < TWO63
    ensures out == EncSubscription(m)
  {
    var size := SizeSubscription(m);
    var a := new byte[size];
    ghost var was := a[..];
    var n := MarshalSubscription(m, a, size);
    WroteAll(was, a[..], EncSubscription(m));
    out := a[..n];
  }

  method PublishBytesOf(m: PublishLogsMessage) returns (out: seq<byte>)
    requires |EncPublish(m)| < TWO63
    ensures out == EncPublish(m)
  {
    var size := SizePublish(m);
    var a := new byte[size];
    ghost var was := a[..];
    var n := MarshalPublish(m, a, size);
    WroteAll(was, a[..], EncPublish(m));
    out := a[..n];
  }
}
