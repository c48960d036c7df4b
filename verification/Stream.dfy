/**
 The stream end to end: what the manager sends, what the network may lose, what `watch` passes on
 and what the agent applies, over any number of sessions.
 */
module Stream {
  import opened Api
  import opened Worker
  import opened WorkerDelta
  import opened WorkerAgreement
  import opened Session

  /** `last` and `used` are the references of the open stream; `sent` is the manager's set as of its
      last message and `applied` the set the agent has applied. */
  datatype Net = Net(watch: Watch, last: string, used: set<string>, sent: Assignments, applied: Assignments)

  const NEW_NET := Net(NEW_WATCH, "", {}, NOTHING_ASSIGNED, NOTHING_ASSIGNED)

  /** A new session replaces the old one; a restart of the agent also loses what is only in memory. */
  datatype Event =
    | Deliver(lost: seq<Msg>, msg: Msg)
    | DeliverTasks(tasks: seq<Task>)
    | NewSession(restarted: bool)

  function Apply(s: Assignments, m: Msg): Assignments { After(s, m.cs, m.full) }

  function ApplyAll(s: Assignments, ms: seq<Msg>): Assignments {
    if ms == [] then s else Apply(ApplyAll(s, ms[..|ms| - 1]), ms[|ms| - 1])
  }

  /** Each message applies to the result of the one before and results in a new reference. */
  ghost predicate Chained(last: string, used: set<string>, ms: seq<Msg>)
    decreases |ms|
  {
    ms == [] ||
    (ms[0].appliesTo == last && ms[0].resultsIn != "" && ms[0].resultsIn !in used
     && Chained(ms[0].resultsIn, used + {ms[0].resultsIn}, ms[1..]))
  }

  function Refs(ms: seq<Msg>): set<string> { set m | m in ms :: m.resultsIn }

  /** A stream starts with a complete message that is delivered; later messages chain and may get lost. */
  ghost predicate Enabled(n: Net, e: Event) {
    match e
    case Deliver(lost, m) =>
      && !n.watch.fallback
      && (if n.watch.open then Chained(n.last, n.used, lost + [m])
          else lost == [] && m.full && m.appliesTo == "" && m.resultsIn != "")
    case DeliverTasks(_) => true
    case NewSession(_) => true
  }

  /** The set of a manager that knows only the older call: its tasks, and neither secrets nor configs. */
  function TaskSet(ts: seq<Task>): Assignments { Assignments(Latest(ts), map[], map[]) }

  /** What `watch` hears in the round of the event. */
  function Heard(e: Event): Answers
    requires !e.NewSession?
  {
    match e
    case Deliver(_, m) => Answers(true, Resp(m), true, None)
    case DeliverTasks(ts) => Answers(true, Unimplemented, true, Some(ts))
  }

  /** The message `watch` passes on to the agent. */
  ghost function Forwarded(n: Net, e: Event): Msg
    requires Enabled(n, e) && !e.NewSession?
  {
    Round(n.watch, Heard(e)).value.1
  }

  function InMemoryLost(a: Assignments): Assignments { a.(secrets := map[], configs := map[]) }

  ghost function Step(n: Net, e: Event): Net
    requires Enabled(n, e)
  {
    match e
    case Deliver(lost, m) =>
      Net(Round(n.watch, Heard(e)).value.0, m.resultsIn,
          (if n.watch.open then n.used else {}) + Refs(lost + [m]),
          ApplyAll(n.sent, lost + [m]), Apply(n.applied, Forwarded(n, e)))
    case DeliverTasks(ts) =>
      Net(Round(n.watch, Heard(e)).value.0, "", {}, TaskSet(ts), Apply(n.applied, Forwarded(n, e)))
    case NewSession(restarted) =>
      Net(NEW_WATCH, "", {}, n.sent, if restarted then InMemoryLost(n.applied) else n.applied)
  }

  ghost predicate Runs(es: seq<Event>)
    decreases |es|, 0
  {
    es == [] || (Runs(es[..|es| - 1]) && Enabled(Final(es[..|es| - 1]), es[|es| - 1]))
  }

  ghost function Final(es: seq<Event>): Net
    requires Runs(es)
    decreases |es|, 1
  {
    if es == [] then NEW_NET else Step(Final(es[..|es| - 1]), es[|es| - 1])
  }

  /** The message broke the chain: messages of its stream before it were lost. */
  ghost predicate Gap(e: Event) { e.Deliver? && e.lost != [] }

  // ---- the invariant ----

  /** While a stream is held open, its last reference is remembered and the agent is in step. */
  ghost predicate Inv(n: Net) {
    && (n.watch.open ==>
          && n.watch.reference == n.last && n.last != "" && n.last in n.used
          && n.applied == n.sent && !n.watch.fallback)
    && (n.watch.reference == "" ==> !n.watch.open && n.last == "")
  }

  lemma {:induction false} ChainedMembers(last: string, used: set<string>, ms: seq<Msg>)
    requires Chained(last, used, ms) && ms != [] && last in used
    ensures ms[|ms| - 1].resultsIn != "" && ms[|ms| - 1].resultsIn !in used
    ensures ms[|ms| - 1].appliesTo == last <==> |ms| == 1
    decreases |ms|
  {
    if |ms| > 1 {
      ChainedMembers(ms[0].resultsIn, used + {ms[0].resultsIn}, ms[1..]);
      ChainedPrevious(last, used, ms);
    }
  }

  lemma {:induction false} ChainedPrevious(last: string, used: set<string>, ms: seq<Msg>)
    requires Chained(last, used, ms) && |ms| > 1
    ensures ms[|ms| - 1].appliesTo !in used
    decreases |ms|
  {
    if |ms| == 2 {
      assert ms[1..][0] == ms[1];
    } else {
      ChainedPrevious(ms[0].resultsIn, used + {ms[0].resultsIn}, ms[1..]);
      assert ms[1..][|ms| - 2] == ms[|ms| - 1];
    }
  }

  /** A message of an open stream is found to break the chain exactly when one before it was lost. */
  lemma GapIsDetected(n: Net, e: Event)
    requires Inv(n) && n.watch.open && e.Deliver? && Enabled(n, e)
    ensures Step(n, e).watch.open <==> e.lost == []
    ensures e.lost == [] ==> Step(n, e).watch.reference == e.msg.resultsIn
    ensures e.lost != [] ==> Step(n, e).watch.reference == n.watch.reference
    ensures e.msg.resultsIn != ""
  {
    var ms := e.lost + [e.msg];
    ChainedMembers(n.last, n.used, ms);
    assert ms[|ms| - 1] == e.msg;
  }

  lemma ApplyOne(s: Assignments, m: Msg)
    ensures ApplyAll(s, [] + [m]) == Apply(s, m)
  {
    assert [] + [m] == [m] && [m][..0] == [];
    assert ApplyAll(s, []) == s;
  }

  lemma StepKeepsInv(n: Net, e: Event)
    requires Inv(n) && Enabled(n, e)
    ensures Inv(Step(n, e))
  {
    match e
    case Deliver(lost, m) =>
      if n.watch.open { GapIsDetected(n, e); }
      if lost == [] { StepAgrees(n, e); }
      assert m in lost + [m];
    case DeliverTasks(_) =>
    case NewSession(_) =>
  }

  lemma {:induction false} RunKeepsInv(es: seq<Event>)
    requires Runs(es)
    ensures Inv(Final(es))
  {
    if es != [] {
      RunKeepsInv(es[..|es| - 1]);
      StepKeepsInv(Final(es[..|es| - 1]), es[|es| - 1]);
    }
  }

  // ---- agreement ----

  lemma CompleteForgets(s: Assignments, t: Assignments, m: Msg)
    requires m.full
    ensures Apply(s, m) == Apply(t, m)
  {
  }

  lemma {:induction false} UpdatesOfTasks(ts: seq<Task>)
    ensures InOrder(map[], AsUpdates(ts), TaskOf) == Latest(ts)
    ensures InOrder(map[], AsUpdates(ts), SecretOf) == map[] && InOrder(map[], AsUpdates(ts), ConfigOf) == map[]
  {
    if ts != [] {
      var front := AsUpdates(ts[..|ts| - 1]);
      UpdatesOfTasks(ts[..|ts| - 1]);
      assert AsUpdates(ts)[..|front|] == front;
    }
  }

  /** Applying a message of the older call leaves its tasks and nothing else. */
  lemma WrappedSets(s: Assignments, ts: seq<Task>)
    ensures Apply(s, Wrapped(ts)) == TaskSet(ts)
  {
    UpdatesOfTasks(ts);
  }

  lemma StepAgrees(n: Net, e: Event)
    requires Inv(n) && Enabled(n, e) && !Gap(e) && !e.NewSession?
    ensures Step(n, e).applied == Step(n, e).sent
  {
    match e
    case Deliver(lost, m) =>
      ApplyOne(n.sent, m);
      if m.full { CompleteForgets(n.sent, n.applied, m); }
    case DeliverTasks(ts) =>
      WrappedSets(n.applied, ts);
  }

  /** In every run over any sessions, after every message that does not break the chain, the agent's
      set is the manager's. */
  lemma AgreesAfterEveryMessage(es: seq<Event>)
    requires Runs(es) && es != [] && !Gap(es[|es| - 1]) && !es[|es| - 1].NewSession?
    ensures Final(es).applied == Final(es).sent
  {
    RunKeepsInv(es[..|es| - 1]);
    StepAgrees(Final(es[..|es| - 1]), es[|es| - 1]);
  }

  lemma GapCloses(es: seq<Event>)
    requires Runs(es) && es != [] && Gap(es[|es| - 1])
    ensures !Final(es).watch.open && Final(es).watch.reference != ""
  {
    var n := Final(es[..|es| - 1]);
    RunKeepsInv(es[..|es| - 1]);
    GapIsDetected(n, es[|es| - 1]);
  }

  lemma ClosedStarts(n: Net, e: Event)
    requires Inv(n) && !n.watch.open && n.watch.reference != "" && Enabled(n, e)
    ensures !Gap(e) && (e.Deliver? ==> e.msg.full && e.msg.appliesTo == "") && !Step(n, e).watch.open
    ensures !e.NewSession? ==> Step(n, e).applied == Step(n, e).sent
  {
    if !e.NewSession? { StepAgrees(n, e); }
  }

  /** After a message that breaks the chain, the stream is closed and the next message, of whichever
      session, starts a new one: it is complete and brings the agent back in step. */
  lemma OutOfStepForOneMessage(es: seq<Event>, e: Event)
    requires Runs(es) && es != [] && Gap(es[|es| - 1]) && Enabled(Final(es), e)
    ensures !Gap(e) && (e.Deliver? ==> e.msg.full && e.msg.appliesTo == "")
    ensures !e.NewSession? ==> Step(Final(es), e).applied == Step(Final(es), e).sent
    ensures !Step(Final(es), e).watch.open
  {
    GapCloses(es);
    RunKeepsInv(es);
    ClosedStarts(Final(es), e);
  }

  /** A gap does put the agent out of step: the changes of the message that got lost are missing. */
  lemma {:induction false} GapLosesChanges(t: Task) returns (es: seq<Event>)
    ensures Runs(es) && es != [] && Gap(es[|es| - 1])
    ensures t.id in Final(es).sent.tasks && t.id !in Final(es).applied.tasks
  {
    var first := Deliver([], Msg(true, [], "", "1"));
    var second := Deliver([Msg(false, [Change(UpdateAction, TaskItem(t))], "1", "2")], Msg(false, [], "2", "3"));
    var n1 := Step(NEW_NET, first);
    assert [first][..0] == [];
    assert Runs([first]) && Final([first]) == n1;
    StepAgrees(NEW_NET, first);
    ApplyOne(NOTHING_ASSIGNED, first.msg);
    assert n1.watch == Watch(true, false, "1", false) && n1.last == "1" && n1.used == {"1"};
    assert n1.sent == NOTHING_ASSIGNED && n1.applied == NOTHING_ASSIGNED;
    ThreeRefs(second.lost[0], second.msg);
    es := [first, second];
    assert es[..1] == [first];
    AfterLost(n1.sent, t, second.lost[0], second.msg);
  }

  lemma ThreeRefs(a: Msg, b: Msg)
    requires a.appliesTo == "1" && a.resultsIn == "2" && b.appliesTo == "2" && b.resultsIn == "3"
    ensures Chained("1", {"1"}, [a] + [b])
  {
    assert ([a] + [b])[1..] == [b] && [b][1..] == [];
    assert Chained("3", {"1"} + {"2"} + {"3"}, []);
    assert "2" != "1" && "3" != "1" && "3" != "2";
    assert Chained("2", {"1"} + {"2"}, [b]);
  }

  lemma AfterLost(s: Assignments, t: Task, a: Msg, b: Msg)
    requires a.cs == [Change(UpdateAction, TaskItem(t))] && !a.full && b.cs == [] && !b.full
    ensures t.id in ApplyAll(s, [a] + [b]).tasks && Apply(s, b).tasks == s.tasks
  {
    assert ([a] + [b])[..1] == [a] && [a][..0] == [] && a.cs[..0] == [];
    assert ApplyAll(s, []) == s && ApplyAll(s, [a]) == Apply(s, a);
  }

  // ---- when a stream is held open ----

  /** The messages since the last change of session. */
  function ThisSession(es: seq<Event>): seq<Event> {
    if es == [] || es[|es| - 1].NewSession? then [] else ThisSession(es[..|es| - 1]) + [es[|es| - 1]]
  }

  /** The message neither broke the chain nor came by the older call. */
  ghost predicate Smooth(e: Event) { e.Deliver? && e.lost == [] }

  ghost predicate AllSmooth(es: seq<Event>) { forall e :: e in es ==> Smooth(e) }

  ghost predicate Disturbed(n: Net) { !n.watch.open && (n.watch.reference != "" || n.watch.fallback) }

  lemma SmoothNext(now: seq<Event>, e: Event)
    ensures AllSmooth(now + [e]) <==> AllSmooth(now) && Smooth(e)
  {
    assert e in now + [e];
  }

  /** What the watch looks like follows from the messages of this session. */
  lemma {:induction false} WatchOfSession(es: seq<Event>)
    requires Runs(es)
    ensures var n, now := Final(es), ThisSession(es);
            && (now == [] ==> n.watch == NEW_WATCH)
            && (now != [] && AllSmooth(now) ==> n.watch.open)
            && (now != [] && !AllSmooth(now) ==> Disturbed(n))
  {
    if es != [] && !es[|es| - 1].NewSession? {
      var front, e := es[..|es| - 1], es[|es| - 1];
      WatchOfSession(front);
      RunKeepsInv(front);
      var n, now := Final(front), ThisSession(front);
      assert ThisSession(es) == now + [e];
      SmoothNext(now, e);
      if n.watch.open && e.Deliver? { GapIsDetected(n, e); }
    }
  }

  /** A stream is held open if and only if this session has had a message, none of its messages broke
      the chain, and none came by the older call. */
  lemma OpenExactly(es: seq<Event>)
    requires Runs(es)
    ensures Final(es).watch.open <==> ThisSession(es) != [] && AllSmooth(ThisSession(es))
  {
    WatchOfSession(es);
  }

  ghost predicate FreshStart(e: Event) { e.Deliver? ==> e.msg.full && e.msg.appliesTo == "" && !Gap(e) }

  /** A gap is permanent: the reference it broke is kept, so until the session is replaced no stream is
      held open again, and the next message is a complete one again. */
  lemma GapIsPermanent(es: seq<Event>, g: Event, e: Event)
    requires Runs(es) && g in ThisSession(es) && Gap(g) && Enabled(Final(es), e) && !e.NewSession?
    ensures !Final(es).watch.open && FreshStart(e) && !Step(Final(es), e).watch.open
  {
    WatchOfSession(es);
    assert !Smooth(g);
  }
}
