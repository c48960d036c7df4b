/** The event loop of the agent: sessions, their gate, readiness, leaving and backoff. */
module AgentLoop {
  const INITIAL_BACKOFF := 100
  const MAX_BACKOFF := 8000

  datatype Call = Assign(changes: nat) | Update(changes: nat) | RemoveAll

  /** `session` numbers the sessions, `registrations` are those whose `registered` channel is closed, and
      `closed` is that channel of the current one.
      `watching`, `gate`, `ready` and `staying` say that the loop's `registered`, `sessionq`, `ready`
      and `leaving` are not nil. `readyCloses` and `leftCloses` count the closings of those channels,
      `calls` are the calls of the worker, `backoff` and `delay` are in milliseconds. */
  datatype State = State(
    session: nat, registrations: set<nat>, closed: bool,
    watching: bool, gate: bool,
    ready: bool, readyCloses: nat,
    staying: bool, leftCloses: nat, calls: seq<Call>,
    backoff: nat, delay: nat)

  const INIT := State(0, {}, false, true, false, true, 0, true, 0, [], 0, 0)

  datatype Event =
    | SessionRegisters(number: nat)
    | Operation
    | Leaving
    | Assignment(full: bool, changes: nat)
    | Registered
    | Failure(isErr: bool)
    | Closed(draw: nat)
    | NodeChanged

  function Min(a: nat, b: nat): nat { if a < b then a else b }

  /** The current session's registration is done; that of an earlier one may still come. */
  predicate HasRegistered(s: State) { s.session in s.registrations }

  /** `Registered` and `Leaving` need their channel closed and still watched; a new session may draw
      any delay below a positive backoff. */
  predicate Enabled(s: State, e: Event) {
    match e
    case SessionRegisters(k) => k <= s.session && k !in s.registrations
    case Operation => s.gate
    case Leaving => s.staying
    case Assignment(_, _) => true
    case Registered => s.watching && HasRegistered(s)
    case Failure(_) => true
    case Closed(draw) => s.closed && (if s.backoff > 0 then draw < s.backoff else draw == 0)
    case NodeChanged => true
  }

  function SessionClosed(s: State): State { s.(closed := true, gate := false, watching := false) }

  function Step(s: State, e: Event): State
    requires Enabled(s, e)
  {
    match e
    case SessionRegisters(k) => s.(registrations := s.registrations + {k})
    case Operation => s
    case Leaving => s.(staying := false, leftCloses := s.leftCloses + 1, calls := s.calls + [RemoveAll])
    case Assignment(full, changes) =>
      if !s.staying then s
      else s.(calls := s.calls + [if full then Assign(changes) else Update(changes)])
    case Registered =>
      s.(ready := false, readyCloses := s.readyCloses + (if s.ready then 1 else 0),
         watching := false, backoff := 0, gate := true)
    case Failure(isErr) =>
      SessionClosed(if isErr then s.(backoff := Min(INITIAL_BACKOFF + 2 * s.backoff, MAX_BACKOFF)) else s)
    case Closed(draw) => s.(session := s.session + 1, closed := false, watching := true, delay := draw)
    case NodeChanged => if s.watching then s else SessionClosed(s)
  }

  predicate Runs(es: seq<Event>)
    decreases |es|, 0
  {
    es == [] || (Runs(es[..|es| - 1]) && Enabled(Final(es[..|es| - 1]), es[|es| - 1]))
  }

  function Final(es: seq<Event>): State
    requires Runs(es)
    decreases |es|, 1
  {
    if es == [] then INIT else Step(Final(es[..|es| - 1]), es[|es| - 1])
  }

  // ---- the loop's variables, updated by the branches of the select ----

  class Agent {
    var session: nat
    var registrations: set<nat>
    var closed: bool
    var watching: bool
    var gate: bool
    var ready: bool
    var readyCloses: nat
    var staying: bool
    var leftCloses: nat
    var calls: seq<Call>
    var backoff: nat
    var delay: nat

    function View(): State
      reads this
    {
      State(session, registrations, closed, watching, gate, ready, readyCloses, staying, leftCloses, calls, backoff, delay)
    }

    constructor ()
      ensures View() == INIT
    {
      session, registrations, closed, watching, gate := 0, {}, false, true, false;
      ready, readyCloses, staying, leftCloses, calls, backoff, delay := true, 0, true, 0, [], 0, 0;
    }

    method CloseSession()
      modifies this
      ensures View() == SessionClosed(old(View()))
    {
      closed := true;
      gate := false;
      watching := false;
    }

    method OnRegistered()
      requires Enabled(View(), Registered)
      modifies this
      ensures View() == Step(old(View()), Registered)
    {
      if ready { readyCloses := readyCloses + 1; }
      ready := false;
      watching := false;
      backoff := 0;
      gate := true;
    }

    method OnFailure(isErr: bool)
      modifies this
      ensures View() == Step(old(View()), Failure(isErr))
    {
      if isErr {
        backoff := INITIAL_BACKOFF + 2 * backoff;
        if backoff > MAX_BACKOFF { backoff := MAX_BACKOFF; }
      }
      CloseSession();
    }

    method OnClosed(draw: nat)
      requires Enabled(View(), Closed(draw))
      modifies this
      ensures View() == Step(old(View()), Closed(draw))
    {
      delay := 0;
      if backoff > 0 { delay := draw; }
      session := session + 1;
      closed := false;
      watching := true;
    }

    method OnNodeChanged()
      modifies this
      ensures View() == Step(old(View()), NodeChanged)
    {
      if watching { return; }
      CloseSession();
    }

    method OnLeaving()
      requires staying
      modifies this
      ensures View() == Step(old(View()), Leaving)
    {
      staying := false;
      calls := calls + [RemoveAll];
      leftCloses := leftCloses + 1;
    }

    method OnAssignment(full: bool, changes: nat)
      modifies this
      ensures View() == Step(old(View()), Assignment(full, changes))
    {
      if !staying { return; }
      if full { calls := calls + [Assign(changes)]; } else { calls := calls + [Update(changes)]; }
    }
  }

  // ---- what every run keeps ----

  /** The gate is open only for a registered session that is not closed; the loop waits for the
      registration, has the gate open, or has a closed session to replace; the two one-time
      channels are closed at most once. */
  predicate Inv(s: State) {
    && (s.gate ==> HasRegistered(s) && !s.closed && !s.watching)
    && (forall k :: k in s.registrations ==> k <= s.session)
    && (s.watching ==> !s.closed)
    && (!s.watching && !s.gate ==> s.closed)
    && s.readyCloses == (if s.ready then 0 else 1)
    && s.leftCloses == (if s.staying then 0 else 1)
    && (s.gate ==> !s.ready && s.backoff == 0)
  }

  lemma {:induction false} RunKeepsInv(es: seq<Event>)
    requires Runs(es)
    ensures Inv(Final(es))
  {
    if es != [] { RunKeepsInv(es[..|es| - 1]); }
  }

  lemma {:induction false} PrefixRuns(es: seq<Event>, k: nat)
    requires Runs(es) && k <= |es|
    ensures Runs(es[..k])
    ensures k < |es| ==> Enabled(Final(es[..k]), es[k])
  {
    if k == |es| {
      assert es[..k] == es;
    } else {
      PrefixRuns(es[..|es| - 1], k);
      assert es[..|es| - 1][..k] == es[..k];
    }
  }

  /** Every session operation of every run finds the current session registered and not closed, the
      agent ready, and no backoff pending. */
  lemma OperationsAreGated(es: seq<Event>, i: nat)
    requires Runs(es) && i < |es| && es[i] == Operation
    ensures Runs(es[..i])
    ensures var s := Final(es[..i]); HasRegistered(s) && !s.closed && s.readyCloses == 1 && s.backoff == 0
  {
    PrefixRuns(es, i);
    RunKeepsInv(es[..i]);
  }

  /** `ready` and `left` are closed at most once, and the loop is never stuck with a session it
      neither waits for, serves nor can replace. */
  lemma ChannelsCloseOnce(es: seq<Event>)
    requires Runs(es)
    ensures Final(es).readyCloses <= 1 && Final(es).leftCloses <= 1
    ensures Final(es).watching || Final(es).gate || Enabled(Final(es), Closed(0))
  {
    RunKeepsInv(es);
  }

  lemma SessionOfStep(s: State, e: Event)
    requires Enabled(s, e)
    ensures s.session <= Step(s, e).session
    ensures Step(s, e).watching && Step(s, e).session == s.session ==> s.watching
  {
  }

  /** Numbers of sessions never go back, and a session whose registration was taken is not waited
      for again. */
  lemma {:induction false} SessionsAdvance(es: seq<Event>, k: nat)
    requires Runs(es) && k <= |es|
    ensures Runs(es[..k])
    ensures Final(es[..k]).session <= Final(es).session
    ensures Final(es).watching && Final(es).session == Final(es[..k]).session ==> Final(es[..k]).watching
  {
    PrefixRuns(es, k);
    if k == |es| {
      assert es[..k] == es;
    } else {
      var front := es[..|es| - 1];
      SessionsAdvance(front, k);
      SessionOfStep(Final(front), es[|es| - 1]);
      assert front[..k] == es[..k];
    }
  }

  /** The gate opens at most once per session: two registrations are taken in different sessions. */
  lemma RegistrationsAreDistinct(es: seq<Event>, i: nat, j: nat)
    requires Runs(es) && i < j < |es| && es[i] == Registered && es[j] == Registered
    ensures Runs(es[..i]) && Runs(es[..j]) && Final(es[..i]).session < Final(es[..j]).session
  {
    PrefixRuns(es, i);
    PrefixRuns(es, i + 1);
    PrefixRuns(es, j);
    assert es[..i + 1][..i] == es[..i] && es[..j][..i + 1] == es[..i + 1];
    SessionsAdvance(es[..j], i + 1);
  }

  lemma {:induction false} RegisteredBy(es: seq<Event>, number: nat) returns (j: nat)
    requires Runs(es) && number in Final(es).registrations
    ensures j < |es| && es[j] == SessionRegisters(number) && Runs(es[..j]) && number <= Final(es[..j]).session
  {
    var n := |es| - 1;
    if es[n] == SessionRegisters(number) {
      j := n;
    } else {
      j := RegisteredBy(es[..n], number);
      assert es[..n][..j] == es[..j];
    }
  }

  /** Every registration the loop takes was made by the session it then serves, while that session was
      the current one; late registrations of earlier sessions are never taken for it. */
  lemma RegistrationIsOwn(es: seq<Event>, i: nat)
    requires Runs(es) && i < |es| && es[i] == Registered
    ensures Runs(es[..i])
    ensures exists j: nat :: j < i && es[j] == SessionRegisters(Final(es[..i]).session) && SameSession(es, j, i)
  {
    PrefixRuns(es, i);
    var k := Final(es[..i]).session;
    var j := RegisteredBy(es[..i], k);
    assert es[..i][..j] == es[..j];
    SessionsAdvance(es[..i], j);
    assert SameSession(es, j, i);
  }

  ghost predicate SameSession(es: seq<Event>, j: nat, i: nat) {
    j <= |es| && i <= |es| && Runs(es[..j]) && Runs(es[..i]) && Final(es[..j]).session == Final(es[..i]).session
  }

  /** A session is given up only after it failed or had registered, never while it is registering. */
  lemma {:induction false} GivenUpForAReason(es: seq<Event>) returns (j: nat)
    requires Runs(es) && !Final(es).watching
    ensures j < |es| && (es[j].Failure? || es[j] == Registered) && SameSession(es, j, |es|)
  {
    var n := |es| - 1;
    assert es[..|es|] == es;
    if es[n].Failure? || es[n] == Registered {
      j := n;
    } else {
      j := GivenUpForAReason(es[..n]);
      assert es[..n][..j] == es[..j] && es[..n][..n] == es[..n];
    }
  }

  // ---- the loop's variables from the events ----

  /** The current session is still registering: nothing but registrations and changes that are not acted
      on since it was made. */
  ghost predicate Registering(es: seq<Event>)
    decreases |es|
  {
    es == [] ||
    match es[|es| - 1]
    case Closed(_) => true
    case Registered => false
    case Failure(_) => false
    case _ => Registering(es[..|es| - 1])
  }

  /** The current session was given up: it failed, or the description changed after it had registered. */
  ghost predicate GivenUp(es: seq<Event>)
    decreases |es|
  {
    es != [] &&
    match es[|es| - 1]
    case Closed(_) => false
    case Failure(_) => true
    case NodeChanged => GivenUp(es[..|es| - 1]) || !Registering(es[..|es| - 1])
    case _ => GivenUp(es[..|es| - 1])
  }

  function Sessions(es: seq<Event>): nat {
    if es == [] then 0 else Sessions(es[..|es| - 1]) + if es[|es| - 1].Closed? then 1 else 0
  }

  function LastDraw(es: seq<Event>): nat {
    if es == [] then 0 else if es[|es| - 1].Closed? then es[|es| - 1].draw else LastDraw(es[..|es| - 1])
  }

  ghost predicate Traced(es: seq<Event>, s: State) {
    && s.watching == Registering(es)
    && s.closed == GivenUp(es)
    && s.gate == (!Registering(es) && !GivenUp(es))
    && s.session == Sessions(es) && s.delay == LastDraw(es)
    && s.ready == (Registered !in es) && s.staying == (Leaving !in es)
  }

  lemma Extends(es: seq<Event>, e: Event)
    requires es != []
    ensures e in es <==> e in es[..|es| - 1] || es[|es| - 1] == e
  {
    assert es == es[..|es| - 1] + [es[|es| - 1]];
  }

  lemma TracedStep(es: seq<Event>, s: State)
    requires es != [] && Traced(es[..|es| - 1], s) && Inv(s) && Enabled(s, es[|es| - 1])
    ensures Traced(es, Step(s, es[|es| - 1]))
  {
    Extends(es, Registered);
    Extends(es, Leaving);
  }

  /** Over every run the loop's channels, its count of sessions and the delay of the last one are what
      the events say: operations are served exactly after the current session has registered and before
      it is given up. */
  lemma {:induction false} LoopIsItsTrace(es: seq<Event>)
    requires Runs(es)
    ensures Traced(es, Final(es))
  {
    if es != [] {
      LoopIsItsTrace(es[..|es| - 1]);
      RunKeepsInv(es[..|es| - 1]);
      TracedStep(es, Final(es[..|es| - 1]));
    }
  }

  /** A changed description of a session that is no longer registering leads to a new session, which
      registers after the delay drawn; the operations wait until then. */
  lemma ChangeReplacesSession(es: seq<Event>, draw: nat)
    requires Runs(es) && !Registering(es)
    ensures var s := Step(Final(es), NodeChanged);
            && Enabled(s, Closed(0)) && !Enabled(s, Operation)
            && (Enabled(s, Closed(draw)) ==>
                  var s' := Step(s, Closed(draw));
                  s'.session == Sessions(es) + 1 && s'.watching && s'.delay == draw && !Enabled(s', Operation))
  {
    LoopIsItsTrace(es);
  }

  // ---- leaving ----

  /** The calls that the messages of a run ask for. */
  function Asked(es: seq<Event>): seq<Call> {
    if es == [] then []
    else
      var rest := Asked(es[..|es| - 1]);
      match es[|es| - 1]
      case Assignment(full, changes) => rest + [if full then Assign(changes) else Update(changes)]
      case _ => rest
  }

  /** Until the node leaves, the worker gets every message, in order, complete ones as `Assign`. */
  lemma {:induction false} MessagesReachWorker(es: seq<Event>)
    requires Runs(es) && Final(es).staying
    ensures Final(es).calls == Asked(es)
  {
    if es != [] { MessagesReachWorker(es[..|es| - 1]); }
  }

  /** After `left`, no assignment reaches the worker: its last call is the removal of everything. */
  lemma {:induction false} NothingAfterLeft(es: seq<Event>, k: nat)
    requires Runs(es) && k < |es| && es[k] == Leaving
    ensures Runs(es[..k]) && Final(es).calls == Final(es[..k]).calls + [RemoveAll] && !Final(es).staying
  {
    PrefixRuns(es, k);
    var front := es[..|es| - 1];
    if k < |es| - 1 {
      assert front[k] == es[k] && front[..k] == es[..k];
      NothingAfterLeft(front, k);
    } else {
      assert front == es[..k];
    }
  }

  // ---- backoff ----

  function Pow2(n: nat): (r: nat)
    ensures r > 0
  {
    if n == 0 then 1 else 2 * Pow2(n - 1)
  }

  /** The errors since the last registration. */
  function ErrorsSince(es: seq<Event>): nat {
    if es == [] then 0
    else match es[|es| - 1]
      case Registered => 0
      case Failure(isErr) => ErrorsSince(es[..|es| - 1]) + if isErr then 1 else 0
      case _ => ErrorsSince(es[..|es| - 1])
  }

  function BackoffAfter(n: nat): nat { Min(100 * (Pow2(n) - 1), 8000) }

  lemma BackoffDoubles(n: nat)
    ensures Min(INITIAL_BACKOFF + 2 * BackoffAfter(n), MAX_BACKOFF) == BackoffAfter(n + 1)
  {
    assert Pow2(n + 1) == 2 * Pow2(n);
  }

  /** After `n` errors since the last registration the backoff is exactly `100 * (2^n - 1)`
      milliseconds, at most 8 seconds. */
  lemma {:induction false} BackoffIsExact(es: seq<Event>)
    requires Runs(es)
    ensures Final(es).backoff == BackoffAfter(ErrorsSince(es))
  {
    if es != [] {
      var front := es[..|es| - 1];
      BackoffIsExact(front);
      BackoffDoubles(ErrorsSince(front));
    }
  }

  /** The delay of a new session is zero without errors and below the backoff otherwise. */
  lemma DelayIsBounded(es: seq<Event>, draw: nat)
    requires Runs(es) && Enabled(Final(es), Closed(draw))
    ensures Step(Final(es), Closed(draw)).delay == 0 || Step(Final(es), Closed(draw)).delay < BackoffAfter(ErrorsSince(es))
    ensures ErrorsSince(es) == 0 ==> Step(Final(es), Closed(draw)).delay == 0
  {
    BackoffIsExact(es);
  }
}
