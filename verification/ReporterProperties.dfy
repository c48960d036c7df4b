/** What every interleaving of submissions, upstream results and `Close` keeps. */
module ReporterProperties {
  import opened Api
  import opened Logs
  import opened Reporter

  // ---- one task's statuses: accepted, delivered, pending and in flight ----

  function Front(a: seq<Status>): seq<Status>
    requires a != []
  {
    a[..|a| - 1]
  }

  /** The status in flight is the accepted status number `j`, and no later one was sent. */
  predicate FlightAt(acc: seq<Status>, del: seq<Status>, pending: Option<Status>, flight: Status, j: int) {
    && 0 <= j < |acc| && acc[j] == flight
    && Subseq(del, acc[..j])
    && (pending.Some? <==> j < |acc| - 1)
  }

  /** Every accepted status has been superseded or delivered. */
  predicate Settled(acc: seq<Status>, del: seq<Status>) {
    if acc == [] then del == []
    else del != [] && del[|del| - 1] == acc[|acc| - 1] && Subseq(Front(del), Front(acc))
  }

  ghost predicate Track(acc: seq<Status>, del: seq<Status>, pending: Option<Status>, flight: Option<Status>,
                        closed: bool)
  {
    && Subseq(del, acc)
    && (pending.Some? ==> acc != [] && pending.value == acc[|acc| - 1])
    && (if flight.Some? then exists j :: FlightAt(acc, del, pending, flight.value, j)
        else if pending.Some? then Subseq(del, Front(acc))
        else !closed ==> Settled(acc, del))
  }

  lemma TrackSubmit(acc: seq<Status>, del: seq<Status>, pending: Option<Status>, flight: Option<Status>,
                    closed: bool, st: Status)
    requires Track(acc, del, pending, flight, closed)
    ensures Track(acc + [st], del, Some(st), flight, closed)
  {
    Extend(del, acc, st);
    assert Front(acc + [st]) == acc;
    if flight.Some? {
      var j :| FlightAt(acc, del, pending, flight.value, j);
      assert (acc + [st])[..j] == acc[..j];
      assert FlightAt(acc + [st], del, Some(st), flight.value, j);
    }
  }

  lemma TrackPick(acc: seq<Status>, del: seq<Status>, st: Status, closed: bool)
    requires Track(acc, del, Some(st), None, closed)
    ensures Track(acc, del, None, Some(st), closed)
  {
    assert FlightAt(acc, del, None, st, |acc| - 1);
  }

  lemma TrackFailed(acc: seq<Status>, del: seq<Status>, pending: Option<Status>, st: Status, closed: bool)
    requires Track(acc, del, pending, Some(st), closed)
    ensures Track(acc, del, if pending.None? && !closed then Some(st) else pending, None, closed)
  {
    var j :| FlightAt(acc, del, pending, st, j);
    if pending.Some? {
      assert Front(acc)[..j] == acc[..j];
      Prefix(del, Front(acc), j);
    }
  }

  lemma SentUpTo(acc: seq<Status>, del: seq<Status>, j: nat)
    requires j < |acc| && Subseq(del, acc[..j])
    ensures Subseq(del + [acc[j]], acc[..j + 1])
  {
    Extend(del, acc[..j], acc[j]);
    assert acc[..j] + [acc[j]] == acc[..j + 1];
  }

  lemma SentIsSubseq(acc: seq<Status>, del: seq<Status>, j: nat)
    requires j < |acc| && Subseq(del, acc[..j])
    ensures Subseq(del + [acc[j]], acc)
  {
    SentUpTo(acc, del, j);
    Prefix(del + [acc[j]], acc, j + 1);
  }

  lemma SentBeforeLast(acc: seq<Status>, del: seq<Status>, j: nat)
    requires j < |acc| - 1 && Subseq(del, acc[..j])
    ensures Subseq(del + [acc[j]], Front(acc))
  {
    assert Front(acc)[..j] == acc[..j] && Front(acc)[j] == acc[j];
    SentIsSubseq(Front(acc), del, j);
  }

  lemma SentLast(acc: seq<Status>, del: seq<Status>)
    requires acc != [] && Subseq(del, acc[..|acc| - 1])
    ensures Settled(acc, del + [acc[|acc| - 1]])
  {
    assert Front(del + [acc[|acc| - 1]]) == del;
  }

  lemma TrackSent(acc: seq<Status>, del: seq<Status>, pending: Option<Status>, st: Status, closed: bool)
    requires Track(acc, del, pending, Some(st), closed)
    ensures Track(acc, del + [st], pending, None, closed)
  {
    var j :| FlightAt(acc, del, pending, st, j);
    SentIsSubseq(acc, del, j);
    if pending.Some? { SentBeforeLast(acc, del, j); } else { SentLast(acc, del); }
  }

  // ---- every run ----

  function Pending(s: State, id: string): Option<Status> {
    if id in s.statuses then Some(s.statuses[id]) else None
  }

  function Flight(s: State, id: string): Option<Status> {
    if s.pc.SendingStatus? && s.pc.id == id then Some(s.pc.status) else None
  }

  ghost predicate InvOf(s: State, id: string) {
    Track(Of(s.accepted, id), Of(s.delivered, id), Pending(s, id), Flight(s, id), s.closed)
  }

  ghost predicate InvVolumes(s: State) {
    && (!s.closed ==>
          s.reported <= s.volumes + s.vdone + (if s.pc.SendingVolume? then {s.pc.id} else {}))
    && (s.pc.StatusLoop? || s.pc.VolumeLoop? ==> !s.closed)
  }

  /** What the log, the pending map and the call in flight hold of one task. */
  datatype Parts = Parts(acc: seq<Status>, del: seq<Status>, pending: Option<Status>, flight: Option<Status>, closed: bool)

  function PartsOf(s: State, id: string): Parts {
    Parts(Of(s.accepted, id), Of(s.delivered, id), Pending(s, id), Flight(s, id), s.closed)
  }

  predicate Submits(p: Parts, q: Parts) { q.pending.Some? && q == p.(acc := p.acc + [q.pending.value], pending := q.pending) }

  predicate Picks(p: Parts, q: Parts) { p.pending.Some? && p.flight.None? && q == p.(pending := None, flight := p.pending) }

  predicate Delivers(p: Parts, q: Parts) { p.flight.Some? && q == p.(del := p.del + [p.flight.value], flight := None) }

  predicate Fails(p: Parts, q: Parts) {
    p.flight.Some? && q == p.(flight := None, pending := if p.pending.None? && !p.closed then p.flight else p.pending)
  }

  /** What a step may do to one task. */
  predicate Moves(p: Parts, q: Parts) {
    q == p || Submits(p, q) || Picks(p, q) || Delivers(p, q) || Fails(p, q) || q == p.(closed := true)
  }

  lemma SubmitMoves(s: State, key: string, st: Status, id: string)
    requires Enabled(s, UpdateTaskStatus(key, st))
    ensures Moves(PartsOf(s, id), PartsOf(Step(s, UpdateTaskStatus(key, st)), id))
  {
    OfAppend(s.accepted, id, key, st);
  }

  lemma SentMoves(s: State, ok: bool, id: string)
    requires Enabled(s, StatusSent(ok))
    ensures Moves(PartsOf(s, id), PartsOf(Step(s, StatusSent(ok)), id))
  {
    OfAppend(s.delivered, id, s.pc.id, s.pc.status);
  }

  lemma StepMoves(s: State, e: Event, id: string)
    requires Enabled(s, e)
    ensures Moves(PartsOf(s, id), PartsOf(Step(s, e), id))
  {
    match e
    case UpdateTaskStatus(key, st) => SubmitMoves(s, key, st, id);
    case StatusSent(ok) => SentMoves(s, ok, id);
    case _ =>
  }

  lemma MoveKeepsTrack(p: Parts, q: Parts)
    requires Moves(p, q) && Track(p.acc, p.del, p.pending, p.flight, p.closed)
    ensures Track(q.acc, q.del, q.pending, q.flight, q.closed)
  {
    if Submits(p, q) { TrackSubmit(p.acc, p.del, p.pending, p.flight, p.closed, q.pending.value); }
    else if Picks(p, q) { TrackPick(p.acc, p.del, p.pending.value, p.closed); }
    else if Delivers(p, q) { TrackSent(p.acc, p.del, p.pending, p.flight.value, p.closed); }
    else if Fails(p, q) { TrackFailed(p.acc, p.del, p.pending, p.flight.value, p.closed); }
  }

  lemma StepKeepsInvOf(s: State, e: Event, id: string)
    requires InvOf(s, id) && Enabled(s, e)
    ensures InvOf(Step(s, e), id)
  {
    StepMoves(s, e, id);
    MoveKeepsTrack(PartsOf(s, id), PartsOf(Step(s, e), id));
  }

  lemma StepKeepsInvVolumes(s: State, e: Event)
    requires InvVolumes(s) && Enabled(s, e)
    ensures InvVolumes(Step(s, e))
  {
    match e
    case UpdateTaskStatus(_, _) =>
    case StatusSent(_) =>
    case VolumeSent(_) =>
    case _ =>
  }

  lemma {:induction false} RunKeepsInv(es: seq<Event>, id: string)
    requires Runs(es)
    ensures InvOf(Final(es), id) && InvVolumes(Final(es))
    decreases |es|
  {
    if es != [] {
      var n := |es| - 1;
      RunKeepsInv(es[..n], id);
      StepKeepsInvOf(Final(es[..n]), es[n], id);
      StepKeepsInvVolumes(Final(es[..n]), es[n]);
    }
  }

  /** The newest accepted status is pending, in flight, or the last delivered. */
  predicate NewestSafe(acc: seq<Status>, del: seq<Status>, pending: Option<Status>, flight: Option<Status>) {
    acc != [] ==>
      var newest := acc[|acc| - 1];
      pending == Some(newest) || flight == Some(newest) || (del != [] && del[|del| - 1] == newest && Subseq(Front(del), Front(acc)))
  }

  lemma TrackMeans(acc: seq<Status>, del: seq<Status>, pending: Option<Status>, flight: Option<Status>, closed: bool)
    requires Track(acc, del, pending, flight, closed)
    ensures Subseq(del, acc) && (!closed ==> NewestSafe(acc, del, pending, flight))
  {
    if pending.None? && flight.Some? {
      var j :| FlightAt(acc, del, pending, flight.value, j);
      assert j == |acc| - 1;
    }
  }

  /** On every run, the successful deliveries for a task are a subsequence of its accepted statuses
      in the order of acceptance; and until `Close` the last accepted one is pending, in flight, or
      the last delivered. */
  lemma DeliveredInOrderAndNotLost(es: seq<Event>, id: string)
    requires Runs(es)
    ensures var s := Final(es);
            && Subseq(Of(s.delivered, id), Of(s.accepted, id))
            && (!s.closed ==> NewestSafe(Of(s.accepted, id), Of(s.delivered, id), Pending(s, id), Flight(s, id)))
  {
    RunKeepsInv(es, id);
    var s := Final(es);
    TrackMeans(Of(s.accepted, id), Of(s.delivered, id), Pending(s, id), Flight(s, id), s.closed);
  }

  /** Until `Close`, every reported volume is pending, in flight, or was delivered after its last
      report. */
  lemma VolumesNotLost(es: seq<Event>, volume: string)
    requires Runs(es)
    ensures var s := Final(es);
            volume in s.reported && !s.closed ==>
              volume in s.volumes || volume in s.vdone || (s.pc.SendingVolume? && s.pc.id == volume)
  {
    RunKeepsInv(es, "");
  }

  lemma {:induction false} ClosedStays(es: seq<Event>, i: int)
    requires Runs(es) && 0 <= i < |es| && es[i] == Close
    ensures Final(es).closed
    decreases |es|
  {
    if i < |es| - 1 { ClosedStays(es[..|es| - 1], i); }
  }

  /** No upstream call begins after `Close`. */
  lemma {:induction false} NothingSentAfterClose(es: seq<Event>, i: int, j: int)
    requires Runs(es) && 0 <= i < j < |es| && es[i] == Close
    ensures !es[j].PickStatus? && !es[j].PickVolume?
    decreases |es|
  {
    var n := |es| - 1;
    if j < n { NothingSentAfterClose(es[..n], i, j); }
    else {
      RunKeepsInv(es[..n], "");
      ClosedStays(es[..n], i);
    }
  }

  /** `Close` arrived before the runner first took the lock. */
  ghost predicate ClosedEarly(es: seq<Event>) {
    exists i :: 0 <= i < |es| && es[i] == Close && forall j :: 0 <= j < i ==> es[j] != Start
  }

  predicate IsRunnerMove(e: Event) { !e.UpdateTaskStatus? && !e.ReportVolume? && !e.Close? }

  predicate Leaving(pc: PC) { pc.Exited? || pc.SendingStatus? || pc.SendingVolume? || pc == Waiting(true) }

  lemma ClosedEarlyGrows(es: seq<Event>)
    requires es != [] && ClosedEarly(es[..|es| - 1])
    ensures ClosedEarly(es)
  {
    var n := |es| - 1;
    var i :| 0 <= i < n && es[..n][i] == Close && forall j :: 0 <= j < i ==> es[..n][j] != Start;
    assert es[i] == Close && forall j :: 0 <= j < i ==> es[j] == es[..n][j];
  }

  lemma LeavingOfStep(s: State, e: Event)
    requires InvVolumes(s) && Enabled(s, e) && (s.closed ==> Leaving(s.pc))
    requires e == Close ==> !s.pc.NotStarted?
    ensures Step(s, e).closed ==> Leaving(Step(s, e).pc)
    ensures Step(s, e).pc.NotStarted? ==> s.pc.NotStarted? && e != Start
  {
  }

  lemma {:induction false} StartsBeforeClose(es: seq<Event>)
    requires Runs(es) && !ClosedEarly(es)
    ensures Final(es).closed ==> Leaving(Final(es).pc)
    ensures Final(es).pc.NotStarted? ==> forall j :: 0 <= j < |es| ==> es[j] != Start
    decreases |es|
  {
    if es != [] {
      var n := |es| - 1;
      if ClosedEarly(es[..n]) { ClosedEarlyGrows(es); }
      StartsBeforeClose(es[..n]);
      RunKeepsInv(es[..n], "");
      LeavingOfStep(Final(es[..n]), es[n]);
    }
  }

  /** If the runner was running when `Close` came, its next move ends it, and it has one. */
  lemma CloseEndsRunner(es: seq<Event>, e: Event)
    requires Runs(es) && !ClosedEarly(es) && Final(es).closed
    ensures var s := Final(es);
            && (Enabled(s, e) && IsRunnerMove(e) ==> Step(s, e).pc.Exited?)
            && (s.pc.Exited? || Enabled(s, Wake) || Enabled(s, StatusSent(true)) || Enabled(s, VolumeSent(true)))
  {
    StartsBeforeClose(es);
  }

  // ---- exactly when `Close` does not end the runner ----

  /** A further `Close` (the one at the end of the context) came after the runner's check. */
  ghost predicate ClosedAfterCheck(es: seq<Event>) {
    exists i, j :: 0 <= i < j < |es| && es[i] == Check && es[j] == Close
  }

  /** `Close` came before the runner took the lock, nothing was ever submitted, and no `Close` came
      after the runner looked. */
  ghost predicate SignalLost(es: seq<Event>)
    requires Runs(es)
  {
    ClosedEarly(es) && Final(es).accepted == [] && Final(es).reported == {} && !ClosedAfterCheck(es)
  }

  /** What the runner's place says about the events so far: which of `Close`, `Start` and `Check`
      happened, and whether `Close` came before `Start`. */
  predicate PlacedBy(s: State, close: bool, start: bool, check: bool, early: bool) {
    && s.closed == close && (s.pc.NotStarted? <==> !start)
    && (s.accepted == [] ==> s.statuses == map[] && !s.pc.SendingStatus?)
    && (s.reported == {} ==> s.volumes == {} && !s.pc.SendingVolume?)
    && (s.pc.NotStarted? ==> !check) && (!check ==> s.pc.NotStarted? || s.pc.Top?)
    && (!check && s.statuses == map[] ==> s.accepted == []) && (!check && s.volumes == {} ==> s.reported == {})
    && (close && s.pc.Top? ==> !check) && (close && !check ==> early)
    && (s.pc.StatusLoop? || s.pc.VolumeLoop? ==> !close)
  }

  lemma PlacedStep(s: State, e: Event, close: bool, start: bool, check: bool, early: bool)
    requires Enabled(s, e) && PlacedBy(s, close, start, check, early)
    ensures PlacedBy(Step(s, e), close || e == Close, start || e == Start, check || e == Check,
                     early || (e == Close && !start))
  {
    match e
    case UpdateTaskStatus(_, _) =>
    case ReportVolume(_) =>
    case Check =>
    case StatusSent(_) =>
    case VolumeSent(_) =>
    case _ =>
  }

  ghost predicate Placed(s: State, es: seq<Event>) {
    PlacedBy(s, Close in es, Start in es, Check in es, ClosedEarly(es))
  }

  lemma InNext(es: seq<Event>, x: Event)
    requires es != []
    ensures x in es <==> x in es[..|es| - 1] || x == es[|es| - 1]
  {
    assert es == es[..|es| - 1] + [es[|es| - 1]];
  }

  lemma ClosedEarlyNext(es: seq<Event>)
    requires es != []
    ensures ClosedEarly(es) <==> ClosedEarly(es[..|es| - 1]) || (es[|es| - 1] == Close && Start !in es[..|es| - 1])
  {
    var n := |es| - 1;
    if ClosedEarly(es[..n]) { ClosedEarlyGrows(es); }
    if ClosedEarly(es) {
      var i :| 0 <= i < |es| && es[i] == Close && forall j :: 0 <= j < i ==> es[j] != Start;
      if i < n { assert es[..n][i] == Close && forall j :: 0 <= j < i ==> es[..n][j] == es[j]; }
    }
    if es[n] == Close && Start !in es[..n] { assert forall j :: 0 <= j < n ==> es[j] == es[..n][j]; }
  }

  lemma ClosedAfterCheckNext(es: seq<Event>)
    requires es != []
    ensures ClosedAfterCheck(es) <==> ClosedAfterCheck(es[..|es| - 1]) || (es[|es| - 1] == Close && Check in es[..|es| - 1])
  {
    var n := |es| - 1;
    if ClosedAfterCheck(es[..n]) {
      var i, j :| 0 <= i < j < n && es[..n][i] == Check && es[..n][j] == Close;
      assert es[i] == Check && es[j] == Close;
    }
    if ClosedAfterCheck(es) {
      var i, j :| 0 <= i < j < |es| && es[i] == Check && es[j] == Close;
      assert es[..n][i] == Check;
      if j < n { assert es[..n][j] == Close; }
    }
    if es[n] == Close && Check in es[..n] {
      var i :| 0 <= i < n && es[..n][i] == Check;
      assert es[i] == Check;
    }
  }

  lemma PlacedNext(es: seq<Event>)
    requires Runs(es) && es != [] && Placed(Final(es[..|es| - 1]), es[..|es| - 1])
    ensures Placed(Final(es), es)
  {
    InNext(es, Close);
    InNext(es, Start);
    InNext(es, Check);
    ClosedEarlyNext(es);
    var front := es[..|es| - 1];
    PlacedStep(Final(front), es[|es| - 1], Close in front, Start in front, Check in front, ClosedEarly(front));
  }

  lemma {:induction false} RunIsPlaced(es: seq<Event>)
    requires Runs(es)
    ensures Placed(Final(es), es)
    decreases |es|
  {
    if es != [] {
      RunIsPlaced(es[..|es| - 1]);
      PlacedNext(es);
    }
  }

  /** In a closed reporter the runner sleeps with nothing to wake it if and only if the signal was
      lost and it has looked. */
  lemma {:induction false} AsleepExactly(es: seq<Event>)
    requires Runs(es) && Final(es).closed
    ensures Final(es).pc == Waiting(false) <==> SignalLost(es) && Check in es
    decreases |es|
  {
    var n := |es| - 1;
    var front := es[..n];
    RunIsPlaced(front);
    InNext(es, Check);
    ClosedEarlyNext(es);
    ClosedAfterCheckNext(es);
    if Final(front).closed { AsleepExactly(front); } else { OpenNext(es); }
  }

  lemma OpenNext(es: seq<Event>)
    requires Runs(es) && es != [] && Final(es).closed && !Final(es[..|es| - 1]).closed
    ensures Final(es).pc != Waiting(false) && (Check in es[..|es| - 1] ==> ClosedAfterCheck(es))
  {
    ClosedAfterCheckNext(es);
  }

  ghost predicate OnlyRunner(later: seq<Event>) { forall i :: 0 <= i < |later| ==> IsRunnerMove(later[i]) }

  lemma AppendRuns(es: seq<Event>, e: Event)
    requires Runs(es) && Enabled(Final(es), e)
    ensures Runs(es + [e]) && Final(es + [e]) == Step(Final(es), e)
  {
    assert (es + [e])[..|es|] == es;
  }

  /** In a closed reporter, a runner that has not lost the signal ends by its own moves. */
  lemma EndsByItself(es: seq<Event>) returns (later: seq<Event>)
    requires Runs(es) && Final(es).closed && !SignalLost(es)
    ensures OnlyRunner(later) && Runs(es + later) && Final(es + later).pc.Exited?
  {
    RunIsPlaced(es);
    AsleepExactly(es);
    var s := Final(es);
    if s.pc.Exited? {
      assert es + [] == es;
      return [];
    }
    if s.pc.NotStarted? {
      AppendRuns(es, Start);
      NoCheckYet(es);
      AppendRuns(es + [Start], Check);
      assert es + [Start] + [Check] == es + [Start, Check];
      return [Start, Check];
    }
    if s.pc.Top? { NoCheckYet(es); }
    var e := if s.pc.Top? then Check else if s.pc.Waiting? then Wake
             else if s.pc.SendingStatus? then StatusSent(true) else VolumeSent(true);
    AppendRuns(es, e);
    return [e];
  }

  /** Before the runner has looked, the signal is lost exactly if nothing was submitted. */
  lemma NoCheckYet(es: seq<Event>)
    requires Runs(es) && Final(es).closed && (Final(es).pc.NotStarted? || Final(es).pc.Top?)
    ensures SignalLost(es) <==> Final(es).statuses == map[] && Final(es).volumes == {}
  {
    RunIsPlaced(es);
  }

  lemma {:induction false} LostStays(es: seq<Event>, later: seq<Event>)
    requires Runs(es) && Final(es).closed && SignalLost(es) && OnlyRunner(later) && Runs(es + later)
    ensures Final(es + later).closed && SignalLost(es + later)
    decreases |later|
  {
    if later == [] {
      assert es + later == es;
    } else {
      var front, all := later[..|later| - 1], es + later;
      assert all[..|all| - 1] == es + front && all[|all| - 1] == later[|later| - 1];
      LostStays(es, front);
      ClosedEarlyNext(all);
      ClosedAfterCheckNext(all);
      assert IsRunnerMove(all[|all| - 1]);
    }
  }

  ghost predicate EndsAfter(es: seq<Event>, later: seq<Event>) {
    OnlyRunner(later) && Runs(es + later) && Final(es + later).pc.Exited?
  }

  /** `Close` ends the runner, by its own moves and without any further call, if and only if its
      signal was not lost: it came after the runner took the lock, or something was submitted, or
      `Close` came again after the runner had looked. */
  lemma CloseEndsRunnerExactly(es: seq<Event>)
    requires Runs(es) && Final(es).closed
    ensures (exists later :: EndsAfter(es, later)) <==> !SignalLost(es)
  {
    if SignalLost(es) {
      forall later | OnlyRunner(later) && Runs(es + later) ensures !Final(es + later).pc.Exited? {
        LostStays(es, later);
        RunIsPlaced(es + later);
        AsleepExactly(es + later);
      }
    } else {
      var later := EndsByItself(es);
      assert EndsAfter(es, later);
    }
  }

  /** If `Close` comes first and nothing else, its signal is lost: the runner goes to sleep in a
      closed reporter and no move of its own wakes it. The `Close` at the end of the context does. */
  lemma EarlyCloseStrandsRunner()
    ensures var es := [Close, Start, Check];
            && Runs(es) && Final(es).closed && SignalLost(es) && Final(es).pc == Waiting(false)
            && (forall e :: IsRunnerMove(e) ==> !Enabled(Final(es), e))
            && Runs(es + [Close]) && Enabled(Final(es + [Close]), Wake) && Step(Final(es + [Close]), Wake).pc.Exited?
  {
    var es := [Close, Start, Check];
    assert es[..2] == [Close, Start] && [Close, Start][..1] == [Close] && [Close][..0] == [];
    assert Runs([Close]) && Final([Close]) == Step(INIT, Close);
    assert Runs([Close, Start]) && Final([Close, Start]) == Step(Step(INIT, Close), Start);
    AsleepExactly(es);
    AppendRuns(es, Close);
  }
}
