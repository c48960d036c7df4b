/**
 The reporter's promise read off the events alone: the status submitted last is
 not lost, the logs are what was submitted, sent and reported, the runner does not
 sleep on work, and what is pending can always be sent.
 */
module ReporterHistory {
  import opened Api
  import opened Logs
  import opened Reporter
  import opened ReporterProperties

  // ---- what the events say ----

  /** The statuses submitted for a task. */
  ghost function Submissions(es: seq<Event>, id: string): seq<Status>
    decreases |es|
  {
    if es == [] then []
    else var n := |es| - 1;
         if es[n].UpdateTaskStatus? && es[n].id == id then Submissions(es[..n], id) + [es[n].status]
         else Submissions(es[..n], id)
  }

  /** The upstream call under way: the entry picked last. */
  ghost function Sending(es: seq<Event>): (r: Option<(string, Status)>)
    requires Runs(es)
    decreases |es|
  {
    if es == [] then None
    else var n := |es| - 1;
         match es[n]
         case PickStatus(id) => Some((id, Final(es[..n]).statuses[id]))
         case StatusSent(_) => None
         case _ => Sending(es[..n])
  }

  /** The calls that succeeded, in order. */
  ghost function Deliveries(es: seq<Event>): seq<(string, Status)>
    requires Runs(es)
    decreases |es|
  {
    if es == [] then []
    else var n := |es| - 1;
         if es[n] == StatusSent(true) && Sending(es[..n]).Some? then Deliveries(es[..n]) + [Sending(es[..n]).value]
         else Deliveries(es[..n])
  }

  ghost function SendingVolume(es: seq<Event>): Option<string>
    decreases |es|
  {
    if es == [] then None
    else match es[|es| - 1]
         case PickVolume(v) => Some(v)
         case VolumeSent(_) => None
         case _ => SendingVolume(es[..|es| - 1])
  }

  /** A call for the volume succeeded after the last time it was reported. */
  ghost predicate DeliveredSince(es: seq<Event>, volume: string)
    decreases |es|
  {
    && es != []
    && var n := |es| - 1;
       es[n] != ReportVolume(volume) &&
       (DeliveredSince(es[..n], volume) || (es[n] == VolumeSent(true) && SendingVolume(es[..n]) == Some(volume)))
  }

  // ---- the model's logs are those ----

  ghost predicate Logged(es: seq<Event>, s: State)
    requires Runs(es)
  {
    && s.delivered == Deliveries(es)
    && Sending(es) == (if s.pc.SendingStatus? then Some((s.pc.id, s.pc.status)) else None)
    && SendingVolume(es) == if s.pc.SendingVolume? then Some(s.pc.id) else None
  }

  lemma {:induction false} RunIsLogged(es: seq<Event>)
    requires Runs(es)
    ensures Logged(es, Final(es))
    decreases |es|
  {
    if es != [] {
      var n := |es| - 1;
      RunIsLogged(es[..n]);
      match es[n]
      case UpdateTaskStatus(_, _) =>
      case StatusSent(_) =>
      case VolumeSent(_) =>
      case _ =>
    }
  }

  lemma VolumeLogsOfStep(s: State, e: Event, volume: string)
    requires Enabled(s, e)
    ensures volume in Step(s, e).reported <==> volume in s.reported || e == ReportVolume(volume)
    ensures volume in Step(s, e).vdone
       <==> && e != ReportVolume(volume)
            && (volume in s.vdone || (e == VolumeSent(true) && s.pc.SendingVolume? && s.pc.id == volume))
  {
    match e
    case ReportVolume(_) =>
    case VolumeSent(_) =>
    case UpdateTaskStatus(_, _) =>
    case StatusSent(_) =>
    case _ =>
  }

  lemma {:induction false} VolumesAreLogged(es: seq<Event>, volume: string)
    requires Runs(es)
    ensures volume in Final(es).reported <==> ReportVolume(volume) in es
    ensures volume in Final(es).vdone <==> DeliveredSince(es, volume)
    decreases |es|
  {
    if es != [] {
      var n := |es| - 1;
      VolumesAreLogged(es[..n], volume);
      VolumeLogsOfStep(Final(es[..n]), es[n], volume);
      RunIsLogged(es[..n]);
      InNext(es, ReportVolume(volume));
    }
  }

  /** Until `Close`, every volume that was ever reported is pending, in flight, or was delivered
      after its last report. */
  lemma ReportedVolumeNotLost(es: seq<Event>, volume: string)
    requires Runs(es) && ReportVolume(volume) in es && Close !in es
    ensures volume in Final(es).volumes || SendingVolume(es) == Some(volume) || DeliveredSince(es, volume)
  {
    RunIsPlaced(es);
    RunIsLogged(es);
    VolumesAreLogged(es, volume);
    VolumesNotLost(es, volume);
  }

  // ---- the status submitted last ----

  /** A submission leaves pending the older status if that is further along, and itself otherwise;
      it touches no other task. */
  lemma SubmissionTakesPlace(s: State, key: string, st: Status, id: string)
    requires Enabled(s, UpdateTaskStatus(key, st))
    ensures var before := Pending(s, id);
            Pending(Step(s, UpdateTaskStatus(key, st)), id) ==
              if key != id || (before.Some? && before.value.state > st.state) then before else Some(st)
    ensures Flight(Step(s, UpdateTaskStatus(key, st)), id) == Flight(s, id)
  {
  }

  predicate Rising(a: seq<Status>) { forall i, j :: 0 <= i < j < |a| ==> a[i].state <= a[j].state }

  /** The last submission is the last accepted one, and nothing else is ever accepted. */
  predicate LastIsLast(subs: seq<Status>, acc: seq<Status>) {
    (subs == [] <==> acc == []) && (subs != [] ==> subs[|subs| - 1] == acc[|acc| - 1])
  }

  lemma SubmissionsOfStep(s: State, e: Event, id: string)
    requires Enabled(s, e)
    ensures var acc, acc' := Of(s.accepted, id), Of(Step(s, e).accepted, id);
            if e.UpdateTaskStatus? && e.id == id && Accepts(s.statuses, id, e.status) then acc' == acc + [e.status]
            else acc' == acc
  {
    match e
    case UpdateTaskStatus(key, st) => OfAppend(s.accepted, id, key, st);
    case StatusSent(_) =>
    case VolumeSent(_) =>
    case _ =>
  }

  lemma AcceptedStep(s: State, e: Event, id: string, subs: seq<Status>)
    requires Enabled(s, e) && Subseq(Of(s.accepted, id), subs)
    ensures Subseq(Of(Step(s, e).accepted, id), if e.UpdateTaskStatus? && e.id == id then subs + [e.status] else subs)
  {
    SubmissionsOfStep(s, e, id);
    if e.UpdateTaskStatus? { Extend(Of(s.accepted, id), subs, e.status); }
  }

  /** Only what was submitted is accepted, in the order of submission. */
  lemma {:induction false} AcceptedWereSubmitted(es: seq<Event>, id: string)
    requires Runs(es)
    ensures Subseq(Of(Final(es).accepted, id), Submissions(es, id))
    decreases |es|
  {
    if es != [] {
      var n := |es| - 1;
      AcceptedWereSubmitted(es[..n], id);
      AcceptedStep(Final(es[..n]), es[n], id, Submissions(es[..n], id));
    }
  }

  lemma RisingFront(a: seq<Status>, st: Status)
    requires Rising(a + [st])
    ensures Rising(a) && (a != [] ==> a[|a| - 1].state <= st.state)
  {
    assert forall i :: 0 <= i < |a| ==> (a + [st])[i] == a[i];
    assert (a + [st])[|a|] == st;
  }

  lemma LastStep(s: State, e: Event, id: string, subs: seq<Status>)
    requires Enabled(s, e) && InvOf(s, id) && LastIsLast(subs, Of(s.accepted, id))
    requires e.UpdateTaskStatus? && e.id == id && subs != [] ==> subs[|subs| - 1].state <= e.status.state
    ensures LastIsLast(if e.UpdateTaskStatus? && e.id == id then subs + [e.status] else subs, Of(Step(s, e).accepted, id))
  {
    SubmissionsOfStep(s, e, id);
  }

  lemma {:induction false} LastSubmittedIsAccepted(es: seq<Event>, id: string)
    requires Runs(es) && Rising(Submissions(es, id))
    ensures LastIsLast(Submissions(es, id), Of(Final(es).accepted, id))
    decreases |es|
  {
    if es != [] {
      var n := |es| - 1;
      if es[n].UpdateTaskStatus? && es[n].id == id { RisingFront(Submissions(es[..n], id), es[n].status); }
      LastSubmittedIsAccepted(es[..n], id);
      RunKeepsInv(es[..n], id);
      LastStep(Final(es[..n]), es[n], id, Submissions(es[..n], id));
    }
  }

  /** When the last status of the task was submitted, one that is further along was pending. */
  ghost predicate Outranked(es: seq<Event>, id: string)
    requires Runs(es)
    decreases |es|
  {
    es != [] &&
    var n := |es| - 1;
    if es[n].UpdateTaskStatus? && es[n].id == id
    then Pending(Final(es[..n]), id).Some? && Pending(Final(es[..n]), id).value.state > es[n].status.state
    else Outranked(es[..n], id)
  }

  lemma {:induction false} NotOutrankedIsAccepted(es: seq<Event>, id: string)
    requires Runs(es) && !Outranked(es, id)
    ensures LastIsLast(Submissions(es, id), Of(Final(es).accepted, id))
    decreases |es|
  {
    if es != [] {
      var n := |es| - 1;
      RunKeepsInv(es[..n], id);
      SubmissionsOfStep(Final(es[..n]), es[n], id);
      if !(es[n].UpdateTaskStatus? && es[n].id == id) { NotOutrankedIsAccepted(es[..n], id); }
    }
  }

  /** The last status submitted for the task is pending, in flight, or what was delivered last. */
  ghost predicate NewestKept(es: seq<Event>, id: string)
    requires Runs(es) && Submissions(es, id) != []
  {
    var subs := Submissions(es, id);
    var newest, del := subs[|subs| - 1], Of(Deliveries(es), id);
    || Pending(Final(es), id) == Some(newest)
    || Sending(es) == Some((id, newest))
    || (del != [] && del[|del| - 1] == newest)
  }

  /** Until `Close`, the last status submitted for a task is not lost, unless one that is further along
      was pending when it came. */
  lemma NewestUnlessOutranked(es: seq<Event>, id: string)
    requires Runs(es) && Close !in es && Submissions(es, id) != [] && !Outranked(es, id)
    ensures NewestKept(es, id)
  {
    RunIsPlaced(es);
    RunIsLogged(es);
    NotOutrankedIsAccepted(es, id);
    DeliveredInOrderAndNotLost(es, id);
  }

  /** Then it is dropped. */
  lemma OutrankedIsDropped(id: string, higher: Status, lower: Status)
    requires higher.state > lower.state
    ensures var es := [UpdateTaskStatus(id, higher), UpdateTaskStatus(id, lower)];
            Runs(es) && Outranked(es, id) && Submissions(es, id) == [higher, lower] && !NewestKept(es, id)
  {
    var e, e' := UpdateTaskStatus(id, higher), UpdateTaskStatus(id, lower);
    assert Runs([]) && Final([]) == INIT;
    AppendRuns([], e);
    assert [] + [e] == [e];
    AppendRuns([e], e');
    assert [e] + [e'] == [e, e'] && [e, e'][..1] == [e] && [e][..0] == [];
    assert Submissions([e], id) == [higher];
    RunIsLogged([e, e']);
  }

  /** The promise to a caller: if the statuses submitted for a task never go back, then until `Close`
      the last of them is pending, in flight, or what was delivered last. */
  lemma NewestNotLost(es: seq<Event>, id: string)
    requires Runs(es) && Close !in es && Rising(Submissions(es, id)) && Submissions(es, id) != []
    ensures NewestKept(es, id)
  {
    RunIsPlaced(es);
    RunIsLogged(es);
    LastSubmittedIsAccepted(es, id);
    DeliveredInOrderAndNotLost(es, id);
  }

  // ---- what is pending, exactly ----

  /** What the events leave pending for a task: a submission takes the place of one that is not further
      along, a call takes the status away, and a failed call puts it back if nothing newer came and the
      reporter is open. */
  ghost function Left(es: seq<Event>, id: string): Option<Status>
    requires Runs(es)
    decreases |es|
  {
    if es == [] then None
    else
      var n := |es| - 1;
      var before := Left(es[..n], id);
      match es[n]
      case UpdateTaskStatus(key, st) =>
        if key == id && (before.None? || before.value.state <= st.state) then Some(st) else before
      case PickStatus(key) => if key == id then None else before
      case StatusSent(ok) =>
        var call := Sending(es[..n]);
        if !ok && Close !in es && before.None? && call.Some? && call.value.0 == id then Some(call.value.1) else before
      case _ => before
  }

  /** The same for a volume, which a report makes pending again. */
  ghost predicate VolumeLeft(es: seq<Event>, volume: string)
    decreases |es|
  {
    es != [] &&
    var n := |es| - 1;
    match es[n]
    case ReportVolume(v) => v == volume || VolumeLeft(es[..n], volume)
    case PickVolume(v) => v != volume && VolumeLeft(es[..n], volume)
    case VolumeSent(ok) => VolumeLeft(es[..n], volume) || (!ok && Close !in es && SendingVolume(es[..n]) == Some(volume))
    case _ => VolumeLeft(es[..n], volume)
  }

  lemma SentLeaves(s: State, ok: bool, id: string)
    requires Enabled(s, StatusSent(ok))
    ensures Pending(Step(s, StatusSent(ok)), id)
         == if !ok && !s.closed && Pending(s, id).None? && s.pc.id == id then Some(s.pc.status) else Pending(s, id)
  {
  }

  lemma OthersLeave(s: State, e: Event, id: string)
    requires Enabled(s, e) && !e.UpdateTaskStatus? && !e.StatusSent?
    ensures Pending(Step(s, e), id) == if e == PickStatus(id) then None else Pending(s, id)
  {
    match e
    case VolumeSent(_) =>
    case _ =>
  }

  lemma VolumeLeaves(s: State, e: Event, volume: string)
    requires Enabled(s, e)
    ensures volume in Step(s, e).volumes
       <==> || e == ReportVolume(volume)
            || (e != PickVolume(volume) && volume in s.volumes)
            || (e == VolumeSent(false) && !s.closed && s.pc.id == volume)
  {
    match e
    case UpdateTaskStatus(_, _) =>
    case StatusSent(_) =>
    case VolumeSent(_) =>
    case _ =>
  }

  /** Over every run the pending statuses and volumes are exactly what the events leave. */
  lemma {:induction false} PendingExactly(es: seq<Event>, id: string)
    requires Runs(es)
    ensures Pending(Final(es), id) == Left(es, id)
    ensures id in Final(es).volumes <==> VolumeLeft(es, id)
    decreases |es|
  {
    if es != [] {
      var n := |es| - 1;
      var p := Final(es[..n]);
      PendingExactly(es[..n], id);
      RunIsLogged(es[..n]);
      RunIsPlaced(es[..n]);
      InNext(es, Close);
      VolumeLeaves(p, es[n], id);
      match es[n]
      case UpdateTaskStatus(key, st) => SubmissionTakesPlace(p, key, st, id);
      case StatusSent(ok) => SentLeaves(p, ok, id);
      case _ => OthersLeave(p, es[n], id);
    }
  }

  // ---- the runner does not sleep on work ----

  lemma AwakeOfStep(s: State, e: Event)
    requires Enabled(s, e) && (s.pc == Waiting(false) ==> s.statuses == map[] && s.volumes == {})
    ensures var s' := Step(s, e);
            s'.pc == Waiting(false) ==> s'.statuses == map[] && s'.volumes == {}
  {
    match e
    case UpdateTaskStatus(_, _) =>
    case StatusSent(_) =>
    case VolumeSent(_) =>
    case _ =>
  }

  /** No wake-up is lost: the runner sleeps unsignalled only when nothing is pending. */
  lemma {:induction false} NoLostWakeup(es: seq<Event>)
    requires Runs(es) && Final(es).pc == Waiting(false)
    ensures Final(es).statuses == map[] && Final(es).volumes == {}
    decreases |es|
  {
    var n := |es| - 1;
    if Final(es[..n]).pc == Waiting(false) { NoLostWakeup(es[..n]); }
    AwakeOfStep(Final(es[..n]), es[n]);
  }

  // ---- what is pending can be sent ----

  /** The runner alone gets from `es` to `es'`. */
  ghost predicate Reaches(es: seq<Event>, es': seq<Event>) {
    |es| <= |es'| && es'[..|es|] == es && OnlyRunner(es'[|es|..]) && Runs(es) && Runs(es')
  }

  lemma Next(es0: seq<Event>, es: seq<Event>, e: Event) returns (es': seq<Event>)
    requires Reaches(es0, es) && Enabled(Final(es), e) && IsRunnerMove(e)
    ensures es' == es + [e] && Reaches(es0, es') && Final(es') == Step(Final(es), e)
  {
    es' := es + [e];
    AppendRuns(es, e);
    assert es'[..|es0|] == es[..|es0|];
    assert es'[|es0|..] == es[|es0|..] + [e];
  }

  /** Upstream accepts the volumes that the range loop still visits. */
  lemma {:induction false} DrainVolumes(es0: seq<Event>, es: seq<Event>) returns (es': seq<Event>)
    requires Reaches(es0, es) && Final(es).pc.VolumeLoop? && !Final(es).closed
    ensures Reaches(es0, es') && Final(es').pc.Top? && Final(es').statuses == Final(es).statuses && !Final(es').closed
    decreases Final(es).pc.todo
  {
    var s := Final(es);
    if v :| v in s.pc.todo && v in s.volumes {
      var es1 := Next(es0, es, PickVolume(v));
      var es2 := Next(es0, es1, VolumeSent(true));
      es' := DrainVolumes(es0, es2);
    } else {
      es' := Next(es0, es, EndVolumes);
    }
  }

  /** Upstream accepts the statuses that the range loop still visits. */
  lemma {:induction false} DrainStatuses(es0: seq<Event>, es: seq<Event>) returns (es': seq<Event>)
    requires Reaches(es0, es) && Final(es).pc.StatusLoop? && !Final(es).closed
    ensures Reaches(es0, es') && Final(es').pc.VolumeLoop? && Final(es').volumes == Final(es).volumes && !Final(es').closed
    decreases Final(es).pc.todo
  {
    var s := Final(es);
    if id :| id in s.pc.todo && id in s.statuses {
      var es1 := Next(es0, es, PickStatus(id));
      var es2 := Next(es0, es1, StatusSent(true));
      es' := DrainStatuses(es0, es2);
    } else {
      es' := Next(es0, es, EndStatuses);
    }
  }

  /** The runner of an open reporter has not returned. */
  lemma {:induction false} OpenRunnerLives(es: seq<Event>)
    requires Runs(es) && !Final(es).closed
    ensures !Final(es).pc.Exited?
    decreases |es|
  {
    if es != [] { OpenRunnerLives(es[..|es| - 1]); }
  }

  /** With work pending, the runner of an open reporter can come from outside its range loops to the one
      over the statuses. */
  lemma ToStatusLoop(es0: seq<Event>, es: seq<Event>) returns (es': seq<Event>)
    requires Reaches(es0, es) && !Final(es).closed && (Final(es).statuses != map[] || Final(es).volumes != {})
    requires var pc := Final(es).pc; pc.NotStarted? || pc.Top? || pc.Waiting?
    ensures Reaches(es0, es') && Final(es').pc.StatusLoop? && !Final(es').closed
    ensures Final(es').statuses == Final(es).statuses && Final(es').volumes == Final(es).volumes
  {
    if Final(es).pc.Waiting? {
      if !Final(es).pc.signalled { NoLostWakeup(es); }
      es' := Next(es0, es, Wake);
    } else {
      es' := es;
      if Final(es).pc.NotStarted? { es' := Next(es0, es', Start); }
      es' := Next(es0, es', Check);
    }
  }

  /** A pending status can always be sent: in an open reporter the runner's own moves lead to an
      upstream call for it. */
  lemma PendingCanBeSent(es: seq<Event>, id: string) returns (es': seq<Event>)
    requires Runs(es) && !Final(es).closed && id in Final(es).statuses
    ensures Reaches(es, es') && Sending(es').Some? && Sending(es').value.0 == id
  {
    OpenRunnerLives(es);
    assert es[|es|..] == [];
    es' := es;
    if Final(es').pc.SendingStatus? { es' := Next(es, es', StatusSent(true)); }
    if Final(es').pc.SendingVolume? { es' := Next(es, es', VolumeSent(true)); }
    if Final(es').pc.VolumeLoop? { es' := DrainVolumes(es, es'); }
    if !Final(es').pc.StatusLoop? { es' := ToStatusLoop(es, es'); }
    es' := Next(es, es', PickStatus(id));
    assert es'[..|es'| - 1] + [PickStatus(id)] == es';
  }

  /** The same for a pending volume. */
  lemma VolumeCanBeSent(es: seq<Event>, volume: string) returns (es': seq<Event>)
    requires Runs(es) && !Final(es).closed && volume in Final(es).volumes
    ensures Reaches(es, es') && SendingVolume(es') == Some(volume)
  {
    OpenRunnerLives(es);
    assert es[|es|..] == [];
    es' := es;
    if Final(es').pc.SendingVolume? { es' := Next(es, es', VolumeSent(true)); }
    if Final(es').pc.SendingStatus? { es' := Next(es, es', StatusSent(true)); }
    if !Final(es').pc.StatusLoop? && !Final(es').pc.VolumeLoop? { es' := ToStatusLoop(es, es'); }
    if Final(es').pc.StatusLoop? { es' := DrainStatuses(es, es'); }
    es' := Next(es, es', PickVolume(volume));
  }
}
