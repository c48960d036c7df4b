/**
 The reliable status reporter (agent/reporter.go): callers replace a task's
 pending status under a lock, and a runner goroutine sends pending entries
 upstream with the lock released, putting a failed one back unless a newer one
 arrived meanwhile.
 */
module Reporter {
  import opened Api

  /** Where the runner is. It holds the lock in `Top`, `StatusLoop` and `VolumeLoop`; the entries a
      range loop still has to visit are its `todo`. */
  datatype PC =
    | NotStarted
    | Top
    | Waiting(signalled: bool)
    | StatusLoop(todo: set<string>)
    | SendingStatus(id: string, status: Status, todo: set<string>)
    | VolumeLoop(todo: set<string>)
    | SendingVolume(id: string, todo: set<string>)
    | Exited

  datatype State = State(
    statuses: map<string, Status>,
    volumes: set<string>,
    closed: bool,
    pc: PC,
    // what happened so far
    accepted: seq<(string, Status)>,    // statuses written into the pending map by callers
    delivered: seq<(string, Status)>,   // upstream calls that succeeded
    reported: set<string>,              // volumes ever reported
    vdone: set<string>                  // volumes delivered since they were last reported
  )

  datatype Event =
    // callers, serialised by the lock
    | UpdateTaskStatus(id: string, status: Status)
    | ReportVolume(volume: string)
    | Close
    // the runner
    | Start
    | Check
    | Wake
    | PickStatus(pick: string)
    | StatusSent(ok: bool)
    | EndStatuses
    | PickVolume(pick: string)
    | VolumeSent(ok: bool)
    | EndVolumes

  const INIT := State(map[], {}, false, NotStarted, [], [], {}, {})

  predicate LockFree(pc: PC) { !pc.Top? && !pc.StatusLoop? && !pc.VolumeLoop? }

  predicate Enabled(s: State, e: Event) {
    match e
    case UpdateTaskStatus(_, _) => LockFree(s.pc)
    case ReportVolume(_) => LockFree(s.pc)
    case Close => LockFree(s.pc)
    case Start => s.pc.NotStarted?
    case Check => s.pc.Top?
    case Wake => s.pc.Waiting? && s.pc.signalled
    case PickStatus(id) => s.pc.StatusLoop? && id in s.statuses
    case StatusSent(_) => s.pc.SendingStatus?
    case EndStatuses => s.pc.StatusLoop? && s.pc.todo !! s.statuses.Keys
    case PickVolume(id) => s.pc.VolumeLoop? && id in s.volumes
    case VolumeSent(_) => s.pc.SendingVolume?
    case EndVolumes => s.pc.VolumeLoop? && s.pc.todo !! s.volumes
  }

  /** `UpdateTaskStatus` keeps a pending status that is equal or further along. */
  predicate Accepts(statuses: map<string, Status>, id: string, st: Status) {
    id in statuses ==> statuses[id] != st && statuses[id].state <= st.state
  }

  function Signal(pc: PC): PC { if pc.Waiting? then Waiting(true) else pc }

  /** The check of `closed` and the entry into the first range loop. */
  function Enter(s: State): State {
    if s.closed then s.(pc := Exited) else s.(pc := StatusLoop(s.statuses.Keys))
  }

  function Submitted(s: State, id: string, st: Status): State {
    if !Accepts(s.statuses, id, st) then s
    else s.(statuses := s.statuses[id := st], pc := Signal(s.pc), accepted := s.accepted + [(id, st)])
  }

  function StatusDone(s: State, ok: bool): State
    requires s.pc.SendingStatus?
  {
    var id, st := s.pc.id, s.pc.status;
    var s1 := if ok then s.(delivered := s.delivered + [(id, st)]) else s;
    if s.closed then s1.(pc := Exited)
    else s1.(pc := StatusLoop(s.pc.todo),
             statuses := if !ok && id !in s.statuses then s.statuses[id := st] else s.statuses)
  }

  function VolumeDone(s: State, ok: bool): State
    requires s.pc.SendingVolume?
  {
    var s1 := if ok then s.(vdone := s.vdone + {s.pc.id}) else s;
    if s.closed then s1.(pc := Exited)
    else s1.(pc := VolumeLoop(s.pc.todo), volumes := if ok then s.volumes else s.volumes + {s.pc.id})
  }

  function Step(s: State, e: Event): State
    requires Enabled(s, e)
  {
    match e
    case UpdateTaskStatus(id, st) => Submitted(s, id, st)
    case ReportVolume(id) =>
      s.(volumes := s.volumes + {id}, pc := Signal(s.pc), reported := s.reported + {id}, vdone := s.vdone - {id})
    case Close => s.(closed := true, pc := Signal(s.pc))
    case Start => s.(pc := Top)
    case Check => if s.statuses == map[] && s.volumes == {} then s.(pc := Waiting(false)) else Enter(s)
    case Wake => Enter(s)
    case PickStatus(id) =>
      s.(statuses := s.statuses - {id}, pc := SendingStatus(id, s.statuses[id], s.pc.todo - {id}))
    case StatusSent(ok) => StatusDone(s, ok)
    case EndStatuses => s.(pc := VolumeLoop(s.volumes))
    case PickVolume(id) => s.(volumes := s.volumes - {id}, pc := SendingVolume(id, s.pc.todo - {id}))
    case VolumeSent(ok) => VolumeDone(s, ok)
    case EndVolumes => s.(pc := Top)
  }

  ghost predicate Runs(es: seq<Event>)
    decreases |es|, 0
  {
    es == [] || (var n := |es| - 1; Runs(es[..n]) && Enabled(Final(es[..n]), es[n]))
  }

  /** The state after a run from the start. */
  ghost function Final(es: seq<Event>): State
    requires Runs(es)
    decreases |es|, 1
  {
    if es == [] then INIT else Step(Final(es[..|es| - 1]), es[|es| - 1])
  }
}
