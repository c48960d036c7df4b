/**
 Compiling watch filters: `ConvertNodeWatch`, `ConvertServiceWatch` and `ConvertTaskWatch` turn a
 list of selectors into a prototype object and a list of checks against it. The three generated
 functions run the same loop over the selectors their kind recognises, so `kind` is a parameter.
 */
module Watch {
  import opened Api
  import opened Outcomes

  datatype Kind = NodeKind | ServiceKind | TaskKind
  datatype Action = Create | Update | Remove

  /** The fields that selectors read. `name` is None for a node without a description. */
  datatype Object = Object(
    id: string, name: Option<string>, indices: seq<(string, string)>,
    role: int, membership: int,
    serviceID: string, nodeID: string, slot: nat, desired: int)

  datatype Filter =
    | ID(value: string) | IDPrefix(value: string)
    | Name(value: string) | NamePrefix(value: string)
    | Custom(index: string, value: string) | CustomPrefix(index: string, value: string)
    | Role(code: int) | Membership(code: int)
    | ServiceID(value: string) | NodeID(value: string) | Slot(service: string, number: nat) | DesiredState(code: int)
    | Other

  datatype Check =
    | CheckID | CheckIDPrefix | CheckName | CheckNamePrefix | CheckCustom | CheckCustomPrefix
    | CheckRole | CheckMembership | CheckServiceID | CheckNodeID | CheckSlot | CheckDesiredState

  /** The cases of the kind's switch; other selectors fall through it. */
  predicate Recognised(kind: Kind, f: Filter) {
    match f
    case Role(_) => kind.NodeKind?
    case Membership(_) => kind.NodeKind?
    case ServiceID(_) => kind.TaskKind?
    case NodeID(_) => kind.TaskKind?
    case Slot(_, _) => kind.TaskKind?
    case DesiredState(_) => kind.TaskKind?
    case Other => false
    case _ => true
  }

  // ---- the checks ----

  predicate HasIndex(o: Object, key: string, val: string) { (key, val) in o.indices }

  predicate HasIndexPrefix(o: Object, key: string, val: string) {
    exists e :: e in o.indices && e.0 == key && val <= e.1
  }

  /** The check functions, on the prototype and the object of the event. */
  predicate Holds(c: Check, m: Object, o: Object) {
    match c
    case CheckID => m.id == o.id
    case CheckIDPrefix => m.id <= o.id
    case CheckName => m.name.Some? && o.name.Some? && m.name.value == o.name.value
    case CheckNamePrefix => m.name.Some? && o.name.Some? && m.name.value <= o.name.value
    case CheckCustom => |m.indices| == 1 && HasIndex(o, m.indices[0].0, m.indices[0].1)
    case CheckCustomPrefix => |m.indices| == 1 && HasIndexPrefix(o, m.indices[0].0, m.indices[0].1)
    case CheckRole => m.role == o.role
    case CheckMembership => m.membership == o.membership
    case CheckServiceID => m.serviceID == o.serviceID
    case CheckNodeID => m.nodeID == o.nodeID
    case CheckSlot => m.slot == o.slot
    case CheckDesiredState => m.desired == o.desired
  }

  predicate AllHold(cs: seq<Check>, m: Object, o: Object) { forall c :: c in cs ==> Holds(c, m, o) }

  // ---- the loop over the selectors ----

  datatype Acc = Acc(m: Object, checks: seq<Check>, hasRole: bool, hasMembership: bool, hasDesired: bool)

  /** The zero value of the kind's struct. */
  function Blank(kind: Kind): Object {
    Object("", if kind.NodeKind? then None else Some(""), [], 0, 0, "", "", 0, 0)
  }

  function Start(kind: Kind): Acc { Acc(Blank(kind), [], false, false, false) }

  function Checks(f: Filter): seq<Check> {
    match f
    case ID(_) => [CheckID]
    case IDPrefix(_) => [CheckIDPrefix]
    case Name(_) => [CheckName]
    case NamePrefix(_) => [CheckNamePrefix]
    case Custom(_, _) => [CheckCustom]
    case CustomPrefix(_, _) => [CheckCustomPrefix]
    case Role(_) => [CheckRole]
    case Membership(_) => [CheckMembership]
    case ServiceID(_) => [CheckServiceID]
    case NodeID(_) => [CheckNodeID]
    case Slot(_, _) => [CheckNodeID, CheckSlot]
    case DesiredState(_) => [CheckDesiredState]
    case Other => []
  }

  /** An earlier selector has set a field this one needs. */
  predicate Conflicts(kind: Kind, a: Acc, f: Filter) {
    match f
    case ID(_) => a.m.id != ""
    case IDPrefix(_) => a.m.id != ""
    case Name(_) => a.m.name != Blank(kind).name
    case NamePrefix(_) => a.m.name != Blank(kind).name
    case Custom(_, _) => a.m.indices != []
    case CustomPrefix(_, _) => a.m.indices != []
    case Role(_) => a.hasRole
    case Membership(_) => a.hasMembership
    case ServiceID(_) => a.m.serviceID != ""
    case NodeID(_) => a.m.nodeID != ""
    case Slot(_, _) => a.m.slot != 0 || a.m.serviceID != ""
    case DesiredState(_) => a.hasDesired
    case Other => false
  }

  /** The fields a selector sets. */
  function Set(a: Acc, f: Filter): Acc {
    match f
    case ID(v) => a.(m := a.m.(id := v))
    case IDPrefix(v) => a.(m := a.m.(id := v))
    case Name(v) => a.(m := a.m.(name := Some(v)))
    case NamePrefix(v) => a.(m := a.m.(name := Some(v)))
    case Custom(k, v) => a.(m := a.m.(indices := [(k, v)]))
    case CustomPrefix(k, v) => a.(m := a.m.(indices := [(k, v)]))
    case Role(r) => a.(m := a.m.(role := r), hasRole := true)
    case Membership(r) => a.(m := a.m.(membership := r), hasMembership := true)
    case ServiceID(v) => a.(m := a.m.(serviceID := v))
    case NodeID(v) => a.(m := a.m.(nodeID := v))
    case Slot(s, n) => a.(m := a.m.(serviceID := s, slot := n))
    case DesiredState(r) => a.(m := a.m.(desired := r), hasDesired := true)
    case Other => a
  }

  function Next(kind: Kind, a: Acc, f: Filter): Option<Acc> {
    if !Recognised(kind, f) then Some(a)
    else if Conflicts(kind, a, f) then None
    else Some(Set(a, f).(checks := a.checks + Checks(f)))
  }

  function Compiled(kind: Kind, fs: seq<Filter>): Option<Acc> {
    if fs == [] then Some(Start(kind))
    else match Compiled(kind, fs[..|fs| - 1])
      case None => None
      case Some(a) => Next(kind, a, fs[|fs| - 1])
  }

  // ---- events ----

  datatype Event = Event(kind: Kind, action: Action, obj: Object)
  datatype Matcher = Matcher(kind: Kind, action: Action, m: Object, checks: seq<Check>)
  datatype Error = ConflictingFilters | UnrecognizedAction
  type Result<+T> = Outcome<T, Error>

  function Bit(a: Action): int { match a case Create => 1 case Update => 2 case Remove => 4 }

  /** `action & bit != 0`. */
  predicate Requested(action: int, a: Action) { action / Bit(a) % 2 == 1 }

  /** `Matches` of the event types. */
  predicate Matches(x: Matcher, e: Event) { x.kind == e.kind && x.action == e.action && AllHold(x.checks, x.m, e.obj) }

  function Listed(kind: Kind, action: int, a: Action, acc: Acc): seq<Matcher> {
    if Requested(action, a) then [Matcher(kind, a, acc.m, acc.checks)] else []
  }

  function Convert(kind: Kind, action: int, fs: seq<Filter>): Result<seq<Matcher>> {
    match Compiled(kind, fs)
    case None => Err(ConflictingFilters)
    case Some(acc) =>
      var xs := Listed(kind, action, Create, acc) + Listed(kind, action, Update, acc) + Listed(kind, action, Remove, acc);
      if xs == [] then Err(UnrecognizedAction) else Ok(xs)
  }

  // ---- the loops of the source ----

  method MatchesEvent(x: Matcher, e: Event) returns (r: bool)
    ensures r <==> Matches(x, e)
  {
    if x.kind != e.kind || x.action != e.action { return false; }
    for i := 0 to |x.checks|
      invariant forall j :: 0 <= j < i ==> Holds(x.checks[j], x.m, e.obj)
    {
      if !Holds(x.checks[i], x.m, e.obj) { return false; }
    }
    return true;
  }

  method ConvertWatch(kind: Kind, action: int, fs: seq<Filter>) returns (r: Result<seq<Matcher>>)
    ensures r == Convert(kind, action, fs)
  {
    var acc := Start(kind);
    for i := 0 to |fs|
      invariant Compiled(kind, fs[..i]) == Some(acc)
    {
      var f := fs[i];
      assert fs[..i + 1][..i] == fs[..i];
      if Recognised(kind, f) {
        if Conflicts(kind, acc, f) {
          StopsAt(kind, fs, i + 1);
          return Err(ConflictingFilters);
        }
        acc := Set(acc, f).(checks := acc.checks + Checks(f));
      }
    }
    assert fs[..|fs|] == fs;
    var events := [];
    if Requested(action, Create) { events := events + [Matcher(kind, Create, acc.m, acc.checks)]; }
    if Requested(action, Update) { events := events + [Matcher(kind, Update, acc.m, acc.checks)]; }
    if Requested(action, Remove) { events := events + [Matcher(kind, Remove, acc.m, acc.checks)]; }
    assert events == Listed(kind, action, Create, acc) + Listed(kind, action, Update, acc) + Listed(kind, action, Remove, acc);
    if |events| == 0 { return Err(UnrecognizedAction); }
    return Ok(events);
  }

  lemma {:induction false} StopsAt(kind: Kind, fs: seq<Filter>, k: nat)
    requires k <= |fs| && Compiled(kind, fs[..k]).None?
    ensures Compiled(kind, fs).None?
  {
    if k == |fs| {
      assert fs[..k] == fs;
    } else {
      assert fs[..|fs| - 1][..k] == fs[..k];
      StopsAt(kind, fs[..|fs| - 1], k);
    }
  }
}
