/** What the selectors mean, and when the compiled watch means the same. */
module WatchMeaning {
  import opened Api
  import opened Outcomes
  import opened Watch

  /** Which selectors a watch of the kind has: those of every object, and those of its own fields. */
  predicate Applies(kind: Kind, f: Filter) {
    || f.ID? || f.IDPrefix? || f.Name? || f.NamePrefix? || f.Custom? || f.CustomPrefix?
    || (kind.NodeKind? && (f.Role? || f.Membership?))
    || (kind.TaskKind? && (f.ServiceID? || f.NodeID? || f.Slot? || f.DesiredState?))
  }

  /** The object has an index entry of that name whose value begins with `v`. */
  predicate HasEntry(o: Object, k: string, v: string) {
    exists i :: 0 <= i < |o.indices| && o.indices[i].0 == k && |v| <= |o.indices[i].1| && o.indices[i].1[..|v|] == v
  }

  /** The meaning of a selector, on the object alone. */
  predicate Satisfies(f: Filter, o: Object) {
    match f
    case ID(v) => o.id == v
    case IDPrefix(v) => v <= o.id
    case Name(v) => o.name == Some(v)
    case NamePrefix(v) => o.name.Some? && v <= o.name.value
    case Custom(k, v) => exists i :: 0 <= i < |o.indices| && o.indices[i] == (k, v)
    case CustomPrefix(k, v) => HasEntry(o, k, v)
    case Role(r) => o.role == r
    case Membership(r) => o.membership == r
    case ServiceID(v) => o.serviceID == v
    case NodeID(v) => o.nodeID == v
    case Slot(s, n) => o.serviceID == s && o.slot == n
    case DesiredState(r) => o.desired == r
    case Other => true
  }

  predicate Satisfied(kind: Kind, fs: seq<Filter>, o: Object) {
    forall f :: f in fs && Applies(kind, f) ==> Satisfies(f, o)
  }

  // ---- which lists are accepted ----

  /** Selector `f` sets the field that `g` needs to something else than its zero value, or marks it. */
  predicate Clashes(kind: Kind, f: Filter, g: Filter) {
    match g
    case ID(_) => (f.ID? || f.IDPrefix?) && f.value != ""
    case IDPrefix(_) => (f.ID? || f.IDPrefix?) && f.value != ""
    case Name(_) => (f.Name? || f.NamePrefix?) && (kind.NodeKind? || f.value != "")
    case NamePrefix(_) => (f.Name? || f.NamePrefix?) && (kind.NodeKind? || f.value != "")
    case Custom(_, _) => f.Custom? || f.CustomPrefix?
    case CustomPrefix(_, _) => f.Custom? || f.CustomPrefix?
    case Role(_) => f.Role?
    case Membership(_) => f.Membership?
    case ServiceID(_) => (f.ServiceID? && f.value != "") || (f.Slot? && f.service != "")
    case NodeID(_) => f.NodeID? && f.value != ""
    case Slot(_, _) => (f.ServiceID? && f.value != "") || (f.Slot? && (f.service != "" || f.number != 0))
    case DesiredState(_) => f.DesiredState?
    case Other => false
  }

  /** An earlier recognised selector clashes with `g`. */
  ghost predicate ClashesWithin(kind: Kind, fs: seq<Filter>, g: Filter) {
    exists i :: 0 <= i < |fs| && Applies(kind, fs[i]) && Clashes(kind, fs[i], g)
  }

  lemma ConflictsCommon(kind: Kind, a: Acc, f: Filter, g: Filter)
    requires !Conflicts(kind, a, f) && Applies(kind, g)
    requires g.ID? || g.IDPrefix? || g.Name? || g.NamePrefix? || g.Custom? || g.CustomPrefix?
    ensures Conflicts(kind, Set(a, f), g) <==> Conflicts(kind, a, g) || Clashes(kind, f, g)
  {
  }

  lemma ConflictsOwn(kind: Kind, a: Acc, f: Filter, g: Filter)
    requires !Conflicts(kind, a, f) && Applies(kind, g)
    requires !(g.ID? || g.IDPrefix? || g.Name? || g.NamePrefix? || g.Custom? || g.CustomPrefix?)
    ensures Conflicts(kind, Set(a, f), g) <==> Conflicts(kind, a, g) || Clashes(kind, f, g)
  {
  }

  lemma ConflictsNext(kind: Kind, a: Acc, f: Filter, g: Filter)
    requires Next(kind, a, f).Some? && Applies(kind, g)
    ensures Conflicts(kind, Next(kind, a, f).value, g) <==> Conflicts(kind, a, g) || (Applies(kind, f) && Clashes(kind, f, g))
  {
    if Applies(kind, f) {
      if g.ID? || g.IDPrefix? || g.Name? || g.NamePrefix? || g.Custom? || g.CustomPrefix? { ConflictsCommon(kind, a, f, g); }
      else { ConflictsOwn(kind, a, f, g); }
      var b, checks := Set(a, f), a.checks + Checks(f);
      assert Conflicts(kind, b.(checks := checks), g) <==> Conflicts(kind, b, g);
    }
  }

  lemma ClashesNext(kind: Kind, fs: seq<Filter>, g: Filter)
    requires fs != []
    ensures ClashesWithin(kind, fs, g) <==>
              ClashesWithin(kind, fs[..|fs| - 1], g)
              || (Applies(kind, fs[|fs| - 1]) && Clashes(kind, fs[|fs| - 1], g))
  {
    var front := fs[..|fs| - 1];
    if ClashesWithin(kind, front, g) {
      var i :| 0 <= i < |front| && Applies(kind, front[i]) && Clashes(kind, front[i], g);
      assert fs[i] == front[i];
    }
    if ClashesWithin(kind, fs, g) {
      var i :| 0 <= i < |fs| && Applies(kind, fs[i]) && Clashes(kind, fs[i], g);
      if i < |front| { assert front[i] == fs[i]; }
    }
  }

  lemma {:induction false} ConflictsExactly(kind: Kind, fs: seq<Filter>, g: Filter)
    requires Compiled(kind, fs).Some? && Applies(kind, g)
    ensures Conflicts(kind, Compiled(kind, fs).value, g) <==> ClashesWithin(kind, fs, g)
  {
    if fs != [] {
      var front := fs[..|fs| - 1];
      ConflictsExactly(kind, front, g);
      ConflictsNext(kind, Compiled(kind, front).value, fs[|fs| - 1], g);
      ClashesNext(kind, fs, g);
    }
  }

  /** No recognised selector clashes with an earlier recognised one. */
  ghost predicate Distinct(kind: Kind, fs: seq<Filter>) {
    forall j :: 0 <= j < |fs| && Applies(kind, fs[j]) ==> !ClashesWithin(kind, fs[..j], fs[j])
  }

  /** A list is refused for conflict exactly when a recognised selector clashes with an earlier one. */
  lemma {:induction false} AcceptedExactly(kind: Kind, fs: seq<Filter>)
    ensures Compiled(kind, fs).Some? <==> Distinct(kind, fs)
  {
    if fs != [] {
      var front, f := fs[..|fs| - 1], fs[|fs| - 1];
      AcceptedExactly(kind, front);
      DistinctNext(kind, fs);
      if Compiled(kind, front).Some? && Applies(kind, f) { ConflictsExactly(kind, front, f); }
    }
  }

  lemma DistinctNext(kind: Kind, fs: seq<Filter>)
    requires fs != []
    ensures var front, f := fs[..|fs| - 1], fs[|fs| - 1];
            Distinct(kind, fs) <==> Distinct(kind, front) && (Applies(kind, f) ==> !ClashesWithin(kind, front, f))
  {
    var front := fs[..|fs| - 1];
    assert forall j :: 0 <= j < |front| ==> front[..j] == fs[..j] && front[j] == fs[j];
  }

  // ---- which operands the prototype still holds ----

  /** The prototype holds the selector's operand. */
  predicate Placed(a: Acc, f: Filter) {
    match f
    case ID(v) => a.m.id == v
    case IDPrefix(v) => a.m.id == v
    case Name(v) => a.m.name == Some(v)
    case NamePrefix(v) => a.m.name == Some(v)
    case Custom(k, v) => a.m.indices == [(k, v)]
    case CustomPrefix(k, v) => a.m.indices == [(k, v)]
    case Role(r) => a.hasRole && a.m.role == r
    case Membership(r) => a.hasMembership && a.m.membership == r
    case ServiceID(v) => a.m.serviceID == v
    case NodeID(v) => a.m.nodeID == v
    case Slot(s, n) => a.m.serviceID == s && a.m.slot == n
    case DesiredState(r) => a.hasDesired && a.m.desired == r
    case Other => true
  }

  /** The selector's operand was a zero value and the prototype holds another one in its place. */
  predicate Lost(kind: Kind, a: Acc, f: Filter) {
    match f
    case ID(v) => v == "" && a.m.id != ""
    case IDPrefix(v) => v == "" && a.m.id != ""
    case Name(v) => !kind.NodeKind? && v == "" && a.m.name.Some? && a.m.name.value != ""
    case NamePrefix(v) => !kind.NodeKind? && v == "" && a.m.name.Some? && a.m.name.value != ""
    case ServiceID(v) => v == "" && a.m.serviceID != ""
    case NodeID(v) => v == "" && a.m.nodeID != ""
    case Slot(s, n) => s == "" && (a.m.serviceID != "" || (n == 0 && a.m.slot != 0))
    case _ => false
  }

  /** Selector `g` puts another value where `f` left a zero value. */
  predicate Replaces(kind: Kind, g: Filter, f: Filter) {
    match f
    case ID(v) => v == "" && (g.ID? || g.IDPrefix?) && g.value != ""
    case IDPrefix(v) => v == "" && (g.ID? || g.IDPrefix?) && g.value != ""
    case Name(v) => !kind.NodeKind? && v == "" && (g.Name? || g.NamePrefix?) && g.value != ""
    case NamePrefix(v) => !kind.NodeKind? && v == "" && (g.Name? || g.NamePrefix?) && g.value != ""
    case ServiceID(v) => v == "" && ((g.ServiceID? && g.value != "") || (g.Slot? && g.service != ""))
    case NodeID(v) => v == "" && g.NodeID? && g.value != ""
    case Slot(s, n) =>
      s == "" && ((g.ServiceID? && g.value != "") || (g.Slot? && (g.service != "" || (n == 0 && g.number != 0))))
    case _ => false
  }

  lemma PlacedNext(kind: Kind, a: Acc, g: Filter, f: Filter)
    requires Next(kind, a, g).Some? && Applies(kind, g) && Applies(kind, f) && Placed(a, f)
    requires kind.NodeKind? || a.m.name.Some?
    ensures Replaces(kind, g, f) ==> Lost(kind, Next(kind, a, g).value, f)
    ensures !Replaces(kind, g, f) ==> Placed(Next(kind, a, g).value, f)
  {
  }

  lemma LostNext(kind: Kind, a: Acc, g: Filter, f: Filter)
    requires Next(kind, a, g).Some? && Lost(kind, a, f)
    ensures Lost(kind, Next(kind, a, g).value, f)
  {
  }

  lemma PlacedNow(kind: Kind, a: Acc, f: Filter)
    requires Next(kind, a, f).Some? && Applies(kind, f)
    ensures Placed(Next(kind, a, f).value, f)
  {
  }

  lemma LostIsNotPlaced(kind: Kind, a: Acc, f: Filter)
    requires Lost(kind, a, f)
    ensures !Placed(a, f)
  {
  }

  ghost predicate ReplacedFrom(kind: Kind, fs: seq<Filter>, i: nat)
    requires i < |fs|
  {
    exists j :: i < j < |fs| && Applies(kind, fs[j]) && Replaces(kind, fs[j], fs[i])
  }

  lemma ReplacedNext(kind: Kind, fs: seq<Filter>, i: nat)
    requires i < |fs| - 1
    ensures var front, g := fs[..|fs| - 1], fs[|fs| - 1];
            ReplacedFrom(kind, fs, i) <==> ReplacedFrom(kind, front, i) || (Applies(kind, g) && Replaces(kind, g, fs[i]))
  {
    var front := fs[..|fs| - 1];
    if ReplacedFrom(kind, front, i) {
      var j :| i < j < |front| && Applies(kind, front[j]) && Replaces(kind, front[j], front[i]);
      assert fs[j] == front[j] && fs[i] == front[i];
    }
    if ReplacedFrom(kind, fs, i) {
      var j :| i < j < |fs| && Applies(kind, fs[j]) && Replaces(kind, fs[j], fs[i]);
      if j < |front| { assert front[j] == fs[j] && front[i] == fs[i]; }
    }
  }

  lemma {:induction false} NameIsSet(kind: Kind, fs: seq<Filter>)
    requires Compiled(kind, fs).Some?
    ensures kind.NodeKind? || Compiled(kind, fs).value.m.name.Some?
  {
    if fs != [] { NameIsSet(kind, fs[..|fs| - 1]); }
  }

  /** The operand of a recognised selector is in the prototype in the end, unless a later recognised
      selector replaced it: then another value is there. */
  lemma {:induction false} PlacedExactly(kind: Kind, fs: seq<Filter>, i: nat)
    requires Compiled(kind, fs).Some? && i < |fs| && Applies(kind, fs[i])
    ensures ReplacedFrom(kind, fs, i) ==> Lost(kind, Compiled(kind, fs).value, fs[i])
    ensures !ReplacedFrom(kind, fs, i) ==> Placed(Compiled(kind, fs).value, fs[i])
  {
    var front, g := fs[..|fs| - 1], fs[|fs| - 1];
    var a := Compiled(kind, front).value;
    if i < |front| {
      assert front[i] == fs[i];
      PlacedExactly(kind, front, i);
      ReplacedNext(kind, fs, i);
      NameIsSet(kind, front);
      if ReplacedFrom(kind, front, i) { LostNext(kind, a, g, fs[i]); }
      else if Applies(kind, g) { PlacedNext(kind, a, g, fs[i]); }
    } else {
      PlacedNow(kind, a, g);
    }
  }

  // ---- the compiled checks ----

  lemma NextChecks(kind: Kind, a: Acc, f: Filter, c: Check)
    requires Next(kind, a, f).Some?
    ensures c in Next(kind, a, f).value.checks <==> c in a.checks || (Applies(kind, f) && c in Checks(f))
  {
    if Applies(kind, f) { assert Next(kind, a, f).value.checks == a.checks + Checks(f); }
  }

  lemma InNext(fs: seq<Filter>, f: Filter)
    requires fs != []
    ensures f in fs <==> f in fs[..|fs| - 1] || f == fs[|fs| - 1]
  {
    assert fs == fs[..|fs| - 1] + [fs[|fs| - 1]];
  }

  /** The compiled checks are those of the recognised selectors. */
  lemma {:induction false} ChecksAre(kind: Kind, fs: seq<Filter>, c: Check)
    requires Compiled(kind, fs).Some?
    ensures c in Compiled(kind, fs).value.checks <==> exists f :: f in fs && Applies(kind, f) && c in Checks(f)
  {
    if fs != [] {
      var front, g := fs[..|fs| - 1], fs[|fs| - 1];
      ChecksAre(kind, front, c);
      NextChecks(kind, Compiled(kind, front).value, g, c);
      forall f ensures f in fs <==> f in front || f == g { InNext(fs, f); }
    }
  }

  lemma EntryIsIndexed(o: Object, k: string, v: string)
    ensures HasEntry(o, k, v) <==> HasIndexPrefix(o, k, v)
  {
    if HasEntry(o, k, v) {
      var i :| 0 <= i < |o.indices| && o.indices[i].0 == k && |v| <= |o.indices[i].1| && o.indices[i].1[..|v|] == v;
      assert o.indices[i] in o.indices;
    }
    if HasIndexPrefix(o, k, v) {
      var e :| e in o.indices && e.0 == k && v <= e.1;
      var i :| 0 <= i < |o.indices| && o.indices[i] == e;
      assert e.1[..|v|] == v;
    }
  }

  lemma CheckMeans(f: Filter, a: Acc, o: Object)
    requires Placed(a, f) && !f.Slot?
    ensures Satisfies(f, o) <==> forall c :: c in Checks(f) ==> Holds(c, a.m, o)
  {
    if f != Other { assert Checks(f)[0] in Checks(f); }
    if f.Custom? { assert HasIndex(o, f.index, f.value) <==> Satisfies(f, o); }
    if f.CustomPrefix? { EntryIsIndexed(o, f.index, f.value); }
  }

  predicate Passes(kind: Kind, fs: seq<Filter>, o: Object)
    requires Compiled(kind, fs).Some?
  {
    AllHold(Compiled(kind, fs).value.checks, Compiled(kind, fs).value.m, o)
  }

  predicate IsPrefix(f: Filter) { f.IDPrefix? || f.NamePrefix? || f.CustomPrefix? }

  /** No recognised selector other than a prefix is replaced by a later one. */
  ghost predicate Clean(kind: Kind, fs: seq<Filter>) {
    forall i :: 0 <= i < |fs| && Applies(kind, fs[i]) && !IsPrefix(fs[i]) ==> !ReplacedFrom(kind, fs, i)
  }

  ghost predicate NoSlot(kind: Kind, fs: seq<Filter>) { forall f :: f in fs && Applies(kind, f) ==> !f.Slot? }

  /** A Slot selector checks the node and not the service; other selectors make up for it. */
  ghost predicate SlotCovered(kind: Kind, fs: seq<Filter>) {
    NoSlot(kind, fs) ||
    ((exists f :: f in fs && Applies(kind, f) && f.ServiceID?) && (exists f :: f in fs && Applies(kind, f) && f.NodeID?))
  }

  lemma CleanPlaces(kind: Kind, fs: seq<Filter>, f: Filter)
    requires Compiled(kind, fs).Some? && Clean(kind, fs) && f in fs && Applies(kind, f)
    ensures Placed(Compiled(kind, fs).value, f) || (IsPrefix(f) && Lost(kind, Compiled(kind, fs).value, f))
  {
    var i :| 0 <= i < |fs| && fs[i] == f;
    PlacedExactly(kind, fs, i);
  }

  lemma FieldNext(kind: Kind, a: Acc, f: Filter)
    requires Next(kind, a, f).Some?
    ensures var m := Next(kind, a, f).value.m;
            && (m.id == a.m.id || f == ID(m.id) || f == IDPrefix(m.id))
            && (m.name == a.m.name || (m.name.Some? && (f == Name(m.name.value) || f == NamePrefix(m.name.value))))
  {
  }

  /** A value in the prototype's ID or name comes from a recognised selector. */
  lemma {:induction false} FieldHasSource(kind: Kind, fs: seq<Filter>)
    requires Compiled(kind, fs).Some?
    ensures var m := Compiled(kind, fs).value.m;
            && (m.id != "" ==> ID(m.id) in fs || IDPrefix(m.id) in fs)
            && (m.name != Blank(kind).name ==> m.name.Some? && (Name(m.name.value) in fs || NamePrefix(m.name.value) in fs))
  {
    if fs != [] {
      var front, f := fs[..|fs| - 1], fs[|fs| - 1];
      FieldHasSource(kind, front);
      FieldNext(kind, Compiled(kind, front).value, f);
      assert fs == front + [f];
    }
  }

  /** An object that satisfies the selectors passes the check of a prefix selector whose empty operand
      was replaced. */
  lemma LostPrefixHolds(kind: Kind, fs: seq<Filter>, f: Filter, o: Object)
    requires Compiled(kind, fs).Some? && IsPrefix(f) && Lost(kind, Compiled(kind, fs).value, f) && Satisfied(kind, fs, o)
    ensures forall c :: c in Checks(f) ==> Holds(c, Compiled(kind, fs).value.m, o)
  {
    FieldHasSource(kind, fs);
    var m := Compiled(kind, fs).value.m;
    if f.IDPrefix? {
      var g := if ID(m.id) in fs then ID(m.id) else IDPrefix(m.id);
      assert g in fs && Applies(kind, g) && Satisfies(g, o);
    } else {
      var g := if Name(m.name.value) in fs then Name(m.name.value) else NamePrefix(m.name.value);
      assert g in fs && Applies(kind, g) && Satisfies(g, o);
    }
  }

  lemma PassesCheck(kind: Kind, fs: seq<Filter>, o: Object, f: Filter, c: Check)
    requires Compiled(kind, fs).Some? && Passes(kind, fs, o) && f in fs && Applies(kind, f) && c in Checks(f)
    ensures Holds(c, Compiled(kind, fs).value.m, o)
  {
    ChecksAre(kind, fs, c);
  }

  lemma PassesSlot(kind: Kind, fs: seq<Filter>, o: Object, f: Filter, g: Filter)
    requires Compiled(kind, fs).Some? && Passes(kind, fs, o) && f in fs && Applies(kind, f) && f.Slot?
    requires g in fs && Applies(kind, g) && g.ServiceID? && Placed(Compiled(kind, fs).value, f)
    ensures Satisfies(f, o)
  {
    PassesCheck(kind, fs, o, g, CheckServiceID);
    PassesCheck(kind, fs, o, f, CheckSlot);
  }

  lemma PassesIsSatisfied(kind: Kind, fs: seq<Filter>, o: Object, f: Filter)
    requires Compiled(kind, fs).Some? && Clean(kind, fs) && SlotCovered(kind, fs) && Passes(kind, fs, o)
    requires f in fs && Applies(kind, f)
    ensures Satisfies(f, o)
  {
    var a := Compiled(kind, fs).value;
    CleanPlaces(kind, fs, f);
    if f.Slot? {
      var g :| g in fs && Applies(kind, g) && g.ServiceID?;
      PassesSlot(kind, fs, o, f, g);
    } else if Placed(a, f) {
      forall c | c in Checks(f) ensures Holds(c, a.m, o) { PassesCheck(kind, fs, o, f, c); }
      CheckMeans(f, a, o);
    } else if f.NamePrefix? {
      PassesCheck(kind, fs, o, f, CheckNamePrefix);
    }
  }

  lemma SatisfiedPassesSlot(kind: Kind, fs: seq<Filter>, o: Object, f: Filter, g: Filter, c: Check)
    requires Compiled(kind, fs).Some? && Clean(kind, fs) && Satisfied(kind, fs, o) && c in Checks(f)
    requires f in fs && Applies(kind, f) && f.Slot? && g in fs && Applies(kind, g) && g.NodeID?
    ensures Holds(c, Compiled(kind, fs).value.m, o)
  {
    CleanPlaces(kind, fs, f);
    CleanPlaces(kind, fs, g);
    assert Satisfies(g, o) && Satisfies(f, o);
  }

  lemma SatisfiedPasses(kind: Kind, fs: seq<Filter>, o: Object, c: Check)
    requires Compiled(kind, fs).Some? && Clean(kind, fs) && SlotCovered(kind, fs) && Satisfied(kind, fs, o)
    requires c in Compiled(kind, fs).value.checks
    ensures Holds(c, Compiled(kind, fs).value.m, o)
  {
    var a := Compiled(kind, fs).value;
    ChecksAre(kind, fs, c);
    var f :| f in fs && Applies(kind, f) && c in Checks(f);
    CleanPlaces(kind, fs, f);
    if f.Slot? {
      var g :| g in fs && Applies(kind, g) && g.NodeID?;
      SatisfiedPassesSlot(kind, fs, o, f, g, c);
    } else if Placed(a, f) {
      CheckMeans(f, a, o);
    } else {
      LostPrefixHolds(kind, fs, f, o);
    }
  }

  // ---- the whole watch ----

  /** Some compiled matcher matches the event. */
  predicate Watched(xs: seq<Matcher>, e: Event) { exists x :: x in xs && Matches(x, e) }

  /** The flag of the action is set: 1 for creations, 2 for updates, 4 for removals. */
  predicate Asked(action: int, a: Action) {
    match a
    case Create => action % 2 == 1
    case Update => action / 2 % 2 == 1
    case Remove => action / 4 % 2 == 1
  }

  /** What the watch asks for. */
  predicate Wanted(kind: Kind, action: int, fs: seq<Filter>, e: Event) {
    e.kind == kind && Asked(action, e.action) && Satisfied(kind, fs, e.obj)
  }

  /** A list of selectors that clash is refused first, then a watch for none of the three actions. */
  lemma ConvertsExactly(kind: Kind, action: int, fs: seq<Filter>)
    ensures Convert(kind, action, fs) == Err(ConflictingFilters) <==> !Distinct(kind, fs)
    ensures Convert(kind, action, fs) == Err(UnrecognizedAction)
       <==> Distinct(kind, fs) && forall a :: !Asked(action, a)
  {
    AcceptedExactly(kind, fs);
    assert Asked(action, Create) <==> Requested(action, Create);
    assert Asked(action, Update) <==> Requested(action, Update);
    assert Asked(action, Remove) <==> Requested(action, Remove);
  }

  lemma WatchedMeans(kind: Kind, action: int, fs: seq<Filter>, e: Event)
    requires Convert(kind, action, fs).Ok?
    ensures Watched(Convert(kind, action, fs).value, e)
       <==> e.kind == kind && Asked(action, e.action) && Passes(kind, fs, e.obj)
  {
    var a, xs := Compiled(kind, fs).value, Convert(kind, action, fs).value;
    var x := Matcher(kind, e.action, a.m, a.checks);
    if Requested(action, e.action) { assert x in Listed(kind, action, e.action, a); assert x in xs; }
  }

  /** The compiled watch matches exactly the events whose action is requested and whose object satisfies
      every recognised selector. */
  lemma MeaningPreserved(kind: Kind, action: int, fs: seq<Filter>, e: Event)
    requires Convert(kind, action, fs).Ok? && Clean(kind, fs) && SlotCovered(kind, fs)
    ensures Watched(Convert(kind, action, fs).value, e) <==> Wanted(kind, action, fs, e)
  {
    WatchedMeans(kind, action, fs, e);
    if Passes(kind, fs, e.obj) {
      forall f | f in fs && Applies(kind, f) ensures Satisfies(f, e.obj) { PassesIsSatisfied(kind, fs, e.obj, f); }
    }
    if Satisfied(kind, fs, e.obj) {
      forall c | c in Compiled(kind, fs).value.checks ensures Holds(c, Compiled(kind, fs).value.m, e.obj) {
        SatisfiedPasses(kind, fs, e.obj, c);
      }
    }
  }

  // ---- witnesses of a changed meaning ----

  function AnAction(action: int): Action {
    if Requested(action, Create) then Create else if Requested(action, Update) then Update else Remove
  }

  lemma AcceptedAction(kind: Kind, action: int, fs: seq<Filter>)
    requires Convert(kind, action, fs).Ok?
    ensures Requested(action, AnAction(action))
  {
  }

  /** The checks of names and indices read fields that are set. */
  predicate ReadsSetFields(a: Acc) {
    && (CheckName in a.checks || CheckNamePrefix in a.checks ==> a.m.name.Some?)
    && (CheckCustom in a.checks || CheckCustomPrefix in a.checks ==> |a.m.indices| == 1)
  }

  lemma ReadsNext(kind: Kind, a: Acc, f: Filter)
    requires ReadsSetFields(a) && Next(kind, a, f).Some?
    ensures ReadsSetFields(Next(kind, a, f).value)
  {
    if Applies(kind, f) {
      var checks := a.checks + Checks(f);
      assert forall c :: c in checks <==> c in a.checks || c in Checks(f);
    }
  }

  lemma {:induction false} ChecksReadSetFields(kind: Kind, fs: seq<Filter>)
    requires Compiled(kind, fs).Some?
    ensures ReadsSetFields(Compiled(kind, fs).value)
  {
    if fs != [] {
      ChecksReadSetFields(kind, fs[..|fs| - 1]);
      ReadsNext(kind, Compiled(kind, fs[..|fs| - 1]).value, fs[|fs| - 1]);
    }
  }

  /** The prototype passes its own checks. */
  lemma SelfMatch(kind: Kind, fs: seq<Filter>, c: Check)
    requires Compiled(kind, fs).Some? && c in Compiled(kind, fs).value.checks
    ensures Holds(c, Compiled(kind, fs).value.m, Compiled(kind, fs).value.m)
  {
    ChecksReadSetFields(kind, fs);
    var m := Compiled(kind, fs).value.m;
    if c == CheckCustomPrefix { assert m.indices[0] in m.indices; }
  }

  /** If a selector other than a prefix is replaced, the prototype itself is matched and not wanted. */
  lemma ReplacedMatchesPrototype(kind: Kind, action: int, fs: seq<Filter>, i: nat) returns (e: Event)
    requires Convert(kind, action, fs).Ok? && i < |fs| && Applies(kind, fs[i]) && !IsPrefix(fs[i]) && ReplacedFrom(kind, fs, i)
    ensures Watched(Convert(kind, action, fs).value, e) && !Wanted(kind, action, fs, e)
  {
    var a := Compiled(kind, fs).value;
    PlacedExactly(kind, fs, i);
    forall c | c in a.checks ensures Holds(c, a.m, a.m) { SelfMatch(kind, fs, c); }
    AcceptedAction(kind, action, fs);
    e := Event(kind, AnAction(action), a.m);
    WatchedMeans(kind, action, fs, e);
    assert !Satisfies(fs[i], a.m);
  }

  lemma AnotherString(s: string) returns (t: string)
    ensures t != s
  {
    t := s + "x";
    assert |t| == |s| + 1;
  }

  /** With a Slot selector and no ServiceID selector, the prototype moved to another service is matched
      but not wanted. */
  lemma SlotMatchesOtherService(kind: Kind, action: int, fs: seq<Filter>) returns (e: Event)
    requires Convert(kind, action, fs).Ok? && Clean(kind, fs) && !NoSlot(kind, fs)
    requires forall f :: f in fs && Applies(kind, f) ==> !f.ServiceID?
    ensures Watched(Convert(kind, action, fs).value, e) && !Wanted(kind, action, fs, e)
  {
    var a := Compiled(kind, fs).value;
    var t := AnotherString(a.m.serviceID);
    var o := a.m.(serviceID := t);
    ChecksAre(kind, fs, CheckServiceID);
    forall c | c in a.checks ensures Holds(c, a.m, o) { SelfMatch(kind, fs, c); }
    AcceptedAction(kind, action, fs);
    e := Event(kind, AnAction(action), o);
    WatchedMeans(kind, action, fs, e);
    var f :| f in fs && Applies(kind, f) && f.Slot?;
    CleanPlaces(kind, fs, f);
    assert !Satisfies(f, o);
  }

  /** On another node, the prototype satisfies every selector whose operand it holds, but for the node's. */
  lemma MovedSatisfies(kind: Kind, a: Acc, f: Filter, node: string)
    requires !f.NodeID? && (Placed(a, f) || (IsPrefix(f) && Lost(kind, a, f)))
    ensures Satisfies(f, a.m.(nodeID := node))
  {
    if f.Custom? || f.CustomPrefix? { assert a.m.(nodeID := node).indices[0] == (f.index, f.value); }
  }

  lemma MovedIsSatisfied(kind: Kind, fs: seq<Filter>, node: string)
    requires Compiled(kind, fs).Some? && Clean(kind, fs) && forall f :: f in fs && Applies(kind, f) ==> !f.NodeID?
    ensures Satisfied(kind, fs, Compiled(kind, fs).value.m.(nodeID := node))
  {
    var a := Compiled(kind, fs).value;
    forall f | f in fs && Applies(kind, f) ensures Satisfies(f, a.m.(nodeID := node)) {
      CleanPlaces(kind, fs, f);
      MovedSatisfies(kind, a, f, node);
    }
  }

  lemma MovedFailsNodeCheck(kind: Kind, fs: seq<Filter>, node: string)
    requires Compiled(kind, fs).Some? && !NoSlot(kind, fs) && node != Compiled(kind, fs).value.m.nodeID
    ensures !Passes(kind, fs, Compiled(kind, fs).value.m.(nodeID := node))
  {
    var f :| f in fs && Applies(kind, f) && f.Slot?;
    assert CheckNodeID in Checks(f);
    ChecksAre(kind, fs, CheckNodeID);
  }

  /** With a Slot selector and no NodeID selector, the prototype on another node is wanted but not matched. */
  lemma SlotMissesOtherNode(kind: Kind, action: int, fs: seq<Filter>) returns (e: Event)
    requires Convert(kind, action, fs).Ok? && Clean(kind, fs) && !NoSlot(kind, fs)
    requires forall f :: f in fs && Applies(kind, f) ==> !f.NodeID?
    ensures !Watched(Convert(kind, action, fs).value, e) && Wanted(kind, action, fs, e)
  {
    var m := Compiled(kind, fs).value.m;
    var t := AnotherString(m.nodeID);
    MovedIsSatisfied(kind, fs, t);
    MovedFailsNodeCheck(kind, fs, t);
    AcceptedAction(kind, action, fs);
    e := Event(kind, AnAction(action), m.(nodeID := t));
    WatchedMeans(kind, action, fs, e);
  }

  /** For every accepted list, whatever its operands: the compiled watch means what its selectors say if
      and only if no selector other than a prefix is replaced by a later one and a Slot selector, if
      there is one, stands beside both a ServiceID and a NodeID selector. */
  lemma MeaningPreservedExactly(kind: Kind, action: int, fs: seq<Filter>)
    requires Convert(kind, action, fs).Ok?
    ensures (forall e :: Watched(Convert(kind, action, fs).value, e) <==> Wanted(kind, action, fs, e))
       <==> Clean(kind, fs) && SlotCovered(kind, fs)
  {
    if !Clean(kind, fs) {
      var i :| 0 <= i < |fs| && Applies(kind, fs[i]) && !IsPrefix(fs[i]) && ReplacedFrom(kind, fs, i);
      var e := ReplacedMatchesPrototype(kind, action, fs, i);
    } else if SlotCovered(kind, fs) {
      forall e ensures Watched(Convert(kind, action, fs).value, e) <==> Wanted(kind, action, fs, e) {
        MeaningPreserved(kind, action, fs, e);
      }
    } else if forall f :: f in fs && Applies(kind, f) ==> !f.ServiceID? {
      var e := SlotMatchesOtherService(kind, action, fs);
    } else {
      var e := SlotMissesOtherNode(kind, action, fs);
    }
  }

  // ---- nonempty operands ----

  /** The operand is not the zero value of its field. */
  predicate NonEmpty(kind: Kind, f: Filter) {
    match f
    case ID(v) => v != ""
    case IDPrefix(v) => v != ""
    case Name(v) => kind.NodeKind? || v != ""
    case NamePrefix(v) => kind.NodeKind? || v != ""
    case ServiceID(v) => v != ""
    case NodeID(v) => v != ""
    case Slot(s, _) => s != ""
    case _ => true
  }

  /** With nonempty operands nothing is replaced, a Slot and a ServiceID selector exclude each other, and
      the watch means what its selectors say if and only if none of them is a Slot selector. */
  lemma NonEmptyExactly(kind: Kind, action: int, fs: seq<Filter>)
    requires Convert(kind, action, fs).Ok?
    requires forall f :: f in fs && Applies(kind, f) ==> NonEmpty(kind, f)
    ensures (forall e :: Watched(Convert(kind, action, fs).value, e) <==> Wanted(kind, action, fs, e)) <==> NoSlot(kind, fs)
  {
    MeaningPreservedExactly(kind, action, fs);
    forall i | 0 <= i < |fs| && Applies(kind, fs[i]) ensures !ReplacedFrom(kind, fs, i) { assert fs[i] in fs; }
    if !NoSlot(kind, fs) && SlotCovered(kind, fs) { SlotExcludesService(kind, fs); }
  }

  lemma NoClash(kind: Kind, fs: seq<Filter>, i: nat, j: nat)
    requires Compiled(kind, fs).Some? && i < j < |fs| && Applies(kind, fs[i]) && Applies(kind, fs[j])
    ensures !Clashes(kind, fs[i], fs[j])
  {
    AcceptedExactly(kind, fs);
    assert fs[..j][i] == fs[i];
  }

  lemma SlotExcludesService(kind: Kind, fs: seq<Filter>)
    requires Compiled(kind, fs).Some?
    requires forall f :: f in fs && Applies(kind, f) ==> NonEmpty(kind, f)
    requires exists f :: f in fs && Applies(kind, f) && f.Slot?
    ensures forall f :: f in fs && Applies(kind, f) ==> !f.ServiceID?
  {
    var f :| f in fs && Applies(kind, f) && f.Slot?;
    var i :| 0 <= i < |fs| && fs[i] == f;
    forall g | g in fs && Applies(kind, g) ensures !g.ServiceID? {
      var j :| 0 <= j < |fs| && fs[j] == g;
      if i < j { NoClash(kind, fs, i, j); } else if j < i { NoClash(kind, fs, j, i); }
    }
  }

  /** An empty operand does not mark its field as set: `ID ""` and `ID v` are accepted together and
      watch `v`, although no object satisfies both. */
  lemma EmptyOperandIsOverwritten(v: string)
    requires v != ""
    ensures Convert(ServiceKind, 1, [ID(""), ID(v)]).Ok? && !Clean(ServiceKind, [ID(""), ID(v)])
    ensures exists e :: Watched(Convert(ServiceKind, 1, [ID(""), ID(v)]).value, e) && !Wanted(ServiceKind, 1, [ID(""), ID(v)], e)
  {
    var fs := [ID(""), ID(v)];
    assert fs[..1] == [ID("")] && [ID("")][..0] == [];
    assert Compiled(ServiceKind, []) == Some(Start(ServiceKind));
    assert Compiled(ServiceKind, [ID("")]) == Next(ServiceKind, Start(ServiceKind), ID(""));
    assert fs[1] == ID(v) && Replaces(ServiceKind, fs[1], fs[0]);
    assert ReplacedFrom(ServiceKind, fs, 0);
    assert !IsPrefix(fs[0]) && Applies(ServiceKind, fs[0]);
    var e := ReplacedMatchesPrototype(ServiceKind, 1, fs, 0);
  }
}
