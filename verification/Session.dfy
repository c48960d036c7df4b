/** The receiving side of the assignment stream: one round of the loop of `session.watch`. */
module Session {
  import opened Api
  import opened Worker

  datatype Msg = Msg(full: bool, cs: seq<Change>, appliesTo: string, resultsIn: string)

  datatype Got = Resp(msg: Msg) | Unimplemented | Failed

  /** What the network answers in one round; an answer to a call that is not made is ignored. */
  datatype Answers = Answers(opens: bool, got: Got, tasksOpens: bool, tasks: Option<seq<Task>>)

  datatype Watch = Watch(open: bool, tasksOpen: bool, reference: string, fallback: bool)

  const NEW_WATCH := Watch(false, false, "", false)

  function AsUpdates(ts: seq<Task>): seq<Change> {
    if ts == [] then [] else AsUpdates(ts[..|ts| - 1]) + [Change(UpdateAction, TaskItem(ts[|ts| - 1]))]
  }

  /** A message of the older `Tasks` call, as a complete assignment message. */
  function Wrapped(ts: seq<Task>): Msg { Msg(true, AsUpdates(ts), "", "") }

  /** The comparison of references; the message is passed on in both cases. */
  function Compared(w: Watch, m: Msg): Watch {
    if w.reference != "" && w.reference != m.appliesTo then w.(open := false) else w.(reference := m.resultsIn)
  }

  function TasksRound(w: Watch, a: Answers): Option<(Watch, Msg)> {
    if !w.tasksOpen && !a.tasksOpens then None
    else match a.tasks
      case None => None
      case Some(ts) => Some((Compared(w.(tasksOpen := true), Wrapped(ts)), Wrapped(ts)))
  }

  /** One round; `None` when it returns an error. */
  function Round(w: Watch, a: Answers): Option<(Watch, Msg)> {
    if w.fallback then TasksRound(w, a)
    else if !w.open && !a.opens then None
    else match a.got
      case Failed => None
      case Unimplemented => TasksRound(w.(open := false, fallback := true), a)
      case Resp(m) => Some((Compared(w.(open := true), m), m))
  }

  /** The answer of the stream is used while it is known to exist, that of the older call afterwards. */
  predicate UsesTasks(w: Watch, a: Answers) { w.fallback || a.got.Unimplemented? }

  /** A round fails exactly if the call it needs cannot be opened or answers with an error. */
  lemma RoundFailsExactly(w: Watch, a: Answers)
    ensures Round(w, a).None?
       <==> || (!w.fallback && ((!w.open && !a.opens) || a.got.Failed?))
            || (UsesTasks(w, a) && ((!w.tasksOpen && !a.tasksOpens) || a.tasks.None?))
  {
  }

  /** What a round leaves: the calls it opened, and the stream closed again at a break of the chain or for
      good once it is not implemented. */
  lemma RoundLeaves(w: Watch, a: Answers)
    requires Round(w, a).Some?
    ensures var w', m := Round(w, a).value.0, Round(w, a).value.1;
            var broken := w.reference != "" && m.appliesTo != w.reference;
            && w'.fallback == UsesTasks(w, a)
            && w'.tasksOpen == (w.tasksOpen || UsesTasks(w, a))
            && w'.reference == (if broken then w.reference else m.resultsIn)
            && (!UsesTasks(w, a) ==> m == a.got.msg && w'.open == !broken)
            && (!w.fallback && UsesTasks(w, a) ==> !w'.open)
  {
  }

  class Session {
    var assignmentWatch: bool
    var tasksWatch: bool
    var streamReference: string
    var tasksFallback: bool

    function View(): Watch
      reads this
    {
      Watch(assignmentWatch, tasksWatch, streamReference, tasksFallback)
    }

    ghost predicate Valid()
      reads this
    {
      (tasksFallback ==> !assignmentWatch) && (tasksWatch ==> tasksFallback)
    }

    constructor ()
      ensures Valid() && View() == NEW_WATCH
    {
      assignmentWatch, tasksWatch, streamReference, tasksFallback := false, false, "", false;
    }

    method WrapTasks(ts: seq<Task>) returns (m: Msg)
      ensures m == Wrapped(ts)
    {
      var changes := [];
      for i := 0 to |ts|
        invariant changes == AsUpdates(ts[..i])
      {
        changes := changes + [Change(UpdateAction, TaskItem(ts[i]))];
        assert ts[..i + 1][..i] == ts[..i];
      }
      assert ts[..|ts|] == ts;
      m := Msg(true, changes, "", "");
    }

    /** The body of the loop, up to passing the message on. */
    method Next(a: Answers) returns (resp: Option<Msg>)
      requires Valid()
      modifies this
      ensures resp.Some? <==> Round(old(View()), a).Some?
      ensures resp.Some? ==> Valid() && Round(old(View()), a) == Some((View(), resp.value))
    {
      var m: Msg;
      if !assignmentWatch && !tasksFallback {
        if !a.opens { return None; }
        assignmentWatch := true;
      }
      if assignmentWatch {
        match a.got {
          case Failed => return None;
          case Unimplemented =>
            tasksFallback := true;
            assignmentWatch := false;
            m := Wrapped([]);
          case Resp(r) => m := r;
        }
      } else {
        m := Wrapped([]);
      }
      if !tasksWatch && tasksFallback {
        if !a.tasksOpens { return None; }
        tasksWatch := true;
      }
      if tasksWatch {
        if a.tasks.None? { return None; }
        m := WrapTasks(a.tasks.value);
      }
      if streamReference != "" && streamReference != m.appliesTo {
        assignmentWatch := false;
      } else {
        streamReference := m.resultsIn;
      }
      resp := Some(m);
    }
  }
}
