/** The reporter as the object the source has, its runner cut at the points where it releases the
    lock. */
module ReporterObject {
  import opened Api
  import opened Reporter

  class StatusReporter {
    var statuses: map<string, Status>
    var volumes: set<string>
    var closed: bool
    var pc: PC
    var accepted: seq<(string, Status)>
    var delivered: seq<(string, Status)>
    var reported: set<string>
    var vdone: set<string>

    function View(): State
      reads this
    {
      State(statuses, volumes, closed, pc, accepted, delivered, reported, vdone)
    }

    constructor ()
      ensures View() == INIT
    {
      statuses, volumes, closed, pc := map[], {}, false, NotStarted;
      accepted, delivered, reported, vdone := [], [], {}, {};
    }

    method Notify()
      modifies this`pc
      ensures pc == Signal(old(pc))
    {
      if pc.Waiting? { pc := Waiting(true); }
    }

    method UpdateStatus(id: string, status: Status)
      requires LockFree(pc)
      modifies this
      ensures View() == Submitted(old(View()), id, status)
    {
      if id in statuses {
        var current := statuses[id];
        if current == status { return; }
        if current.state > status.state { return; }
      }
      statuses := statuses[id := status];
      accepted := accepted + [(id, status)];
      Notify();
    }

    method ReportUnpublished(volume: string)
      requires LockFree(pc)
      modifies this
      ensures View() == Step(old(View()), ReportVolume(volume))
    {
      volumes := volumes + {volume};
      reported, vdone := reported + {volume}, vdone - {volume};
      Notify();
    }

    method Shut()
      requires LockFree(pc)
      modifies this
      ensures View() == Step(old(View()), Close)
    {
      closed := true;
      Notify();
    }

    /** The runner from the top of its loop to the first range loop. */
    method EnterLoop()
      modifies this`pc
      ensures View() == Enter(old(View()))
    {
      if closed { pc := Exited; } else { pc := StatusLoop(statuses.Keys); }
    }

    /** Upstream answered a status report; the runner has the lock again. */
    method StatusReturned(ok: bool)
      requires pc.SendingStatus?
      modifies this
      ensures View() == StatusDone(old(View()), ok)
    {
      var id, status, todo := pc.id, pc.status, pc.todo;
      if ok { delivered := delivered + [(id, status)]; }
      if closed {
        pc := Exited;
        return;
      }
      if !ok && id !in statuses { statuses := statuses[id := status]; }
      pc := StatusLoop(todo);
    }

    method VolumeReturned(ok: bool)
      requires pc.SendingVolume?
      modifies this
      ensures View() == VolumeDone(old(View()), ok)
    {
      var id, todo := pc.id, pc.todo;
      if ok { vdone := vdone + {id}; }
      if closed {
        pc := Exited;
        return;
      }
      if !ok { volumes := volumes + {id}; }
      pc := VolumeLoop(todo);
    }

    /** One caller, or the runner up to the next point where it releases the lock or loops. */
    method Advance(e: Event)
      requires Enabled(View(), e)
      modifies this
      ensures View() == Step(old(View()), e)
    {
      match e {
        case UpdateTaskStatus(id, status) => UpdateStatus(id, status);
        case ReportVolume(volume) => ReportUnpublished(volume);
        case Close => Shut();
        case Start => pc := Top;
        case Check => if |statuses| == 0 && |volumes| == 0 { pc := Waiting(false); } else { EnterLoop(); }
        case Wake => EnterLoop();
        case PickStatus(id) =>
          var status := statuses[id];
          statuses := statuses - {id};
          pc := SendingStatus(id, status, pc.todo - {id});
        case StatusSent(ok) => StatusReturned(ok);
        case EndStatuses => pc := VolumeLoop(volumes);
        case PickVolume(id) =>
          volumes := volumes - {id};
          pc := SendingVolume(id, pc.todo - {id});
        case VolumeSent(ok) => VolumeReturned(ok);
        case EndVolumes => pc := Top;
      }
    }
  }
}
