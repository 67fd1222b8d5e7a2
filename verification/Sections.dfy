/** The lock-protected functions of the watcher, written as they run when nothing interferes, which
    the lock guarantees. Each is shown to walk along the transition system's section steps. */
module Sections {
  import opened Text
  import opened StatusText
  import opened Protocol
  import opened ProtocolSafety

  datatype CommandOutcome = CommandOutcome(landed: bool, reported: bool)

  /** A docker command: it may fail with or without effect, but success means it took effect. */
  type Command = c: CommandOutcome | c.reported ==> c.landed witness CommandOutcome(false, false)

  /** The node and the thread's place after a list of section steps. */
  function Walk(n: Node, pc: Pc, ls: seq<Label>): Option<Move> {
    if ls == [] then
      Some(Move(n, pc))
    else
      match Walk(n, pc, ls[..|ls| - 1])
      case None => None
      case Some(m) => SectionStep(m.node, m.pc, false, ls[|ls| - 1])
  }

  /** The marker file, the node's availability and the lock, with the steps of the current section. */
  class LocalNode {
    var avail: Availability
    var marker: bool
    var lock: Option<Thread>
    ghost var start: Node
    ghost var kind: Kind
    ghost var pc: Pc
    ghost var path: seq<Label>

    constructor (a: Availability, m: bool)
      ensures View() == Node(a, m, None)
    {
      avail, marker, lock := a, m, None;
      pc, path := Idle, [];
    }

    function View(): Node
      reads this
    {
      Node(avail, marker, lock)
    }

    /** The steps taken so far lead from the start of the section to this node and the thread's place. */
    ghost predicate Reached(n: Node)
      reads `start, `kind, `pc, `path
    {
      && Walk(start, Locking(kind), path) == Some(Move(n, pc))
      && forall l :: l in path ==> OfThread(l)
    }

    ghost predicate OnPath()
      reads this
    {
      Reached(View())
    }

    /** The section is over, with this result. */
    ghost predicate Done(k: Kind, ok: bool)
      reads this
    {
      OnPath() && kind == k && pc == Left(k, ok)
    }

    ghost method Begin(k: Kind)
      modifies this`start, this`kind, this`pc, this`path
      ensures OnPath() && kind == k && pc == Locking(k) && start == View()
    {
      start, kind, pc, path := View(), k, Locking(k), [];
    }

    /** Records a step whose effect on the node has just been carried out. */
    ghost method Took(l: Label, before: Node, next: Pc)
      requires Reached(before) && OfThread(l)
      requires SectionStep(before, pc, false, l) == Some(Move(View(), next))
      modifies this`pc, this`path
      ensures OnPath() && pc == next
    {
      assert (path + [l])[..|path|] == path;
      path, pc := path + [l], next;
    }

    method LockDrain(t: Thread, free: bool) returns (ok: bool)
      requires OnPath() && pc == Locking(kind) && (free ==> lock == None)
      modifies this`lock, this`pc, this`path
      ensures OnPath() && ok == free
      ensures free ==> lock == Some(t) && pc == Deciding(kind)
      ensures !free ==> lock == old(lock) && Done(kind, false)
    {
      hide Reached, SafeForUndrain;
      ghost var n := View();
      if free {
        lock := Some(t);
        Took(Acquire(t), n, Deciding(kind));
      } else {
        Took(AcquireFails(t), n, Left(kind, false));
      }
      return free;
    }

    method Unlock(t: Thread, ok: bool)
      requires OnPath() && pc == Leaving(kind, ok)
      modifies this`lock, this`pc, this`path
      ensures Done(kind, ok) && lock == None
    {
      hide Reached, SafeForUndrain;
      ghost var n := View();
      lock := None;
      Took(Label.Unlock(t), n, Left(kind, ok));
    }

    /** The context expired, or the snapshot failed: leave without a command. */
    method GiveUp(t: Thread)
      requires OnPath() && kind != Recovery && (pc == Deciding(kind) || pc == Writing(kind))
      modifies this`lock, this`pc, this`path
      ensures Done(kind, false) && lock == None
    {
      hide Reached;
      Took(Label.GiveUp(t), View(), Leaving(kind, false));
      Unlock(t, false);
    }

    /** The attempt's context is live and its snapshot is there. */
    ghost method Ready()
      requires OnPath() && kind == DrainAttempt && pc == Deciding(kind)
      modifies this`pc, this`path
      ensures OnPath() && pc == Writing(kind)
    {
      hide Reached;
      Took(Proceed(Attempt), View(), Writing(kind));
    }

    /** Writing the marker and then running the drain command; a failed write is only logged. */
    method MarkAndDrain(t: Thread, written: bool, started: bool, c: Command) returns (ok: bool)
      requires OnPath() && pc == Writing(kind)
      modifies this`avail, this`marker, this`pc, this`path
      ensures OnPath() && pc == Leaving(kind, ok)
      ensures marker == (old(marker) || written)
      ensures avail == if started && c.landed then Drained else old(avail)
      ensures ok <==> started && c.reported
    {
      hide Reached, SectionStep;
      ghost var n := View();
      DrainMoves(n, t, false, kind, marker || written);
      marker := marker || written;
      Took(WriteMarker(t, marker), n, Starting(kind));
      n := View();
      if !started {
        Took(RefuseCommand(t), n, Leaving(kind, false));
        return false;
      }
      Took(StartCommand(t), n, Draining(kind, false));
      if c.landed {
        avail := Drained;
        Took(Land(t), n, Draining(kind, true));
        n := View();
      }
      Took(Return(t, c.reported), n, Leaving(kind, c.reported));
      return c.reported;
    }

    /** Sets the node active again and only then clears the marker. */
    method UndrainNow(t: Thread, ghost status: string, c: Command, removed: bool) returns (ok: bool)
      requires OnPath() && pc == Activating(status, false) && kind == Recovery
      modifies this`avail, this`marker, this`pc, this`path
      ensures OnPath() && pc == Leaving(Recovery, ok)
      ensures avail == if c.landed then Active else old(avail)
      ensures marker == (old(marker) && !ok)
      ensures ok <==> c.reported && removed
    {
      hide Reached, SafeForUndrain;
      ghost var n := View();
      if c.landed {
        avail := Active;
        Took(Land(t), n, Activating(status, true));
        n := View();
      }
      if !c.reported {
        Took(Return(t, false), n, Leaving(Recovery, false));
        return false;
      }
      Took(Return(t, true), n, Removing(status));
      if removed {
        marker := false;
      }
      Took(RemoveMarker(t, removed), n, Leaving(Recovery, removed));
      return removed;
    }

    method Probe(t: Thread, probe: Option<string>) returns (safe: bool)
      requires OnPath() && pc == Probing && kind == Recovery
      modifies this`pc, this`path
      ensures OnPath()
      ensures safe <==> probe.Some? && SafeForUndrain(probe.value)
      ensures pc == if safe then Activating(probe.value, false) else Leaving(Recovery, false)
    {
      hide Reached, SafeForUndrain;
      safe := probe.Some? && SafeForUndrain(probe.value);
      if safe {
        Took(FreshProbe(t, true, probe.value), View(), Activating(probe.value, false));
      } else {
        Took(FreshProbe(t, probe.Some?, if probe.Some? then probe.value else ""), View(), Leaving(Recovery, false));
      }
    }

    /** Releases the node only on a fresh status with OL and neither OB nor LB. */
    method RecoverDrain(t: Thread, free: bool, probe: Option<string>, c: Command, removed: bool) returns (ok: bool)
      requires free ==> lock == None
      modifies this
      ensures Done(Recovery, ok) && start == old(View())
      ensures lock == old(lock)
      ensures var safe := free && old(marker) && probe.Some? && SafeForUndrain(probe.value);
              && avail == (if safe && c.landed then Active else old(avail))
              && marker == (old(marker) && !(safe && c.reported && removed))
              && (ok <==> free && !marker)
      ensures ok && Marked(old(View())) ==> View() == Node(Active, false, None)
    {
      hide Reached, SafeForUndrain;
      Begin(Recovery);
      var locked := LockDrain(t, free);
      if !locked {
        return false;
      }
      ghost var n := View();
      if !marker {
        Took(Proceed(t), n, Leaving(Recovery, true));
        Unlock(t, true);
        return true;
      }
      Took(Proceed(t), n, Probing);
      var safe := Probe(t, probe);
      if !safe {
        Unlock(t, false);
        return false;
      }
      ok := UndrainNow(t, probe.value, c, removed);
      Unlock(t, ok);
    }

    /** The bounded drain before an urgent shutdown: skipped when the node is confirmed drained. */
    method PrepareUrgentDrain(free: bool, live: bool, inspected: bool, liveAfter: bool, written: bool,
                              started: bool, c: Command) returns (ok: bool)
      requires free ==> lock == None
      modifies this
      ensures Done(UrgentDrain, ok) && start == old(View())
      ensures lock == old(lock)
      ensures var confirmed := free && live && old(marker) && inspected && old(avail) == Drained;
              var drains := free && live && !confirmed && liveAfter;
              && (ok <==> confirmed || (drains && started && c.reported))
              && marker == (old(marker) || (drains && written))
              && avail == if drains && started && c.landed then Drained else old(avail)
      ensures Marked(old(View())) && written ==> Marked(View())
    {
      hide Reached, SafeForUndrain;
      Begin(UrgentDrain);
      var locked := LockDrain(Main, free);
      if !locked {
        return false;
      }
      ghost var n := View();
      if !live {
        GiveUp(Main);
        return false;
      }
      if marker {
        Took(Proceed(Main), n, Inspecting);
        if inspected && avail == Drained {
          Took(Inspect(Main, true), n, Leaving(UrgentDrain, true));
          Unlock(Main, true);
          return true;
        }
        Took(Inspect(Main, false), n, Writing(UrgentDrain));
      } else {
        Took(Proceed(Main), n, Writing(UrgentDrain));
      }
      if !liveAfter {
        GiveUp(Main);
        return false;
      }
      ok := MarkAndDrain(Main, written, started, c);
      Unlock(Main, ok);
    }
  }
}
