/** What the invariants say about whole runs: when a node is released, what a recovery that
    reports success has seen, and what monitoredDrain returns. */
module ProtocolRuns {
  import opened Text
  import opened StatusText
  import opened UpsMachine
  import opened UpsRuns
  import opened Protocol
  import opened ProtocolSafety

  lemma ExecOne(s: State, ls: seq<Label>, q: State, l: Label)
    requires Exec(s, ls) == Some(q)
    ensures Exec(s, ls + [l]) == Step(q, l)
  {
    assert (ls + [l])[..|ls|] == ls;
  }

  /** A run with all its intermediate states. */
  ghost predicate Follows(qs: seq<State>, ls: seq<Label>) {
    |qs| == |ls| + 1 && forall i :: 0 <= i < |ls| ==> Step(qs[i], ls[i]) == Some(qs[i + 1])
  }

  lemma {:induction false} FollowedRun(qs: seq<State>, ls: seq<Label>)
    requires Follows(qs, ls)
    ensures Exec(qs[0], ls) == Some(qs[|ls|])
    decreases |ls|
  {
    hide Step;
    if ls != [] {
      FollowedRun(qs[..|qs| - 1], ls[..|ls| - 1]);
    }
  }

  lemma {:induction false} ExecConcat(s: State, a: seq<Label>, b: seq<Label>)
    requires Exec(s, a).Some?
    ensures Exec(s, a + b) == Exec(Exec(s, a).value, b)
    decreases |b|
  {
    hide Step;
    if b == [] {
      assert a + b == a;
    } else {
      ExecConcat(s, a, b[..|b| - 1]);
      assert (a + b)[..|a + b| - 1] == a + b[..|b| - 1];
    }
  }

  // ---------------------------------------------------------------- release

  predicate Releasing(pc: Pc, status: string) {
    (pc.Activating? || pc.Removing?) && pc.status == status
  }

  lemma SectionReleasing(n: Node, pc: Pc, cancelled: bool, l: Label, status: string)
    requires SectionStep(n, pc, cancelled, l).Some? && Releasing(SectionStep(n, pc, cancelled, l).value.pc, status)
    ensures Releasing(pc, status)
            || (pc == Probing && l.FreshProbe? && l.ok && l.status == status && SafeForUndrain(status))
  {
    hide SafeForUndrain;
  }

  lemma {:induction false} ReleasingBegins(s: State, l: Label, t: Thread, status: string)
    requires Step(s, l).Some? && Releasing(PcOf(Step(s, l).value, t), status)
    ensures Releasing(PcOf(s, t), status)
            || (l == FreshProbe(t, true, status) && SafeForUndrain(status) && PcOf(s, t) == Probing)
  {
    hide Step, ThreadStep, SectionStep, SafeForUndrain;
    StepIs(s, l);
    if OfThread(l) {
      ThreadMoves(s, l.t, l, t);
      if l.t == t {
        SectionReleasing(s.node, PcOf(s, t), t == Attempt && s.cancelled, l, status);
      }
    } else {
      OutsideSteps(s, l, t);
    }
  }

  ghost predicate HoldsLockThroughout(s0: State, ls: seq<Label>, t: Thread, from: nat, to: nat)
    requires to <= |ls|
  {
    forall k :: from <= k <= to ==> Exec(s0, ls[..k]).Some? && Exec(s0, ls[..k]).value.node.lock == Some(t)
  }

  lemma InsideHasLock(s: State, t: Thread)
    requires Exclusive(s) && Inside(PcOf(s, t))
    ensures s.node.lock == Some(t)
  {
  }

  lemma NothingReleasing(s0: State, t: Thread, status: string)
    requires Init(s0)
    ensures !Releasing(PcOf(s0, t), status)
  {
  }

  lemma ReleasingHasLock(s: State, t: Thread, status: string)
    requires Exclusive(s) && Releasing(PcOf(s, t), status)
    ensures s.node.lock == Some(t)
  {
  }

  /** A thread that is activating the node has had a safe status since it took the lock. */
  lemma {:induction false} SafeProbeBehind(s0: State, ls: seq<Label>, t: Thread, status: string) returns (j: nat)
    requires Init(s0) && Exec(s0, ls).Some? && Releasing(PcOf(Exec(s0, ls).value, t), status)
    ensures j < |ls| && ls[j] == FreshProbe(t, true, status) && SafeForUndrain(status)
    ensures HoldsLockThroughout(s0, ls, t, j, |ls|)
    decreases |ls|
  {
    hide Step, SafeForUndrain, Exclusive, Releasing;
    assert ls != [] by { NothingReleasing(s0, t, status); }
    var n := |ls| - 1;
    var g := ls[..n];
    ReleasingBegins(Exec(s0, g).value, ls[n], t, status);
    assert Exclusive(s0) by { InitIsSafe(s0); }
    RunKeepsExclusive(s0, g);
    RunKeepsExclusive(s0, ls);
    ReleasingHasLock(Exec(s0, ls).value, t, status);
    assert ls[..|ls|] == ls;
    if Releasing(PcOf(Exec(s0, g).value, t), status) {
      j := SafeProbeBehind(s0, g, t, status);
    } else {
      j := n;
      InsideHasLock(Exec(s0, g).value, t);
      assert g[..n] == g;
    }
    forall k | j <= k <= |ls|
      ensures Exec(s0, ls[..k]).Some? && Exec(s0, ls[..k]).value.node.lock == Some(t)
    {
      if k <= n {
        assert g[..k] == ls[..k];
      }
    }
  }

  lemma OnlyActivationReleases(s: State, l: Label)
    requires Step(s, l).Some? && s.node.avail == Drained && Step(s, l).value.node.avail == Active
    ensures l.Land? && PcOf(s, l.t).Activating?
  {
    AvailabilityMoves(s, l);
  }

  /** Availability changes only when a command in flight lands. */
  lemma {:induction false} AvailabilityMoves(s: State, l: Label)
    requires Step(s, l).Some?
    ensures Step(s, l).value.node.avail == s.node.avail
            || (l.Land? && PcOf(s, l.t).Activating? && Step(s, l).value.node.avail == Active)
            || (l.Land? && PcOf(s, l.t).Draining? && Step(s, l).value.node.avail == Drained)
  {
    hide Step, ThreadStep, SectionStep;
    StepIs(s, l);
    if OfThread(l) {
      ThreadMoves(s, l.t, l, l.t);
      SectionAvailability(s.node, PcOf(s, l.t), l.t == Attempt && s.cancelled, l);
    } else {
      OutsideSteps(s, l, Main);
    }
  }

  lemma SectionAvailability(n: Node, pc: Pc, cancelled: bool, l: Label)
    requires SectionStep(n, pc, cancelled, l).Some?
    ensures var m := SectionStep(n, pc, cancelled, l).value;
            || m.node.avail == n.avail
            || (l.Land? && pc.Activating? && m.node.avail == Active)
            || (l.Land? && pc.Draining? && m.node.avail == Drained)
  {
  }

  /** Every change from drained to active is one thread's activate command landing, after a probe
      of that thread saw OL and neither OB nor LB, without the lock changing hands in between. */
  lemma {:induction false} ReleaseFollowsSafeProbe(s0: State, ls: seq<Label>, s: State, l: Label, s': State)
      returns (t: Thread, j: nat)
    requires Init(s0) && Exec(s0, ls) == Some(s) && Step(s, l) == Some(s')
    requires s.node.avail == Drained && s'.node.avail == Active
    ensures l == Land(t) && j < |ls|
    ensures ls[j].FreshProbe? && ls[j].t == t && ls[j].ok && SafeForUndrain(ls[j].status)
    ensures HoldsLockThroughout(s0, ls, t, j, |ls|) && s'.node.lock == Some(t)
  {
    hide Step, SafeForUndrain;
    OnlyActivationReleases(s, l);
    t := l.t;
    j := SafeProbeBehind(s0, ls, t, PcOf(s, t).status);
    ActivationKeepsLock(s, l);
    assert ls[..|ls|] == ls;
  }

  lemma ActivationKeepsLock(s: State, l: Label)
    requires l.Land? && Step(s, l).Some?
    ensures Step(s, l).value.node.lock == s.node.lock
  {
    hide SafeForUndrain;
  }

  /** A recovery that reports success releases the lock with the node active and unmarked; this
      covers the early return that finds no marker. */
  lemma {:induction false} SuccessfulRecoveryLeavesReleased(s0: State, ls: seq<Label>, t: Thread)
    requires Init(s0) && Exec(s0, ls).Some? && MarkersWritten(ls)
    requires PcOf(Exec(s0, ls).value, t) == Leaving(Recovery, true)
    ensures var e := Exec(s0, ls + [Unlock(t)]);
            e.Some? && e.value.node == Node(Active, false, None) && PcOf(e.value, t) == Left(Recovery, true)
  {
    hide ActionAfter, SafeForUndrain;
    RunKeepsSafe(s0, ls, true);
    ExecOne(s0, ls, Exec(s0, ls).value, Unlock(t));
  }

  /** A drain that reports success, urgent or not, releases the lock with the node drained; and with the
      marker there, if every marker write has succeeded. */
  lemma {:induction false} SuccessfulDrainLeavesDrained(s0: State, ls: seq<Label>, t: Thread, k: Kind)
    requires Init(s0) && Exec(s0, ls).Some? && k != Recovery
    requires PcOf(Exec(s0, ls).value, t) == Leaving(k, true)
    ensures var e := Exec(s0, ls + [Unlock(t)]);
            && e.Some? && e.value.node.avail == Drained && e.value.node.lock == None
            && PcOf(e.value, t) == Left(k, true)
            && (MarkersWritten(ls) ==> e.value.node.marker)
  {
    hide ActionAfter, SafeForUndrain;
    RunKeepsSafe(s0, ls, false);
    if MarkersWritten(ls) {
      RunKeepsSafe(s0, ls, true);
    }
    ExecOne(s0, ls, Exec(s0, ls).value, Unlock(t));
  }

  predicate BootSucceeded(s: State) {
    || s.bootMode.BootExited?
    || ((s.boot.Leaving? || s.boot.Left?) && s.boot.ok)
  }

  lemma SectionSucceeds(n: Node, pc: Pc, cancelled: bool, l: Label)
    requires Marked(n) && Holds(n, pc, true) && RunsKind(pc, Recovery) && SectionStep(n, pc, cancelled, l).Some?
    requires var m := SectionStep(n, pc, cancelled, l).value; (m.pc.Leaving? || m.pc.Left?) && m.pc.ok
    ensures var m := SectionStep(n, pc, cancelled, l).value;
            (pc.Leaving? && pc.ok) || (m.node.avail == Active && !m.node.marker)
  {
    hide SafeForUndrain;
  }

  lemma {:induction false} BootSuccessBegins(s: State, l: Label)
    requires Exclusive(s) && Safe(s, true) && Step(s, l).Some? && BootSucceeded(Step(s, l).value)
    ensures l != CrashBoot
    ensures BootSucceeded(s) || (Step(s, l).value.node.avail == Active && !Step(s, l).value.node.marker)
  {
    hide ThreadStep, ProbeStep, WatchStep, BootStep, Crash, Safe;
    if l == CrashBoot {
      BootForgets(s);
    } else if OfThread(l) {
      BootThreadSucceeds(s, l.t, l);
    } else {
      OutsideSteps(s, l, Boot);
      BootModeSucceeds(s, l);
    }
  }

  lemma BootForgets(s: State)
    ensures !BootSucceeded(Crash(s, CrashBoot))
  {
  }

  lemma BootThreadSucceeds(s: State, t: Thread, l: Label)
    requires Exclusive(s) && Safe(s, true) && ThreadStep(s, t, l).Some? && BootSucceeded(ThreadStep(s, t, l).value)
    ensures var s' := ThreadStep(s, t, l).value;
            BootSucceeded(s) || (s'.node.avail == Active && !s'.node.marker)
  {
    hide SectionStep, SafeForUndrain;
    if t == Boot && !s.bootMode.BootExited? {
      SectionMoves(s.node, s.boot, false, l);
      SectionSucceeds(s.node, s.boot, false, l);
    }
  }

  lemma BootModeSucceeds(s: State, l: Label)
    requires Exclusive(s) && Safe(s, true) && !OfThread(l) && l != CrashBoot
    requires Step(s, l).Some? && BootSucceeded(Step(s, l).value)
    ensures BootSucceeded(s) || (Step(s, l).value.node.avail == Active && !Step(s, l).value.node.marker)
  {
    hide ProbeStep, WatchStep, Crash, SafeForUndrain;
    OutsideSteps(s, l, Boot);
  }

  /** When the boot-time undrain has exited, there was a moment of this boot at which the node was
      active and unmarked. */
  lemma {:induction false} BootExitSawRelease(s0: State, ls: seq<Label>) returns (k: nat)
    requires Exclusive(s0) && Safe(s0, true) && !BootSucceeded(s0)
    requires Exec(s0, ls).Some? && MarkersWritten(ls) && BootSucceeded(Exec(s0, ls).value)
    ensures k <= |ls| && Exec(s0, ls[..k]).Some?
    ensures Exec(s0, ls[..k]).value.node.avail == Active && !Exec(s0, ls[..k]).value.node.marker
    ensures forall i :: k <= i < |ls| ==> ls[i] != CrashBoot
    decreases |ls|
  {
    hide Step, Safe;
    assert ls[..|ls|] == ls;
    assert ls != [];
    var g, l := ls[..|ls| - 1], ls[|ls| - 1];
    RunKeepsExclusive(s0, g);
    RunKeepsSafe(s0, g, true);
    BootSuccessBegins(Exec(s0, g).value, l);
    if BootSucceeded(Exec(s0, g).value) {
      k := BootExitSawRelease(s0, g);
      assert g[..k] == ls[..k];
    } else {
      k := |ls|;
    }
  }

  // ---------------------------------------------------------------- monitoredDrain

  /** Some probe decided Drain, and from then on no probe has decided anything or seen mains. */
  ghost predicate DrainingSince(cfg: Policy, h: History, i: nat) {
    i < |h| && ActionAt(cfg, h, i) == Drain && QuietFrom(cfg, h, i + 1)
  }

  ghost predicate InDrain(cfg: Policy, h: History) {
    exists i: nat :: DrainingSince(cfg, h, i)
  }

  /** The machine's knowledge during runDrain, and the decision a join is waiting to return, which is the
      one that ended the drain. */
  ghost predicate Monitors(s: State) {
    && (s.mode.Open? || s.mode.Select? || s.mode.Pause? || s.mode.Polled? ==>
          s.cfg.role == Peer && Alive(s.cfg, s.history) && Confirmed(s.cfg, s.history) && InDrain(s.cfg, s.history))
    && (s.mode.Select? ==> !s.cancelled)
    && (s.mode.Join? ==>
          && s.cfg.role == Peer && s.cancelled && Stops(s.mode.action)
          && s.history != [] && ActionAfter(s.cfg, Before(s.history), Last(s.history)) == s.mode.action
          && InDrain(s.cfg, Before(s.history)))
  }

  lemma DrainBegins(cfg: Policy, h: History, p: Probe)
    requires ActionAfter(cfg, h, p) == Drain
    ensures InDrain(cfg, h + [p]) && cfg.role == Peer && Alive(cfg, h + [p]) && Confirmed(cfg, h + [p])
  {
    hide Classify;
    HistoryAppend(h, p);
    DrainDecisionStarts(cfg, h + [p]);
    assert (h + [p])[..|h|] == h;
    assert DrainingSince(cfg, h + [p], |h|);
  }

  lemma DrainGoesOn(cfg: Policy, h: History, p: Probe)
    requires cfg.role == Peer && Alive(cfg, h) && Confirmed(cfg, h) && InDrain(cfg, h)
    ensures var a := ActionAfter(cfg, h, p);
            a == Shutdown || a == Undrain
            || (a == NoAction && Alive(cfg, h + [p]) && Confirmed(cfg, h + [p]) && InDrain(cfg, h + [p]))
  {
    hide Classify, Alive, Confirmed, ActionAfter;
    var i: nat :| DrainingSince(cfg, h, i);
    DrainingStep(cfg, h, p, i + 1);
    assert (h + [p])[..i] == h[..i] && (h + [p])[i] == h[i];
    if !Stops(ActionAfter(cfg, h, p)) {
      assert DrainingSince(cfg, h + [p], i);
    }
  }

  lemma ProbeKeepsMonitors(s: State, l: Label, p: Probe)
    requires Monitors(s) && ProbeStep(s, l, p).Some?
    ensures Monitors(ProbeStep(s, l, p).value)
  {
    hide Classify, Alive, Fires, Confirmed, BatteryRun, InDrain, ActionAfter;
    HistoryAppend(s.history, p);
    if s.mode.Watch? {
      if ActionAfter(s.cfg, s.history, p) == Drain {
        DrainBegins(s.cfg, s.history, p);
      }
    } else if !s.mode.Join? {
      DrainGoesOn(s.cfg, s.history, p);
    }
  }

  lemma {:induction false} StepKeepsMonitors(s: State, l: Label)
    requires Monitors(s) && Step(s, l).Some?
    ensures Monitors(Step(s, l).value)
  {
    hide Step, ThreadStep, ActionAfter, Alive, Confirmed, InDrain, ProbeStep;
    StepIs(s, l);
    if OfThread(l) {
      ThreadMoves(s, l.t, l, l.t);
    } else if OfProbe(l) {
      ProbeKeepsMonitors(s, l, l.p);
    }
  }

  lemma {:induction false} RunKeepsMonitors(s0: State, ls: seq<Label>)
    requires Init(s0) && Exec(s0, ls).Some?
    ensures Monitors(Exec(s0, ls).value)
    decreases |ls|
  {
    hide Step, ActionAfter, Alive, Confirmed, InDrain;
    if ls != [] {
      RunKeepsMonitors(s0, ls[..|ls| - 1]);
      StepKeepsMonitors(Exec(s0, ls[..|ls| - 1]).value, ls[|ls| - 1]);
    }
  }

  /** The goroutine is alive exactly while monitoredDrain runs: it starts from an empty slot, and
      monitoredDrain returns only with the attempt finished. A true result means no decision; a
      decision that ended the select loop is the one returned. */
  lemma {:induction false} MonitoredDrainReturns(s0: State, ls: seq<Label>, s: State, l: Label, s': State)
    requires Init(s0) && Exec(s0, ls) == Some(s) && Step(s, l) == Some(s')
    ensures s.attempt != Idle <==> s.mode.Select? || s.mode.Join?
    ensures AttemptMoves(s, l, s')
    ensures s.mode.Join? ==>
              && Stops(s.mode.action) && s.history != []
              && s.mode.action == ActionAfter(s.cfg, Before(s.history), Last(s.history))
  {
    hide Step, Exec, ActionAfter, AttemptMoves, Alive, Confirmed, InDrain;
    RunKeepsExclusive(s0, ls);
    RunKeepsMonitors(s0, ls);
    AttemptChanges(s, l, s');
  }

  /** The goroutine starts from an empty slot, ends only when it is done or dies with its process, its
      result is received in the select, and a join acts on the decision that it waited with: Undrain
      recovers, anything else powers off. */
  ghost predicate AttemptMoves(s: State, l: Label, s': State) {
    && (s.attempt == Idle && s'.attempt != Idle ==> s.mode.Open? && s'.mode.Select?)
    && (s.attempt != Idle && s'.attempt == Idle ==> s.attempt.Left? || l == CrashWatch)
    && (s'.mode.Pause? && !s.mode.Pause? && !s.mode.Polled? ==>
          s.mode.Select? && s.attempt.Left? && s'.mode.drained == s.attempt.ok)
    && (s.mode.Join? && l == Receive ==>
          if s.mode.action == Undrain
          then s' == s.(attempt := Idle, mode := Recover(true), main := Locking(Recovery))
          else s' == s.(attempt := Idle, mode := Off))
  }

  lemma {:induction false} AttemptChanges(s: State, l: Label, s': State)
    requires Exclusive(s) && Step(s, l) == Some(s')
    ensures AttemptMoves(s, l, s')
  {
    hide Step, ActionAfter, ThreadStep, SectionStep, OnDecision, WatchStep, Crash, BootStep;
    StepIs(s, l);
    if OfThread(l) {
      ThreadMoves(s, l.t, l, Attempt);
      SectionMoves(s.node, PcOf(s, l.t), l.t == Attempt && s.cancelled, l);
    } else if OfProbe(l) {
      DecisionChanges(s.(history := s.history + [l.p]), l, ActionAfter(s.cfg, s.history, l.p));
    } else if OfWatch(l) {
      WatchChanges(s, l);
    } else if OfBoot(l) {
      BootChanges(s, l);
    } else {
      CrashChanges(s, l);
    }
  }

  lemma BootChanges(s: State, l: Label)
    requires BootStep(s, l).Some?
    ensures BootStep(s, l).value.attempt == s.attempt && BootStep(s, l).value.mode == s.mode
  {
  }

  lemma CrashChanges(s: State, l: Label)
    requires OfCrash(l)
    ensures var s' := Crash(s, l);
            if l.CrashWatch? then s'.attempt == Idle && s'.mode == Watch
            else s'.attempt == s.attempt && s'.mode == s.mode
  {
  }

  lemma WatchChanges(s: State, l: Label)
    requires WatchStep(s, l).Some?
    ensures var s' := WatchStep(s, l).value;
            && (s'.attempt == s.attempt || (s'.attempt == Idle && s.attempt.Left?))
            && (s'.mode.Pause? && !s.mode.Pause? && !s.mode.Polled? ==>
                  s.mode.Select? && s.attempt.Left? && s'.mode.drained == s.attempt.ok)
            && (s.mode.Join? && l == Receive ==>
          if s.mode.action == Undrain
          then s' == s.(attempt := Idle, mode := Recover(true), main := Locking(Recovery))
          else s' == s.(attempt := Idle, mode := Off))
  {
  }

  lemma DecisionChanges(s: State, l: Label, a: Action)
    requires Exclusive(s) && OnDecision(s, l, a).Some?
    ensures var s' := OnDecision(s, l, a).value;
            && (s.attempt == Idle && s'.attempt != Idle ==> s.mode.Open? && s'.mode.Select?)
            && (s.attempt != Idle ==> s'.attempt != Idle)
            && (s'.mode.Pause? ==> s.mode.Pause?)
  {
  }

  /** A poweroff through the converged or deadline exit happens only while a drain goes on: some probe
      decided it, no later one decided anything or saw mains, and at least confirmOB battery probes
      stand unanswered. The attempt is over, and no probe could decide a second drain. */
  lemma {:induction false} NoPoweroffAfterMains(s0: State, ls: seq<Label>, s: State, why: Conclusion)
    requires Init(s0) && Exec(s0, ls) == Some(s)
    requires Step(s, Conclude(why)).Some? && Step(s, Conclude(why)).value.mode == Off
    ensures s.cfg.role == Peer && Alive(s.cfg, s.history)
    ensures exists i: nat :: DrainingSince(s.cfg, s.history, i)
    ensures |BatterySince(s.history)| >= s.cfg.confirmOB
    ensures s.attempt == Idle
    ensures forall p :: ActionAfter(s.cfg, s.history, p) != Drain
  {
    hide Alive, Classify, DrainingSince;
    RunKeepsExclusive(s0, ls);
    RunKeepsMonitors(s0, ls);
    BatteryRunCountsProbes(s.history);
  }
}
