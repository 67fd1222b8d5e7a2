/** Where the main thread of watch goes: exactly when it powers off, when it starts a recovery, when it
    drains again, and when the undrain process exits. */
module ProtocolFlow {
  import opened Text
  import opened StatusText
  import opened UpsMachine
  import opened UpsRuns
  import opened Protocol
  import opened ProtocolSafety
  import opened ProtocolRuns
  import opened ProtocolDrains

  /** What the machine decided on the last probe of this watch process. */
  ghost function Decided(s: State): Action {
    if s.history == [] then NoAction else ActionAfter(s.cfg, Before(s.history), Last(s.history))
  }

  /** runDrain is over, with a conclusion that the test mode does not suppress. */
  predicate Concludes(s: State, l: Label) {
    s.mode.Polled? && l.Conclude? && l.why != Again
  }

  /** The main thread is in runDrain, with no attempt under way. */
  predicate BetweenAttempts(m: Mode) {
    m.Open? || m.Pause?
  }

  /** One of these steps ends in a poweroff: the end of the urgent drain, an unsuppressed conclusion, or a
      Shutdown, at the top of the loop on a survivor, in a drain at once or behind the join. */
  ghost predicate PowersOff(s: State, l: Label, s': State) {
    || (s.mode.Urgent? && l.SectionDone?)
    || (Concludes(s, l) && !s.suppressPoweroff)
    || (l.TopProbe? && Decided(s') == Shutdown && s.cfg.role == Survivor)
    || (BetweenAttempts(s.mode) && OfProbe(l) && Decided(s') == Shutdown)
    || (s.mode.Join? && l.Receive? && Decided(s) == Shutdown)
  }

  /** One of these starts a recovery from elsewhere: a top probe that neither drains nor shuts down, a
      suppressed conclusion, or an Undrain in a drain, at once or behind the join. */
  ghost predicate Recovers(s: State, l: Label, s': State) {
    || (l.TopProbe? && (Decided(s') == NoAction || Decided(s') == Undrain))
    || (Concludes(s, l) && s.suppressPoweroff)
    || (BetweenAttempts(s.mode) && OfProbe(l) && Decided(s') == Undrain)
    || (s.mode.Join? && l.Receive? && Decided(s) == Undrain)
  }

  lemma DecisionGoes(s: State, l: Label, a: Action)
    requires OfProbe(l) && OnDecision(s, l, a).Some?
    ensures var s' := OnDecision(s, l, a).value;
            && s'.history == s.history && s'.cfg == s.cfg && !s.mode.Off? && !s'.mode.Watch?
            && (s'.mode == Off <==> a == Shutdown && ((l.TopProbe? && s.cfg.role == Survivor) || BetweenAttempts(s.mode)))
            && (s'.mode.Urgent? <==> a == Shutdown && l.TopProbe? && s.cfg.role == Peer)
            && (s'.mode.Recover? <==>
                  || (l.TopProbe? && (a == NoAction || a == Undrain))
                  || (BetweenAttempts(s.mode) && a == Undrain))
            && (s'.mode.Recover? ==> s'.mode == Recover(!l.TopProbe?) && s'.main == Locking(Recovery))
            && (s'.mode.Urgent? ==> s'.main == Locking(UrgentDrain))
            && (s'.mode.Open? <==> l.TopProbe? && a == Drain)
            && (s'.mode.Polled? <==> s.mode.Pause? && !Stops(a))
            && (s'.mode.Polled? ==> s'.mode.drained == s.mode.drained)
            && (s.mode.Open? && !Stops(a) ==>
                  s'.mode.Select? && s'.attempt == Locking(DrainAttempt) && !s'.cancelled)
            && (s.mode.Select? ==> s' == if Stops(a) then s.(mode := Join(a), cancelled := true) else s)
  {
  }

  lemma WatchGoes(s: State, l: Label)
    requires WatchStep(s, l).Some? && (s.mode.Join? ==> Stops(s.mode.action))
    ensures var s' := WatchStep(s, l).value;
            && s'.history == s.history && s'.cfg == s.cfg
            && (s'.mode == Off <==>
                  || (s.mode.Urgent? && l.SectionDone?)
                  || (Concludes(s, l) && !s.suppressPoweroff)
                  || (s.mode.Join? && l.Receive? && s.mode.action == Shutdown))
            && (s'.mode.Recover? <==>
                  || (Concludes(s, l) && s.suppressPoweroff)
                  || (s.mode.Join? && l.Receive? && s.mode.action == Undrain)
                  || (s.mode == Recover(true) && l.SectionDone?))
            && (s'.mode.Recover? ==> s'.mode == Recover(!s.mode.Recover?) && s'.main == Locking(Recovery))
            && (s'.mode.Watch? <==> s.mode == Recover(false) && l.SectionDone?)
            && (s'.mode.Open? <==> s.mode == Polled(false) && l == Conclude(Again))
            && (Concludes(s, l) && l.why == Converged ==> s.mode.drained)
            && (s.mode == Polled(true) && l == Conclude(Again) ==> s'.mode == Pause(true))
  {
  }

  lemma OtherStepsStay(s: State, l: Label)
    requires Step(s, l).Some? && !OfProbe(l) && !OfWatch(l)
    ensures Step(s, l).value.mode == s.mode || l == CrashWatch
    ensures l == CrashWatch ==> Step(s, l).value.mode == Watch
  {
    hide Step, ThreadStep, BootStep, Crash;
    StepIs(s, l);
    if OfThread(l) {
      ThreadMoves(s, l.t, l, l.t);
    } else if OfBoot(l) {
      BootChanges(s, l);
    } else {
      CrashChanges(s, l);
    }
  }

  /** What the invariants of a run say about a step's history and mode. */
  lemma {:induction false} StepGoes(s0: State, ls: seq<Label>, s: State, l: Label, s': State)
    requires Init(s0) && Exec(s0, ls) == Some(s) && Step(s, l) == Some(s')
    ensures OfProbe(l) ==> OnDecision(s.(history := s'.history), l, Decided(s')) == Some(s')
    ensures OfWatch(l) ==> WatchStep(s, l) == Some(s')
    ensures s.mode.Join? ==> Stops(s.mode.action) && s.mode.action == Decided(s)
    ensures s.mode.Off? ==> s'.mode.Off? || l == CrashWatch
  {
    hide Step, Exec, OnDecision, WatchStep, ActionAfter, Alive, Confirmed, InDrain;
    RunKeepsMonitors(s0, ls);
    StepIs(s, l);
    if OfProbe(l) {
      var h := s.history + [l.p];
      HistoryAppend(s.history, l.p);
      DecisionGoes(s.(history := h), l, ActionAfter(s.cfg, s.history, l.p));
    } else if OfWatch(l) {
      OffStays(s, l);
    } else {
      OtherStepsStay(s, l);
    }
  }

  lemma OffStays(s: State, l: Label)
    requires WatchStep(s, l).Some?
    ensures !s.mode.Off?
  {
  }

  /** On every run watch powers off exactly in these steps; in particular mains that is back never does it,
      and a Shutdown in a drain always does. */
  lemma {:induction false} PoweroffIff(s0: State, ls: seq<Label>, s: State, l: Label, s': State)
    requires Init(s0) && Exec(s0, ls) == Some(s) && Step(s, l) == Some(s') && s.mode != Off
    ensures s'.mode == Off <==> PowersOff(s, l, s')
    ensures s'.mode == Off ==> (Concludes(s, l) && !s.suppressPoweroff) || Decided(s') == Shutdown
  {
    hide Step, Exec, OnDecision, WatchStep, ActionAfter;
    StepGoes(s0, ls, s, l, s');
    RunKeepsUrged(s0, ls);
    if OfProbe(l) {
      DecisionGoes(s.(history := s'.history), l, Decided(s'));
    } else if OfWatch(l) {
      WatchGoes(s, l);
    } else {
      OtherStepsStay(s, l);
    }
  }

  /** On every run a recovery starts exactly in these steps, at its lock; one that runDrain has started is
      followed by a second one, and that by the top of the loop. */
  lemma {:induction false} RecoveryIff(s0: State, ls: seq<Label>, s: State, l: Label, s': State)
    requires Init(s0) && Exec(s0, ls) == Some(s) && Step(s, l) == Some(s')
    ensures !s.mode.Recover? ==> (s'.mode.Recover? <==> Recovers(s, l, s'))
    ensures !s.mode.Recover? && s'.mode.Recover? ==> s'.main == Locking(Recovery) && s'.mode == Recover(!l.TopProbe?)
    ensures s.mode == Recover(true) && l == SectionDone ==> s'.mode == Recover(false) && s'.main == Locking(Recovery)
    ensures s'.mode.Watch? && !s.mode.Watch? && l != CrashWatch ==> s.mode == Recover(false) && l == SectionDone
  {
    hide Step, Exec, OnDecision, WatchStep, ActionAfter;
    StepGoes(s0, ls, s, l, s');
    if OfProbe(l) {
      DecisionGoes(s.(history := s'.history), l, Decided(s'));
    } else if OfWatch(l) {
      WatchGoes(s, l);
    } else {
      OtherStepsStay(s, l);
    }
  }

  /** On every run runDrain starts exactly on a Drain decision at the top of the loop; its opening
      probe starts an attempt unless it decides, a tick decision cancels it, it attempts again exactly
      while no attempt has reported success, and an urgent drain exactly follows a peer's Shutdown
      at the top of the loop. */
  lemma {:induction false} DrainIff(s0: State, ls: seq<Label>, s: State, l: Label, s': State)
    requires Init(s0) && Exec(s0, ls) == Some(s) && Step(s, l) == Some(s')
    ensures !s.mode.Open? ==> (s'.mode.Open? <==>
              (l.TopProbe? && Decided(s') == Drain) || (s.mode == Polled(false) && l == Conclude(Again)))
    ensures s.mode == Polled(true) && l == Conclude(Again) ==> s'.mode == Pause(true)
    ensures s.mode.Open? && OfProbe(l) && !Stops(Decided(s')) ==>
              s'.mode.Select? && s'.attempt == Locking(DrainAttempt) && !s'.cancelled
    ensures s.mode.Select? && OfProbe(l) && Stops(Decided(s')) ==> s'.mode == Join(Decided(s')) && s'.cancelled
    ensures s.mode.Select? && OfProbe(l) && !Stops(Decided(s')) ==> s' == s.(history := s'.history)
    ensures !s.mode.Urgent? ==> (s'.mode.Urgent? <==> l.TopProbe? && Decided(s') == Shutdown && s.cfg.role == Peer)
  {
    hide Step, Exec, OnDecision, WatchStep, ActionAfter;
    StepGoes(s0, ls, s, l, s');
    if OfProbe(l) {
      DecisionGoes(s.(history := s'.history), l, Decided(s'));
    } else if OfWatch(l) {
      WatchGoes(s, l);
      UrgentOnlyFromTop(s, l);
    } else {
      OtherStepsStay(s, l);
    }
  }

  lemma UrgentOnlyFromTop(s: State, l: Label)
    requires WatchStep(s, l).Some?
    ensures !WatchStep(s, l).value.mode.Urgent?
  {
  }

  /** Once a decision waits for the attempt, the attempt starts no drain command any more, and the decision
      stands until the attempt is over. */
  lemma {:induction false} CancelStopsDrains(s0: State, ls: seq<Label>, s: State, l: Label, s': State)
    requires Init(s0) && Exec(s0, ls) == Some(s) && Step(s, l) == Some(s') && s.mode.Join? && l != CrashWatch
    ensures !s.attempt.Draining? ==> !s'.attempt.Draining?
    ensures (s'.mode == s.mode && s'.cancelled) || (l.Receive? && s.attempt.Left?)
  {
    hide Step, Exec, ThreadStep, SectionStep, WatchStep, OnDecision, ActionAfter, Alive, Confirmed, InDrain, BootStep, Crash;
    RunKeepsMonitors(s0, ls);
    StepIs(s, l);
    if OfThread(l) {
      ThreadMoves(s, l.t, l, Attempt);
      if l.t == Attempt {
        if !s.attempt.Draining? {
          CancelledStartsNothing(s.node, s.attempt, l);
        }
      }
    } else if OfProbe(l) {
      NoProbeInJoin(s.(history := s.history + [l.p]), l, ActionAfter(s.cfg, s.history, l.p));
    } else if OfWatch(l) {
      JoinReceives(s, l);
    } else if OfBoot(l) {
      BootChanges(s, l);
      BootSparesCancel(s, l);
    } else {
      CrashChanges(s, l);
      CrashSparesCancel(s, l);
    }
  }

  lemma CancelledStartsNothing(n: Node, pc: Pc, l: Label)
    requires SectionStep(n, pc, true, l).Some? && !pc.Draining?
    ensures !SectionStep(n, pc, true, l).value.pc.Draining?
  {
    hide SafeForUndrain;
  }

  lemma NoProbeInJoin(s: State, l: Label, a: Action)
    requires s.mode.Join?
    ensures OnDecision(s, l, a).None?
  {
  }

  lemma JoinReceives(s: State, l: Label)
    requires s.mode.Join? && WatchStep(s, l).Some?
    ensures l.Receive? && s.attempt.Left? && WatchStep(s, l).value.attempt == Idle
  {
  }

  lemma BootSparesCancel(s: State, l: Label)
    requires BootStep(s, l).Some?
    ensures BootStep(s, l).value.cancelled == s.cancelled
  {
  }

  lemma CrashSparesCancel(s: State, l: Label)
    requires l.CrashBoot?
    ensures Crash(s, l).cancelled == s.cancelled
  {
  }

  // ---------------------------------------------------------------- a reported drain

  /** The goroutine, or what the main thread has received from it, says that the drain succeeded. */
  predicate SaysDrained(s: State) {
    || ((s.attempt.Leaving? || s.attempt.Left?) && s.attempt.ok)
    || ((s.mode.Pause? || s.mode.Polled?) && s.mode.drained)
  }

  lemma AttemptReports(n: Node, pc: Pc, cancelled: bool, l: Label)
    requires SectionStep(n, pc, cancelled, l).Some? && RunsKind(pc, DrainAttempt)
    requires var m := SectionStep(n, pc, cancelled, l).value; (m.pc.Leaving? || m.pc.Left?) && m.pc.ok
    ensures ((pc.Leaving? || pc.Left?) && pc.ok) || (l.Return? && l.ok && pc.Draining? && pc.landed)
  {
    hide SafeForUndrain;
  }

  lemma {:induction false} SaysDrainedBegins(s: State, l: Label)
    requires Exclusive(s) && Step(s, l).Some? && SaysDrained(Step(s, l).value)
    ensures l != CrashWatch
    ensures SaysDrained(s) || (l == Return(Attempt, true) && s.attempt.Draining? && s.attempt.landed)
  {
    hide Step, ThreadStep, SectionStep, WatchStep, OnDecision, ActionAfter, Crash, BootStep;
    StepIs(s, l);
    if OfThread(l) {
      ThreadMoves(s, l.t, l, Attempt);
      if l.t == Attempt {
        SectionMoves(s.node, s.attempt, s.cancelled, l);
        AttemptReports(s.node, s.attempt, s.cancelled, l);
      }
    } else if OfProbe(l) {
      DecisionKeepsReport(s.(history := s.history + [l.p]), l, ActionAfter(s.cfg, s.history, l.p));
    } else if OfWatch(l) {
      WatchKeepsReport(s, l);
    } else if OfBoot(l) {
      BootChanges(s, l);
    } else {
      CrashChanges(s, l);
    }
  }

  lemma DecisionKeepsReport(s: State, l: Label, a: Action)
    requires Exclusive(s) && OnDecision(s, l, a).Some?
    ensures SaysDrained(OnDecision(s, l, a).value) ==> SaysDrained(s)
  {
  }

  lemma WatchKeepsReport(s: State, l: Label)
    requires Exclusive(s) && WatchStep(s, l).Some?
    ensures SaysDrained(WatchStep(s, l).value) ==> SaysDrained(s)
  {
  }

  /** Behind every drain taken for done there is a drain command of this watch process that took effect
      and reported success. */
  lemma {:induction false} ReportBehind(s0: State, ls: seq<Label>) returns (i: nat)
    requires Init(s0) && Exec(s0, ls).Some? && SaysDrained(Exec(s0, ls).value)
    ensures i < |ls| && ls[i] == Return(Attempt, true) && Exec(s0, ls[..i]).Some?
    ensures Exec(s0, ls[..i]).value.attempt.Draining? && Exec(s0, ls[..i]).value.attempt.landed
    ensures forall j :: i < j < |ls| ==> ls[j] != CrashWatch
    decreases |ls|
  {
    hide Step, Exclusive, SaysDrained;
    assert Exclusive(s0) by { InitIsSafe(s0); }
    assert !SaysDrained(s0) by { InitSaysNothing(s0); }
    assert ls != [];
    var n := |ls| - 1;
    var g := ls[..n];
    RunKeepsExclusive(s0, g);
    SaysDrainedBegins(Exec(s0, g).value, ls[n]);
    if SaysDrained(Exec(s0, g).value) {
      i := ReportBehind(s0, g);
      assert g[..i] == ls[..i];
      assert forall j :: i < j < n ==> g[j] == ls[j];
    } else {
      i := n;
    }
  }

  lemma InitSaysNothing(s0: State)
    requires Init(s0)
    ensures !SaysDrained(s0)
  {
  }

  /** A poweroff as converged has such a command behind it. */
  lemma {:induction false} ConvergedNeedsReport(s0: State, ls: seq<Label>) returns (i: nat)
    requires Init(s0) && Exec(s0, ls).Some? && Step(Exec(s0, ls).value, Conclude(Converged)).Some?
    ensures i < |ls| && ls[i] == Return(Attempt, true)
    ensures forall j :: i < j < |ls| ==> ls[j] != CrashWatch
  {
    hide Step, Exec, WatchStep;
    var s := Exec(s0, ls).value;
    StepIs(s, Conclude(Converged));
    ConvergedIsDrained(s);
    i := ReportBehind(s0, ls);
  }

  lemma ConvergedIsDrained(s: State)
    requires WatchStep(s, Conclude(Converged)).Some?
    ensures SaysDrained(s)
  {
  }

  // ---------------------------------------------------------------- the undrain process

  /** The undrain process exits exactly without a marker or behind a successful recovery, and otherwise
      tries again. */
  lemma UndrainExitsIff(s: State, l: Label)
    requires OfBoot(l) && Step(s, l).Some?
    ensures var s' := Step(s, l).value;
            && (s'.bootMode == BootExited <==>
                  || (s.bootMode == BootStart && !s.node.marker)
                  || (s.bootMode == BootRecover && s.boot.Left? && s.boot.ok))
            && (s'.bootMode != BootExited ==> s'.bootMode == BootRecover && s'.boot == Locking(Recovery))
  {
  }
}
