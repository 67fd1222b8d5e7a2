/** Invariants of the drain protocol and what they give for every run. */
module ProtocolSafety {
  import opened Text
  import opened StatusText
  import opened UpsMachine
  import opened Protocol

  // ---------------------------------------------------------------- kinds of steps

  /** The labels of the steps inside sections. */
  predicate OfThread(l: Label) {
    !(l.TopProbe? || l.OpenProbe? || l.Tick? || l.PollProbe? || l.Receive? || l.Conclude? || l.SectionDone?
      || l.CrashWatch? || l.CrashBoot? || l.BootStat? || l.BootDone?)
  }

  predicate OfProbe(l: Label) {
    l.TopProbe? || l.OpenProbe? || l.Tick? || l.PollProbe?
  }

  predicate OfWatch(l: Label) {
    l.Receive? || l.Conclude? || l.SectionDone?
  }

  predicate OfBoot(l: Label) {
    l.BootStat? || l.BootDone?
  }

  predicate OfCrash(l: Label) {
    l.CrashWatch? || l.CrashBoot?
  }

  lemma StepIs(s: State, l: Label)
    ensures OfThread(l) ==> Step(s, l) == ThreadStep(s, l.t, l)
    ensures OfProbe(l) ==> Step(s, l) == ProbeStep(s, l, l.p)
    ensures OfWatch(l) ==> Step(s, l) == WatchStep(s, l)
    ensures OfBoot(l) ==> Step(s, l) == BootStep(s, l)
    ensures OfCrash(l) ==> Step(s, l) == Some(Crash(s, l))
    ensures OfThread(l) || OfProbe(l) || OfWatch(l) || OfBoot(l) || OfCrash(l)
  {
    hide ThreadStep, ProbeStep, WatchStep, BootStep, Crash;
  }

  /** A thread's step moves that thread, and otherwise the node at most. */
  lemma ThreadMoves(s: State, t: Thread, l: Label, u: Thread)
    requires ThreadStep(s, t, l).Some?
    ensures SectionStep(s.node, PcOf(s, t), t == Attempt && s.cancelled, l).Some?
    ensures var m := SectionStep(s.node, PcOf(s, t), t == Attempt && s.cancelled, l).value;
            var s' := ThreadStep(s, t, l).value;
            && s'.node == m.node && PcOf(s', u) == (if u == t then m.pc else PcOf(s, u))
            && s'.mode == s.mode && s'.bootMode == s.bootMode
            && s'.cfg == s.cfg && s'.history == s.history && s'.cancelled == s.cancelled
  {
    hide SectionStep;
  }

  // ---------------------------------------------------------------- mutual exclusion

  predicate Inside(pc: Pc) {
    !pc.Idle? && !pc.Locking? && !pc.Left?
  }

  predicate RunsKind(pc: Pc, k: Kind) {
    match pc
    case Idle => false
    case Inspecting => k == UrgentDrain
    case Probing => k == Recovery
    case Activating(_, _) => k == Recovery
    case Removing(_) => k == Recovery
    case _ => pc.kind == k
  }

  /** The lock has exactly the thread that is inside a section, and each thread runs only its own sections. */
  ghost predicate Exclusive(s: State) {
    && (Inside(s.main) <==> s.node.lock == Some(Main))
    && (Inside(s.attempt) <==> s.node.lock == Some(Attempt))
    && (Inside(s.boot) <==> s.node.lock == Some(Boot))
    && (s.main != Idle <==> s.mode.Recover? || s.mode.Urgent?)
    && (s.mode.Recover? ==> RunsKind(s.main, Recovery))
    && (s.mode.Urgent? ==> RunsKind(s.main, UrgentDrain))
    && (s.attempt != Idle <==> s.mode.Select? || s.mode.Join?)
    && (s.attempt != Idle ==> RunsKind(s.attempt, DrainAttempt))
    && (s.boot != Idle <==> s.bootMode.BootRecover?)
    && (s.boot != Idle ==> RunsKind(s.boot, Recovery))
  }

  /** A section step keeps the kind, and changes the lock exactly when it enters or leaves. */
  lemma SectionMoves(n: Node, pc: Pc, cancelled: bool, l: Label)
    requires SectionStep(n, pc, cancelled, l).Some?
    ensures var m := SectionStep(n, pc, cancelled, l).value;
            && pc != Idle && m.pc != Idle
            && (forall k :: RunsKind(pc, k) ==> RunsKind(m.pc, k))
            && (Inside(pc) && Inside(m.pc) ==> m.node.lock == n.lock)
            && (Inside(pc) && !Inside(m.pc) ==> m.node.lock == None)
            && (!Inside(pc) && Inside(m.pc) ==> n.lock == None && m.node.lock == Some(l.t))
            && (!Inside(pc) && !Inside(m.pc) ==> m.node == n)
  {
    hide SafeForUndrain;
  }

  /** Steps outside sections leave availability and marker alone and only start or end sections. */
  lemma {:induction false} OutsideSteps(s: State, l: Label, t: Thread)
    requires !OfThread(l) && Step(s, l).Some?
    ensures var s' := Step(s, l).value;
            && s'.node.avail == s.node.avail && s'.node.marker == s.node.marker
            && (s'.bootMode == s.bootMode || OfBoot(l) || l.CrashBoot?)
            && (PcOf(s', t) == PcOf(s, t) || PcOf(s', t) == Idle || PcOf(s', t).Locking?)
  {
    hide Step, ActionAfter, OnDecision, WatchStep, BootStep, Crash;
    StepIs(s, l);
    if OfProbe(l) {
      DecisionOutside(s.(history := s.history + [l.p]), l, ActionAfter(s.cfg, s.history, l.p), t);
    } else if OfWatch(l) {
      WatchOutside(s, l, t);
    } else if OfBoot(l) {
      BootOutside(s, l, t);
    } else {
      CrashOutside(s, l, t);
    }
  }

  lemma BootOutside(s: State, l: Label, t: Thread)
    requires BootStep(s, l).Some?
    ensures var s' := BootStep(s, l).value;
            && s'.node == s.node
            && (PcOf(s', t) == PcOf(s, t) || PcOf(s', t) == Idle || PcOf(s', t).Locking?)
  {
  }

  predicate CrashOf(l: Label, t: Thread) {
    if t == Boot then l.CrashBoot? else l.CrashWatch?
  }

  lemma CrashOutside(s: State, l: Label, t: Thread)
    requires OfCrash(l)
    ensures var s' := Crash(s, l);
            && s'.node.avail == s.node.avail && s'.node.marker == s.node.marker
            && (s'.bootMode == s.bootMode || l.CrashBoot?)
            && PcOf(s', t) == (if CrashOf(l, t) then Idle else PcOf(s, t))
            && (s.node.lock == Some(t) && !CrashOf(l, t) ==> s'.node == s.node)
  {
  }

  lemma DecisionOutside(s: State, l: Label, a: Action, t: Thread)
    requires OnDecision(s, l, a).Some?
    ensures var s' := OnDecision(s, l, a).value;
            && s'.node == s.node && s'.bootMode == s.bootMode
            && (PcOf(s', t) == PcOf(s, t) || PcOf(s', t) == Idle || PcOf(s', t).Locking?)
  {
  }

  lemma WatchOutside(s: State, l: Label, t: Thread)
    requires WatchStep(s, l).Some?
    ensures var s' := WatchStep(s, l).value;
            && s'.node == s.node && s'.bootMode == s.bootMode
            && (PcOf(s', t) == PcOf(s, t) || PcOf(s', t) == Idle || PcOf(s', t).Locking?)
  {
  }

  lemma {:induction false} ThreadKeepsExclusive(s: State, t: Thread, l: Label)
    requires Exclusive(s) && ThreadStep(s, t, l).Some? && l.t == t
    ensures Exclusive(ThreadStep(s, t, l).value)
  {
    hide SectionStep, ThreadStep;
    ThreadMoves(s, t, l, Main);
    ThreadMoves(s, t, l, Attempt);
    ThreadMoves(s, t, l, Boot);
    SectionMoves(s.node, PcOf(s, t), t == Attempt && s.cancelled, l);
  }

  lemma ProbeKeepsExclusive(s: State, l: Label, a: Action)
    requires Exclusive(s) && OnDecision(s, l, a).Some?
    ensures Exclusive(OnDecision(s, l, a).value)
  {
  }

  lemma WatchKeepsExclusive(s: State, l: Label)
    requires Exclusive(s) && WatchStep(s, l).Some?
    ensures Exclusive(WatchStep(s, l).value)
  {
  }

  lemma BootKeepsExclusive(s: State, l: Label)
    requires Exclusive(s) && BootStep(s, l).Some?
    ensures Exclusive(BootStep(s, l).value)
  {
  }

  lemma CrashKeepsExclusive(s: State, l: Label)
    requires Exclusive(s) && OfCrash(l)
    ensures Exclusive(Crash(s, l))
  {
  }

  lemma {:induction false} StepKeepsExclusive(s: State, l: Label)
    requires Exclusive(s) && Step(s, l).Some?
    ensures Exclusive(Step(s, l).value)
  {
    hide Step, ThreadStep, WatchStep, OnDecision, ActionAfter, Crash, BootStep;
    StepIs(s, l);
    if OfThread(l) {
      ThreadKeepsExclusive(s, l.t, l);
    } else if OfProbe(l) {
      ProbeKeepsExclusive(s.(history := s.history + [l.p]), l, ActionAfter(s.cfg, s.history, l.p));
    } else if OfWatch(l) {
      WatchKeepsExclusive(s, l);
    } else if OfBoot(l) {
      BootKeepsExclusive(s, l);
    } else {
      CrashKeepsExclusive(s, l);
    }
  }

  lemma {:induction false} RunKeepsExclusive(s0: State, ls: seq<Label>)
    requires Exclusive(s0) && Exec(s0, ls).Some?
    ensures Exclusive(Exec(s0, ls).value)
    decreases |ls|
  {
    if ls != [] {
      RunKeepsExclusive(s0, ls[..|ls| - 1]);
      StepKeepsExclusive(Exec(s0, ls[..|ls| - 1]).value, ls[|ls| - 1]);
    }
  }

  /** The moves of the marker write and the drain command behind it. */
  lemma DrainMoves(n: Node, t: Thread, cancelled: bool, k: Kind, present: bool)
    requires !cancelled && (n.marker ==> present)
    ensures var n' := n.(marker := present);
            && SectionStep(n, Writing(k), cancelled, WriteMarker(t, present)) == Some(Move(n', Starting(k)))
            && SectionStep(n', Starting(k), cancelled, StartCommand(t)) == Some(Move(n', Draining(k, false)))
            && SectionStep(n', Starting(k), cancelled, RefuseCommand(t)) == Some(Move(n', Leaving(k, false)))
            && SectionStep(n', Draining(k, false), cancelled, Land(t)) == Some(Move(n'.(avail := Drained), Draining(k, true)))
            && SectionStep(n', Draining(k, false), cancelled, Return(t, false)) == Some(Move(n', Leaving(k, false)))
            && forall ok :: SectionStep(n'.(avail := Drained), Draining(k, true), cancelled, Return(t, ok))
                            == Some(Move(n'.(avail := Drained), Leaving(k, ok)))
  {
  }

  /** The moves of a recovery that finds the marker, up to the activate command. */
  lemma RecoveryProbes(n: Node, t: Thread, status: string)
    requires n.marker && SafeForUndrain(status)
    ensures n.lock == None ==>
              SectionStep(n, Locking(Recovery), false, Acquire(t)) == Some(Move(n.(lock := Some(t)), Deciding(Recovery)))
    ensures SectionStep(n, Deciding(Recovery), false, Proceed(t)) == Some(Move(n, Probing))
    ensures SectionStep(n, Probing, false, FreshProbe(t, true, status)) == Some(Move(n, Activating(status, false)))
  {
    hide SafeForUndrain;
  }

  /** Its moves from there, when nothing is in its way. */
  lemma RecoveryActivates(n: Node, t: Thread, status: string)
    ensures SectionStep(n, Activating(status, false), false, Land(t))
            == Some(Move(n.(avail := Active), Activating(status, true)))
    ensures SectionStep(n, Activating(status, true), false, Return(t, true)) == Some(Move(n, Removing(status)))
    ensures SectionStep(n, Removing(status), false, RemoveMarker(t, true))
            == Some(Move(n.(marker := false), Leaving(Recovery, true)))
    ensures SectionStep(n, Leaving(Recovery, true), false, Unlock(t))
            == Some(Move(n.(lock := None), Left(Recovery, true)))
  {
    hide SafeForUndrain;
  }

  /** While a thread is inside a section, no other step touches the node or that thread: sections run
      as if nothing interfered. */
  lemma {:induction false} SectionsRunAlone(s: State, l: Label, t: Thread)
    requires Exclusive(s) && Inside(PcOf(s, t)) && Step(s, l).Some?
    requires (OfThread(l) ==> l.t != t) && !CrashOf(l, t)
    ensures Step(s, l).value.node == s.node && PcOf(Step(s, l).value, t) == PcOf(s, t)
  {
    hide Step, ThreadStep, SectionStep, ActionAfter, OnDecision, WatchStep, BootStep, Crash;
    StepIs(s, l);
    if OfThread(l) {
      ThreadMoves(s, l.t, l, t);
      SectionOutside(s.node, PcOf(s, l.t), l.t == Attempt && s.cancelled, l);
    } else if OfProbe(l) {
      var q, a := s.(history := s.history + [l.p]), ActionAfter(s.cfg, s.history, l.p);
      DecisionOutside(q, l, a, t);
      DecisionSparesInside(q, l, a, t);
    } else if OfWatch(l) {
      WatchOutside(s, l, t);
      WatchSparesInside(s, l, t);
    } else if OfBoot(l) {
      BootOutside(s, l, t);
      BootSparesInside(s, l, t);
    } else {
      CrashOutside(s, l, t);
    }
  }

  lemma SectionOutside(n: Node, pc: Pc, cancelled: bool, l: Label)
    requires !Inside(pc) && n.lock != None && SectionStep(n, pc, cancelled, l).Some?
    ensures SectionStep(n, pc, cancelled, l).value.node == n
  {
  }

  lemma BootSparesInside(s: State, l: Label, t: Thread)
    requires Exclusive(s) && Inside(PcOf(s, t)) && BootStep(s, l).Some?
    ensures PcOf(BootStep(s, l).value, t) == PcOf(s, t)
  {
  }

  lemma WatchSparesInside(s: State, l: Label, t: Thread)
    requires Exclusive(s) && Inside(PcOf(s, t)) && WatchStep(s, l).Some?
    ensures PcOf(WatchStep(s, l).value, t) == PcOf(s, t)
  {
  }

  lemma DecisionSparesInside(s: State, l: Label, a: Action, t: Thread)
    requires Exclusive(s) && Inside(PcOf(s, t)) && OnDecision(s, l, a).Some?
    ensures PcOf(OnDecision(s, l, a).value, t) == PcOf(s, t)
  {
  }

  // ---------------------------------------------------------------- no stranded drain

  /** A drained node carries the marker. */
  predicate Marked(n: Node) {
    n.avail == Drained ==> n.marker
  }

  /** What a thread inside a section may rely on; `written` tells whether every marker write has left
      the marker in place. */
  predicate Holds(n: Node, pc: Pc, written: bool) {
    match pc
    case Writing(k) => k != Recovery
    case Starting(k) => k != Recovery && (written ==> n.marker)
    case Draining(k, landed) => k != Recovery && (written ==> n.marker) && (landed ==> n.avail == Drained)
    case Activating(status, landed) => SafeForUndrain(status) && (landed ==> n.avail == Active)
    case Removing(status) => SafeForUndrain(status) && n.avail == Active
    case Leaving(k, ok) =>
      ok ==> if k == Recovery then !n.marker && (written ==> n.avail == Active) else n.avail == Drained
    case _ => true
  }

  ghost predicate Safe(s: State, written: bool) {
    && (written ==> Marked(s.node))
    && Holds(s.node, s.main, written) && Holds(s.node, s.attempt, written) && Holds(s.node, s.boot, written)
  }

  lemma InitIsSafe(s0: State)
    requires Init(s0)
    ensures Exclusive(s0) && Safe(s0, true) && Safe(s0, false)
  {
  }

  lemma SectionKeepsSafe(n: Node, pc: Pc, cancelled: bool, l: Label, written: bool)
    requires (written ==> Marked(n)) && Holds(n, pc, written) && SectionStep(n, pc, cancelled, l).Some?
    requires written && l.WriteMarker? ==> l.present
    ensures var m := SectionStep(n, pc, cancelled, l).value;
            && (written ==> Marked(m.node)) && Holds(m.node, m.pc, written)
            && (!Inside(pc) ==> m.node.avail == n.avail && m.node.marker == n.marker)
  {
    hide SafeForUndrain;
  }

  /** Only the thread inside a section depends on the node, so others may not notice a change. */
  lemma OutsideHolds(n: Node, pc: Pc, written: bool)
    requires !Inside(pc)
    ensures Holds(n, pc, written)
  {
  }

  lemma {:induction false} ThreadKeepsSafe(s: State, t: Thread, l: Label, written: bool)
    requires Exclusive(s) && Safe(s, written) && ThreadStep(s, t, l).Some?
    requires written && l.WriteMarker? ==> l.present
    ensures Safe(ThreadStep(s, t, l).value, written)
  {
    hide SectionStep, ThreadStep, SafeForUndrain;
    ThreadMoves(s, t, l, Main);
    ThreadMoves(s, t, l, Attempt);
    ThreadMoves(s, t, l, Boot);
    SectionKeepsSafe(s.node, PcOf(s, t), t == Attempt && s.cancelled, l, written);
    var n := ThreadStep(s, t, l).value.node;
    forall u: Thread | !Inside(PcOf(s, u)) ensures Holds(n, PcOf(s, u), written) {
      OutsideHolds(n, PcOf(s, u), written);
    }
    assert t != Main ==> Holds(n, PcOf(s, Main), written);
    assert t != Attempt ==> Holds(n, PcOf(s, Attempt), written);
    assert t != Boot ==> Holds(n, PcOf(s, Boot), written);
  }

  lemma {:induction false} StepKeepsSafe(s: State, l: Label, written: bool)
    requires Exclusive(s) && Safe(s, written) && Step(s, l).Some?
    requires written && l.WriteMarker? ==> l.present
    ensures Safe(Step(s, l).value, written)
  {
    hide Step, ThreadStep, SafeForUndrain;
    StepIs(s, l);
    if OfThread(l) {
      ThreadKeepsSafe(s, l.t, l, written);
    } else {
      OutsideSteps(s, l, Main);
      OutsideSteps(s, l, Attempt);
      OutsideSteps(s, l, Boot);
    }
  }

  lemma {:induction false} RunKeepsSafe(s0: State, ls: seq<Label>, written: bool)
    requires Exclusive(s0) && Safe(s0, written) && Exec(s0, ls).Some?
    requires written ==> MarkersWritten(ls)
    ensures Safe(Exec(s0, ls).value, written)
    decreases |ls|
  {
    if ls != [] {
      RunKeepsSafe(s0, ls[..|ls| - 1], written);
      RunKeepsExclusive(s0, ls[..|ls| - 1]);
      StepKeepsSafe(Exec(s0, ls[..|ls| - 1]).value, ls[|ls| - 1], written);
    }
  }

  /** In every interleaving, with crashes anywhere and commands that fail with or without effect,
      a drained node carries the marker as long as every marker write succeeds. */
  lemma {:induction false} NoStrandedDrain(s0: State, ls: seq<Label>)
    requires Init(s0) && Exec(s0, ls).Some? && MarkersWritten(ls)
    ensures Exec(s0, ls).value.node.avail == Drained ==> Exec(s0, ls).value.node.marker
  {
    RunKeepsSafe(s0, ls, true);
  }
}
