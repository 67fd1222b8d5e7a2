/** What is behind a drained node: the decision that called for the drain, and, if the node is
    stranded, a marker write that failed. */
module ProtocolDrains {
  import opened Text
  import opened StatusText
  import opened UpsMachine
  import opened UpsRuns
  import opened Protocol
  import opened ProtocolSafety
  import opened ProtocolRuns

  // ---------------------------------------------------------------- stranding

  predicate Stranded(n: Node) {
    n.avail == Drained && !n.marker
  }

  predicate WritesMarker(l: Label, t: Thread) {
    l.WriteMarker? && l.t == t
  }

  /** Step j is the thread's last marker write. */
  ghost predicate LastWrite(ls: seq<Label>, t: Thread, j: nat) {
    j < |ls| && WritesMarker(ls[j], t) && forall k :: j < k < |ls| ==> !WritesMarker(ls[k], t)
  }

  /** The thread has written the marker and is about to drain, or drains. */
  predicate PastWrite(pc: Pc) {
    pc.Starting? || pc.Draining?
  }

  lemma SectionPastWrite(n: Node, pc: Pc, cancelled: bool, l: Label)
    requires SectionStep(n, pc, cancelled, l).Some? && PastWrite(SectionStep(n, pc, cancelled, l).value.pc)
    ensures var m := SectionStep(n, pc, cancelled, l).value;
            if l.WriteMarker? then m.node.marker == l.present else PastWrite(pc) && m.node.marker == n.marker
  {
  }

  lemma {:induction false} PastWriteBegins(s: State, l: Label, t: Thread)
    requires Exclusive(s) && Step(s, l).Some? && PastWrite(PcOf(Step(s, l).value, t))
    ensures var s' := Step(s, l).value;
            if WritesMarker(l, t) then s'.node.marker == l.present
            else PastWrite(PcOf(s, t)) && s'.node.marker == s.node.marker
  {
    hide Step, ThreadStep, SectionStep, Exclusive;
    StepIs(s, l);
    if OfThread(l) {
      ThreadMoves(s, l.t, l, t);
      if l.t == t {
        SectionPastWrite(s.node, PcOf(s, t), t == Attempt && s.cancelled, l);
      } else {
        SectionsRunAlone(s, l, t);
      }
    } else {
      OutsideSteps(s, l, t);
    }
  }

  /** A thread about to drain finds the marker as its own last write left it. */
  lemma {:induction false} WriteBehind(s0: State, ls: seq<Label>, t: Thread) returns (j: nat)
    requires Init(s0) && Exec(s0, ls).Some? && PastWrite(PcOf(Exec(s0, ls).value, t))
    ensures LastWrite(ls, t, j) && Exec(s0, ls).value.node.marker == ls[j].present
    decreases |ls|
  {
    hide Step, Exclusive;
    assert ls != [];
    var n := |ls| - 1;
    var g := ls[..n];
    assert Exclusive(s0) by { InitIsSafe(s0); }
    RunKeepsExclusive(s0, g);
    PastWriteBegins(Exec(s0, g).value, ls[n], t);
    if WritesMarker(ls[n], t) {
      j := n;
    } else {
      j := WriteBehind(s0, g, t);
      assert forall k :: j < k < n ==> g[k] == ls[k];
    }
  }

  lemma {:induction false} BecomesStranded(s: State, l: Label)
    requires Exclusive(s) && Safe(s, false) && Step(s, l).Some?
    requires !Stranded(s.node) && Stranded(Step(s, l).value.node)
    ensures l.Land? && PcOf(s, l.t).Draining?
  {
    hide Step, ThreadStep, SectionStep, SafeForUndrain;
    StepIs(s, l);
    if OfThread(l) {
      ThreadMoves(s, l.t, l, l.t);
      SectionStrands(s.node, PcOf(s, l.t), l.t == Attempt && s.cancelled, l);
    } else {
      OutsideSteps(s, l, Main);
    }
  }

  lemma SectionStrands(n: Node, pc: Pc, cancelled: bool, l: Label)
    requires Holds(n, pc, false) && SectionStep(n, pc, cancelled, l).Some?
    requires !Stranded(n) && Stranded(SectionStep(n, pc, cancelled, l).value.node)
    ensures l.Land? && pc.Draining?
  {
    hide SafeForUndrain;
  }

  /** On every run: a landing drain strands the node if and only if the thread's own last marker write
      left no marker, and no other step strands a node. */
  lemma {:induction false} StrandsIffWriteLeftNoMarker(s0: State, ls: seq<Label>, s: State, l: Label, s': State)
    requires Init(s0) && Exec(s0, ls) == Some(s) && Step(s, l) == Some(s')
    ensures l.Land? && PcOf(s, l.t).Draining? ==>
              exists j: nat :: LastWrite(ls, l.t, j) && (Stranded(s'.node) <==> !ls[j].present)
    ensures Stranded(s'.node) && !Stranded(s.node) ==> l.Land? && PcOf(s, l.t).Draining?
  {
    hide Exclusive, Safe, Exec;
    InitIsSafe(s0);
    RunKeepsExclusive(s0, ls);
    RunKeepsSafe(s0, ls, false);
    if l.Land? && PcOf(s, l.t).Draining? {
      var j := WriteBehind(s0, ls, l.t);
      LandingDrains(s, l);
    }
    if Stranded(s'.node) && !Stranded(s.node) {
      BecomesStranded(s, l);
    }
  }

  lemma LandingDrains(s: State, l: Label)
    requires l.Land? && PcOf(s, l.t).Draining? && Step(s, l).Some?
    ensures Step(s, l).value.node == s.node.(avail := Drained)
  {
  }

  // ---------------------------------------------------------------- the decision behind a drain

  /** Urgent is where the last probe decided Shutdown, and only a peer comes there. */
  ghost predicate Urged(s: State) {
    s.mode.Urgent? ==>
      s.cfg.role == Peer && s.history != [] && ActionAfter(s.cfg, Before(s.history), Last(s.history)) == Shutdown
  }

  lemma {:induction false} StepKeepsUrged(s: State, l: Label)
    requires Urged(s) && Step(s, l).Some?
    ensures Urged(Step(s, l).value) && Step(s, l).value.cfg == s.cfg
  {
    hide Step, ThreadStep, ActionAfter;
    StepIs(s, l);
    if OfThread(l) {
      ThreadMoves(s, l.t, l, l.t);
    } else if OfProbe(l) {
      HistoryAppend(s.history, l.p);
    }
  }

  lemma {:induction false} RunKeepsUrged(s0: State, ls: seq<Label>)
    requires Init(s0) && Exec(s0, ls).Some?
    ensures Urged(Exec(s0, ls).value) && Exec(s0, ls).value.cfg == s0.cfg
    decreases |ls|
  {
    hide Step, ActionAfter;
    if ls != [] {
      RunKeepsUrged(s0, ls[..|ls| - 1]);
      StepKeepsUrged(Exec(s0, ls[..|ls| - 1]).value, ls[|ls| - 1]);
    }
  }

  /** What calls for a thread's drain: for the goroutine a drain of this watch process that goes on, or that
      only the last probe has ended; for the main thread the Shutdown that the last probe decided. */
  ghost predicate CalledFor(s: State, t: Thread) {
    && s.cfg.role == Peer && s.history != []
    && var last := ActionAfter(s.cfg, Before(s.history), Last(s.history));
    match t
    case Attempt => InDrain(s.cfg, s.history) || (Stops(last) && InDrain(s.cfg, Before(s.history)))
    case Main => last == Shutdown
    case Boot => false
  }

  lemma SelectIsCalledFor(s: State)
    requires Monitors(s) && (s.mode.Select? || s.mode.Join?)
    ensures CalledFor(s, Attempt)
  {
    hide ActionAfter, QuietFrom, Alive, Confirmed;
  }

  /** Every change from active to drained is a peer's drain command landing under its lock, and the
      episode that it belongs to has called for it. The undrain never drains. */
  lemma {:induction false} DrainFollowsDecision(s0: State, ls: seq<Label>, s: State, l: Label, s': State)
    requires Init(s0) && Exec(s0, ls) == Some(s) && Step(s, l) == Some(s')
    requires s.node.avail == Active && s'.node.avail == Drained
    ensures l.Land? && s.node.lock == Some(l.t) && CalledFor(s, l.t)
    ensures s0.cfg.role == Peer && s.cfg == s0.cfg
  {
    hide Step, Exec, SafeForUndrain, ActionAfter, InDrain, Alive, Confirmed;
    InitIsSafe(s0);
    RunKeepsExclusive(s0, ls);
    RunKeepsSafe(s0, ls, false);
    RunKeepsUrged(s0, ls);
    RunKeepsMonitors(s0, ls);
    AvailabilityMoves(s, l);
    assert Holds(s.node, PcOf(s, l.t), false);
    if l.t == Attempt {
      SelectIsCalledFor(s);
    }
  }

  /** A survivor's node is active on every run, failed marker writes and crashes included. */
  lemma {:induction false} SurvivorStaysActive(s0: State, ls: seq<Label>)
    requires Init(s0) && s0.cfg.role == Survivor && Exec(s0, ls).Some?
    ensures Exec(s0, ls).value.node.avail == Active
    decreases |ls|
  {
    hide Step;
    if ls != [] {
      var g := ls[..|ls| - 1];
      SurvivorStaysActive(s0, g);
      if Exec(s0, ls).value.node.avail == Drained {
        DrainFollowsDecision(s0, g, Exec(s0, g).value, ls[|ls| - 1], Exec(s0, ls).value);
      }
    }
  }

  // ---------------------------------------------------------------- a stranded node

  /** An urgent drain up to its marker write. */
  function UrgentRun(p: Probe, present: bool): seq<Label> {
    [TopProbe(p), Acquire(Main), Proceed(Main), WriteMarker(Main, present)]
  }

  lemma UrgentWrites(s: State, p: Probe, present: bool)
    requires s.mode == Watch && s.main == Idle && s.history == [] && s.cfg.role == Peer && Low(p)
    requires !s.node.marker && s.node.lock == None
    ensures Exec(s, UrgentRun(p, present)) ==
            Some(s.(node := Node(s.node.avail, present, Some(Main)), history := [p], mode := Urgent,
                    main := Starting(UrgentDrain)))
  {
    hide Exec, Low;
    var q := s.(history := [p], mode := Urgent);
    var n := s.node.(lock := Some(Main));
    assert ActionAfter(s.cfg, s.history, p) == Shutdown && s.history + [p] == [p];
    FollowedRun([s, q.(main := Locking(UrgentDrain)), q.(node := n, main := Deciding(UrgentDrain)),
                 q.(node := n, main := Writing(UrgentDrain)),
                 q.(node := n.(marker := present), main := Starting(UrgentDrain))], UrgentRun(p, present));
  }

  const URGENT_LANDING: seq<Label> := [StartCommand(Main), Land(Main)]

  lemma UrgentLands(s: State)
    requires s.main == Starting(UrgentDrain)
    ensures Exec(s, URGENT_LANDING) ==
            Some(s.(main := Draining(UrgentDrain, true), node := s.node.(avail := Drained)))
  {
    hide Exec, SafeForUndrain;
    FollowedRun([s, s.(main := Draining(UrgentDrain, false)),
                 s.(main := Draining(UrgentDrain, true), node := s.node.(avail := Drained))], URGENT_LANDING);
  }

  /** On a peer an urgent drain whose marker write fails strands the node. */
  lemma UrgentDrainMayStrand(s0: State) returns (ls: seq<Label>)
    requires Init(s0) && s0.cfg.role == Peer
    ensures Exec(s0, ls).Some? && Stranded(Exec(s0, ls).value.node)
  {
    hide Exec, Classify, Step, UrgentRun;
    var low := Probe(true, "LB", 0);
    PlainStatuses();
    assert Low(low);
    hide Low;
    UrgentWrites(s0, low, false);
    UrgentLands(Exec(s0, UrgentRun(low, false)).value);
    ExecConcat(s0, UrgentRun(low, false), URGENT_LANDING);
    ls := UrgentRun(low, false) + URGENT_LANDING;
  }

  /** Some run strands the node exactly if the role is peer. */
  lemma {:induction false} CanStrandIffPeer(s0: State)
    requires Init(s0)
    ensures (exists ls :: Exec(s0, ls).Some? && Stranded(Exec(s0, ls).value.node)) <==> s0.cfg.role == Peer
  {
    hide Exec;
    if s0.cfg.role == Peer {
      var ls := UrgentDrainMayStrand(s0);
    } else if ls :| Exec(s0, ls).Some? && Stranded(Exec(s0, ls).value.node) {
      SurvivorStaysActive(s0, ls);
    }
  }
}
