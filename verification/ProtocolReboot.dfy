/** Reboots and the boot-time undrain: what a reboot can restore, what every run after one has seen,
    and when the undrain may exit on a drained node. */
module ProtocolReboot {
  import opened Text
  import opened StatusText
  import opened UpsMachine
  import opened Protocol
  import opened ProtocolSafety
  import opened ProtocolRuns
  import opened ProtocolDrains

  /** One undisturbed recovery of the boot-time undrain. */
  function RecoveryRun(status: string): seq<Label> {
    [Acquire(Boot), Proceed(Boot), FreshProbe(Boot, true, status), Land(Boot), Return(Boot, true),
     RemoveMarker(Boot, true), Unlock(Boot)]
  }

  lemma RecoveryReleases(s: State, status: string)
    requires s.boot == Locking(Recovery) && s.node.marker && s.node.lock == None && SafeForUndrain(status)
    ensures Exec(s, RecoveryRun(status)) == Some(s.(node := Node(Active, false, None), boot := Left(Recovery, true)))
  {
    hide Exec, SectionStep, SafeForUndrain;
    var n := s.node.(lock := Some(Boot));
    var a := n.(avail := Active);
    RecoveryProbes(s.node, Boot, status);
    RecoveryProbes(n, Boot, status);
    RecoveryActivates(n, Boot, status);
    RecoveryActivates(a, Boot, status);
    RecoveryActivates(a.(marker := false), Boot, status);
    var qs := [s, s.(node := n, boot := Deciding(Recovery)), s.(node := n, boot := Probing),
               s.(node := n, boot := Activating(status, false)), s.(node := a, boot := Activating(status, true)),
               s.(node := a, boot := Removing(status)),
               s.(node := a.(marker := false), boot := Leaving(Recovery, true)),
               s.(node := Node(Active, false, None), boot := Left(Recovery, true))];
    FollowedRun(qs, RecoveryRun(status));
  }

  /** A reboot of the node: both processes lose their memory and start again. */
  const REBOOT: seq<Label> := [CrashWatch, CrashBoot, BootStat]

  lemma CrashesRelease(s: State)
    ensures var q := Crash(Crash(s, CrashWatch), CrashBoot);
            && q.node == s.node.(lock := None) && q.bootMode == BootStart && q.boot == Idle
  {
    match s.node.lock
    case None =>
    case Some(t) =>
      match t
      case Main =>
      case Attempt =>
      case Boot =>
  }

  lemma RebootStarts(s: State)
    ensures Exec(s, REBOOT).Some?
    ensures var q := Exec(s, REBOOT).value;
            && q.node == s.node.(lock := None)
            && (s.node.marker ==> q.bootMode == BootRecover && q.boot == Locking(Recovery))
            && (!s.node.marker ==> q.bootMode == BootExited)
  {
    hide Exec, Crash;
    CrashesRelease(s);
    var s1 := Crash(s, CrashWatch);
    var s2 := Crash(s1, CrashBoot);
    FollowedRun([s, s1, s2, BootStep(s2, BootStat).value], REBOOT);
  }

  /** From any state whatsoever, a reboot can end the undrain with the node unmarked; on its undisturbed
      run the node is active then, exactly unless it was stranded. */
  lemma RebootReleasesUnlessStranded(s: State, status: string)
    requires SafeForUndrain(status)
    ensures var e := Exec(s, if s.node.marker then REBOOT + RecoveryRun(status) + [BootDone] else REBOOT);
            && e.Some? && e.value.bootMode == BootExited && !e.value.node.marker
            && (e.value.node.avail == Active <==> !Stranded(s.node))
  {
    hide SafeForUndrain, Exec, Step, RecoveryRun;
    RebootStarts(s);
    if s.node.marker {
      var q := Exec(s, REBOOT).value;
      ExecConcat(s, REBOOT, RecoveryRun(status));
      RecoveryReleases(q, status);
      var r := q.(node := Node(Active, false, None), boot := Left(Recovery, true));
      ExecOne(s, REBOOT + RecoveryRun(status), r, BootDone);
      BootDoneExits(r);
    }
  }

  lemma BootDoneExits(s: State)
    requires s.bootMode == BootRecover && s.boot == Left(Recovery, true)
    ensures Step(s, BootDone) == Some(s.(bootMode := BootExited, boot := Idle))
  {
  }

  /** The state of the node after a crash of both processes. */
  function Rebooted(s: State): State {
    Crash(Crash(s, CrashWatch), CrashBoot)
  }

  lemma RebootedIsSafe(s: State)
    ensures Exclusive(Rebooted(s)) && !BootSucceeded(Rebooted(s))
    ensures Marked(s.node) ==> Safe(Rebooted(s), true)
  {
    CrashesRelease(s);
  }

  /** Whatever the threads and commands do after a reboot of a node that was not stranded: once the
      undrain has exited, there was a moment of this boot at which the node was active and unmarked. */
  lemma {:induction false} EveryRebootReleases(s: State, ls: seq<Label>) returns (k: nat)
    requires Marked(s.node) && MarkersWritten(ls)
    requires Exec(Rebooted(s), ls).Some? && Exec(Rebooted(s), ls).value.bootMode == BootExited
    ensures k <= |ls| && Exec(Rebooted(s), ls[..k]).Some?
    ensures var n := Exec(Rebooted(s), ls[..k]).value.node; n.avail == Active && !n.marker
    ensures forall i :: k <= i < |ls| ==> ls[i] != CrashBoot
  {
    hide Exec, Crash, Rebooted, Exclusive, Safe;
    RebootedIsSafe(s);
    k := BootExitSawRelease(Rebooted(s), ls);
  }

  // ---------------------------------------------------------------- a drain that overtakes the undrain's exit

  /** The run ends with the exit of the undrain, and the node is drained. */
  ghost predicate ExitsOnDrainedNode(s0: State, ls: seq<Label>) {
    && MarkersWritten(ls) && ls != [] && ls[|ls| - 1] == BootDone
    && var e := Exec(s0, ls);
    e.Some? && e.value.bootMode == BootExited && e.value.node.avail == Drained
  }

  /** On a peer the undrain can exit on a drained node: an urgent drain whose process died left a marker, the
      undrain released the node, and a new urgent drain landed before the undrain had exited. */
  lemma UndrainMayExitOnDrainedNode(s0: State) returns (ls: seq<Label>)
    requires Init(s0) && s0.cfg.role == Peer
    ensures ExitsOnDrainedNode(s0, ls)
  {
    hide Exec, Classify, SafeForUndrain, Step, UrgentRun, RecoveryRun;
    var low, status := Probe(true, "LB", 0), "OL";
    PlainStatuses();
    assert Low(low);
    hide Low;
    var u := UrgentRun(low, true);
    UrgentWrites(s0, low, true);
    var q := Exec(s0, u).value;
    CrashAndStat(q);
    var a := u + [CrashWatch, BootStat];
    ExecConcat(s0, u, [CrashWatch, BootStat]);
    var b := Exec(s0, a).value;
    RecoveryReleases(b, status);
    ExecConcat(s0, a, RecoveryRun(status));
    var c := Exec(s0, a + RecoveryRun(status)).value;
    UrgentWrites(c, low, true);
    ExecConcat(s0, a + RecoveryRun(status), u);
    var d := Exec(s0, a + RecoveryRun(status) + u).value;
    UrgentLands(d);
    var e := Exec(d, URGENT_LANDING).value;
    ExecConcat(s0, a + RecoveryRun(status) + u, URGENT_LANDING);
    ExecOne(s0, a + RecoveryRun(status) + u + URGENT_LANDING, e, BootDone);
    BootDoneExits(e);
    ls := a + RecoveryRun(status) + u + URGENT_LANDING + [BootDone];
    MarkersOfRun(low, status);
  }

  lemma MarkersOfRun(low: Probe, status: string)
    ensures MarkersWritten(UrgentRun(low, true) + [CrashWatch, BootStat] + RecoveryRun(status) + UrgentRun(low, true)
                           + URGENT_LANDING + [BootDone])
  {
  }

  lemma CrashAndStat(s: State)
    requires s.node.marker && s.node.lock == Some(Main) && s.bootMode == BootStart
    ensures Exec(s, [CrashWatch, BootStat]) ==
            Some(s.(node := s.node.(lock := None), main := Idle, attempt := Idle, mode := Watch, history := [],
                    cancelled := false, bootMode := BootRecover, boot := Locking(Recovery)))
  {
    hide Exec;
    var q := Crash(s, CrashWatch);
    FollowedRun([s, q, BootStep(q, BootStat).value], [CrashWatch, BootStat]);
  }

  /** Some run lets the undrain exit on a drained node exactly if the role is peer. */
  lemma {:induction false} ExitsOnDrainedNodeIffPeer(s0: State)
    requires Init(s0)
    ensures (exists ls :: ExitsOnDrainedNode(s0, ls)) <==> s0.cfg.role == Peer
  {
    hide Exec;
    if s0.cfg.role == Peer {
      var ls := UndrainMayExitOnDrainedNode(s0);
    } else if ls :| ExitsOnDrainedNode(s0, ls) {
      SurvivorStaysActive(s0, ls);
    }
  }

  /** What it takes on a given run: after the node was active and unmarked in this boot, a newer drain
      landed that watch had decided on. */
  lemma {:induction false} NewerDrainBehindExit(s0: State, ls: seq<Label>) returns (k: nat, i: nat)
    requires Init(s0) && ExitsOnDrainedNode(s0, ls)
    ensures k <= i < |ls| && Exec(s0, ls[..k]).Some? && Exec(s0, ls[..i]).Some?
    ensures var n := Exec(s0, ls[..k]).value.node; n.avail == Active && !n.marker
    ensures var s := Exec(s0, ls[..i]).value;
            && s.node.avail == Active && ls[i].Land? && s.node.lock == Some(ls[i].t) && CalledFor(s, ls[i].t)
  {
    hide Step, CalledFor, Exclusive, Safe;
    InitIsSafe(s0);
    k := BootExitSawRelease(s0, ls);
    i := DrainedSince(s0, ls, k);
    DrainFollowsDecision(s0, ls[..i], Exec(s0, ls[..i]).value, ls[i], Exec(s0, ls[..i + 1]).value);
  }

  /** From a moment at which the node was active to one at which it is drained there is a change. */
  lemma {:induction false} DrainedSince(s0: State, ls: seq<Label>, k: nat) returns (i: nat)
    requires Exec(s0, ls).Some? && k <= |ls| && Exec(s0, ls[..k]).Some?
    requires Exec(s0, ls[..k]).value.node.avail == Active && Exec(s0, ls).value.node.avail == Drained
    ensures k <= i < |ls| && Exec(s0, ls[..i]).Some? && Exec(s0, ls[..i]).value.node.avail == Active
    ensures Step(Exec(s0, ls[..i]).value, ls[i]).Some? && Exec(s0, ls[..i + 1]) == Step(Exec(s0, ls[..i]).value, ls[i])
    ensures Exec(s0, ls[..i + 1]).value.node.avail == Drained
    decreases |ls|
  {
    hide Step;
    assert ls[..|ls|] == ls;
    assert k < |ls|;
    var g := ls[..|ls| - 1];
    assert g[..k] == ls[..k];
    if Exec(s0, g).value.node.avail == Drained {
      i := DrainedSince(s0, g, k);
      assert g[..i] == ls[..i] && g[..i + 1] == ls[..i + 1];
    } else {
      i := |ls| - 1;
    }
  }
}
