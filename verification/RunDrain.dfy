/** The synchronous wait of one drain episode, fed by an arbitrary environment: probes, docker
    outcomes and durations are inputs, one Turn for each pass of the loop. */
module RunDrain {
  import D = Deadlines
  import opened Text
  import opened StatusText
  import opened UpsMachine
  import opened UpsRuns
  import opened Services
  import opened Protocol
  import opened ProtocolSafety
  import opened Sections

  /** One run of the drain attempt: the lock, the context checks, `docker ps`, the marker write and
      the outcome of `docker node update`. */
  datatype AttemptInput = AttemptInput(locked: bool, liveAtStart: bool, ps: Option<string>,
                                       liveAfterSnapshot: bool, written: bool, started: bool,
                                       update: Command)

  /** What one pass of the loop meets: the probe that opens monitoredDrain, the probes at its ticks, the
      tick before which the attempt runs, and then the probe and the listings behind the sleep. */
  datatype Turn = Turn(open: Probe, ticks: seq<Probe>, runsAt: nat, attempt: AttemptInput, attemptTime: nat,
                       oversleep: nat, check: Probe, checkTime: nat,
                       count: Option<nat>, listing: Option<string>, listTime: nat)

  function TurnTime(t: Turn): nat {
    t.attemptTime + D.DRAIN_POLL + t.oversleep + t.checkTime + t.listTime
  }

  /** The durations behind a turn's times. */
  datatype Timing = Timing(open: nat, attempt: D.Attempt, ticks: seq<nat>, count: D.Job, listing: D.Job)

  predicate Fits(t: Turn, w: Timing, limit: nat) {
    && w.open <= limit && D.AllWithin(w.ticks, limit) && |w.ticks| <= |t.ticks|
    && D.CanTake(w.attempt, w.open, w.ticks, t.attemptTime)
    && t.oversleep == 0 && t.checkTime <= limit
    && t.listTime <= D.CommandEnd(None, 0, D.OUTPUT_TIMEOUT, w.count)
                     + D.CommandEnd(None, 0, D.OUTPUT_TIMEOUT, w.listing)
  }

  /** The turn takes no longer than the nested timeouts let it, with probes within the limit. */
  ghost predicate Timely(t: Turn, limit: nat) {
    exists w :: Fits(t, w, limit)
  }

  lemma TimelyTurnEnds(t: Turn, limit: nat)
    requires Timely(t, limit) && limit < D.POLL_INTERVAL
    ensures TurnTime(t) <= 104000 + 3 * limit
  {
    hide D.CanTake, D.AllWithin;
    var w :| Fits(t, w, limit);
    D.MonitoredDrainEnds(w.attempt, w.open, w.ticks, t.attemptTime, limit);
  }

  datatype Happening = SnapshotTaken(services: seq<string>) | DrainCommand(reported: bool)

  datatype Exit = BackOnMainsExit | ShutdownExit | ConvergedExit | DeadlineExit

  predicate TakesSnapshot(a: AttemptInput) {
    a.locked && a.liveAtStart && a.ps.Some?
  }

  /** The attempt gets as far as writing the marker. */
  predicate ReachesDrain(a: AttemptInput, snapshotted: bool) {
    a.locked && a.liveAtStart && (snapshotted || a.ps.Some?) && a.liveAfterSnapshot
  }

  predicate Succeeds(a: AttemptInput, snapshotted: bool) {
    ReachesDrain(a, snapshotted) && a.started && a.update.reported
  }

  /** The node after the attempt: marker first, then the drain command. */
  function NodeAfter(n: Node, a: AttemptInput, snapshotted: bool): Node {
    if ReachesDrain(a, snapshotted) then
      n.(marker := n.marker || a.written, avail := if a.started && a.update.landed then Drained else n.avail)
    else
      n
  }

  /** What an attempt needs and does: it touches the node only under the lock, with both context checks
      passed and a snapshot at hand; then the marker is there unless its write failed, and the node is
      drained if the command landed. Success is a reported command. */
  lemma AttemptMeans(n: Node, a: AttemptInput, had: bool)
    ensures var m := NodeAfter(n, a, had);
            && (m != n ==> a.locked && a.liveAtStart && a.liveAfterSnapshot && (had || a.ps.Some?))
            && (Succeeds(a, had) <==> a.locked && a.liveAtStart && a.liveAfterSnapshot && (had || a.ps.Some?)
                                      && a.started && a.update.reported)
            && (Succeeds(a, had) ==> m == Node(Drained, n.marker || a.written, n.lock))
            && (a.locked && a.liveAtStart && a.liveAfterSnapshot && (had || a.ps.Some?) ==>
                  m.marker == (n.marker || a.written) && (m.avail == Drained <==>
                    n.avail == Drained || (a.started && a.update.landed)))
            && m.lock == n.lock
            && (TakesSnapshot(a) <==> a.locked && a.liveAtStart && a.ps.Some?)
  {
  }

  /** The variables a drain attempt shares with the loop, the node, and what happened so far. */
  class DrainState {
    const node: LocalNode
    var services: seq<string>
    var snapshotted: bool
    var log: seq<Happening>

    constructor (n: LocalNode)
      ensures Valid() && !snapshotted && node == n
    {
      node := n;
      services, snapshotted, log := [], false, [];
    }

    /** One snapshot at most, before every drain command, and never overwritten. */
    ghost predicate Valid()
      reads this
    {
      && (!snapshotted ==> log == [])
      && (snapshotted ==> log != [] && log[0] == SnapshotTaken(services)
                          && forall i :: 1 <= i < |log| ==> log[i].DrainCommand?)
    }

    ghost predicate Reported()
      reads this
    {
      exists i :: 0 <= i < |log| && log[i] == DrainCommand(true)
    }

    /** The snapshot, unless an earlier attempt already took it. */
    method TakeSnapshot(ps: Option<string>) returns (ok: bool)
      requires Valid()
      modifies this
      ensures Valid() && old(log) <= log && (ok <==> snapshotted)
      ensures snapshotted <==> old(snapshotted) || ps.Some?
      ensures old(snapshotted) ==> services == old(services)
      ensures !old(snapshotted) && snapshotted ==> NamesOf(ps.value, services)
    {
      if !snapshotted {
        match ps {
          case None =>
            return false;
          case Some(out) =>
            services := ParseNames(out);
            snapshotted := true;
            log := log + [SnapshotTaken(services)];
        }
      }
      return true;
    }

    /** Walks along the attempt's section: snapshot, marker, drain command, in that order. */
    method DrainAttempt(a: AttemptInput) returns (ok: bool)
      requires Valid() && (a.locked ==> node.lock == None)
      modifies this, node
      ensures Valid() && node.View() == NodeAfter(old(node.View()), a, old(snapshotted))
      ensures node.lock == old(node.lock)
      ensures ok <==> Succeeds(a, old(snapshotted))
      ensures node.Done(Kind.DrainAttempt, ok) && node.start == old(node.View())
      ensures a.written && Marked(old(node.View())) ==> Marked(node.View())
      ensures snapshotted <==> old(snapshotted) || TakesSnapshot(a)
      ensures old(snapshotted) ==> services == old(services)
      ensures !old(snapshotted) && snapshotted ==> NamesOf(a.ps.value, services)
      ensures ok ==> snapshotted && Reported()
      ensures old(log) <= log
    {
      hide NamesOf, node.OnPath, node.Reached, Reported, Valid;
      node.Begin(Kind.DrainAttempt);
      var locked := node.LockDrain(Attempt, a.locked);
      if !locked {
        return false;
      }
      if !a.liveAtStart {
        node.GiveUp(Attempt);
        return false;
      }
      var taken := TakeSnapshot(a.ps);
      if !taken {
        node.GiveUp(Attempt);
        return false;
      }
      node.Ready();
      if !a.liveAfterSnapshot {
        node.GiveUp(Attempt);
        return false;
      }
      ok := IssueDrain(a);
    }

    /** The end of an attempt: the marker, the command, and the lock's release. */
    method IssueDrain(a: AttemptInput) returns (ok: bool)
      requires Valid() && snapshotted
      requires node.OnPath() && node.kind == Kind.DrainAttempt && node.pc == Writing(Kind.DrainAttempt)
      modifies this`log, node`avail, node`marker, node`lock, node`pc, node`path
      ensures Valid() && old(log) <= log && (ok ==> Reported())
      ensures ok <==> a.started && a.update.reported
      ensures node.avail == if a.started && a.update.landed then Drained else old(node.avail)
      ensures node.marker == (old(node.marker) || a.written)
      ensures node.lock == None && node.Done(Kind.DrainAttempt, ok)
    {
      hide node.OnPath, node.Reached;
      ok := node.MarkAndDrain(Attempt, a.written, a.started, a.update);
      log := log + [DrainCommand(ok)];
      assert log[|log| - 1] == DrainCommand(ok);
      node.Unlock(Attempt, ok);
    }
  }

  /** What the machine knows throughout a drain: confirmed on battery, nothing decided since. */
  ghost predicate Draining(m: Machine, from: nat)
    reads m
  {
    && m.Valid() && m.cfg.role == Peer
    && Alive(m.cfg, m.history) && Confirmed(m.cfg, m.history)
    && from <= |m.history| && QuietFrom(m.cfg, m.history, from)
  }

  /** Gives one probe to the machine during a drain: it either stops the drain or changes nothing. */
  method Feed(m: Machine, p: Probe, ghost from: nat) returns (action: Action)
    requires Draining(m, from)
    modifies m
    ensures m.history == old(m.history) + [p]
    ensures Stops(action) ==> m.Valid() && StoppedBy(m.cfg, m.history, from, action)
    ensures !Stops(action) ==> action == NoAction && Draining(m, from)
  {
    hide Classify;
    DrainingStep(m.cfg, m.history, p, from);
    var dec, ev := m.OnProbe(p.ok, p.status, p.now);
    assert Probe(p.ok, p.status, p.now) == p;
    action := dec.action;
  }

  /** The opening probe did not decide, so the attempt began. */
  predicate Opened(before: History, t: Turn, after: History, action: Action) {
    action == NoAction || after != before + [t.open]
  }

  /** The attempt has run, from this node and these variables, and this is its result. */
  ghost predicate AttemptDone(d: DrainState, a: AttemptInput, n: Node, had: bool, services: seq<string>, ok: bool)
    reads d, d.node
  {
    && d.Valid() && d.node.lock == n.lock && d.node.View() == NodeAfter(n, a, had)
    && (ok <==> Succeeds(a, had))
    && (d.snapshotted <==> had || TakesSnapshot(a))
    && (had ==> d.services == services)
    && (!had && d.snapshotted ==> NamesOf(a.ps.value, d.services))
    && (a.written && Marked(n) ==> Marked(d.node.View()))
    && (ok ==> d.snapshotted && d.Reported())
  }

  /** Runs one attempt while probing; the attempt may run before any of the ticks, or after the last. It
      is over whenever this returns: either its result was received, or a probe decided and the
      result was awaited and dropped, or it never began. */
  method MonitoredDrain(m: Machine, d: DrainState, t: Turn, ghost from: nat) returns (ok: bool, action: Action)
    requires Draining(m, from) && d.Valid() && d.node.lock == None
    modifies m, d, d.node
    ensures d.Valid() && d.node.lock == None
    ensures old(m.history) < m.history <= old(m.history) + [t.open] + t.ticks
    ensures action == NoAction ==> Draining(m, from) && m.history == old(m.history) + [t.open] + t.ticks
    ensures action == NoAction ==> (ok <==> Succeeds(t.attempt, old(d.snapshotted)))
    ensures action != NoAction ==> m.Valid() && !ok && Stops(action) && StoppedBy(m.cfg, m.history, from, action)
    ensures if Opened(old(m.history), t, m.history, action)
            then d.node.View() == NodeAfter(old(d.node.View()), t.attempt, old(d.snapshotted))
            else d.node.View() == old(d.node.View()) && d.log == old(d.log)
    ensures d.snapshotted <==> old(d.snapshotted)
                               || (TakesSnapshot(t.attempt) && Opened(old(m.history), t, m.history, action))
    ensures old(d.snapshotted) ==> d.services == old(d.services)
    ensures !old(d.snapshotted) && d.snapshotted ==> NamesOf(t.attempt.ps.value, d.services)
    ensures t.attempt.written && Marked(old(d.node.View())) ==> Marked(d.node.View())
    ensures ok ==> action == NoAction && d.snapshotted && d.Reported()
  {
    hide Classify, NamesOf, NodeAfter, Succeeds, Alive, Confirmed, QuietFrom, StoppedBy, TakesSnapshot;
    action := Feed(m, t.open, from);
    if Stops(action) {
      return false, action;
    }
    var result, ran := false, false;
    for i := 0 to |t.ticks|
      invariant Draining(m, from) && m.history == old(m.history) + [t.open] + t.ticks[..i]
      invariant ran ==> AttemptDone(d, t.attempt, old(d.node.View()), old(d.snapshotted), old(d.services), result)
      invariant !ran ==> d.Valid() && unchanged(d, d.node)
    {
      if i == t.runsAt && !ran {
        result := d.DrainAttempt(t.attempt);
        ran := true;
      }
      assert t.ticks[..i + 1] == t.ticks[..i] + [t.ticks[i]];
      assert t.ticks[..i + 1] <= t.ticks;
      action := Feed(m, t.ticks[i], from);
      if Stops(action) {
        if !ran {
          result := d.DrainAttempt(t.attempt);
        }
        return false, action;
      }
    }
    assert t.ticks[..|t.ticks|] == t.ticks;
    if !ran {
      result := d.DrainAttempt(t.attempt);
    }
    return result, NoAction;
  }

  /** Every snapshot service has a Running line in the listing, or there was nothing to move. */
  ghost predicate WorkMoved(services: seq<string>, listing: Option<string>) {
    || services == []
    || (listing.Some? && forall s :: s in services ==> Satisfied(Wanted(services), Split(listing.value, '\n'), s))
  }

  /** For a listing of tasks: each service has a task that runs; without a listing nothing has moved. */
  lemma WorkMovedMeans(services: seq<string>, out: string, tasks: seq<Task>)
    requires Lists(out, tasks)
    ensures WorkMoved(services, Some(out)) <==> forall s :: s in services ==> Runs(Wanted(services), tasks, s)
    ensures WorkMoved(services, None) <==> services == []
  {
    hide Satisfied, Runs, Split, Lists;
    forall s ensures Satisfied(Wanted(services), Split(out, '\n'), s) <==> Runs(Wanted(services), tasks, s) {
      SatisfiedMeansRuns(Wanted(services), out, tasks, s);
    }
    assert services != [] ==> services[0] in services;
  }

  /** The services that keep the drain waiting; a failed listing confirms nothing. */
  method SurvivorMissing(services: seq<string>, listing: Option<string>) returns (missing: seq<string>)
    ensures missing == [] <==> WorkMoved(services, listing)
    ensures listing.None? ==> missing == services
  {
    if |services| == 0 {
      return [];
    }
    match listing {
      case None =>
        missing := services;
      case Some(out) =>
        missing := MissingServices(services, out);
        assert missing != [] ==> missing[0] in missing;
        assert forall s :: s in services ==> (s in missing <==> !Satisfied(Wanted(services), Split(out, '\n'), s));
    }
  }

  /** k is the first turn whose attempt took the snapshot, and these are its names. */
  ghost predicate SnapshotFrom(env: nat -> Turn, k: nat, services: seq<string>) {
    && TakesSnapshot(env(k).attempt) && NamesOf(env(k).attempt.ps.value, services)
    && forall j: nat :: j < k ==> !TakesSnapshot(env(j).attempt)
  }

  /** Some attempt of the first n turns took the snapshot. */
  ghost predicate SnapshotBy(env: nat -> Turn, n: nat) {
    exists j: nat :: j < n && TakesSnapshot(env(j).attempt)
  }

  /** Some attempt of the first n turns reported its drain command a success. */
  ghost predicate DrainedBy(env: nat -> Turn, n: nat) {
    exists j: nat :: j < n && Succeeds(env(j).attempt, SnapshotBy(env, j))
  }

  /** Turn k finds the node drained and empty and all its work on the survivor. */
  ghost predicate ConvergedAt(env: nat -> Turn, k: nat, services: seq<string>) {
    DrainedBy(env, k + 1) && env(k).count == Some(0) && WorkMoved(services, env(k).listing)
  }

  lemma SnapshotStep(env: nat -> Turn, n: nat)
    ensures SnapshotBy(env, n + 1) <==> SnapshotBy(env, n) || TakesSnapshot(env(n).attempt)
    ensures !SnapshotBy(env, 0)
  {
    hide TakesSnapshot;
  }

  lemma DrainedStep(env: nat -> Turn, n: nat)
    ensures DrainedBy(env, n + 1) <==> DrainedBy(env, n) || Succeeds(env(n).attempt, SnapshotBy(env, n))
    ensures !DrainedBy(env, 0)
  {
    hide Succeeds, SnapshotBy;
  }

  /** No drain is reported before there is a snapshot. */
  lemma {:induction false} DrainedHasSnapshot(env: nat -> Turn, n: nat)
    ensures DrainedBy(env, n) ==> SnapshotBy(env, n)
  {
    if j: nat :| j < n && Succeeds(env(j).attempt, SnapshotBy(env, j)) {
      if !SnapshotBy(env, j) {
        assert TakesSnapshot(env(j).attempt);
      }
    }
  }

  /** The episode's variables after one pass of the loop. */
  datatype Pass = Pass(drained: bool, exit: Option<Exit>, elapsed: nat)

  ghost predicate StoppedAs(m: Machine, from: nat, exit: Exit)
    reads m
  {
    && m.Valid()
    && match exit
       case BackOnMainsExit => StoppedBy(m.cfg, m.history, from, Undrain)
       case ShutdownExit => StoppedBy(m.cfg, m.history, from, Shutdown)
       case _ => from <= |m.history| && QuietFrom(m.cfg, m.history, from)
  }

  /** No probe of the pass decided. */
  predicate Undecided(exit: Option<Exit>) {
    exit.None? || exit.value == ConvergedExit || exit.value == DeadlineExit
  }

  ghost predicate Ready(d: DrainState)
    reads d
  {
    d.snapshotted && d.Reported()
  }

  /** The check behind the sleep: no container is left here and the survivor has all the work. */
  method FindsConverged(services: seq<string>, t: Turn, drained: bool) returns (converged: bool)
    ensures converged <==> drained && t.count == Some(0) && WorkMoved(services, t.listing)
  {
    if drained && t.count == Some(0) {
      var missing := SurvivorMissing(services, t.listing);
      return |missing| == 0;
    }
    return false;
  }

  /** One pass: attempt the drain if it has not succeeded yet, sleep, and look again. */
  method DrainPass(m: Machine, d: DrainState, t: Turn, drained: bool, start: nat, ghost from: nat) returns (r: Pass)
    requires Draining(m, from) && d.Valid() && d.node.lock == None && (drained ==> Ready(d))
    modifies m, d, d.node
    ensures d.Valid() && d.node.lock == None && old(m.history) < m.history
    ensures r.exit.None? ==> Draining(m, from) && r.elapsed <= D.DRAIN_DEADLINE && r.elapsed >= start + D.DRAIN_POLL
    ensures r.exit.Some? ==> StoppedAs(m, from, r.exit.value)
    ensures r.drained ==> Ready(d)
    ensures start <= r.elapsed <= start + TurnTime(t)
    ensures old(d.snapshotted) ==> d.snapshotted && d.services == old(d.services)
    ensures !old(d.snapshotted) && d.snapshotted ==>
              TakesSnapshot(t.attempt) && NamesOf(t.attempt.ps.value, d.services)
    ensures Undecided(r.exit) && TakesSnapshot(t.attempt) && !drained ==> d.snapshotted
    ensures t.attempt.written && Marked(old(d.node.View())) ==> Marked(d.node.View())
    ensures r.exit == Some(ConvergedExit) ==> r.drained && t.count == Some(0) && WorkMoved(d.services, t.listing)
    ensures r.exit.None? || r.exit == Some(DeadlineExit) ==> !(r.drained && t.count == Some(0) && WorkMoved(d.services, t.listing))
    ensures Undecided(r.exit) ==> (r.drained <==> drained || Succeeds(t.attempt, old(d.snapshotted)))
    ensures r.exit == Some(DeadlineExit) ==> r.elapsed > D.DRAIN_DEADLINE
  {
    hide Classify, NamesOf, WorkMoved, Alive, Confirmed, ActionAfter, Satisfied;
    var elapsed, action, ok := start, NoAction, drained;
    if !drained {
      ok, action := MonitoredDrain(m, d, t, from);
      elapsed := elapsed + t.attemptTime;
      if action == Undrain {
        return Pass(false, Some(BackOnMainsExit), elapsed);
      } else if action == Shutdown {
        return Pass(false, Some(ShutdownExit), elapsed);
      }
    }
    elapsed := elapsed + D.DRAIN_POLL + t.oversleep + t.checkTime;
    label polled:
    action := Feed(m, t.check, from);
    if action == Undrain {
      return Pass(ok, Some(BackOnMainsExit), elapsed);
    } else if action == Shutdown {
      return Pass(ok, Some(ShutdownExit), elapsed);
    }
    elapsed := elapsed + t.listTime;
    var converged := FindsConverged(d.services, t, ok);
    if converged {
      return Pass(ok, Some(ConvergedExit), elapsed);
    }
    if elapsed > D.DRAIN_DEADLINE {
      return Pass(ok, Some(DeadlineExit), elapsed);
    }
    return Pass(ok, None, elapsed);
  }

  /** None of the first n turns found the drain converged. */
  ghost predicate NotYetConverged(env: nat -> Turn, n: nat, services: seq<string>) {
    forall k: nat :: k < n ==> !ConvergedAt(env, k, services)
  }

  lemma ConvergedNow(env: nat -> Turn, n: nat, services: seq<string>)
    ensures ConvergedAt(env, n, services) <==>
              DrainedBy(env, n + 1) && env(n).count == Some(0) && WorkMoved(services, env(n).listing)
    ensures NotYetConverged(env, n, services) && !ConvergedAt(env, n, services) ==> NotYetConverged(env, n + 1, services)
  {
    hide DrainedBy, WorkMoved;
  }

  lemma NothingConvergedUnsnapshotted(env: nat -> Turn, n: nat, services: seq<string>)
    requires !SnapshotBy(env, n)
    ensures NotYetConverged(env, n, services)
  {
    hide WorkMoved, Succeeds, TakesSnapshot;
    forall k: nat | k < n ensures !ConvergedAt(env, k, services) {
      DrainedHasSnapshot(env, k + 1);
    }
  }

  lemma FirstSnapshot(env: nat -> Turn, n: nat, services: seq<string>)
    requires !SnapshotBy(env, n) && TakesSnapshot(env(n).attempt) && NamesOf(env(n).attempt.ps.value, services)
    ensures SnapshotFrom(env, n, services)
  {
  }

  /** The recovery behind an episode that did not power off: the lock, the fresh probe, the activate
      command and the removal of the marker. */
  datatype RecoveryInput = RecoveryInput(locked: bool, probe: Option<string>, update: Command, removed: bool)

  /** Every attempt that writes the marker succeeds in it. */
  ghost predicate AlwaysWrites(env: nat -> Turn) {
    forall k: nat :: env(k).attempt.written
  }

  ghost predicate AllTimely(env: nat -> Turn, limit: nat) {
    forall k: nat :: Timely(env(k), limit)
  }

  /** The last decision of an episode fixes its exit. */
  lemma ExitMeans(m: Machine, from: nat, exit: Exit)
    requires StoppedAs(m, from, exit) && from < |m.history|
    ensures match ActionAt(m.cfg, m.history, |m.history| - 1)
            case Shutdown => exit == ShutdownExit
            case Undrain => exit == BackOnMainsExit && Mains(Last(m.history))
            case NoAction => (exit == ConvergedExit || exit == DeadlineExit) && QuietFrom(m.cfg, m.history, from)
            case Drain => false
  {
    hide ActionAfter, Mains;
  }

  lemma TimelyTurnsEnd(env: nat -> Turn, k: nat)
    ensures forall limit: nat :: limit < D.POLL_INTERVAL && AllTimely(env, limit) ==>
              TurnTime(env(k)) <= 104000 + 3 * limit
  {
    hide Timely, TurnTime;
    forall limit: nat | limit < D.POLL_INTERVAL && AllTimely(env, limit)
      ensures TurnTime(env(k)) <= 104000 + 3 * limit
    {
      TimelyTurnEnds(env(k), limit);
    }
  }

  /** The loop of a drain episode: it goes on until the machine decides, the work has moved, or time is up. */
  method DrainLoop(m: Machine, d: DrainState, env: nat -> Turn) returns (exit: Exit, turns: nat, elapsed: nat)
    requires m.Valid() && d.Valid() && !d.snapshotted && d.node.lock == None
    requires m.history != [] && ActionAfter(m.cfg, Before(m.history), Last(m.history)) == Drain
    modifies m, d, d.node
    ensures d.Valid() && d.node.lock == None && old(m.history) < m.history
    ensures StoppedAs(m, |old(m.history)|, exit)
    ensures AlwaysWrites(env) && Marked(old(d.node.View())) ==> Marked(d.node.View())
    ensures 0 < turns <= 41
    ensures exit == ConvergedExit ==>
              && Ready(d)
              && ConvergedAt(env, turns - 1, d.services)
              && exists k: nat :: k < turns && SnapshotFrom(env, k, d.services)
    ensures exit == DeadlineExit ==> !ConvergedAt(env, turns - 1, d.services)
    ensures NotYetConverged(env, turns - 1, d.services)
    ensures D.DRAIN_POLL * (turns - 1) <= elapsed <= D.DRAIN_DEADLINE + TurnTime(env(turns - 1))
    ensures exit == DeadlineExit ==> elapsed > D.DRAIN_DEADLINE
  {
    hide Classify, QuietFrom, StoppedBy, NamesOf, WorkMoved, Alive, Confirmed, ActionAfter, Succeeds, TakesSnapshot,
      ConvergedAt, SnapshotBy, DrainedBy, SnapshotFrom, TurnTime;
    ghost var from := |m.history|;
    DrainDecisionStarts(m.cfg, m.history);
    SnapshotStep(env, 0);
    DrainedStep(env, 0);
    var r := Pass(false, None, 0);
    turns := 0;
    while r.exit.None?
      invariant d.Valid() && d.node.lock == None && old(m.history) <= m.history
      invariant r.exit.None? ==> Draining(m, from) && D.DRAIN_POLL * turns <= r.elapsed <= D.DRAIN_DEADLINE
      invariant r.exit.Some? ==> StoppedAs(m, from, r.exit.value)
      invariant r.exit.Some? ==> 0 < turns && old(m.history) < m.history
      invariant r.drained ==> Ready(d)
      invariant r.exit.None? ==> (d.snapshotted <==> SnapshotBy(env, turns)) && (r.drained <==> DrainedBy(env, turns))
      invariant d.snapshotted ==> exists k: nat :: k < turns && SnapshotFrom(env, k, d.services)
      invariant r.exit.None? ==> NotYetConverged(env, turns, d.services)
      invariant r.exit.Some? ==> NotYetConverged(env, turns - 1, d.services)
      invariant r.exit == Some(ConvergedExit) ==> r.drained && ConvergedAt(env, turns - 1, d.services)
      invariant r.exit == Some(DeadlineExit) ==> !ConvergedAt(env, turns - 1, d.services)
      invariant AlwaysWrites(env) && Marked(old(d.node.View())) ==> Marked(d.node.View())
      invariant turns <= 41
      invariant 0 < turns ==> D.DRAIN_POLL * (turns - 1) <= r.elapsed <= D.DRAIN_DEADLINE + TurnTime(env(turns - 1))
      invariant r.exit == Some(DeadlineExit) ==> r.elapsed > D.DRAIN_DEADLINE
      decreases r.exit.None?, 41 - turns
    {
      ghost var had, drained, was := d.snapshotted, r.drained, d.services;
      var t := env(turns);
      r := DrainPass(m, d, t, r.drained, r.elapsed, from);
      SnapshotStep(env, turns);
      DrainedStep(env, turns);
      if !had {
        NothingConvergedUnsnapshotted(env, turns, d.services);
        if d.snapshotted {
          FirstSnapshot(env, turns, d.services);
        }
      }
      ConvergedNow(env, turns, d.services);
      turns := turns + 1;
      assert env(turns - 1) == t;
    }
    exit, elapsed := r.exit.value, r.elapsed;
  }

  /** One drain episode, and the recovery behind it if it does not power off. */
  method RunDrain(m: Machine, d: DrainState, env: nat -> Turn, suppressPoweroff: bool, recovery: RecoveryInput)
      returns (poweredOff: bool, exit: Exit, turns: nat, elapsed: nat, released: bool)
    requires m.Valid() && d.Valid() && !d.snapshotted && d.node.lock == None
    requires m.history != [] && ActionAfter(m.cfg, Before(m.history), Last(m.history)) == Drain
    modifies m, d, d.node
    ensures d.Valid() && d.node.lock == None && old(m.history) < m.history
    // the machine outranks the task count
    ensures StoppedAs(m, |old(m.history)|, exit)
    ensures poweredOff <==> exit == ShutdownExit || (!suppressPoweroff && exit != BackOnMainsExit)
    ensures match ActionAt(m.cfg, m.history, |m.history| - 1)
            case Shutdown => poweredOff
            case Undrain => !poweredOff && Mains(Last(m.history))
            case NoAction => (poweredOff <==> !suppressPoweroff) && QuietFrom(m.cfg, m.history, |old(m.history)|)
            case Drain => false
    // an episode without a poweroff ends in a recovery
    ensures AlwaysWrites(env) && Marked(old(d.node.View())) ==> Marked(d.node.View())
    ensures released ==> !poweredOff && !d.node.marker
    ensures released && AlwaysWrites(env) && Marked(old(d.node.View())) ==> d.node.View() == Node(Active, false, None)
    ensures !poweredOff ==> d.node.Done(Recovery, released)
    // the convergence gate
    ensures 0 < turns
    ensures exit == ConvergedExit ==>
              && Ready(d)
              && ConvergedAt(env, turns - 1, d.services)
              && env(turns - 1).count == Some(0) && WorkMoved(d.services, env(turns - 1).listing)
              && exists k: nat :: k < turns && SnapshotFrom(env, k, d.services)
    ensures exit == DeadlineExit ==> !ConvergedAt(env, turns - 1, d.services)
    ensures NotYetConverged(env, turns - 1, d.services)
    // bounds
    ensures turns <= 41 && 15000 * (turns - 1) <= elapsed <= 600000 + TurnTime(env(turns - 1))
    ensures forall limit: nat :: limit < 10000 && AllTimely(env, limit) ==> elapsed <= 704000 + 3 * limit
    ensures exit == DeadlineExit ==> elapsed > 600000
  {
    hide ConvergedAt, NotYetConverged, SnapshotFrom, TurnTime, AllTimely, StoppedBy, QuietFrom,
      ActionAfter, Ready, AlwaysWrites, SafeForUndrain;
    exit, turns, elapsed := DrainLoop(m, d, env);
    TimelyTurnsEnd(env, turns - 1);
    ExitMeans(m, |old(m.history)|, exit);
    if exit == ConvergedExit {
      ConvergedNow(env, turns - 1, d.services);
    }
    poweredOff := exit == ShutdownExit || (!suppressPoweroff && exit != BackOnMainsExit);
    released := false;
    if !poweredOff {
      released := d.node.RecoverDrain(Main, recovery.locked, recovery.probe, recovery.update, recovery.removed);
    }
  }
}
