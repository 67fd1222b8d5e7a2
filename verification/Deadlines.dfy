/** How long the watcher's functions can take: nested timeouts over absolute times in milliseconds. A
    context without a deadline is None; a cancelled one is as if its deadline were the cancellation. */
module Deadlines {
  import opened Text

  const LOCK_TIMEOUT: nat := 10000
  const LOCK_POLL: nat := 50
  const URGENT_TIMEOUT: nat := 15000
  const COMMAND_TIMEOUT: nat := 45000
  const OUTPUT_TIMEOUT: nat := 10000
  const WAIT_DELAY: nat := 1000
  const POLL_INTERVAL: nat := 10000
  const DRAIN_POLL: nat := 15000
  const DRAIN_DEADLINE: nat := 600000
  const DIAL_TIMEOUT: nat := 3000
  const STATUS_TIMEOUT: nat := 5000

  /** What an attempt that nobody cancels can take: the lock, the snapshot and the update. */
  const ATTEMPT_LIMIT: nat := LOCK_TIMEOUT + (OUTPUT_TIMEOUT + WAIT_DELAY) + (COMMAND_TIMEOUT + WAIT_DELAY)

  function Min(a: nat, b: nat): nat {
    if a < b then a else b
  }

  function Max(a: nat, b: nat): nat {
    if a < b then b else a
  }

  /** context.WithTimeout: the parent's deadline still counts. */
  function WithTimeout(parent: Option<nat>, now: nat, timeout: nat): nat {
    match parent
    case None => now + timeout
    case Some(d) => Min(d, now + timeout)
  }

  predicate Expired(ctx: Option<nat>, now: nat) {
    ctx.Some? && ctx.value <= now
  }

  /** A command left alone would run for `natural`; once killed, its output is waited for at most WAIT_DELAY. */
  datatype Job = Job(natural: nat, linger: nat)

  /** When a command returns that is started at `now` with its own timeout; a dead context starts nothing. */
  function CommandEnd(parent: Option<nat>, now: nat, timeout: nat, job: Job): (end: nat)
    ensures now <= end <= now + timeout + WAIT_DELAY
    ensures parent.Some? && now <= parent.value ==> end <= parent.value + WAIT_DELAY
    ensures Expired(parent, now) ==> end == now
  {
    if Expired(parent, now) then now
    else
      var kill := WithTimeout(parent, now, timeout);
      if now + job.natural <= kill then now + job.natural else kill + Min(job.linger, WAIT_DELAY)
  }

  /** What one non-blocking flock call says at a time. */
  datatype Flock = Taken | Busy | Broken

  /** Whether the lock is taken, and when that is known. */
  function Lock(deadline: nat, now: nat, flock: nat -> Flock): (r: (bool, nat))
    ensures now <= r.1 <= Max(now, deadline)
    ensures r.0 ==> flock(r.1).Taken?
    ensures !r.0 ==> flock(r.1).Broken? || (flock(now).Busy? && r.1 >= deadline)
    decreases if now < deadline then deadline - now else 0
  {
    if !flock(now).Busy? then (flock(now).Taken?, now)
    else if now + LOCK_POLL >= deadline then (false, Max(now, deadline))
    else Lock(deadline, now + LOCK_POLL, flock)
  }

  /** Polls the file lock until it is taken, breaks, or the context is done. */
  method LockDrain(deadline: nat, start: nat, flock: nat -> Flock) returns (ok: bool, end: nat)
    ensures (ok, end) == Lock(deadline, start, flock)
  {
    end := start;
    while flock(end).Busy?
      invariant Lock(deadline, start, flock) == Lock(deadline, end, flock)
      decreases if end < deadline then deadline - end else 0
    {
      if end + LOCK_POLL >= deadline {
        return false, Max(end, deadline);
      }
      end := end + LOCK_POLL;
    }
    return flock(end).Taken?, end;
  }

  // ---------------------------------------------------------------- the urgent path

  /** When the urgent path is over: within its budget plus one command's wait delay, whichever of the
      lock, the inspection, the update or their own timeouts ends first. */
  function UrgentEnd(start: nat, flock: nat -> Flock, marked: bool, inspect: Job, drained: bool, update: Job): (end: nat)
    ensures start <= end <= start + 16000
  {
    var ctx := Some(start + URGENT_TIMEOUT);
    var (ok, locked) := Lock(ctx.value, start, flock);
    if !ok || Expired(ctx, locked) then locked
    else
      var inspected := if marked then CommandEnd(ctx, locked, OUTPUT_TIMEOUT, inspect) else locked;
      if (marked && drained) || Expired(ctx, inspected) then inspected
      else CommandEnd(ctx, inspected, COMMAND_TIMEOUT, update)
  }

  method PrepareUrgentDrain(start: nat, flock: nat -> Flock, marked: bool, inspect: Job, drained: bool, update: Job)
      returns (end: nat)
    ensures end == UrgentEnd(start, flock, marked, inspect, drained, update)
  {
    var ctx := start + URGENT_TIMEOUT;
    var ok;
    ok, end := LockDrain(ctx, start, flock);
    if !ok || Expired(Some(ctx), end) {
      return;
    }
    if marked {
      end := CommandEnd(Some(ctx), end, OUTPUT_TIMEOUT, inspect);
      if drained {
        return;
      }
    }
    if Expired(Some(ctx), end) {
      return;
    }
    end := CommandEnd(Some(ctx), end, COMMAND_TIMEOUT, update);
  }

  /** The urgent path attains its bound: a free lock and an update that hangs. */
  lemma UrgentBoundIsTight(start: nat, inspect: Job)
    ensures UrgentEnd(start, t => Taken, false, inspect, false, Job(60000, 5000)) == start + 16000
  {
  }

  // ---------------------------------------------------------------- one attempt

  /** What an attempt meets: the lock, whether its snapshot is taken already, `docker ps`, the update. */
  datatype Attempt = Attempt(flock: nat -> Flock, snapshotted: bool, ps: Job, psOk: bool, update: Job)

  /** When an attempt is over that starts at `start`: within its nested limits, and within one wait
      delay of a cancellation. */
  function AttemptEnd(start: nat, cancel: Option<nat>, a: Attempt): (end: nat)
    ensures start <= end <= start + 67000
    ensures cancel.Some? ==> end <= Max(start, cancel.value) + 1000
  {
    var (ok, locked) := Lock(WithTimeout(cancel, start, LOCK_TIMEOUT), start, a.flock);
    if !ok || Expired(cancel, locked) then locked
    else
      var taken := if a.snapshotted then locked else CommandEnd(cancel, locked, OUTPUT_TIMEOUT, a.ps);
      if (!a.snapshotted && !a.psOk) || Expired(cancel, taken) then taken
      else CommandEnd(cancel, taken, COMMAND_TIMEOUT, a.update)
  }

  method DrainAttempt(start: nat, cancel: Option<nat>, a: Attempt) returns (end: nat)
    ensures end == AttemptEnd(start, cancel, a)
  {
    var ok;
    ok, end := LockDrain(WithTimeout(cancel, start, LOCK_TIMEOUT), start, a.flock);
    if !ok || Expired(cancel, end) {
      return;
    }
    if !a.snapshotted {
      end := CommandEnd(cancel, end, OUTPUT_TIMEOUT, a.ps);
      if !a.psOk {
        return;
      }
    }
    if Expired(cancel, end) {
      return;
    }
    end := CommandEnd(cancel, end, COMMAND_TIMEOUT, a.update);
  }

  lemma {:induction false} BusyLockTimesOut(now: nat, deadline: nat, flock: nat -> Flock)
    requires now < deadline && forall t: nat :: now <= t ==> flock(t).Busy?
    ensures Lock(deadline, now, flock) == (false, deadline)
    decreases deadline - now
  {
    if now + LOCK_POLL < deadline {
      BusyLockTimesOut(now + LOCK_POLL, deadline, flock);
    }
  }

  /** Each limit of an attempt can be met: a lock that never comes free ends it after 10 seconds, hanging
      commands behind a free lock after 57, one hanging command after 46, and a cancellation after 5
      seconds of hanging in the sixth. */
  lemma AttemptLimitsAreTight()
    ensures AttemptEnd(0, None, Attempt(t => Busy, false, Job(0, 0), true, Job(0, 0))) == 10000
    ensures AttemptEnd(0, None, Attempt(t => Taken, false, Job(9999, 0), true, Job(60000, 5000))) == 9999 + 46000
    ensures AttemptEnd(0, None, Attempt(t => Taken, false, Job(60000, 5000), true, Job(60000, 5000))) == 57000
    ensures AttemptEnd(0, None, Attempt(t => Taken, true, Job(0, 0), true, Job(60000, 5000))) == 46000
    ensures AttemptEnd(0, Some(5000), Attempt(t => Taken, true, Job(0, 0), true, Job(60000, 5000))) == 6000
    ensures Lock(10000, 0, (t: nat) => if t < 70 then Busy else Taken) == (true, 100)
  {
    var freed := (t: nat) => if t < 70 then Busy else Taken;
    assert Lock(10000, 0, freed) == Lock(10000, 50, freed) == Lock(10000, 100, freed);
    BusyLockTimesOut(0, LOCK_TIMEOUT, t => Busy);
  }

  // ---------------------------------------------------------------- monitoredDrain

  /** Attempt and ticker start at 0. The durations of the tick probes so far determine when the last
      one ended. */
  function ProbeEnd(ds: seq<nat>): nat
    decreases |ds|, 0
  {
    if ds == [] then 0 else ProbeStart(ds[..|ds| - 1]) + ds[|ds| - 1]
  }

  /** A tick came in while the last probe was under way; the ticker keeps one. */
  predicate Pending(ds: seq<nat>)
    decreases |ds|, 1
  {
    ds != [] && ProbeEnd(ds) / POLL_INTERVAL > ProbeStart(ds[..|ds| - 1]) / POLL_INTERVAL
  }

  /** When the next tick is there: at once, or at the next multiple of the interval. */
  function ProbeStart(ds: seq<nat>): nat
    decreases |ds|, 2
  {
    if Pending(ds) then ProbeEnd(ds) else (ProbeEnd(ds) / POLL_INTERVAL + 1) * POLL_INTERVAL
  }

  /** Every one of these tick probes can have been made although the attempt ended at e: its tick was
      there no later than the result, or was waiting beside it, where the select may take either. */
  predicate CanProbe(e: nat, ds: seq<nat>) {
    ds == [] || (CanProbe(e, ds[..|ds| - 1]) && (Pending(ds[..|ds| - 1]) || ProbeStart(ds[..|ds| - 1]) <= e))
  }

  /** monitoredDrain can return at t after these tick probes: with the result, or with the decision of
      the last probe once the cancelled attempt has ended. */
  predicate CanReturn(a: Attempt, ds: seq<nat>, t: nat) {
    var e, last := AttemptEnd(0, None, a), ProbeEnd(ds);
    && CanProbe(e, ds)
    && (|| (t == Max(last, e) && (e <= last || (!Pending(ds) && e <= ProbeStart(ds))))
        || (ds != [] && t == Max(last, AttemptEnd(0, Some(last), a))))
  }

  predicate AllWithin(ds: seq<nat>, limit: nat) {
    forall i :: 0 <= i < |ds| ==> ds[i] <= limit
  }

  /** Probes shorter than the interval leave no tick waiting. */
  lemma {:induction false} ShortProbesKeepUp(ds: seq<nat>, limit: nat)
    requires AllWithin(ds, limit) && limit < POLL_INTERVAL
    ensures !Pending(ds) && ProbeStart(ds) == (|ds| + 1) * POLL_INTERVAL
    ensures |ds| * POLL_INTERVAL <= ProbeEnd(ds) <= |ds| * POLL_INTERVAL + limit
    decreases |ds|
  {
    if ds != [] {
      ShortProbesKeepUp(ds[..|ds| - 1], limit);
    }
  }

  /** No such luck otherwise: probes of a whole interval leave a tick waiting every time. */
  lemma {:induction false} LongProbesStarve(a: Attempt, n: nat)
    requires n > 0 && AttemptEnd(0, None, a) >= POLL_INTERVAL
    ensures var ds := seq(n, (i: nat) => POLL_INTERVAL);
            && Pending(ds) && ProbeEnd(ds) == (n + 1) * POLL_INTERVAL && CanProbe(AttemptEnd(0, None, a), ds)
  {
    var ds := seq(n, (i: nat) => POLL_INTERVAL);
    var g := seq(n - 1, (i: nat) => POLL_INTERVAL);
    assert ds[..n - 1] == g;
    if n > 1 {
      LongProbesStarve(a, n - 1);
    }
  }

  /** A whole call can take t: the opening probe alone, if that decides, or the attempt and its ticks
      behind it. */
  predicate CanTake(a: Attempt, open: nat, ds: seq<nat>, t: nat) {
    t == open || (t >= open && CanReturn(a, ds, t - open))
  }

  /** No call of monitoredDrain takes longer than b if its probes stay within the limit. */
  ghost predicate EndsBy(limit: nat, b: nat) {
    forall a, open: nat, ds, t: nat :: open <= limit && AllWithin(ds, limit) && CanTake(a, open, ds, t) ==> t <= b
  }

  /** What a call of monitoredDrain can take with short probes: the opening one, the attempt, and one that
      overlaps the attempt's end. */
  function MonitoredLimit(limit: nat): nat {
    limit + ATTEMPT_LIMIT + limit
  }

  /** With probes shorter than the poll interval monitoredDrain is bounded; with longer ones nothing
      bounds it, since the select may take the tick every time. */
  lemma {:induction false} MonitoredDrainIsBoundedIff(limit: nat)
    ensures (exists b: nat :: EndsBy(limit, b)) <==> limit < 10000
    ensures limit < POLL_INTERVAL ==> EndsBy(limit, MonitoredLimit(limit))
  {
    if limit < POLL_INTERVAL {
      forall a, open: nat, ds, t: nat | open <= limit && AllWithin(ds, limit) && CanTake(a, open, ds, t)
        ensures t <= MonitoredLimit(limit)
      {
        MonitoredDrainEnds(a, open, ds, t, limit);
      }
      assert EndsBy(limit, MonitoredLimit(limit));
    } else {
      forall b: nat ensures !EndsBy(limit, b) {
        MonitoredDrainOutlasts(limit, b);
      }
    }
  }

  lemma MonitoredDrainEnds(a: Attempt, open: nat, ds: seq<nat>, t: nat, limit: nat)
    requires open <= limit && AllWithin(ds, limit) && limit < POLL_INTERVAL && CanTake(a, open, ds, t)
    ensures t <= 67000 + 2 * limit
  {
    hide CanReturn, AllWithin;
    if t != open {
      AttemptAndTicksEnd(a, ds, t - open, limit);
    }
  }

  lemma {:induction false} AttemptAndTicksEnd(a: Attempt, ds: seq<nat>, t: nat, limit: nat)
    requires AllWithin(ds, limit) && limit < POLL_INTERVAL && CanReturn(a, ds, t)
    ensures t <= ATTEMPT_LIMIT + limit
  {
    ShortProbesKeepUp(ds, limit);
    if ds != [] {
      ShortProbesKeepUp(ds[..|ds| - 1], limit);
    }
  }

  lemma {:induction false} MonitoredDrainOutlasts(limit: nat, b: nat)
    requires limit >= POLL_INTERVAL
    ensures !EndsBy(limit, b)
  {
    hide ProbeEnd, ProbeStart, Pending, CanProbe;
    var a := Attempt(t => Taken, true, Job(0, 0), true, Job(COMMAND_TIMEOUT, 0));
    var n := b + 5;
    var ds := seq(n, (i: nat) => POLL_INTERVAL);
    LongProbesStarve(a, n);
    assert AllWithin(ds, limit) && CanReturn(a, ds, ProbeEnd(ds));
    assert CanTake(a, 0, ds, ProbeEnd(ds));
  }

  /** The timeouts of one NUT probe: dialling, the three replies of a login, the status. */
  function ProbeLimit(login: bool): (limit: nat)
    ensures limit == if login then 17000 else 8000
  {
    DIAL_TIMEOUT + (if login then 3 * DIAL_TIMEOUT else 0) + STATUS_TIMEOUT
  }

  /** So the timeouts alone bound monitoredDrain exactly if the daemon does not log in to NUT. */
  lemma TimeoutsBoundMonitoredDrainIffNoLogin(login: bool)
    ensures (exists b: nat :: EndsBy(ProbeLimit(login), b)) <==> !login
    ensures !login ==> EndsBy(ProbeLimit(login), 83000)
  {
    MonitoredDrainIsBoundedIff(ProbeLimit(login));
  }
}
