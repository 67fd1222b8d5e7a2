/** The decision machine. The state it keeps is specified by the probes it has seen: every field
    is a function of that history, and so is every decision. */
module UpsMachine {
  import opened StatusText

  datatype Role = Survivor | Peer
  datatype Action = NoAction | Drain | Undrain | Shutdown
  datatype Event = NoEvent | OnBatteryEvent | BackOnMains | Watchdog | LowBatteryEvent
  datatype Decision = Decision(action: Action, shutdownDrain: bool)

  datatype Config = Config(role: Role, confirmOB: int, silentSecs: int)

  function WithDefaults(cfg: Config): (r: Config)
    ensures r.role == cfg.role && r.confirmOB > 0 && r.silentSecs > 0
    ensures cfg.confirmOB > 0 ==> r.confirmOB == cfg.confirmOB
    ensures cfg.confirmOB <= 0 ==> r.confirmOB == 3
    ensures cfg.silentSecs > 0 ==> r.silentSecs == cfg.silentSecs
    ensures cfg.silentSecs <= 0 ==> r.silentSecs == 900
  {
    Config(cfg.role,
           if cfg.confirmOB <= 0 then 3 else cfg.confirmOB,
           if cfg.silentSecs <= 0 then 900 else cfg.silentSecs)
  }

  type Policy = cfg: Config | cfg.confirmOB > 0 && cfg.silentSecs > 0 witness Config(Survivor, 3, 900)

  /** One NUT probe: whether it yielded a status, the status, and when. */
  datatype Probe = Probe(ok: bool, status: string, now: int)

  predicate Low(p: Probe) { p.ok && Classify(p.status) == LowBattery }
  predicate Battery(p: Probe) { p.ok && Classify(p.status) == OnBattery }
  predicate Mains(p: Probe) { p.ok && Classify(p.status) == OnMains }

  /** The probe yielded a status with this word in it. */
  ghost predicate Says(p: Probe, w: string) {
    p.ok && Contains(p.status, w)
  }

  /** The three kinds of a probe that yielded a status, by the words in it. */
  lemma ProbeKinds(p: Probe)
    ensures Low(p) <==> Says(p, "LB")
    ensures Battery(p) <==> Says(p, "OB") && !Says(p, "LB")
    ensures Mains(p) <==> p.ok && !Says(p, "OB") && !Says(p, "LB")
  {
    hide Classify, Contains;
    ClassifyByWords(p.status);
  }

  type History = seq<Probe>

  function Last(h: History): Probe requires h != [] { h[|h| - 1] }
  function Before(h: History): History requires h != [] { h[..|h| - 1] }

  // ------------------------------------------------- what a history determines

  /** Number of on-battery probes since the last mains probe; failed probes count for nothing. */
  function BatteryRun(h: History): nat {
    if h == [] then 0
    else if Mains(Last(h)) then 0
    else BatteryRun(Before(h)) + if Battery(Last(h)) then 1 else 0
  }

  /** Time of the last probe that yielded a status, or -1. */
  function LastSeen(h: History): int {
    if h == [] then -1
    else if Last(h).ok then Last(h).now
    else LastSeen(Before(h))
  }

  /** p calls for a shutdown after h: low battery, or silence for the whole window. */
  predicate Fires(cfg: Config, h: History, p: Probe) {
    Low(p) || (!p.ok && LastSeen(h) >= 0 && p.now - LastSeen(h) >= cfg.silentSecs)
  }

  /** No probe of h has called for a shutdown. */
  ghost predicate Alive(cfg: Config, h: History) {
    forall i :: 0 <= i < |h| ==> !Fires(cfg, h[..i], h[i])
  }

  predicate Confirmed(cfg: Config, h: History) {
    BatteryRun(h) >= cfg.confirmOB
  }

  ghost function ActionAfter(cfg: Config, h: History, p: Probe): Action {
    if !Alive(cfg, h) then NoAction
    else if Fires(cfg, h, p) then Shutdown
    else if cfg.role == Peer && !Confirmed(cfg, h) && Confirmed(cfg, h + [p]) then Drain
    else if cfg.role == Peer && Confirmed(cfg, h) && !Confirmed(cfg, h + [p]) then Undrain
    else NoAction
  }

  ghost function EventAfter(cfg: Config, h: History, p: Probe): Event {
    if !Alive(cfg, h) then NoEvent
    else if Low(p) then LowBatteryEvent
    else if Fires(cfg, h, p) then Watchdog
    else if !Confirmed(cfg, h) && Confirmed(cfg, h + [p]) then OnBatteryEvent
    else if BatteryRun(h) > 0 && BatteryRun(h + [p]) == 0 then BackOnMains
    else NoEvent
  }

  lemma AliveAppend(cfg: Config, h: History, p: Probe)
    ensures Alive(cfg, h + [p]) <==> Alive(cfg, h) && !Fires(cfg, h, p)
  {
    var g := h + [p];
    assert g[..|h|] == h;
    assert forall i :: 0 <= i < |h| ==> g[..i] == h[..i] && g[i] == h[i];
    if Alive(cfg, g) {
      assert !Fires(cfg, g[..|h|], g[|h|]);
      forall i | 0 <= i < |h| ensures !Fires(cfg, h[..i], h[i]) {
        assert !Fires(cfg, g[..i], g[i]);
      }
    }
  }

  lemma HistoryAppend(h: History, p: Probe)
    ensures h + [p] != [] && Last(h + [p]) == p && Before(h + [p]) == h
  {
  }

  // ------------------------------------------------- one probe, by its kind

  lemma AfterLow(cfg: Policy, h: History, p: Probe)
    requires Alive(cfg, h) && Low(p)
    ensures ActionAfter(cfg, h, p) == Shutdown && EventAfter(cfg, h, p) == LowBatteryEvent
    ensures !Alive(cfg, h + [p])
  {
    AliveAppend(cfg, h, p);
  }

  lemma AfterBattery(cfg: Policy, h: History, p: Probe)
    requires Alive(cfg, h) && Battery(p)
    ensures Alive(cfg, h + [p]) && LastSeen(h + [p]) == p.now && BatteryRun(h + [p]) == BatteryRun(h) + 1
    ensures var confirms := BatteryRun(h) + 1 == cfg.confirmOB;
            && ActionAfter(cfg, h, p) == (if confirms && cfg.role == Peer then Drain else NoAction)
            && EventAfter(cfg, h, p) == if confirms then OnBatteryEvent else NoEvent
  {
    AliveAppend(cfg, h, p);
    HistoryAppend(h, p);
  }

  lemma AfterMains(cfg: Policy, h: History, p: Probe)
    requires Alive(cfg, h) && Mains(p)
    ensures Alive(cfg, h + [p]) && LastSeen(h + [p]) == p.now && BatteryRun(h + [p]) == 0
    ensures ActionAfter(cfg, h, p) == (if cfg.role == Peer && Confirmed(cfg, h) then Undrain else NoAction)
    ensures EventAfter(cfg, h, p) == if BatteryRun(h) > 0 then BackOnMains else NoEvent
  {
    AliveAppend(cfg, h, p);
    HistoryAppend(h, p);
  }

  lemma AfterFailed(cfg: Policy, h: History, p: Probe)
    requires Alive(cfg, h) && !p.ok
    ensures LastSeen(h + [p]) == LastSeen(h) && BatteryRun(h + [p]) == BatteryRun(h)
    ensures var silent := LastSeen(h) >= 0 && p.now - LastSeen(h) >= cfg.silentSecs;
            && (Alive(cfg, h + [p]) <==> !silent)
            && ActionAfter(cfg, h, p) == (if silent then Shutdown else NoAction)
            && EventAfter(cfg, h, p) == if silent then Watchdog else NoEvent
  {
    AliveAppend(cfg, h, p);
    HistoryAppend(h, p);
  }

  lemma AfterShutdown(cfg: Policy, h: History, p: Probe)
    requires !Alive(cfg, h)
    ensures !Alive(cfg, h + [p]) && ActionAfter(cfg, h, p) == NoAction && EventAfter(cfg, h, p) == NoEvent
  {
    AliveAppend(cfg, h, p);
  }

  class Machine {
    const cfg: Config
    var obCount: int
    var lastSeen: int
    var drained: bool
    var poweredDown: bool
    var wasOB: bool
    ghost var history: History

    /** Every field is determined by the history. */
    ghost predicate Valid()
      reads this
    {
      && cfg.confirmOB > 0 && cfg.silentSecs > 0
      && (poweredDown <==> !Alive(cfg, history))
      && (!poweredDown ==>
            && obCount == BatteryRun(history)
            && (wasOB <==> BatteryRun(history) > 0)
            && (drained <==> cfg.role == Peer && Confirmed(cfg, history))
            && lastSeen == LastSeen(history))
    }

    constructor (config: Config)
      ensures Valid() && history == [] && cfg == WithDefaults(config)
    {
      cfg := WithDefaults(config);
      obCount, lastSeen, drained, poweredDown, wasOB := 0, -1, false, false, false;
      history := [];
    }

    method OnProbe(ok: bool, status: string, now: int) returns (dec: Decision, ev: Event)
      requires Valid()
      modifies this
      ensures Valid() && history == old(history) + [Probe(ok, status, now)]
      ensures dec.action == ActionAfter(cfg, old(history), Probe(ok, status, now))
      ensures dec.shutdownDrain <==> dec.action == Shutdown && cfg.role == Peer
      ensures ev == EventAfter(cfg, old(history), Probe(ok, status, now))
    {
      hide HasWord, ActionAfter, EventAfter, Alive, BatteryRun, LastSeen;
      ghost var p := Probe(ok, status, now);
      dec, ev := Decision(NoAction, false), NoEvent;
      if poweredDown {
        AfterShutdown(cfg, history, p);
        history := history + [p];
        return;
      }
      var isLB := Word(status, "LB");
      var isOB := Word(status, "OB");
      if ok && isLB {
        AfterLow(cfg, history, p);
        poweredDown := true;
        dec := Decision(Shutdown, cfg.role == Peer);
        ev := LowBatteryEvent;
      } else if ok && isOB {
        AfterBattery(cfg, history, p);
        obCount := obCount + 1;
        if !wasOB {
          wasOB := true;
        }
        if obCount == cfg.confirmOB {
          if cfg.role == Peer && !drained {
            drained := true;
            dec := dec.(action := Drain);
          }
          ev := OnBatteryEvent;
        }
      } else if ok {
        AfterMains(cfg, history, p);
        obCount := 0;
        if wasOB {
          wasOB := false;
          if cfg.role == Peer && drained {
            dec := dec.(action := Undrain);
            drained := false;
          }
          ev := BackOnMains;
        }
      } else {
        AfterFailed(cfg, history, p);
        if lastSeen >= 0 && now - lastSeen >= cfg.silentSecs {
          poweredDown := true;
          dec := Decision(Shutdown, cfg.role == Peer);
          ev := Watchdog;
        }
      }
      if ok {
        lastSeen := now;
      }
      history := history + [p];
    }
  }

  method Word(status: string, w: string) returns (found: bool)
    requires ' ' !in w
    ensures found <==> HasWord(status, w)
  {
    found := ContainsWord(status, w);
    WordIsToken(status, w);
  }

  // ------------------------------------------------- independent readings of the history

  /** The on-battery probes with no mains probe after them. */
  ghost function BatterySince(h: History): set<nat> {
    set i: nat | i < |h| && Battery(h[i]) && forall j :: i <= j < |h| ==> !Mains(h[j])
  }

  lemma {:induction false} BatteryRunCountsProbes(h: History)
    ensures BatteryRun(h) == |BatterySince(h)|
  {
    if h == [] {
      assert BatterySince(h) == {};
    } else {
      BatteryRunCountsProbes(Before(h));
      BatterySinceAppend(h);
    }
  }

  lemma BatterySinceAppend(h: History)
    requires h != []
    ensures BatterySince(h) == if Mains(Last(h)) then {}
                               else if Battery(Last(h)) then BatterySince(Before(h)) + {|h| - 1}
                               else BatterySince(Before(h))
    ensures |h| - 1 !in BatterySince(Before(h))
  {
    var g, n := Before(h), |h| - 1;
    forall i: nat | i < n
      ensures i in BatterySince(h) <==> i in BatterySince(g) && !Mains(Last(h))
    {
      assert forall j :: i <= j < n ==> Mains(h[j]) == Mains(g[j]);
      assert Mains(h[n]) == Mains(Last(h));
      assert Battery(h[i]) == Battery(g[i]);
    }
    assert n in BatterySince(h) <==> Battery(Last(h)) && !Mains(Last(h));
  }

  /** A failed probe that does not fire leaves everything the machine knows unchanged. */
  lemma {:induction false} FailedProbeIsInvisible(cfg: Config, h: History, p: Probe, later: History)
    requires !p.ok && !Fires(cfg, h, p)
    ensures BatteryRun(h + [p] + later) == BatteryRun(h + later)
    ensures LastSeen(h + [p] + later) == LastSeen(h + later)
    ensures Alive(cfg, h + [p] + later) <==> Alive(cfg, h + later)
    decreases |later|
  {
    if later == [] {
      assert h + [p] + later == h + [p] && h + later == h;
      HistoryAppend(h, p);
      AliveAppend(cfg, h, p);
    } else {
      var q, rest := Last(later), Before(later);
      assert h + [p] + later == (h + [p] + rest) + [q];
      assert h + later == (h + rest) + [q];
      FailedProbeIsInvisible(cfg, h, p, rest);
      HistoryAppend(h + [p] + rest, q);
      HistoryAppend(h + rest, q);
      AliveAppend(cfg, h + [p] + rest, q);
      AliveAppend(cfg, h + rest, q);
    }
  }

  /** Deleting such a probe from a trace changes no later decision. */
  lemma DeletingFailedProbe(cfg: Config, h: History, p: Probe, later: History, next: Probe)
    requires !p.ok && !Fires(cfg, h, p)
    ensures ActionAfter(cfg, h + [p] + later, next) == ActionAfter(cfg, h + later, next)
    ensures EventAfter(cfg, h + [p] + later, next) == EventAfter(cfg, h + later, next)
  {
    FailedProbeIsInvisible(cfg, h, p, later);
    SameKnowledgeSameDecision(cfg, h + [p] + later, h + later, next);
  }

  lemma SameKnowledgeSameDecision(cfg: Config, g: History, h: History, next: Probe)
    requires BatteryRun(g) == BatteryRun(h) && LastSeen(g) == LastSeen(h)
    requires Alive(cfg, g) <==> Alive(cfg, h)
    ensures ActionAfter(cfg, g, next) == ActionAfter(cfg, h, next)
    ensures EventAfter(cfg, g, next) == EventAfter(cfg, h, next)
  {
    hide Classify;
    HistoryAppend(g, next);
    HistoryAppend(h, next);
    assert BatteryRun(g + [next]) == BatteryRun(h + [next]);
  }
}
