/** What the decision machine does over a whole trace of probes. */
module UpsRuns {
  import opened StatusText
  import opened UpsMachine

  ghost function ActionAt(cfg: Config, h: History, i: nat): Action
    requires i < |h|
  {
    ActionAfter(cfg, h[..i], h[i])
  }

  /** The Drain and Undrain decisions of a trace, in order. */
  ghost function Switches(cfg: Config, h: History): seq<Action> {
    if h == [] then
      []
    else
      var earlier, a := Switches(cfg, Before(h)), ActionAfter(cfg, Before(h), Last(h));
      if a == Drain || a == Undrain then earlier + [a] else earlier
  }

  predicate Alternates(s: seq<Action>) {
    forall k :: 0 <= k < |s| ==> s[k] == if k % 2 == 0 then Drain else Undrain
  }

  /** Drain and Undrain alternate, Drain first; a survivor emits neither. */
  lemma {:induction false} SwitchesAlternate(cfg: Policy, h: History)
    ensures Alternates(Switches(cfg, h))
    ensures cfg.role == Survivor ==> Switches(cfg, h) == []
    ensures cfg.role == Peer && Alive(cfg, h) ==> (|Switches(cfg, h)| % 2 == 1 <==> Confirmed(cfg, h))
  {
    hide Classify, Fires, BatteryRun, Alive, Confirmed, ActionAfter;
    if h == [] {
      NothingConfirmed(cfg);
    } else {
      SwitchesAlternate(cfg, Before(h));
      SwitchStep(cfg, h);
      var s, a := Switches(cfg, Before(h)), ActionAfter(cfg, Before(h), Last(h));
      assert Switches(cfg, h) == if a == Drain || a == Undrain then s + [a] else s;
      if a == Drain || a == Undrain {
        assert a == if |s| % 2 == 0 then Drain else Undrain;
      }
    }
  }

  lemma NothingConfirmed(cfg: Policy)
    ensures !Confirmed(cfg, [])
  {
  }

  lemma SwitchStep(cfg: Policy, h: History)
    requires h != []
    ensures Alive(cfg, h) ==> Alive(cfg, Before(h))
    ensures var a := ActionAfter(cfg, Before(h), Last(h));
            && (a == Drain || a == Undrain ==> cfg.role == Peer && Alive(cfg, h))
            && (cfg.role == Peer && Alive(cfg, h) ==>
                  a == if Confirmed(cfg, Before(h)) == Confirmed(cfg, h) then NoAction
                       else if Confirmed(cfg, h) then Drain else Undrain)
  {
    hide Classify;
    assert h == Before(h) + [Last(h)];
    AliveAppend(cfg, Before(h), Last(h));
  }

  /** The k-th status so far is the latest one before probe i, and it is at least the window old. */
  ghost predicate SilentSince(cfg: Config, h: History, k: nat, i: nat)
    requires k < i < |h|
  {
    && h[k].ok && h[k].now >= 0
    && (forall j :: k < j < i ==> !h[j].ok)
    && h[i].now - h[k].now >= cfg.silentSecs
  }

  ghost predicate SilenceAt(cfg: Config, h: History, i: nat)
    requires i < |h|
  {
    !h[i].ok && exists k: nat :: k < i && SilentSince(cfg, h, k, i)
  }

  lemma {:induction false} LastSeenAt(h: History) returns (k: nat)
    requires LastSeen(h) >= 0
    ensures k < |h| && h[k].ok && h[k].now == LastSeen(h)
    ensures forall j :: k < j < |h| ==> !h[j].ok
  {
    if Last(h).ok {
      k := |h| - 1;
    } else {
      k := LastSeenAt(Before(h));
      assert forall j :: k < j < |h| - 1 ==> h[j] == Before(h)[j];
    }
  }

  lemma {:induction false} LastSeenFrom(h: History, k: nat)
    requires k < |h| && h[k].ok && forall j :: k < j < |h| ==> !h[j].ok
    ensures LastSeen(h) == h[k].now
  {
    if k < |h| - 1 {
      assert !h[|h| - 1].ok;
      LastSeenFrom(Before(h), k);
    }
  }

  lemma FiresMeansLowOrSilent(cfg: Config, h: History, i: nat)
    requires i < |h|
    ensures Fires(cfg, h[..i], h[i]) <==> Low(h[i]) || SilenceAt(cfg, h, i)
  {
    if !h[i].ok {
      if Fires(cfg, h[..i], h[i]) {
        var k := LastSeenAt(h[..i]);
        assert forall j :: k < j < i ==> h[j] == h[..i][j];
        assert SilentSince(cfg, h, k, i);
      }
      if k: nat :| k < i && SilentSince(cfg, h, k, i) {
        LastSeenFrom(h[..i], k);
      }
    }
  }

  /** Shutdown comes exactly at the first probe that says LB or ends the silent window. */
  lemma ShutdownExactlyAtFirst(cfg: Config, h: History, i: nat)
    requires i < |h|
    ensures ActionAt(cfg, h, i) == Shutdown <==>
              (Says(h[i], "LB") || SilenceAt(cfg, h, i)) && Undisturbed(cfg, h, i)
  {
    hide Says, Low;
    FiresMeansLowOrSilent(cfg, h, i);
    ProbeKinds(h[i]);
    AliveMeansUndisturbed(cfg, h, i);
  }

  /** No probe before i said LB or ended the silent window. */
  ghost predicate Undisturbed(cfg: Config, h: History, i: nat)
    requires i <= |h|
  {
    forall j :: 0 <= j < i ==> !Says(h[j], "LB") && !SilenceAt(cfg, h, j)
  }

  lemma AliveMeansUndisturbed(cfg: Config, h: History, i: nat)
    requires i <= |h|
    ensures Alive(cfg, h[..i]) <==> Undisturbed(cfg, h, i)
  {
    hide Says, Low;
    forall j | 0 <= j < i
      ensures Fires(cfg, h[..i][..j], h[..i][j]) <==> Says(h[j], "LB") || SilenceAt(cfg, h, j)
    {
      FiresMeansLowOrSilent(cfg, h, j);
      ProbeKinds(h[j]);
      assert h[..i][..j] == h[..j];
    }
  }

  /** Drain comes exactly at the battery probe that completes the count, Undrain exactly at the mains probe
      that ends a confirmed outage; only on a peer, and not after a shutdown. */
  lemma SwitchExactlyAt(cfg: Policy, h: History, i: nat)
    requires i < |h|
    ensures ActionAt(cfg, h, i) == Drain <==>
              && cfg.role == Peer && Undisturbed(cfg, h, i)
              && Says(h[i], "OB") && !Says(h[i], "LB") && |BatterySince(h[..i])| + 1 == cfg.confirmOB
    ensures ActionAt(cfg, h, i) == Undrain <==>
              && cfg.role == Peer && Undisturbed(cfg, h, i)
              && h[i].ok && !Says(h[i], "OB") && !Says(h[i], "LB") && |BatterySince(h[..i])| >= cfg.confirmOB
  {
    hide Says, Undisturbed, Alive, BatteryRun, BatterySince, LastSeen, ActionAfter;
    ProbeKinds(h[i]);
    AliveMeansUndisturbed(cfg, h, i);
    BatteryRunCountsProbes(h[..i]);
    KindDecides(cfg, h[..i], h[i]);
  }

  /** Every probe is of one kind, and its kind decides. */
  lemma KindDecides(cfg: Policy, h: History, p: Probe)
    ensures ActionAfter(cfg, h, p) == Drain <==>
              cfg.role == Peer && Alive(cfg, h) && Battery(p) && BatteryRun(h) + 1 == cfg.confirmOB
    ensures ActionAfter(cfg, h, p) == Undrain <==>
              cfg.role == Peer && Alive(cfg, h) && Mains(p) && BatteryRun(h) >= cfg.confirmOB
    ensures EventAfter(cfg, h, p) == OnBatteryEvent <==>
              Alive(cfg, h) && Battery(p) && BatteryRun(h) + 1 == cfg.confirmOB
    ensures EventAfter(cfg, h, p) == BackOnMains <==> Alive(cfg, h) && Mains(p) && BatteryRun(h) > 0
    ensures EventAfter(cfg, h, p) == LowBatteryEvent <==> Alive(cfg, h) && Low(p)
    ensures EventAfter(cfg, h, p) == Watchdog <==> Alive(cfg, h) && !p.ok && Fires(cfg, h, p)
  {
    hide Classify, Alive, BatteryRun, LastSeen, ActionAfter, EventAfter;
    if !Alive(cfg, h) {
      AfterShutdown(cfg, h, p);
    } else if !p.ok {
      AfterFailed(cfg, h, p);
    } else if Low(p) {
      AfterLow(cfg, h, p);
    } else if Battery(p) {
      AfterBattery(cfg, h, p);
    } else {
      AfterMains(cfg, h, p);
    }
  }

  /** The event of a probe, by the words in it; both roles report the same. */
  lemma EventExactlyAt(cfg: Policy, h: History, i: nat)
    requires i < |h|
    ensures var ev, quiet := EventAfter(cfg, h[..i], h[i]), Undisturbed(cfg, h, i);
            var count := |BatterySince(h[..i])|;
            && (ev == LowBatteryEvent <==> quiet && Says(h[i], "LB"))
            && (ev == Watchdog <==> quiet && SilenceAt(cfg, h, i))
            && (ev == OnBatteryEvent <==> quiet && Says(h[i], "OB") && !Says(h[i], "LB") && count + 1 == cfg.confirmOB)
            && (ev == BackOnMains <==> quiet && h[i].ok && !Says(h[i], "OB") && !Says(h[i], "LB") && count > 0)
  {
    hide Says, Undisturbed, Alive, BatteryRun, BatterySince, LastSeen, EventAfter, Low;
    ProbeKinds(h[i]);
    AliveMeansUndisturbed(cfg, h, i);
    BatteryRunCountsProbes(h[..i]);
    KindDecides(cfg, h[..i], h[i]);
    FiresMeansLowOrSilent(cfg, h, i);
  }

  /** After a Shutdown decision every decision is NoAction, so there is at most one. */
  lemma NothingAfterShutdown(cfg: Config, h: History, i: nat, j: nat)
    requires i < j < |h| && ActionAt(cfg, h, i) == Shutdown
    ensures ActionAt(cfg, h, j) == NoAction
  {
    assert h[..j][..i] == h[..i];
    assert Fires(cfg, h[..j][..i], h[..j][i]);
  }

  /** With probes at most gap apart, silence after a status at time t shuts the machine down
      no later than t + silentSecs + gap, and not before t + silentSecs. */
  lemma {:induction false} SilenceShutsDownInTime(cfg: Policy, h: History, k: nat, gap: int)
      returns (i: nat)
    requires k < |h| && h[k].ok && h[k].now >= 0 && Alive(cfg, h[..k + 1])
    requires forall j :: k < j < |h| ==> !h[j].ok
    requires forall j :: k < j < |h| ==> h[j - 1].now <= h[j].now <= h[j - 1].now + gap
    requires Last(h).now >= h[k].now + cfg.silentSecs
    ensures k < i < |h| && ActionAt(cfg, h, i) == Shutdown
    ensures h[k].now + cfg.silentSecs <= h[i].now <= h[k].now + cfg.silentSecs + gap
  {
    i := k + 1;
    while h[i].now < h[k].now + cfg.silentSecs
      invariant k < i < |h|
      invariant forall j :: k < j < i ==> h[j].now < h[k].now + cfg.silentSecs
      decreases |h| - i
    {
      i := i + 1;
    }
    assert h[i - 1].now < h[k].now + cfg.silentSecs;
    assert SilentSince(cfg, h, k, i);
    forall j | 0 <= j < i ensures !Says(h[j], "LB") && !SilenceAt(cfg, h, j) {
      ProbeKinds(h[j]);
      FiresMeansLowOrSilent(cfg, h, j);
      if j <= k {
        assert h[..k + 1][..j] == h[..j];
        assert !Fires(cfg, h[..k + 1][..j], h[..k + 1][j]);
      } else {
        assert forall m: nat :: m < j && SilentSince(cfg, h, m, j) ==> m == k;
      }
    }
    ShutdownExactlyAtFirst(cfg, h, i);
  }

  // ------------------------------------------------- during a drain

  predicate Stops(a: Action) {
    a == Shutdown || a == Undrain
  }

  /** No probe from index `from` on decided anything or saw mains. */
  ghost predicate QuietFrom(cfg: Config, h: History, from: nat) {
    forall i :: from <= i < |h| ==> ActionAt(cfg, h, i) == NoAction && !Mains(h[i])
  }

  /** The history grew from h by probes that decided nothing, except the last, which decided a. */
  ghost predicate StoppedBy(cfg: Config, h: History, from: nat, a: Action) {
    && from < |h| && QuietFrom(cfg, Before(h), from)
    && ActionAt(cfg, h, |h| - 1) == a && Stops(a)
    && (a == Undrain ==> Mains(Last(h)))
  }

  lemma DrainingStep(cfg: Config, h: History, p: Probe, from: nat)
    requires cfg.role == Peer && Alive(cfg, h) && Confirmed(cfg, h) && cfg.confirmOB > 0
    requires from <= |h| && QuietFrom(cfg, h, from)
    ensures var a := ActionAfter(cfg, h, p);
            if Stops(a) then StoppedBy(cfg, h + [p], from, a)
            else a == NoAction && Alive(cfg, h + [p]) && Confirmed(cfg, h + [p]) && QuietFrom(cfg, h + [p], from)
  {
    var g, a := h + [p], ActionAfter(cfg, h, p);
    HistoryAppend(h, p);
    AliveAppend(cfg, h, p);
    assert Confirmed(cfg, g) <==> !Mains(p);
    assert ActionAt(cfg, g, |h|) == a by { assert g[..|h|] == h; }
    if a == NoAction {
      forall i | from <= i < |g| ensures ActionAt(cfg, g, i) == NoAction && !Mains(g[i]) {
        if i < |h| {
          assert g[..i] == h[..i] && ActionAt(cfg, h, i) == NoAction && !Mains(h[i]);
        }
      }
    }
  }

  /** A Drain decision leaves the machine in the draining state. */
  lemma DrainDecisionStarts(cfg: Config, h: History)
    requires h != [] && ActionAfter(cfg, Before(h), Last(h)) == Drain
    ensures cfg.role == Peer && Alive(cfg, h) && Confirmed(cfg, h)
    ensures QuietFrom(cfg, h, |h|)
  {
    assert h == Before(h) + [Last(h)];
    AliveAppend(cfg, Before(h), Last(h));
  }
}
