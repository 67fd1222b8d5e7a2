/** One cycle of the overlay doctor: gather from every node, build the truth table, plan and apply,
    behind an all-or-nothing gate. */
module Cycle {
  import opened Text
  import opened Truth
  import opened Plan

  datatype Endpoint = Endpoint(addr: string, mac: string)

  /** What one ssh round trip found: whether every remote command succeeded, the matching sandboxes,
      the live endpoints and the forwarding table. */
  datatype Report = Report(reached: bool, sandboxes: seq<string>, endpoints: seq<Endpoint>, rows: seq<Row>)

  datatype Gather = Failed | NoSandbox | Gathered(endpoints: seq<Endpoint>, rows: seq<Row>)

  function GatherNode(r: Report): Gather {
    if !r.reached then Failed
    else if |r.sandboxes| == 0 && r.endpoints == [] then NoSandbox
    else if |r.sandboxes| != 1 then Failed
    else Gathered(r.endpoints, r.rows)
  }

  /** The endpoint MACs docker derives from addresses, claimed for the node. */
  function ClaimsOf(ip: string, es: seq<Endpoint>): seq<Claim> {
    if es == [] then []
    else
      ClaimsOf(ip, es[..|es| - 1])
      + if HasPrefix(es[|es| - 1].mac, "02:42:") then [Claim(es[|es| - 1].mac, ip)] else []
  }

  function NodeClaims(ip: string, g: Gather): seq<Claim> {
    if g.Gathered? then ClaimsOf(ip, g.endpoints) else []
  }

  function AllClaims(nodes: seq<string>, reports: seq<Report>): seq<Claim>
    requires |nodes| == |reports|
  {
    if nodes == [] then []
    else
      var n := |nodes| - 1;
      AllClaims(nodes[..n], reports[..n]) + NodeClaims(nodes[n], GatherNode(reports[n]))
  }

  /** awk's two fields of every truth line. */
  function TruthPairs(lines: seq<string>): (r: seq<Pair>)
    ensures |r| == |lines|
  {
    seq(|lines|, i requires 0 <= i < |lines| => (Key(lines[i]), Rest(lines[i])))
  }

  function Rest(line: string): string {
    var k := IndexOf(line, ' ');
    if k < |line| then line[k + 1..] else ""
  }

  predicate AllGathered(reports: seq<Report>) {
    forall r :: r in reports ==> GatherNode(r) != Failed
  }

  function FinalTruth(nodes: seq<string>, reports: seq<Report>): seq<string>
    requires |nodes| == |reports|
  {
    TruthFinal(Lines(AllClaims(nodes, reports)))
  }

  /** The cycle may write: every node answered and the table is large enough. */
  predicate GateOpen(nodes: seq<string>, reports: seq<Report>, minEndpoints: nat)
    requires |nodes| == |reports|
  {
    AllGathered(reports) && |FinalTruth(nodes, reports)| >= minEndpoints
  }

  /** ssh reached the node and all its commands succeeded, and it runs one matching sandbox, or none and no
      endpoint either. */
  predicate Answered(r: Report) {
    r.reached && (|r.sandboxes| == 1 || (r.sandboxes == [] && r.endpoints == []))
  }

  lemma GatherMeans(r: Report)
    ensures GatherNode(r) != Failed <==> Answered(r)
    ensures GatherNode(r).Gathered? <==> r.reached && |r.sandboxes| == 1
    ensures GatherNode(r).Gathered? ==> GatherNode(r) == Gathered(r.endpoints, r.rows)
  {
  }

  lemma AllGatheredMeans(reports: seq<Report>)
    ensures AllGathered(reports) <==> forall r :: r in reports ==> Answered(r)
  {
    hide GatherNode, Answered;
    forall r ensures GatherNode(r) != Failed <==> Answered(r) {
      GatherMeans(r);
    }
  }

  lemma ClaimsOfNobody()
    ensures AllClaims([], []) == [] && AllGathered([])
  {
  }

  /** One more report adds its node's claims, and one more node that must have answered. */
  lemma ClaimsStep(nodes: seq<string>, reports: seq<Report>, i: nat)
    requires |nodes| == |reports| && i < |nodes|
    ensures AllClaims(nodes[..i + 1], reports[..i + 1]) ==
            AllClaims(nodes[..i], reports[..i]) + NodeClaims(nodes[i], GatherNode(reports[i]))
    ensures AllGathered(reports[..i + 1]) <==> AllGathered(reports[..i]) && GatherNode(reports[i]) != Failed
  {
    hide GatherNode, NodeClaims;
    assert nodes[..i + 1][..i] == nodes[..i] && reports[..i + 1][..i] == reports[..i];
    assert reports[..i + 1] == reports[..i] + [reports[i]];
  }

  lemma {:induction false} ClaimsOfMeans(ip: string, es: seq<Endpoint>, c: Claim)
    ensures c in ClaimsOf(ip, es) <==> exists e :: e in es && e.mac == c.mac && "02:42:" <= e.mac && c.ip == ip
  {
    if es != [] {
      var n := |es| - 1;
      assert es == es[..n] + [es[n]];
      ClaimsOfMeans(ip, es[..n], c);
    }
  }

  /** The report has a live endpoint with this MAC, of the kind that docker derives from addresses. */
  ghost predicate Runs(r: Report, mac: string) {
    r.reached && |r.sandboxes| == 1 && "02:42:" <= mac && exists e :: e in r.endpoints && e.mac == mac
  }

  lemma NodeClaimsMean(ip: string, r: Report, c: Claim)
    ensures c in NodeClaims(ip, GatherNode(r)) <==> c.ip == ip && Runs(r, c.mac)
  {
    hide ClaimsOf;
    ClaimsOfMeans(ip, r.endpoints, c);
  }

  /** The claims are exactly: node i runs an endpoint with this MAC. */
  lemma {:induction false} AllClaimsMean(nodes: seq<string>, reports: seq<Report>, c: Claim)
    requires |nodes| == |reports|
    ensures c in AllClaims(nodes, reports) <==> exists i :: 0 <= i < |nodes| && nodes[i] == c.ip && Runs(reports[i], c.mac)
  {
    hide GatherNode, NodeClaims, Runs;
    if nodes != [] {
      var n := |nodes| - 1;
      AllClaimsMean(nodes[..n], reports[..n], c);
      NodeClaimsMean(nodes[n], reports[n], c);
      if i :| 0 <= i < |nodes| && nodes[i] == c.ip && Runs(reports[i], c.mac) {
        assert i < n ==> nodes[..n][i] == c.ip && Runs(reports[..n][i], c.mac);
      }
      if i :| 0 <= i < |nodes[..n]| && nodes[..n][i] == c.ip && Runs(reports[..n][i], c.mac) {
        assert nodes[i] == c.ip && Runs(reports[i], c.mac);
      }
    }
  }

  /** The MACs that exactly one node claims. */
  ghost function UncontestedMacs(cs: seq<Claim>): set<string> {
    set c | c in cs && !Contested(cs, c.mac) :: c.mac
  }

  /** The table has one line for each of them. */
  lemma TableSize(cs: seq<Claim>, n: nat)
    requires AllWellFormed(cs, n)
    ensures |TruthFinal(Lines(cs))| == |UncontestedMacs(cs)|
  {
    hide TruthFinal, Key, Contested;
    var lines := TruthFinal(Lines(cs));
    var keys := Keys(lines);
    TruthIsUncontested(cs, n);
    TruthIsAFunction(cs, n);
    forall m ensures m in keys <==> m in UncontestedMacs(cs) {
      if m in keys {
        var i :| 0 <= i < |keys| && keys[i] == m;
        assert lines[i] in lines;
        var c :| c in cs && Line(c) == lines[i];
        LineParts(c, n);
        assert WellFormed(c, n);
      }
      if m in UncontestedMacs(cs) {
        var c :| c in cs && !Contested(cs, c.mac) && c.mac == m;
        assert WellFormed(c, n) && Line(c) in lines;
        var i :| 0 <= i < |lines| && lines[i] == Line(c);
        LineParts(c, n);
        assert keys[i] == m;
      }
    }
    ListOfDistinct(keys, UncontestedMacs(cs));
  }

  /** The gate in the reports' own terms: every node has answered, and at least the minimum of MACs is
      claimed by exactly one node each. */
  lemma GateMeans(nodes: seq<string>, reports: seq<Report>, minEndpoints: nat, n: nat)
    requires |nodes| == |reports| && AllWellFormed(AllClaims(nodes, reports), n)
    ensures GateOpen(nodes, reports, minEndpoints) <==>
              && (forall r :: r in reports ==> Answered(r))
              && |UncontestedMacs(AllClaims(nodes, reports))| >= minEndpoints
  {
    hide AllGathered, TruthFinal, UncontestedMacs, AllClaims, Answered;
    AllGatheredMeans(reports);
    TableSize(AllClaims(nodes, reports), n);
  }

  /** The table that a cycle works with. */
  function TableFor(nodes: seq<string>, reports: seq<Report>): Table
    requires |nodes| == |reports|
  {
    TableOf(TruthPairs(FinalTruth(nodes, reports)))
  }

  function Gathers(reports: seq<Report>): (r: seq<Gather>)
    ensures |r| == |reports| && forall i :: 0 <= i < |reports| ==> r[i] == GatherNode(reports[i])
  {
    seq(|reports|, i requires 0 <= i < |reports| => GatherNode(reports[i]))
  }

  /** Every participating node's listing shows its database. */
  ghost predicate AllShown(gathers: seq<Gather>, fs: seq<Fdb>)
    requires |gathers| == |fs|
  {
    forall i :: 0 <= i < |fs| && gathers[i].Gathered? ==> Shows(gathers[i].rows, fs[i])
  }

  /** Every participating node agrees with the table. */
  ghost predicate AllAgree(nodes: seq<string>, gathers: seq<Gather>, truth: Table, fs: seq<Fdb>)
    requires |nodes| == |gathers| == |fs|
  {
    forall i :: 0 <= i < |nodes| && gathers[i].Gathered? ==> Agrees(nodes[i], truth, fs[i])
  }

  /** The same nodes answered, with the same sandboxes and endpoints. */
  predicate SameEndpoints(a: seq<Report>, b: seq<Report>) {
    && |a| == |b|
    && forall i :: 0 <= i < |a| ==>
         a[i].reached == b[i].reached && a[i].sandboxes == b[i].sandboxes && a[i].endpoints == b[i].endpoints
  }

  /** A write that a node was asked to make, by the node's position. */
  type Write = (nat, Op)

  function Tag(i: nat, plan: seq<Op>): (r: seq<Write>)
    ensures |r| == |plan|
  {
    seq(|plan|, k requires 0 <= k < |plan| => (i, plan[k]))
  }

  /** The plans of the nodes, one after the other. */
  function Flatten(plans: seq<seq<Op>>): seq<Write> {
    if plans == [] then []
    else Flatten(plans[..|plans| - 1]) + Tag(|plans| - 1, plans[|plans| - 1])
  }

  /** A write either succeeds, or fails with or without effect. */
  datatype Outcome = Outcome(landed: bool, ok: bool)
  type WriteResult = o: Outcome | o.ok ==> o.landed witness Outcome(false, false)

  /** The plan of one node, as far as it does not depend on the database being shown correctly. */
  ghost predicate PlanFor(plan: seq<Op>, me: string, truth: seq<Pair>, g: Gather) {
    && NoRepeats(plan)
    && (!g.Gathered? ==> plan == [])
    && (truth != [] && me != "" ==> forall op :: op in plan ==> op.mac in TableOf(truth))
    && (g.Gathered? ==> forall f :: truth != [] && me != "" && "" !in TableOf(truth).Values && Shows(g.rows, f)
                              ==> IsPlan(plan, me, TableOf(truth), f))
  }

  /** The writes made so far ran through `all` in order and stopped at the first failure. */
  ghost predicate RanThrough(writes: seq<Write>, all: seq<Write>, results: nat -> WriteResult, ok: bool) {
    && writes <= all
    && (forall k: nat :: k < |writes| - 1 ==> results(k).ok)
    && (ok ==> writes == all && forall k: nat :: k < |writes| ==> results(k).ok)
    && (!ok ==> writes != [] && !results(|writes| - 1).ok)
  }

  /** The writes that took effect: all of them, or all but a last one that failed without effect. */
  function Landed(writes: seq<Write>, results: nat -> WriteResult): (r: seq<Write>)
    ensures r <= writes
  {
    if writes == [] || results(|writes| - 1).landed then writes else writes[..|writes| - 1]
  }

  function Databases(nodes: seq<string>, fdbs: map<string, Fdb>): (r: seq<Fdb>)
    requires forall n :: n in nodes ==> n in fdbs
    ensures |r| == |nodes| && forall i :: 0 <= i < |nodes| ==> r[i] == fdbs[nodes[i]]
  {
    seq(|nodes|, i requires 0 <= i < |nodes| => fdbs[nodes[i]])
  }

  /** How many of a node's first writes have landed, if they end with the last one that was made. */
  function DoneOf(start: nat, done: nat, results: nat -> WriteResult): (d: nat)
    ensures d <= done
  {
    if done > 0 && !results(start + done - 1).landed then done - 1 else done
  }

  /** The databases of machines that are not nodes of the cluster are as before. */
  ghost predicate OthersUntouched(nodes: seq<string>, before: map<string, Fdb>, after: map<string, Fdb>) {
    after.Keys == before.Keys && forall n :: n in before && n !in nodes ==> after[n] == before[n]
  }

  class Overlay {
    const nodes: seq<string>
    var fdbs: map<string, Fdb>
    var beats: nat

    ghost predicate Valid()
      reads this
    {
      forall n :: n in nodes ==> n in fdbs
    }

    constructor (ns: seq<string>, fs: map<string, Fdb>)
      requires forall n :: n in ns ==> n in fs
      ensures Valid() && nodes == ns && fdbs == fs && beats == 0
    {
      nodes, fdbs, beats := ns, fs, 0;
    }

    /** Runs one node's plan until a write fails; a dry run only logs. */
    method ApplyPlan(i: nat, plan: seq<Op>, dryRun: bool, results: nat -> WriteResult, start: nat)
        returns (ok: bool, done: nat)
      requires Valid() && i < |nodes|
      modifies this`fdbs
      ensures Valid() && done <= |plan|
      ensures fdbs == old(fdbs)[nodes[i] := fdbs[nodes[i]]]
      ensures dryRun ==> ok && done == 0 && fdbs == old(fdbs)
      ensures !dryRun && ok ==> done == |plan|
      ensures !dryRun ==> fdbs[nodes[i]] == ApplyAll(old(fdbs[nodes[i]]),
                plan[..DoneOf(start, done, results)])
      ensures forall k: nat :: start <= k < start + done - 1 ==> results(k).ok
      ensures !dryRun && ok ==> forall k: nat :: start <= k < start + done ==> results(k).ok
      ensures !ok ==> done > 0 && !results(start + done - 1).ok
    {
      var n := nodes[i];
      done := 0;
      if dryRun {
        return true, 0;
      }
      while done < |plan|
        invariant done <= |plan| && Valid() && n in fdbs
        invariant fdbs == old(fdbs)[n := ApplyAll(old(fdbs[n]), plan[..done])]
        invariant forall k: nat :: start <= k < start + done ==> results(k).ok
      {
        var r := results(start + done);
        if r.landed {
          fdbs := fdbs[n := Apply(fdbs[n], plan[done])];
        }
        assert plan[..done + 1][..done] == plan[..done];
        done := done + 1;
        if !r.ok {
          return false, done;
        }
      }
      assert plan[..|plan|] == plan;
      return true, done;
    }

    /** The first loop: who answered, and every claim. */
    method GatherAll(reports: seq<Report>) returns (all: seq<Claim>, seen: nat)
      requires |reports| == |nodes|
      ensures all == AllClaims(nodes, reports) || seen != |nodes|
      ensures seen == |nodes| <==> forall r :: r in reports ==> Answered(r)
    {
      hide Answered, GatherNode, AllGathered, AllClaims, NodeClaims;
      all, seen := [], 0;
      ClaimsOfNobody();
      for i := 0 to |nodes|
        invariant all == AllClaims(nodes[..i], reports[..i]) || seen < i
        invariant seen <= i && (seen == i <==> AllGathered(reports[..i]))
      {
        ClaimsStep(nodes, reports, i);
        var g := GatherNode(reports[i]);
        if g != Failed {
          seen := seen + 1;
          all := all + NodeClaims(nodes[i], g);
        }
      }
      assert nodes[..|nodes|] == nodes && reports[..|nodes|] == reports;
      AllGatheredMeans(reports);
    }

    /** The second loop: plan and apply, node by node. */
    method RunPlans(reports: seq<Report>, truth: seq<Pair>, dryRun: bool, results: nat -> WriteResult)
        returns (ok: bool, plans: seq<seq<Op>>, writes: seq<Write>)
      requires Valid() && |reports| == |nodes|
      modifies this`fdbs
      ensures Valid() && |plans| <= |nodes| && OthersUntouched(nodes, old(fdbs), fdbs)
      ensures forall i :: 0 <= i < |plans| ==> PlanFor(plans[i], nodes[i], truth, GatherNode(reports[i]))
      ensures !dryRun ==> RanThrough(writes, Flatten(plans), results, ok)
      ensures dryRun ==> ok && writes == [] && fdbs == old(fdbs)
      ensures ok ==> |plans| == |nodes|
      ensures !dryRun && NoRepeats(nodes) ==>
                Databases(nodes, fdbs) == ApplyWrites(Databases(nodes, old(fdbs)), Landed(writes, results))
    {
      hide PlanFor, ApplyAll, Flatten, ApplyWrites, NoRepeats, Landed, Tag, Databases;
      plans, writes := [], [];
      assert Flatten([]) == [] by { FlattenNothing(); }
      ghost var was := Databases(nodes, fdbs);
      assert ApplyWrites(was, []) == was by { WriteNothing(was); }
      for i := 0 to |nodes|
        invariant Valid() && |plans| == i && OthersUntouched(nodes, old(fdbs), fdbs)
        invariant forall j :: 0 <= j < i ==> PlanFor(plans[j], nodes[j], truth, GatherNode(reports[j]))
        invariant !dryRun ==> writes == Flatten(plans) && forall k: nat :: k < |writes| ==> results(k).ok
        invariant dryRun ==> writes == [] && fdbs == old(fdbs)
        invariant !dryRun && NoRepeats(nodes) ==> Databases(nodes, fdbs) == ApplyWrites(was, writes)
      {
        var plan := PlanNode(i, reports[i], truth);
        FlattenStep(plans, plan);
        ghost var before := fdbs;
        var fine, done := ApplyPlan(i, plan, dryRun, results, |writes|);
        if !dryRun && NoRepeats(nodes) {
          NodeWritten(nodes, was, before, fdbs, writes, i, plan, done, results);
        }
        plans := plans + [plan];
        writes := writes + Tag(i, plan)[..done];
        if !fine {
          return false, plans, writes;
        }
        assert Tag(i, plan)[..|plan|] == Tag(i, plan);
        assert !dryRun && NoRepeats(nodes) ==> Landed(writes, results) == writes by {
          if !dryRun { AllLanded(writes, results); }
        }
      }
      ok := true;
      assert !dryRun ==> Landed(writes, results) == writes by {
        if !dryRun { AllLanded(writes, results); }
      }
    }

    method PlanNode(i: nat, report: Report, truth: seq<Pair>) returns (plan: seq<Op>)
      requires i < |nodes|
      ensures PlanFor(plan, nodes[i], truth, GatherNode(report))
    {
      var g := GatherNode(report);
      plan := [];
      if g.Gathered? {
        plan := NodePlan(nodes[i], truth, g.rows);
      }
    }

    method Cycle(reports: seq<Report>, minEndpoints: nat, dryRun: bool, results: nat -> WriteResult)
        returns (ok: bool, plans: seq<seq<Op>>, writes: seq<Write>)
      requires Valid() && |reports| == |nodes|
      modifies this
      ensures Valid() && OthersUntouched(nodes, old(fdbs), fdbs)
      // nothing happens unless every node has answered, or otherwise behind a closed gate
      ensures ok || plans != [] || writes != [] || fdbs != old(fdbs) ==> forall r :: r in reports ==> Answered(r)
      ensures !GateOpen(nodes, reports, minEndpoints) ==>
                !ok && plans == [] && writes == [] && fdbs == old(fdbs)
      // the writes are a prefix of the plans in node order, ended by the first failure
      ensures |plans| <= |nodes| && forall i :: 0 <= i < |plans| ==>
                PlanFor(plans[i], nodes[i], TruthPairs(FinalTruth(nodes, reports)), GatherNode(reports[i]))
      ensures GateOpen(nodes, reports, minEndpoints) && !dryRun ==> RanThrough(writes, Flatten(plans), results, ok)
      ensures writes <= Flatten(plans) && forall k: nat :: k + 1 < |writes| ==> results(k).ok
      ensures !dryRun && ok ==> writes == Flatten(plans) && forall k: nat :: k < |writes| ==> results(k).ok
      ensures dryRun ==> writes == [] && fdbs == old(fdbs) && (ok <==> GateOpen(nodes, reports, minEndpoints))
      ensures ok ==> |plans| == |nodes|
      // the heartbeat
      ensures beats == old(beats) + if ok then 1 else 0
      // what happened to the databases, however the cycle ended
      ensures NoRepeats(nodes) ==>
                Databases(nodes, fdbs) == ApplyWrites(Databases(nodes, old(fdbs)), Landed(writes, results))
      // a complete cycle repairs every participating node, and one that finds nothing wrong writes nothing
      ensures Ordinary(nodes, minEndpoints) && AllShown(Gathers(reports), Databases(nodes, old(fdbs))) ==>
                && (ok && !dryRun ==>
                      && AllAgree(nodes, Gathers(reports), TableFor(nodes, reports), Databases(nodes, fdbs))
                      && (Addressed(Databases(nodes, old(fdbs)), |nodes|) ==> Addressed(Databases(nodes, fdbs), |nodes|)))
                && (GateOpen(nodes, reports, minEndpoints)
                    && AllAgree(nodes, Gathers(reports), TableFor(nodes, reports), Databases(nodes, old(fdbs))) ==>
                      ok && Flatten(plans) == [] && writes == [] && fdbs == old(fdbs))
                // every write that landed settles one disagreement, and a complete cycle makes one for each
                && TotalDisagreements(nodes, Gathers(reports), TableFor(nodes, reports), Databases(nodes, fdbs))
                   + |Landed(writes, results)|
                   == TotalDisagreements(nodes, Gathers(reports), TableFor(nodes, reports), Databases(nodes, old(fdbs)))
                && (ok ==> |Flatten(plans)|
                           == TotalDisagreements(nodes, Gathers(reports), TableFor(nodes, reports),
                                                 Databases(nodes, old(fdbs))))
                && (ok && !dryRun ==> |writes| == |Flatten(plans)|)
    {
      hide PlanFor, ApplyAll, Flatten, AllGathered, TruthFinal, RanThrough, ApplyWrites, OthersUntouched, Databases, Landed,
        AllShown, AllAgree, TruthPairs, TableFor, Gathers, Addressed,
        TotalDisagreements, Answered;
      AllGatheredMeans(reports);
      plans, writes, ok := [], [], false;
      ghost var was := Databases(nodes, fdbs);
      assert Landed([], results) == [] && ApplyWrites(was, []) == was && OthersUntouched(nodes, fdbs, fdbs) by {
        NothingWritten(nodes, fdbs, results);
      }
      var all, seen := GatherAll(reports);
      if seen != |nodes| {
        return;
      }
      var final := TruthFinal(Lines(all));
      if |final| < minEndpoints {
        return;
      }
      ok, plans, writes := RunPlans(reports, TruthPairs(final), dryRun, results);
      if !dryRun {
        RanInOrder(writes, Flatten(plans), results, ok);
      }
      if Ordinary(nodes, minEndpoints) && AllShown(Gathers(reports), was) {
        if !dryRun {
          CycleOutcome(nodes, reports, minEndpoints, was, old(fdbs), fdbs, plans, writes, results, ok);
        } else {
          DryOutcome(nodes, reports, minEndpoints, was, plans);
        }
      }
      if ok {
        beats := beats + 1;
      }
    }

    /** Two cycles in a row with the same endpoints: if the first completes, so does the second, without a
        write, and every participating node agrees with the table. `look` is what gathering reports of
        the nodes' databases. */
    method CycleTwice(look: seq<Fdb> -> seq<Report>, minEndpoints: nat,
                      first: nat -> WriteResult, second: nat -> WriteResult)
        returns (ok: bool, again: bool, writes: seq<Write>, more: seq<Write>)
      requires Valid() && Ordinary(nodes, minEndpoints)
      requires Observes(look, |nodes|) && Addressed(Databases(nodes, fdbs), |nodes|)
      modifies this
      ensures Valid()
      ensures ok ==> again && more == []
      ensures ok ==> Databases(nodes, fdbs) == ApplyWrites(Databases(nodes, old(fdbs)), writes)
      ensures ok ==> Addressed(Databases(nodes, fdbs), |nodes|)
      ensures ok ==> var reports := look(Databases(nodes, fdbs));
                     AllAgree(nodes, Gathers(reports), TableFor(nodes, reports), Databases(nodes, fdbs))
    {
      hide PlanFor, ApplyAll, Flatten, AllGathered, RanThrough, ApplyWrites, OthersUntouched, AllShown, AllAgree,
        TableFor, Gathers, GateOpen, SameEndpoints, Databases, Addressed;
      var plans;
      again, more := false, [];
      ghost var was := Databases(nodes, fdbs);
      var reports := look(Databases(nodes, fdbs));
      ok, plans, writes := Cycle(reports, minEndpoints, false, first);
      if ok {
        assert Landed(writes, first) == writes by { OkMeansLanded(plans, writes, first); }
        var later := look(Databases(nodes, fdbs));
        SameTable(nodes, reports, later, minEndpoints);
        AgreementCarriesOver(nodes, reports, later, TableFor(nodes, reports), Databases(nodes, fdbs));
        again, plans, more := Cycle(later, minEndpoints, false, second);
      }
    }
  }

  /** At least one endpoint is asked for, and the nodes are distinct and named. */
  ghost predicate Ordinary(nodes: seq<string>, minEndpoints: nat) {
    minEndpoints >= 1 && "" !in nodes && NoRepeats(nodes)
  }

  /** Databases of n nodes in which every destination is an address. */
  ghost predicate Addressed(fs: seq<Fdb>, n: nat) {
    |fs| == n && forall f :: f in fs ==> "" !in f.dst.Values
  }

  /** The reports show the databases, and their endpoints do not depend on them. */
  ghost predicate Observes(look: seq<Fdb> -> seq<Report>, n: nat) {
    && (forall fs :: Addressed(fs, n) ==> |look(fs)| == n && AllShown(Gathers(look(fs)), fs))
    && (forall fs, gs :: Addressed(fs, n) && Addressed(gs, n) ==> SameEndpoints(look(fs), look(gs)))
  }

  lemma RanInOrder(writes: seq<Write>, all: seq<Write>, results: nat -> WriteResult, ok: bool)
    requires RanThrough(writes, all, results, ok)
    ensures writes <= all && forall k: nat :: k + 1 < |writes| ==> results(k).ok
    ensures ok ==> writes == all && forall k: nat :: k < |writes| ==> results(k).ok
  {
  }

  lemma AllLanded(writes: seq<Write>, results: nat -> WriteResult)
    requires forall k: nat :: k < |writes| ==> results(k).ok
    ensures Landed(writes, results) == writes
  {
  }

  lemma NothingWritten(nodes: seq<string>, fdbs: map<string, Fdb>, results: nat -> WriteResult)
    requires forall n :: n in nodes ==> n in fdbs
    ensures Landed([], results) == [] && OthersUntouched(nodes, fdbs, fdbs)
    ensures ApplyWrites(Databases(nodes, fdbs), []) == Databases(nodes, fdbs)
  {
  }

  lemma TagStep(ws: seq<Write>, n: nat, plan: seq<Op>)
    requires plan != []
    ensures var all, k := ws + Tag(n, plan), |plan| - 1;
            && all == (ws + Tag(n, plan[..k])) + [(n, plan[k])]
            && all[..|all| - 1] == ws + Tag(n, plan[..k]) && all[|all| - 1] == (n, plan[k])
  {
    assert Tag(n, plan) == Tag(n, plan[..|plan| - 1]) + [(n, plan[|plan| - 1])];
  }

  lemma LandedOfPlan(writes: seq<Write>, i: nat, plan: seq<Op>, done: nat, results: nat -> WriteResult)
    requires done <= |plan| && forall k: nat :: k < |writes| ==> results(k).ok
    ensures Landed(writes + Tag(i, plan)[..done], results) == writes + Tag(i, plan[..DoneOf(|writes|, done, results)])
  {
    var d := DoneOf(|writes|, done, results);
    var tagged := Tag(i, plan);
    assert Tag(i, plan[..d]) == tagged[..d];
    LandedOf(writes, tagged[..done], results);
    assert done > 0 ==> tagged[..done][..done - 1] == tagged[..done - 1];
  }

  lemma LandedOf(ws: seq<Write>, more: seq<Write>, results: nat -> WriteResult)
    requires forall k: nat :: k < |ws| ==> results(k).ok
    ensures Landed(ws + more, results) ==
            if more != [] && !results(|ws| + |more| - 1).landed then ws + more[..|more| - 1] else ws + more
  {
    if more == [] {
      assert ws + more == ws;
    } else {
      assert (ws + more)[..|ws| + |more| - 1] == ws + more[..|more| - 1];
    }
  }

  lemma OneDatabase(nodes: seq<string>, before: map<string, Fdb>, i: nat, f: Fdb)
    requires NoRepeats(nodes) && i < |nodes| && forall n :: n in nodes ==> n in before
    ensures Databases(nodes, before[nodes[i] := f]) == Databases(nodes, before)[i := f]
  {
  }

  /** What ApplyPlan has done to one node's database, seen from the whole cluster. */
  lemma NodeWritten(nodes: seq<string>, was: seq<Fdb>, before: map<string, Fdb>, after: map<string, Fdb>,
                    writes: seq<Write>, i: nat, plan: seq<Op>, done: nat, results: nat -> WriteResult)
    requires NoRepeats(nodes) && i < |nodes| && done <= |plan| && forall n :: n in nodes ==> n in before
    requires after == before[nodes[i] := ApplyAll(before[nodes[i]], plan[..DoneOf(|writes|, done, results)])]
    requires |was| == |nodes| && Databases(nodes, before) == ApplyWrites(was, writes)
    requires forall k: nat :: k < |writes| ==> results(k).ok
    ensures Databases(nodes, after) == ApplyWrites(was, Landed(writes + Tag(i, plan)[..done], results))
  {
    hide ApplyAll, ApplyWrites, Databases, NoRepeats, Landed, DoneOf, Tag;
    var d := DoneOf(|writes|, done, results);
    WriteForNode(was, writes, i, plan[..d]);
    OneDatabase(nodes, before, i, ApplyAll(before[nodes[i]], plan[..d]));
    LandedOfPlan(writes, i, plan, done, results);
  }

  // ---------------------------------------------------------------- what a cycle achieves

  lemma OkMeansLanded(plans: seq<seq<Op>>, writes: seq<Write>, results: nat -> WriteResult)
    requires RanThrough(writes, Flatten(plans), results, true)
    ensures Landed(writes, results) == writes == Flatten(plans)
  {
    AllLanded(writes, results);
  }

  lemma WriteNothing(fs: seq<Fdb>)
    ensures ApplyWrites(fs, []) == fs
  {
  }

  /** Writes for one node, made after others, change that node only. */
  lemma {:induction false} WriteForNode(fs: seq<Fdb>, ws: seq<Write>, i: nat, ops: seq<Op>)
    requires i < |fs|
    ensures var g := ApplyWrites(fs, ws);
            ApplyWrites(fs, ws + Tag(i, ops)) == g[i := ApplyAll(g[i], ops)]
  {
    if ops == [] {
      assert ws + Tag(i, ops) == ws;
    } else {
      hide Tag;
      WriteForNode(fs, ws, i, ops[..|ops| - 1]);
      TagStep(ws, i, ops);
    }
  }

  lemma FlattenNothing()
    ensures Flatten([]) == []
  {
  }

  lemma FlattenStep(plans: seq<seq<Op>>, plan: seq<Op>)
    ensures Flatten(plans + [plan]) == Flatten(plans) + Tag(|plans|, plan)
  {
    assert (plans + [plan])[..|plans|] == plans;
  }

  // ---------------------------------------------------------------- what the table means

  lemma {:induction false} TableHas(lines: seq<string>, i: nat)
    requires i < |lines| && NoRepeats(Keys(lines))
    ensures Key(lines[i]) in TableOf(TruthPairs(lines)) && TableOf(TruthPairs(lines))[Key(lines[i])] == Rest(lines[i])
  {
    var n := |lines| - 1;
    assert TruthPairs(lines)[..n] == TruthPairs(lines[..n]);
    if i < n {
      assert Keys(lines[..n]) == Keys(lines)[..n];
      TableHas(lines[..n], i);
      assert Keys(lines)[i] != Keys(lines)[n];
    }
  }

  lemma {:induction false} TableHasOnly(lines: seq<string>, m: string) returns (i: nat)
    requires m in TableOf(TruthPairs(lines))
    ensures i < |lines| && Key(lines[i]) == m && Rest(lines[i]) == TableOf(TruthPairs(lines))[m]
  {
    var n := |lines| - 1;
    assert TruthPairs(lines)[..n] == TruthPairs(lines[..n]);
    if Key(lines[n]) == m {
      i := n;
    } else {
      i := TableHasOnly(lines[..n], m);
    }
  }

  /** The table maps a MAC to a node exactly when that node claims it and no other node does. */
  lemma {:induction false} TableIsUncontestedClaims(cs: seq<Claim>, n: nat, mac: string, ip: string)
    requires AllWellFormed(cs, n) && ':' !in ip
    ensures var t := TableOf(TruthPairs(TruthFinal(Lines(cs))));
            mac in t && t[mac] == ip <==> Claim(mac, ip) in cs && !Contested(cs, mac)
  {
    var lines := TruthFinal(Lines(cs));
    var t := TableOf(TruthPairs(lines));
    TruthIsUncontested(cs, n);
    TruthIsAFunction(cs, n);
    if mac in t && t[mac] == ip {
      var i := TableHasOnly(lines, mac);
      TableHas(lines, i);
      assert lines[i] in lines;
      var c :| c in cs && Line(c) == lines[i];
      ClaimOfLine(c, n);
    }
    if Claim(mac, ip) in cs && !Contested(cs, mac) {
      var c := Claim(mac, ip);
      assert Line(c) in lines;
      var i :| 0 <= i < |lines| && lines[i] == Line(c);
      TableHas(lines, i);
      ClaimOfLine(c, n);
    }
  }

  lemma ClaimOfLine(c: Claim, n: nat)
    requires WellFormed(c, n)
    ensures Key(Line(c)) == c.mac && Rest(Line(c)) == c.ip
  {
    LineParts(c, n);
    assert IndexOf(Line(c), ' ') == n by { IndexOfFirst(Line(c), ' ', n); }
  }

  /** A MAC that two nodes claim is never written, nor is one that no node claims, as long as the
      minimum is at least one. */
  lemma {:induction false} OnlyUncontestedMacsAreWritten(nodes: seq<string>, reports: seq<Report>, minEndpoints: nat,
                                      plan: seq<Op>, i: nat, op: Op, n: nat)
    requires |nodes| == |reports| && i < |nodes| && nodes[i] != ""
    requires GateOpen(nodes, reports, minEndpoints) && minEndpoints >= 1
    requires PlanFor(plan, nodes[i], TruthPairs(FinalTruth(nodes, reports)), GatherNode(reports[i])) && op in plan
    requires AllWellFormed(AllClaims(nodes, reports), n)
    ensures !Contested(AllClaims(nodes, reports), op.mac)
    ensures exists c :: c in AllClaims(nodes, reports) && c.mac == op.mac
  {
    var cs := AllClaims(nodes, reports);
    var lines := TruthFinal(Lines(cs));
    assert |TruthPairs(lines)| == |lines| >= 1;
    assert op.mac in TableOf(TruthPairs(lines));
    var k := TableHasOnly(lines, op.mac);
    TruthIsUncontested(cs, n);
    assert lines[k] in lines;
    var c :| c in cs && Line(c) == lines[k];
    ClaimOfLine(c, n);
    assert WellFormed(c, n);
  }

  // ---------------------------------------------------------------- the whole cluster

  /** The writes for one node, in order. */
  function ForNode(ws: seq<Write>, i: nat): seq<Op> {
    if ws == [] then []
    else ForNode(ws[..|ws| - 1], i) + if ws[|ws| - 1].0 == i then [ws[|ws| - 1].1] else []
  }

  function ApplyWrites(fs: seq<Fdb>, ws: seq<Write>): (r: seq<Fdb>)
    ensures |r| == |fs|
  {
    if ws == [] then fs
    else
      var g, w := ApplyWrites(fs, ws[..|ws| - 1]), ws[|ws| - 1];
      if w.0 < |g| then g[w.0 := Apply(g[w.0], w.1)] else g
  }

  /** The disagreements of the participating nodes among the first n. */
  ghost function DisagreementsUpTo(nodes: seq<string>, gathers: seq<Gather>, truth: Table, fs: seq<Fdb>, n: nat): nat
    requires |nodes| == |gathers| == |fs| && n <= |nodes|
  {
    if n == 0 then 0
    else
      DisagreementsUpTo(nodes, gathers, truth, fs, n - 1)
      + if gathers[n - 1].Gathered? then Disagreements(nodes[n - 1], truth, fs[n - 1]) else 0
  }

  /** The disagreements of the cluster; nodes without a sandbox take no part. */
  ghost function TotalDisagreements(nodes: seq<string>, gathers: seq<Gather>, truth: Table, fs: seq<Fdb>): nat
    requires |nodes| == |gathers| == |fs|
  {
    DisagreementsUpTo(nodes, gathers, truth, fs, |nodes|)
  }

  lemma {:induction false} WritesActPerNode(fs: seq<Fdb>, ws: seq<Write>, i: nat)
    requires i < |fs|
    ensures ApplyWrites(fs, ws)[i] == ApplyAll(fs[i], ForNode(ws, i))
  {
    if ws != [] {
      var g := ws[..|ws| - 1];
      WritesActPerNode(fs, g, i);
      var ops := ForNode(g, i);
      assert (ops + [ws[|ws| - 1].1])[..|ops|] == ops;
      assert ops + [] == ops;
    }
  }

  lemma {:induction false} FlattenForNode(plans: seq<seq<Op>>, i: nat)
    ensures ForNode(Flatten(plans), i) == if i < |plans| then plans[i] else []
  {
    if plans != [] {
      var n := |plans| - 1;
      FlattenForNode(plans[..n], i);
      TagForNode(Flatten(plans[..n]), n, plans[n], i);
    }
  }

  lemma {:induction false} TagForNode(ws: seq<Write>, n: nat, plan: seq<Op>, i: nat)
    ensures ForNode(ws + Tag(n, plan), i) == ForNode(ws, i) + if n == i then plan else []
  {
    if plan == [] {
      assert ws + Tag(n, plan) == ws;
    } else {
      hide Tag;
      var k := |plan| - 1;
      TagForNode(ws, n, plan[..k], i);
      TagStep(ws, n, plan);
      assert plan == plan[..k] + [plan[k]];
    }
  }

  /** What a cycle did to one node: its plan, or as much of it as was reached. */
  lemma {:induction false} PlansActPerNode(fs: seq<Fdb>, plans: seq<seq<Op>>, ws: seq<Write>, i: nat)
    requires i < |fs| && ws <= Flatten(plans)
    ensures exists done: seq<Op> :: done <= (if i < |plans| then plans[i] else [])
              && ApplyWrites(fs, ws)[i] == ApplyAll(fs[i], done)
              && (ws == Flatten(plans) && i < |plans| ==> done == plans[i])
  {
    var done := ForNode(ws, i);
    WritesActPerNode(fs, ws, i);
    FlattenForNode(plans, i);
    ForNodePrefix(Flatten(plans), |ws|, i);
    assert Flatten(plans)[..|ws|] == ws;
  }

  lemma {:induction false} ForNodePrefix(ws: seq<Write>, n: nat, i: nat)
    requires n <= |ws|
    ensures ForNode(ws[..n], i) <= ForNode(ws, i)
    decreases |ws|
  {
    if n == |ws| {
      assert ws[..n] == ws;
    } else {
      var g := ws[..|ws| - 1];
      ForNodePrefix(g, n, i);
      assert g[..n] == ws[..n];
    }
  }

  /** However a cycle ends, MACs outside the table are as before on every node: no destination and no
      master row of theirs has changed. */
  lemma {:induction false} OutsideTableUntouched(nodes: seq<string>, gathers: seq<Gather>, truth: seq<Pair>,
      fs: seq<Fdb>, plans: seq<seq<Op>>, ws: seq<Write>, i: nat, m: string)
    requires |nodes| == |fs| == |gathers| && |plans| <= |nodes| && i < |nodes|
    requires forall j :: 0 <= j < |plans| ==> PlanFor(plans[j], nodes[j], truth, gathers[j])
    requires truth != [] && nodes[i] != "" && ws <= Flatten(plans)
    requires m !in TableOf(truth)
    ensures var g := ApplyWrites(fs, ws)[i];
            && (m in g.dst <==> m in fs[i].dst) && (m in fs[i].dst ==> g.dst[m] == fs[i].dst[m])
            && (m in g.master <==> m in fs[i].master)
  {
    hide ApplyAll, ApplyWrites, Flatten, TableOf;
    PlansActPerNode(fs, plans, ws, i);
    var done: seq<Op> :| done <= (if i < |plans| then plans[i] else [])
                         && ApplyWrites(fs, ws)[i] == ApplyAll(fs[i], done);
    forall op | op in done ensures op.mac in TableOf(truth) {
      assert i < |plans| && op in plans[i];
    }
    DstUntouched(fs[i], done, m);
    MasterAfter(fs[i], done, m);
  }

  /** After all writes of a cycle every participating node agrees with the table. */
  lemma {:induction false} ClusterAgrees(nodes: seq<string>, gathers: seq<Gather>, truth: seq<Pair>, fs: seq<Fdb>,
                                         plans: seq<seq<Op>>)
    requires |nodes| == |fs| == |gathers| == |plans|
    requires truth != [] && "" !in nodes && "" !in TableOf(truth).Values && AllShown(gathers, fs)
    requires forall i :: 0 <= i < |plans| ==> PlanFor(plans[i], nodes[i], truth, gathers[i])
    ensures AllAgree(nodes, gathers, TableOf(truth), ApplyWrites(fs, Flatten(plans)))
  {
    hide ApplyAll, ApplyWrites, Flatten, TableOf, PlanFor, Shows, Agrees;
    forall i | 0 <= i < |nodes| && gathers[i].Gathered?
      ensures Agrees(nodes[i], TableOf(truth), ApplyWrites(fs, Flatten(plans))[i])
    {
      WritesActPerNode(fs, Flatten(plans), i);
      FlattenForNode(plans, i);
      PlanRepairsNode(plans[i], nodes[i], truth, gathers[i], fs[i]);
    }
  }

  lemma {:induction false} OpsKeepAddresses(f: Fdb, ops: seq<Op>)
    requires "" !in f.dst.Values && forall op :: op in ops && op.Replace? ==> op.dst != ""
    ensures "" !in ApplyAll(f, ops).dst.Values
  {
    if ops != [] {
      OpsKeepAddresses(f, ops[..|ops| - 1]);
      assert ops[|ops| - 1] in ops;
    }
  }

  lemma PlanHasAddresses(plan: seq<Op>, me: string, truth: seq<Pair>, g: Gather, f: Fdb)
    requires PlanFor(plan, me, truth, g) && g.Gathered? && Shows(g.rows, f)
    requires truth != [] && me != "" && "" !in TableOf(truth).Values
    ensures forall op :: op in plan && op.Replace? ==> op.dst != ""
  {
    hide Shows;
    assert IsPlan(plan, me, TableOf(truth), f);
    forall op | op in plan && op.Replace? ensures op.dst != "" {
      assert Needed(me, TableOf(truth), f, op);
      assert TableOf(truth)[op.mac] in TableOf(truth).Values;
    }
  }

  lemma {:induction false} StaysAddressed(nodes: seq<string>, gathers: seq<Gather>, truth: seq<Pair>, fs: seq<Fdb>,
                                          plans: seq<seq<Op>>)
    requires |nodes| == |fs| == |gathers| == |plans|
    requires truth != [] && "" !in nodes && "" !in TableOf(truth).Values && AllShown(gathers, fs)
    requires forall i :: 0 <= i < |plans| ==> PlanFor(plans[i], nodes[i], truth, gathers[i])
    requires Addressed(fs, |nodes|)
    ensures Addressed(ApplyWrites(fs, Flatten(plans)), |nodes|)
  {
    hide ApplyAll, ApplyWrites, Flatten, TableOf, PlanFor, Shows;
    var after := ApplyWrites(fs, Flatten(plans));
    forall i | 0 <= i < |nodes| ensures "" !in after[i].dst.Values {
      WritesActPerNode(fs, Flatten(plans), i);
      FlattenForNode(plans, i);
      if gathers[i].Gathered? {
        PlanHasAddresses(plans[i], nodes[i], truth, gathers[i], fs[i]);
      } else {
        NoPlanWithoutSandbox(plans[i], nodes[i], truth, gathers[i]);
      }
      OpsKeepAddresses(fs[i], plans[i]);
    }
  }

  /** Where every participating node agrees, nothing is planned on any node. */
  lemma {:induction false} ClusterIdle(nodes: seq<string>, gathers: seq<Gather>, truth: seq<Pair>, fs: seq<Fdb>,
                                       plans: seq<seq<Op>>)
    requires |nodes| == |fs| == |gathers| && |plans| <= |nodes|
    requires truth != [] && "" !in nodes && "" !in TableOf(truth).Values && AllShown(gathers, fs)
    requires forall i :: 0 <= i < |plans| ==> PlanFor(plans[i], nodes[i], truth, gathers[i])
    requires AllAgree(nodes, gathers, TableOf(truth), fs)
    ensures Flatten(plans) == []
  {
    hide ApplyAll, Flatten, TableOf, PlanFor, Shows, Agrees;
    forall i | 0 <= i < |plans| ensures plans[i] == [] {
      if gathers[i].Gathered? {
        PlanIsIdle(plans[i], nodes[i], truth, gathers[i], fs[i]);
      } else {
        NoPlanWithoutSandbox(plans[i], nodes[i], truth, gathers[i]);
      }
    }
    FlattenEmpty(plans);
  }

  lemma {:induction false} ClaimsHaveOwner(ip: string, es: seq<Endpoint>, c: Claim)
    requires c in ClaimsOf(ip, es)
    ensures c.ip == ip
  {
    if c in ClaimsOf(ip, es[..|es| - 1]) {
      ClaimsHaveOwner(ip, es[..|es| - 1], c);
    }
  }

  lemma {:induction false} ClaimsAreOfNodes(nodes: seq<string>, reports: seq<Report>, c: Claim)
    requires |nodes| == |reports| && c in AllClaims(nodes, reports)
    ensures c.ip in nodes
  {
    var n := |nodes| - 1;
    if c in AllClaims(nodes[..n], reports[..n]) {
      ClaimsAreOfNodes(nodes[..n], reports[..n], c);
    } else {
      ClaimsHaveOwner(nodes[n], GatherNode(reports[n]).endpoints, c);
    }
  }

  /** Named nodes give a table without an unnamed owner. */
  lemma {:induction false} OwnersAreNamed(nodes: seq<string>, reports: seq<Report>)
    requires |nodes| == |reports| && "" !in nodes
    ensures "" !in TableFor(nodes, reports).Values
  {
    var cs := AllClaims(nodes, reports);
    var lines := TruthFinal(Lines(cs));
    var t := TableFor(nodes, reports);
    forall m | m in t ensures t[m] != "" {
      var i := TableHasOnly(lines, m);
      TruthFromClaims(cs);
      assert lines[i] in lines;
      var c :| c in cs && Line(c) == lines[i];
      ClaimsAreOfNodes(nodes, reports, c);
      RestIsNamed(c);
    }
  }

  lemma RestIsNamed(c: Claim)
    requires c.ip != ""
    ensures Rest(Line(c)) != ""
  {
    var line := Line(c);
    assert line[|c.mac|] == ' ';
    var k := IndexOf(line, ' ');
    assert forall j :: 0 <= j < k ==> line[j] in line[..k];
  }

  lemma {:induction false} SameClaims(nodes: seq<string>, a: seq<Report>, b: seq<Report>)
    requires |nodes| == |a| && SameEndpoints(a, b)
    ensures AllClaims(nodes, a) == AllClaims(nodes, b)
  {
    if nodes != [] {
      var n := |nodes| - 1;
      SameClaims(nodes[..n], a[..n], b[..n]);
    }
  }

  lemma SameAnswers(a: seq<Report>, b: seq<Report>)
    requires SameEndpoints(a, b) && AllGathered(a)
    ensures AllGathered(b)
  {
    forall r | r in b ensures GatherNode(r) != Failed {
      var i :| 0 <= i < |b| && b[i] == r;
      assert GatherNode(a[i]) != Failed by { assert a[i] in a; }
    }
  }

  /** The table and the gate depend on what answered and on the endpoints only. */
  lemma {:induction false} SameTable(nodes: seq<string>, a: seq<Report>, b: seq<Report>, minEndpoints: nat)
    requires |nodes| == |a| && SameEndpoints(a, b)
    ensures TableFor(nodes, a) == TableFor(nodes, b)
    ensures GateOpen(nodes, a, minEndpoints) <==> GateOpen(nodes, b, minEndpoints)
  {
    hide TruthFinal, TruthPairs, TableOf, AllGathered, AllClaims;
    SameClaims(nodes, a, b);
    if AllGathered(a) {
      SameAnswers(a, b);
    }
    if AllGathered(b) {
      SameAnswers(b, a);
    }
  }

  lemma AgreementCarriesOver(nodes: seq<string>, a: seq<Report>, b: seq<Report>, truth: Table, fs: seq<Fdb>)
    requires |nodes| == |a| == |fs| && SameEndpoints(a, b) && AllAgree(nodes, Gathers(a), truth, fs)
    ensures AllAgree(nodes, Gathers(b), truth, fs)
  {
    hide Agrees;
  }

  /** The table that plans were made from is not empty and has only named owners. */
  lemma TableIsSound(nodes: seq<string>, reports: seq<Report>, minEndpoints: nat)
    requires |nodes| == |reports| && Ordinary(nodes, minEndpoints) && |FinalTruth(nodes, reports)| >= minEndpoints
    ensures var truth := TruthPairs(FinalTruth(nodes, reports));
            truth != [] && TableOf(truth) == TableFor(nodes, reports) && "" !in TableOf(truth).Values
  {
    OwnersAreNamed(nodes, reports);
  }

  lemma {:induction false} CycleOutcome(nodes: seq<string>, reports: seq<Report>, minEndpoints: nat, was: seq<Fdb>,
      before: map<string, Fdb>, after: map<string, Fdb>, plans: seq<seq<Op>>, writes: seq<Write>,
      results: nat -> WriteResult, ok: bool)
    requires |reports| == |nodes| && Ordinary(nodes, minEndpoints) && |FinalTruth(nodes, reports)| >= minEndpoints
    requires (forall n :: n in nodes ==> n in before) && OthersUntouched(nodes, before, after)
    requires was == Databases(nodes, before) && Databases(nodes, after) == ApplyWrites(was, Landed(writes, results))
    requires AllShown(Gathers(reports), was)
    requires |plans| <= |nodes| && (ok ==> |plans| == |nodes|) && RanThrough(writes, Flatten(plans), results, ok)
    requires forall i :: 0 <= i < |plans| ==>
               PlanFor(plans[i], nodes[i], TruthPairs(FinalTruth(nodes, reports)), GatherNode(reports[i]))
    ensures ok ==> AllAgree(nodes, Gathers(reports), TableFor(nodes, reports), Databases(nodes, after))
    ensures ok && Addressed(was, |nodes|) ==> Addressed(Databases(nodes, after), |nodes|)
    ensures AllAgree(nodes, Gathers(reports), TableFor(nodes, reports), was) ==>
              ok && Flatten(plans) == [] && writes == [] && after == before
    ensures var gathers, table := Gathers(reports), TableFor(nodes, reports);
            && TotalDisagreements(nodes, gathers, table, Databases(nodes, after)) + |Landed(writes, results)|
               == TotalDisagreements(nodes, gathers, table, was)
            && (ok ==> |writes| == |Flatten(plans)| == TotalDisagreements(nodes, gathers, table, was))
  {
    hide PlanFor, ApplyAll, ApplyWrites, Flatten, AllShown, AllAgree, TableFor, FinalTruth, TruthPairs, TableOf, Addressed,
      TotalDisagreements;
    var truth := TruthPairs(FinalTruth(nodes, reports));
    TableIsSound(nodes, reports, minEndpoints);
    WritesSettleOneEach(nodes, Gathers(reports), truth, was, plans, Landed(writes, results));
    if ok {
      PlansHaveOneLineEach(nodes, Gathers(reports), truth, was, plans);
      AllLanded(writes, results);
      ClusterAgrees(nodes, Gathers(reports), truth, was, plans);
      if Addressed(was, |nodes|) {
        StaysAddressed(nodes, Gathers(reports), truth, was, plans);
      }
    }
    if AllAgree(nodes, Gathers(reports), TableFor(nodes, reports), was) {
      ClusterIdle(nodes, Gathers(reports), truth, was, plans);
      WriteNothing(was);
      assert writes == [] && Landed(writes, results) == [];
      forall n | n in before ensures after[n] == before[n] {
        if n in nodes {
          var i :| 0 <= i < |nodes| && nodes[i] == n;
          assert Databases(nodes, after)[i] == Databases(nodes, before)[i];
        }
      }
    }
  }

  lemma DryOutcome(nodes: seq<string>, reports: seq<Report>, minEndpoints: nat, was: seq<Fdb>, plans: seq<seq<Op>>)
    requires |reports| == |nodes| == |was| && |plans| <= |nodes|
    requires Ordinary(nodes, minEndpoints) && |FinalTruth(nodes, reports)| >= minEndpoints
    requires AllShown(Gathers(reports), was)
    requires forall i :: 0 <= i < |plans| ==>
               PlanFor(plans[i], nodes[i], TruthPairs(FinalTruth(nodes, reports)), GatherNode(reports[i]))
    ensures AllAgree(nodes, Gathers(reports), TableFor(nodes, reports), was) ==> Flatten(plans) == []
    ensures |plans| == |nodes| ==>
              |Flatten(plans)| == TotalDisagreements(nodes, Gathers(reports), TableFor(nodes, reports), was)
  {
    hide PlanFor, Flatten, AllShown, AllAgree, TableFor, FinalTruth, TruthPairs, TableOf, TotalDisagreements;
    TableIsSound(nodes, reports, minEndpoints);
    if |plans| == |nodes| {
      PlansHaveOneLineEach(nodes, Gathers(reports), TruthPairs(FinalTruth(nodes, reports)), was, plans);
    }
    if AllAgree(nodes, Gathers(reports), TableFor(nodes, reports), was) {
      ClusterIdle(nodes, Gathers(reports), TruthPairs(FinalTruth(nodes, reports)), was, plans);
    }
  }

  lemma PlanRepairsNode(plan: seq<Op>, me: string, truth: seq<Pair>, g: Gather, f: Fdb)
    requires PlanFor(plan, me, truth, g) && g.Gathered? && Shows(g.rows, f)
    requires truth != [] && me != "" && "" !in TableOf(truth).Values
    ensures Agrees(me, TableOf(truth), ApplyAll(f, plan))
  {
    PlanRepairs(plan, me, TableOf(truth), f);
  }

  lemma PlanIsIdle(plan: seq<Op>, me: string, truth: seq<Pair>, g: Gather, f: Fdb)
    requires PlanFor(plan, me, truth, g) && g.Gathered? && Shows(g.rows, f)
    requires truth != [] && me != "" && "" !in TableOf(truth).Values
    requires Agrees(me, TableOf(truth), f)
    ensures plan == []
  {
    NothingPlannedIffAgrees(plan, me, TableOf(truth), f);
  }

  lemma NoPlanWithoutSandbox(plan: seq<Op>, me: string, truth: seq<Pair>, g: Gather)
    requires PlanFor(plan, me, truth, g) && !g.Gathered?
    ensures plan == []
  {
  }

  lemma {:induction false} FlattenEmpty(plans: seq<seq<Op>>)
    requires forall i :: 0 <= i < |plans| ==> plans[i] == []
    ensures Flatten(plans) == []
  {
    if plans != [] {
      FlattenEmpty(plans[..|plans| - 1]);
    }
  }

  function LengthsUpTo(ws: seq<Write>, n: nat): nat {
    if n == 0 then 0 else LengthsUpTo(ws, n - 1) + |ForNode(ws, n - 1)|
  }

  lemma {:induction false} LengthsAdd(ws: seq<Write>, n: nat)
    requires ws != []
    ensures LengthsUpTo(ws, n) == LengthsUpTo(ws[..|ws| - 1], n) + if ws[|ws| - 1].0 < n then 1 else 0
  {
    if n > 0 {
      LengthsAdd(ws, n - 1);
    }
  }

  lemma {:induction false} LengthsBound(ws: seq<Write>, n: nat)
    ensures LengthsUpTo(ws, n) <= |ws|
    decreases |ws|, n
  {
    if ws == [] {
      if n > 0 {
        LengthsBound(ws, n - 1);
      }
    } else {
      LengthsBound(ws[..|ws| - 1], n);
      LengthsAdd(ws, n);
    }
  }

  /** The plans are made and carried out node by node, in the order of the nodes. */
  lemma {:induction false} FlattenInOrder(plans: seq<seq<Op>>)
    ensures forall a, b :: 0 <= a < b < |Flatten(plans)| ==> Flatten(plans)[a].0 <= Flatten(plans)[b].0
  {
    if plans != [] {
      var n := |plans| - 1;
      var f := Flatten(plans[..n]);
      FlattenInOrder(plans[..n]);
      FlattenStaysInRange(plans[..n]);
      assert forall a :: 0 <= a < |f| ==> f[a] in f;
    }
  }

  lemma {:induction false} FlattenStaysInRange(plans: seq<seq<Op>>)
    ensures forall w :: w in Flatten(plans) ==> w.0 < |plans|
  {
    if plans != [] {
      FlattenStaysInRange(plans[..|plans| - 1]);
    }
  }

  lemma {:induction false} LengthsExact(ws: seq<Write>, n: nat)
    requires forall w :: w in ws ==> w.0 < n
    ensures LengthsUpTo(ws, n) == |ws|
    decreases |ws|
  {
    if ws == [] {
      LengthsBound(ws, n);
    } else {
      LengthsExact(ws[..|ws| - 1], n);
      LengthsAdd(ws, n);
    }
  }

  lemma {:induction false} NodesNeedTheirWrites(nodes: seq<string>, gathers: seq<Gather>, truth: Table, fs: seq<Fdb>,
                                                ws: seq<Write>, n: nat)
    requires |nodes| == |fs| == |gathers| && n <= |nodes|
    ensures DisagreementsUpTo(nodes, gathers, truth, fs, n)
            <= LengthsUpTo(ws, n) + DisagreementsUpTo(nodes, gathers, truth, ApplyWrites(fs, ws), n)
  {
    hide Disagreements, ApplyAll, ApplyWrites, ForNode;
    if n > 0 {
      NodesNeedTheirWrites(nodes, gathers, truth, fs, ws, n - 1);
      WritesActPerNode(fs, ws, n - 1);
      NoShorterRepair(ForNode(ws, n - 1), nodes[n - 1], truth, fs[n - 1]);
    }
  }

  lemma {:induction false} AgreementUpTo(nodes: seq<string>, gathers: seq<Gather>, truth: Table, fs: seq<Fdb>, n: nat)
    requires |nodes| == |fs| == |gathers| && n <= |nodes| && AllAgree(nodes, gathers, truth, fs)
    ensures DisagreementsUpTo(nodes, gathers, truth, fs, n) == 0
  {
    hide Disagreements, Agrees;
    if n > 0 {
      AgreementUpTo(nodes, gathers, truth, fs, n - 1);
      AgreementHasNoDisagreements(nodes[n - 1], truth, fs[n - 1]);
    }
  }

  lemma NodeProgress(me: string, truth: seq<Pair>, g: Gather, f: Fdb, plan: seq<Op>, done: seq<Op>)
    requires PlanFor(plan, me, truth, g) && done <= plan && (g.Gathered? ==> Shows(g.rows, f))
    requires truth != [] && me != "" && "" !in TableOf(truth).Values
    ensures g.Gathered? ==>
              Disagreements(me, TableOf(truth), ApplyAll(f, done)) + |done| == Disagreements(me, TableOf(truth), f)
    ensures !g.Gathered? ==> done == []
  {
    hide Disagreements, ApplyAll, Shows, TableOf;
    if g.Gathered? {
      PlanSettlesOneEach(plan, me, TableOf(truth), f, |done|);
      PlanHasOneLineEach(plan, me, TableOf(truth), f);
      assert plan[..|done|] == done;
    }
  }

  lemma {:induction false} ProgressUpTo(nodes: seq<string>, gathers: seq<Gather>, truth: seq<Pair>, fs: seq<Fdb>,
                                        plans: seq<seq<Op>>, ws: seq<Write>, n: nat)
    requires |nodes| == |fs| == |gathers| && |plans| <= |nodes| && n <= |nodes|
    requires truth != [] && "" !in nodes && "" !in TableOf(truth).Values && AllShown(gathers, fs)
    requires forall i :: 0 <= i < |plans| ==> PlanFor(plans[i], nodes[i], truth, gathers[i])
    requires ws <= Flatten(plans)
    ensures DisagreementsUpTo(nodes, gathers, TableOf(truth), ApplyWrites(fs, ws), n) + LengthsUpTo(ws, n)
            == DisagreementsUpTo(nodes, gathers, TableOf(truth), fs, n)
  {
    hide Disagreements, ApplyAll, ApplyWrites, Flatten, ForNode, PlanFor, Shows, TableOf;
    if n > 0 {
      var i := n - 1;
      ProgressUpTo(nodes, gathers, truth, fs, plans, ws, i);
      WritesActPerNode(fs, ws, i);
      FlattenForNode(plans, i);
      ForNodePrefix(Flatten(plans), |ws|, i);
      assert Flatten(plans)[..|ws|] == ws;
      if i < |plans| {
        NodeProgress(nodes[i], truth, gathers[i], fs[i], plans[i], ForNode(ws, i));
      } else {
        ApplyNothing(fs[i]);
      }
    }
  }

  lemma ApplyNothing(f: Fdb)
    ensures ApplyAll(f, []) == f
  {
  }

  /** However far a cycle comes, every write that landed has settled one disagreement of the cluster. */
  lemma {:induction false} WritesSettleOneEach(nodes: seq<string>, gathers: seq<Gather>, truth: seq<Pair>, fs: seq<Fdb>,
                                               plans: seq<seq<Op>>, ws: seq<Write>)
    requires |nodes| == |fs| == |gathers| && |plans| <= |nodes|
    requires truth != [] && "" !in nodes && "" !in TableOf(truth).Values && AllShown(gathers, fs)
    requires forall i :: 0 <= i < |plans| ==> PlanFor(plans[i], nodes[i], truth, gathers[i])
    requires ws <= Flatten(plans)
    ensures TotalDisagreements(nodes, gathers, TableOf(truth), ApplyWrites(fs, ws)) + |ws|
            == TotalDisagreements(nodes, gathers, TableOf(truth), fs)
  {
    hide DisagreementsUpTo, ApplyWrites, Flatten, PlanFor, TableOf, AllShown;
    ProgressUpTo(nodes, gathers, truth, fs, plans, ws, |nodes|);
    FlattenStaysInRange(plans);
    forall w | w in ws ensures w.0 < |nodes| {
      var i :| 0 <= i < |ws| && ws[i] == w;
      assert Flatten(plans)[i] == w;
    }
    LengthsExact(ws, |nodes|);
  }

  /** A cycle's plans have one line for each disagreement in the cluster, and no list of writes that makes
      every participating node agree is shorter. */
  lemma {:induction false} CyclePlanIsShortest(nodes: seq<string>, gathers: seq<Gather>, truth: seq<Pair>, fs: seq<Fdb>,
                                               plans: seq<seq<Op>>, ws: seq<Write>)
    requires |nodes| == |fs| == |gathers| == |plans|
    requires truth != [] && "" !in nodes && "" !in TableOf(truth).Values && AllShown(gathers, fs)
    requires forall i :: 0 <= i < |plans| ==> PlanFor(plans[i], nodes[i], truth, gathers[i])
    requires AllAgree(nodes, gathers, TableOf(truth), ApplyWrites(fs, ws))
    ensures |Flatten(plans)| == TotalDisagreements(nodes, gathers, TableOf(truth), fs) <= |ws|
  {
    hide DisagreementsUpTo, ApplyWrites, Flatten, PlanFor, TableOf, AllShown, AllAgree;
    PlansHaveOneLineEach(nodes, gathers, truth, fs, plans);
    NodesNeedTheirWrites(nodes, gathers, TableOf(truth), fs, ws, |nodes|);
    AgreementUpTo(nodes, gathers, TableOf(truth), ApplyWrites(fs, ws), |nodes|);
    LengthsBound(ws, |nodes|);
  }

  lemma {:induction false} PlansHaveOneLineEach(nodes: seq<string>, gathers: seq<Gather>, truth: seq<Pair>, fs: seq<Fdb>,
                                                plans: seq<seq<Op>>)
    requires |nodes| == |fs| == |gathers| == |plans|
    requires truth != [] && "" !in nodes && "" !in TableOf(truth).Values && AllShown(gathers, fs)
    requires forall i :: 0 <= i < |plans| ==> PlanFor(plans[i], nodes[i], truth, gathers[i])
    ensures |Flatten(plans)| == TotalDisagreements(nodes, gathers, TableOf(truth), fs)
  {
    hide DisagreementsUpTo, ApplyWrites, Flatten, PlanFor, TableOf, AllShown, AllAgree;
    WritesSettleOneEach(nodes, gathers, truth, fs, plans, Flatten(plans));
    ClusterAgrees(nodes, gathers, truth, fs, plans);
    AgreementUpTo(nodes, gathers, TableOf(truth), ApplyWrites(fs, Flatten(plans)), |nodes|);
  }
}
