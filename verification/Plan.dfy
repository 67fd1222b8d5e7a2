/** The repair plan of one node: how the two awk programs compute it, what applying it does, and
    that no shorter plan does the same. */
module Plan {
  import opened Sets
  import opened Truth

  type Table = map<string, string>

  /** A line with two fields; an absent second field is empty. */
  type Pair = (string, string)

  /** A line of `bridge fdb show`, as awk's fields. */
  type Row = seq<string>

  datatype Op = Replace(mac: string, dst: string) | Del(mac: string, dst: string) | DelMaster(mac: string)

  /** awk's view of an array element that may never have been assigned. */
  function Get(t: Table, m: string): string {
    if m in t then t[m] else ""
  }

  /** The array after t[$1]=$2 on every line: a later line wins. */
  function TableOf(lines: seq<Pair>): Table {
    if lines == [] then map[]
    else TableOf(lines[..|lines| - 1])[lines[|lines| - 1].0 := lines[|lines| - 1].1]
  }

  function TwoFields(lines: seq<Pair>): (r: seq<Pair>)
    ensures forall p :: p in r <==> p in lines && p.1 != ""
  {
    if lines == [] then []
    else TwoFields(lines[..|lines| - 1]) + if lines[|lines| - 1].1 != "" then [lines[|lines| - 1]] else []
  }

  /** The MAC and the destination of every row whose fourth field says that it has one. */
  function FdbPairs(rows: seq<Row>): seq<Pair> {
    if rows == [] then []
    else
      var r := rows[|rows| - 1];
      FdbPairs(rows[..|rows| - 1])
      + if |r| >= 4 && r[3] == "dst" then [(r[0], if |r| > 4 then r[4] else "")] else []
  }

  predicate IsMasterRow(r: Row) {
    |r| >= 4 && r[1] == "dev" && r[2] == "vxlan0" && r[3] == "master"
  }

  /** A listing's rows as they are printed: a destination row gives its MAC and its address, on whatever
      device, and a master row counts on the tunnel device only. */
  lemma RowsAsPrinted(mac: string, dev: string, x: string)
    ensures FdbPairs([[mac, "dev", dev, "dst", x]]) == [(mac, x)]
    ensures FdbPairs([[mac, "dev", dev, "master", x]]) == []
    ensures IsMasterRow([mac, "dev", dev, "master", x]) <==> dev == "vxlan0"
    ensures !IsMasterRow([mac, "dev", dev, "dst", x])
  {
    assert [[mac, "dev", dev, "dst", x]][..0] == [] && [[mac, "dev", dev, "master", x]][..0] == [];
    assert "master" != "dst" by { assert |"master"| != |"dst"|; }
  }

  /** With an empty first file the second one is read as if it were the first: NR==FNR holds for it. */
  function TruthRead(truth: seq<Pair>, second: seq<Pair>): Table {
    if truth == [] then TableOf(second) else TableOf(truth)
  }

  function FdbRead(truth: seq<Pair>, second: seq<Pair>): Table {
    if truth == [] then map[] else TableOf(TwoFields(second))
  }

  /** The tunnel operations that bring `have` in line with `want` on the node `me`. */
  predicate Planned(me: string, want: Table, have: Table, op: Op) {
    match op
    case Del(m, d) => m in want && want[m] == me && d == Get(have, m) && d != ""
    case Replace(m, d) => m in want && want[m] == d && d != me && d != Get(have, m)
    case DelMaster(_) => false
  }

  lemma TableStep(lines: seq<Pair>, n: nat)
    requires n < |lines|
    ensures TableOf(lines[..n + 1]) == TableOf(lines[..n])[lines[n].0 := lines[n].1]
  {
    assert lines[..n + 1][..n] == lines[..n];
  }

  lemma TwoFieldsStep(lines: seq<Pair>, n: nat)
    requires n < |lines|
    ensures TwoFields(lines[..n + 1]) == TwoFields(lines[..n]) + if lines[n].1 != "" then [lines[n]] else []
  {
    assert lines[..n + 1][..n] == lines[..n];
  }

  lemma FieldTableStep(lines: seq<Pair>, n: nat)
    requires n < |lines|
    ensures TableOf(TwoFields(lines[..n + 1])) ==
            if lines[n].1 != "" then TableOf(TwoFields(lines[..n]))[lines[n].0 := lines[n].1]
            else TableOf(TwoFields(lines[..n]))
  {
    hide TableOf, TwoFields;
    TwoFieldsStep(lines, n);
    var two := TwoFields(lines[..n]);
    if lines[n].1 != "" {
      var more := two + [lines[n]];
      TableStep(more, |two|);
      assert more[..|two| + 1] == more && more[..|two|] == two;
    } else {
      assert two + [] == two;
    }
  }

  /** Reads both files with the counters NR and FNR, then prints what differs. */
  method PlanBody(me: string, truth: seq<Pair>, second: seq<Pair>) returns (plan: seq<Op>)
    ensures NoRepeats(plan)
    ensures forall op :: op in plan <==> Planned(me, TruthRead(truth, second), FdbRead(truth, second), op)
  {
    hide TableOf, TwoFields, Planned, NoRepeats;
    var want, have: Table := map[], map[];
    assert TableOf([]) == map[] && TableOf(TwoFields([])) == map[] by { EmptyTable(); }
    for nr := 0 to |truth|
      invariant want == TableOf(truth[..nr])
    {
      TableStep(truth, nr);
      want := want[truth[nr].0 := truth[nr].1];
    }
    assert truth[..|truth|] == truth;
    for fnr := 0 to |second|
      invariant truth == [] ==> want == TableOf(second[..fnr]) && have == map[]
      invariant truth != [] ==> want == TableOf(truth) && have == TableOf(TwoFields(second[..fnr]))
    {
      var nr := |truth| + fnr;
      TableStep(second, fnr);
      FieldTableStep(second, fnr);
      if nr == fnr {
        want := want[second[fnr].0 := second[fnr].1];
      } else if second[fnr].1 != "" {
        have := have[second[fnr].0 := second[fnr].1];
      }
    }
    assert second[..|second|] == second;
    plan := Differences(me, want, have);
  }

  lemma EmptyTable()
    ensures TableOf([]) == map[] && TableOf(TwoFields([])) == map[]
  {
  }

  /** The END block, which visits the truth table in any order. */
  method Differences(me: string, want: Table, have: Table) returns (plan: seq<Op>)
    ensures NoRepeats(plan)
    ensures forall op :: op in plan <==> Planned(me, want, have, op)
  {
    plan := [];
    var todo := want.Keys;
    while todo != {}
      invariant todo <= want.Keys
      invariant NoRepeats(plan)
      invariant forall op :: op in plan <==> Planned(me, want, have, op) && op.mac !in todo
      decreases todo
    {
      var m :| m in todo;
      var w, h := want[m], Get(have, m);
      if w == me {
        if h != "" {
          plan := plan + [Del(m, h)];
        }
      } else if h != w {
        plan := plan + [Replace(m, w)];
      }
      todo := todo - {m};
    }
  }

  /** The local MACs with a master row on the tunnel device, each once. */
  method MasterPlan(me: string, truth: seq<Pair>, rows: seq<Row>) returns (plan: seq<Op>)
    ensures NoRepeats(plan)
    ensures forall op :: op in plan <==>
              && truth != [] && op.DelMaster? && Get(TableOf(truth), op.mac) == me
              && exists r :: r in rows && IsMasterRow(r) && r[0] == op.mac
  {
    plan := [];
    var want: Table := map[];
    for nr := 0 to |truth|
      invariant want == TableOf(truth[..nr])
    {
      assert truth[..nr + 1][..nr] == truth[..nr];
      want := want[truth[nr].0 := truth[nr].1];
    }
    assert truth[..|truth|] == truth;
    for fnr := 0 to |rows|
      invariant NoRepeats(plan)
      invariant truth == [] ==> plan == []
      invariant truth != [] ==> want == TableOf(truth) && forall op :: op in plan <==>
                  && op.DelMaster? && Get(want, op.mac) == me
                  && exists k :: 0 <= k < fnr && IsMasterRow(rows[k]) && rows[k][0] == op.mac
    {
      var r := rows[fnr];
      if |truth| + fnr != fnr && IsMasterRow(r) && Get(want, r[0]) == me && DelMaster(r[0]) !in plan {
        plan := plan + [DelMaster(r[0])];
      }
    }
    assert forall k :: 0 <= k < |rows| ==> rows[k] in rows;
  }

  // ---------------------------------------------------------------- the forwarding database

  /** What a node's tunnel device forwards: one destination for each MAC, and the MACs with a
      bridge-master row on it. */
  datatype Fdb = Fdb(dst: map<string, string>, master: set<string>)

  function Apply(f: Fdb, op: Op): Fdb {
    match op
    case Replace(m, d) => f.(dst := f.dst[m := d])
    case Del(m, d) => if m in f.dst && f.dst[m] == d then f.(dst := f.dst - {m}) else f
    case DelMaster(m) => f.(master := f.master - {m})
  }

  function ApplyAll(f: Fdb, ops: seq<Op>): Fdb {
    if ops == [] then f else Apply(ApplyAll(f, ops[..|ops| - 1]), ops[|ops| - 1])
  }

  /** The listing shows exactly this database (and perhaps rows of other kinds). */
  ghost predicate Shows(rows: seq<Row>, f: Fdb) {
    && (forall r :: r in rows && |r| >= 4 && r[3] == "dst" ==>
          |r| > 4 && r[4] != "" && r[0] in f.dst && f.dst[r[0]] == r[4])
    && (forall m :: m in f.dst ==> exists r :: r in rows && |r| > 4 && r[3] == "dst" && r[0] == m)
    && (forall m :: m in f.master <==> exists r :: r in rows && IsMasterRow(r) && r[0] == m)
  }

  /** Remote MACs point at their owner; local MACs have neither a destination nor a master row. */
  ghost predicate Agrees(me: string, truth: Table, f: Fdb) {
    forall m :: m in truth ==>
      if truth[m] == me then m !in f.dst && m !in f.master
      else m in f.dst && f.dst[m] == truth[m]
  }

  /** An operation that some disagreement of this database calls for. */
  ghost predicate Needed(me: string, truth: Table, f: Fdb, op: Op) {
    && op.mac in truth
    && match op
       case Del(m, d) => truth[m] == me && m in f.dst && f.dst[m] == d
       case Replace(m, d) => truth[m] == d && d != me && !(m in f.dst && f.dst[m] == d)
       case DelMaster(m) => truth[m] == me && m in f.master
  }

  ghost predicate IsPlan(plan: seq<Op>, me: string, truth: Table, f: Fdb) {
    NoRepeats(plan) && forall op :: op in plan <==> Needed(me, truth, f, op)
  }

  function MasterRow(m: string): Row {
    [m, "dev", "vxlan0", "master", "br0"]
  }

  function DstRow(m: string, d: string): Row {
    [m, "dev", "vxlan0", "dst", d]
  }

  lemma {:induction false} MasterRows(masters: set<string>) returns (rows: seq<Row>)
    ensures forall r :: r in rows ==> |r| == 5 && r[0] in masters && r == MasterRow(r[0])
    ensures forall m :: m in masters ==> MasterRow(m) in rows
  {
    if masters == {} {
      rows := [];
    } else {
      var m :| m in masters;
      rows := MasterRows(masters - {m});
      rows := rows + [MasterRow(m)];
    }
  }

  lemma {:induction false} DstRows(dst: map<string, string>, todo: set<string>) returns (rows: seq<Row>)
    requires todo <= dst.Keys
    ensures forall r :: r in rows ==> |r| == 5 && r[0] in todo && r == DstRow(r[0], dst[r[0]])
    ensures forall m :: m in todo ==> DstRow(m, dst[m]) in rows
  {
    if todo == {} {
      rows := [];
    } else {
      var m :| m in todo;
      rows := DstRows(dst, todo - {m});
      rows := rows + [DstRow(m, dst[m])];
    }
  }

  lemma MastersShown(f: Fdb, a: seq<Row>, b: seq<Row>, m: string)
    requires forall r :: r in a ==> |r| == 5 && r[3] == "dst"
    requires forall r :: r in b ==> |r| == 5 && r[0] in f.master && r == MasterRow(r[0])
    requires forall x :: x in f.master ==> MasterRow(x) in b
    ensures m in f.master <==> exists r :: r in a + b && IsMasterRow(r) && r[0] == m
  {
    if m in f.master {
      assert MasterRow(m) in a + b && IsMasterRow(MasterRow(m));
    }
    if r :| r in a + b && IsMasterRow(r) && r[0] == m {
      assert r in a || r in b;
    }
  }

  lemma DstsShown(f: Fdb, a: seq<Row>, b: seq<Row>)
    requires "" !in f.dst.Values
    requires forall r :: r in a ==> |r| == 5 && r[0] in f.dst && r == DstRow(r[0], f.dst[r[0]])
    requires forall m :: m in f.dst ==> DstRow(m, f.dst[m]) in a
    requires forall r :: r in b ==> |r| == 5 && r[3] == "master"
    ensures forall r :: r in a + b && |r| >= 4 && r[3] == "dst" ==>
              |r| > 4 && r[4] != "" && r[0] in f.dst && f.dst[r[0]] == r[4]
    ensures forall m :: m in f.dst ==> exists r :: r in a + b && |r| > 4 && r[3] == "dst" && r[0] == m
  {
    forall r | r in a + b && |r| >= 4 && r[3] == "dst"
      ensures |r| > 4 && r[4] != "" && r[0] in f.dst && f.dst[r[0]] == r[4]
    {
      assert r in a || r in b;
      assert f.dst[r[0]] in f.dst.Values;
    }
    forall m | m in f.dst ensures exists r :: r in a + b && |r| > 4 && r[3] == "dst" && r[0] == m {
      assert DstRow(m, f.dst[m]) in a + b;
    }
  }

  /** Some listing shows a database exactly if each of its destinations is an address. */
  lemma ShownIffAddressed(f: Fdb)
    ensures (exists rows :: Shows(rows, f)) <==> "" !in f.dst.Values
  {
    if "" !in f.dst.Values {
      var a := DstRows(f.dst, f.dst.Keys);
      var b := MasterRows(f.master);
      DstsShown(f, a, b);
      forall m ensures m in f.master <==> exists r :: r in a + b && IsMasterRow(r) && r[0] == m {
        MastersShown(f, a, b, m);
      }
      assert Shows(a + b, f);
    }
  }

  lemma {:induction false} PairsOfShown(rows: seq<Row>, f: Fdb)
    requires forall r :: r in rows && |r| >= 4 && r[3] == "dst" ==>
               |r| > 4 && r[4] != "" && r[0] in f.dst && f.dst[r[0]] == r[4]
    ensures TwoFields(FdbPairs(rows)) == FdbPairs(rows)
    ensures forall m :: m in TableOf(FdbPairs(rows)) <==> exists r :: r in rows && |r| > 4 && r[3] == "dst" && r[0] == m
    ensures forall m :: m in TableOf(FdbPairs(rows)) ==> m in f.dst && TableOf(FdbPairs(rows))[m] == f.dst[m] != ""
  {
    if rows != [] {
      var g, r := rows[..|rows| - 1], rows[|rows| - 1];
      assert rows == g + [r] && r in rows;
      PairsOfShown(g, f);
      if |r| >= 4 && r[3] == "dst" {
        var ps := FdbPairs(rows);
        assert ps[..|ps| - 1] == FdbPairs(g) && ps[|ps| - 1] == (r[0], r[4]);
      } else {
        assert FdbPairs(rows) == FdbPairs(g);
      }
    }
  }

  /** One node's plan: the tunnel operations, then the master operations. */
  method NodePlan(me: string, truth: seq<Pair>, rows: seq<Row>) returns (plan: seq<Op>)
    ensures NoRepeats(plan)
    ensures truth != [] && me != "" ==> forall op :: op in plan ==> op.mac in TableOf(truth)
    ensures forall f :: truth != [] && me != "" && "" !in TableOf(truth).Values && Shows(rows, f)
                        ==> IsPlan(plan, me, TableOf(truth), f)
  {
    var body := PlanBody(me, truth, FdbPairs(rows));
    var masters := MasterPlan(me, truth, rows);
    PlansAreDisjoint(body, masters);
    plan := body + masters;
    forall f | truth != [] && me != "" && "" !in TableOf(truth).Values && Shows(rows, f)
      ensures IsPlan(plan, me, TableOf(truth), f)
    {
      PlanIsNeeded(me, truth, rows, f, body, masters);
    }
  }

  lemma PlansAreDisjoint(body: seq<Op>, masters: seq<Op>)
    requires NoRepeats(body) && forall op :: op in body ==> !op.DelMaster?
    requires NoRepeats(masters) && forall op :: op in masters ==> op.DelMaster?
    ensures NoRepeats(body + masters)
  {
    forall i, j | 0 <= i < j < |body + masters| ensures (body + masters)[i] != (body + masters)[j] {
      if i < |body| <= j {
        assert body[i] in body && masters[j - |body|] in masters;
      }
    }
  }

  lemma PlanIsNeeded(me: string, truth: seq<Pair>, rows: seq<Row>, f: Fdb, body: seq<Op>, masters: seq<Op>)
    requires truth != [] && me != "" && "" !in TableOf(truth).Values && Shows(rows, f)
    requires NoRepeats(body) && NoRepeats(masters)
    requires forall op :: op in body <==> Planned(me, TableOf(truth), FdbRead(truth, FdbPairs(rows)), op)
    requires forall op :: op in masters <==>
               && op.DelMaster? && Get(TableOf(truth), op.mac) == me
               && exists r :: r in rows && IsMasterRow(r) && r[0] == op.mac
    ensures IsPlan(body + masters, me, TableOf(truth), f)
  {
    var t, have := TableOf(truth), FdbRead(truth, FdbPairs(rows));
    PairsOfShown(rows, f);
    forall m ensures Get(have, m) == Get(f.dst, m) {
      if m in f.dst {
        assert m in have;
      }
    }
    PlansAreDisjoint(body, masters);
    forall op ensures op in body + masters <==> Needed(me, t, f, op) {
      assert op in body + masters <==> op in body || op in masters;
      assert op.mac in t ==> t[op.mac] in t.Values;
      if op.mac in f.dst {
        assert f.dst[op.mac] != "";
      }
    }
  }

  // ---------------------------------------------------------------- convergence

  predicate TouchesDst(op: Op, m: string) {
    !op.DelMaster? && op.mac == m
  }

  lemma {:induction false} DstUntouched(f: Fdb, ops: seq<Op>, m: string)
    requires forall op :: op in ops ==> !TouchesDst(op, m)
    ensures m in ApplyAll(f, ops).dst <==> m in f.dst
    ensures m in f.dst ==> ApplyAll(f, ops).dst[m] == f.dst[m]
  {
    if ops != [] {
      DstUntouched(f, ops[..|ops| - 1], m);
      assert ops[|ops| - 1] in ops;
    }
  }

  lemma {:induction false} MasterAfter(f: Fdb, ops: seq<Op>, m: string)
    ensures m in ApplyAll(f, ops).master <==> m in f.master && DelMaster(m) !in ops
  {
    if ops != [] {
      MasterAfter(f, ops[..|ops| - 1], m);
      assert ops == ops[..|ops| - 1] + [ops[|ops| - 1]];
    }
  }

  lemma {:induction false} ApplyConcat(f: Fdb, a: seq<Op>, b: seq<Op>)
    ensures ApplyAll(f, a + b) == ApplyAll(ApplyAll(f, a), b)
  {
    if b == [] {
      assert a + b == a;
    } else {
      assert (a + b)[..|a + b| - 1] == a + b[..|b| - 1];
      ApplyConcat(f, a, b[..|b| - 1]);
    }
  }

  /** The one operation on a MAC's destination decides it, wherever it stands in the plan. */
  lemma DstAfter(f: Fdb, ops: seq<Op>, op: Op)
    requires op in ops && !op.DelMaster?
    requires forall other :: other in ops && TouchesDst(other, op.mac) ==> other == op
    requires NoRepeats(ops)
    ensures var g := ApplyAll(f, ops);
            && (op.Replace? ==> op.mac in g.dst && g.dst[op.mac] == op.dst)
            && (op.Del? && op.mac in f.dst && f.dst[op.mac] == op.dst ==> op.mac !in g.dst)
  {
    var i :| 0 <= i < |ops| && ops[i] == op;
    var a, b := ops[..i], ops[i + 1..];
    assert ops == a + [op] + b;
    assert forall x :: x in a ==> !TouchesDst(x, op.mac);
    assert forall x :: x in b ==> !TouchesDst(x, op.mac);
    ApplyConcat(f, a + [op], b);
    assert (a + [op])[..i] == a;
    DstUntouched(f, a, op.mac);
    DstUntouched(ApplyAll(f, a + [op]), b, op.mac);
  }

  /** Applying a plan, in any order, makes the node agree with the truth table and changes nothing
      about other MACs, nor any remote MAC's master row. */
  lemma PlanRepairs(plan: seq<Op>, me: string, truth: Table, f: Fdb)
    requires IsPlan(plan, me, truth, f)
    ensures var g := ApplyAll(f, plan);
            && Agrees(me, truth, g)
            && (forall m :: m !in truth ==> (m in g.dst <==> m in f.dst) && (m in f.dst ==> g.dst[m] == f.dst[m]))
            && (forall m :: m !in truth || truth[m] != me ==> (m in g.master <==> m in f.master))
  {
    var g := ApplyAll(f, plan);
    forall m ensures m in g.master <==> m in f.master && !(m in truth && truth[m] == me) {
      MasterAfter(f, plan, m);
      assert DelMaster(m) in plan <==> Needed(me, truth, f, DelMaster(m));
    }
    forall m | m !in truth
      ensures (m in g.dst <==> m in f.dst) && (m in f.dst ==> g.dst[m] == f.dst[m])
    {
      assert forall op :: op in plan ==> Needed(me, truth, f, op);
      DstUntouched(f, plan, m);
    }
    forall m | m in truth
      ensures if truth[m] == me then m !in g.dst else m in g.dst && g.dst[m] == truth[m]
    {
      DstRepaired(plan, me, truth, f, m);
    }
  }

  lemma DstRepaired(plan: seq<Op>, me: string, truth: Table, f: Fdb, m: string)
    requires IsPlan(plan, me, truth, f) && m in truth
    ensures var g := ApplyAll(f, plan);
            if truth[m] == me then m !in g.dst else m in g.dst && g.dst[m] == truth[m]
  {
    var op := if truth[m] == me then Del(m, Get(f.dst, m)) else Replace(m, truth[m]);
    forall x | x in plan && TouchesDst(x, m) ensures x == op {
      assert Needed(me, truth, f, x);
    }
    if Needed(me, truth, f, op) {
      assert op in plan;
      DstAfter(f, plan, op);
    } else {
      assert op !in plan;
      DstUntouched(f, plan, m);
    }
  }

  /** There is nothing to do exactly when the node agrees with the table. */
  lemma NothingPlannedIffAgrees(plan: seq<Op>, me: string, truth: Table, f: Fdb)
    requires IsPlan(plan, me, truth, f)
    ensures plan == [] <==> Agrees(me, truth, f)
  {
    if plan != [] {
      assert plan[0] in plan;
      assert Needed(me, truth, f, plan[0]);
    } else {
      forall m | m in truth
        ensures if truth[m] == me then m !in f.dst && m !in f.master else m in f.dst && f.dst[m] == truth[m]
      {
        assert !Needed(me, truth, f, Replace(m, truth[m]));
        assert !Needed(me, truth, f, Del(m, Get(f.dst, m)));
        assert !Needed(me, truth, f, DelMaster(m));
      }
    }
  }

  // ---------------------------------------------------------------- minimality

  ghost function WrongDst(me: string, truth: Table, f: Fdb): set<string> {
    set m | m in truth && if truth[m] == me then m in f.dst else !(m in f.dst && f.dst[m] == truth[m])
  }

  ghost function WrongMaster(me: string, truth: Table, f: Fdb): set<string> {
    set m | m in truth && truth[m] == me && m in f.master
  }

  ghost function Disagreements(me: string, truth: Table, f: Fdb): nat {
    |WrongDst(me, truth, f)| + |WrongMaster(me, truth, f)|
  }

  lemma {:induction false} ImageSize<T(!new)>(s: set<string>, g: string -> T)
    requires forall x, y :: x in s && y in s && g(x) == g(y) ==> x == y
    ensures |set x | x in s :: g(x)| == |s|
  {
    if s == {} {
      assert (set x | x in s :: g(x)) == {};
    } else {
      var x :| x in s;
      ImageSize(s - {x}, g);
      assert (set y | y in s :: g(y)) == (set y | y in s - {x} :: g(y)) + {g(x)};
    }
  }

  /** The plan has one line for each disagreement. */
  lemma PlanHasOneLineEach(plan: seq<Op>, me: string, truth: Table, f: Fdb)
    requires IsPlan(plan, me, truth, f)
    ensures |plan| == Disagreements(me, truth, f)
  {
    hide NoRepeats;
    var d, w := WrongDst(me, truth, f), WrongMaster(me, truth, f);
    var fix := (m: string) => if Get(truth, m) == me then Del(m, Get(f.dst, m)) else Replace(m, Get(truth, m));
    var fixMaster := (m: string) => DelMaster(m);
    var D := set m | m in d :: fix(m);
    var W := set m | m in w :: fixMaster(m);
    ImageSize(d, fix);
    ImageSize(w, fixMaster);
    forall op ensures op in plan <==> op in D + W {
      if Needed(me, truth, f, op) {
        if op.DelMaster? {
          assert op.mac in w && op == fixMaster(op.mac);
        } else {
          assert op.mac in d && op == fix(op.mac);
        }
      }
      if op in D {
        var m :| m in d && op == fix(m);
      }
    }
    ListOfDistinct(plan, D + W);
    assert D !! W;
  }

  /** No single operation settles more than one disagreement. */
  lemma OneOperationSettlesOne(op: Op, me: string, truth: Table, f: Fdb)
    ensures Disagreements(me, truth, f) <= Disagreements(me, truth, Apply(f, op)) + 1
  {
    var g := Apply(f, op);
    var d, d', w, w' := WrongDst(me, truth, f), WrongDst(me, truth, g), WrongMaster(me, truth, f), WrongMaster(me, truth, g);
    if op.DelMaster? {
      assert d == d';
      assert w <= w' + {op.mac};
      SubsetSize(w, w' + {op.mac});
    } else {
      assert w == w';
      assert d <= d' + {op.mac};
      SubsetSize(d, d' + {op.mac});
    }
  }

  /** Whatever sequence of such operations makes the node agree has at least as many of them. */
  lemma {:induction false} NoShorterRepair(ops: seq<Op>, me: string, truth: Table, f: Fdb)
    ensures Disagreements(me, truth, f) <= |ops| + Disagreements(me, truth, ApplyAll(f, ops))
  {
    if ops != [] {
      NoShorterRepair(ops[..|ops| - 1], me, truth, f);
      OneOperationSettlesOne(ops[|ops| - 1], me, truth, ApplyAll(f, ops[..|ops| - 1]));
    }
  }

  lemma AgreementHasNoDisagreements(me: string, truth: Table, f: Fdb)
    ensures Agrees(me, truth, f) <==> Disagreements(me, truth, f) == 0
  {
    if Agrees(me, truth, f) {
      assert WrongDst(me, truth, f) == {} && WrongMaster(me, truth, f) == {};
    } else {
      var m :| m in truth && !(if truth[m] == me then m !in f.dst && m !in f.master
                               else m in f.dst && f.dst[m] == truth[m]);
      assert m in WrongDst(me, truth, f) || m in WrongMaster(me, truth, f);
    }
  }

  /** A plan is a shortest repair. */
  lemma PlanIsShortest(plan: seq<Op>, ops: seq<Op>, me: string, truth: Table, f: Fdb)
    requires IsPlan(plan, me, truth, f) && Agrees(me, truth, ApplyAll(f, ops))
    ensures |plan| <= |ops|
  {
    PlanHasOneLineEach(plan, me, truth, f);
    NoShorterRepair(ops, me, truth, f);
    AgreementHasNoDisagreements(me, truth, ApplyAll(f, ops));
  }

  /** Every operation of a plan settles one disagreement, whatever comes after it. */
  lemma {:induction false} PlanSettlesOneEach(plan: seq<Op>, me: string, truth: Table, f: Fdb, k: nat)
    requires IsPlan(plan, me, truth, f) && k <= |plan|
    ensures Disagreements(me, truth, ApplyAll(f, plan[..k])) == |plan| - k
  {
    hide Disagreements, ApplyAll, Agrees, IsPlan;
    var g := ApplyAll(f, plan[..k]);
    PlanHasOneLineEach(plan, me, truth, f);
    NoShorterRepair(plan[..k], me, truth, f);
    NoShorterRepair(plan[k..], me, truth, g);
    ApplyConcat(f, plan[..k], plan[k..]);
    assert plan[..k] + plan[k..] == plan;
    PlanRepairs(plan, me, truth, f);
    AgreementHasNoDisagreements(me, truth, ApplyAll(f, plan));
  }

  // ---------------------------------------------------------------- the empty truth file

  predicate Foreign(me: string, t: Table, m: string) {
    m in t && t[m] != me && t[m] != ""
  }

  ghost predicate NoneForeign(me: string, t: Table) {
    forall m :: !Foreign(me, t, m)
  }

  /** Every tunnel operation is about a MAC of the truth file. */
  ghost predicate StaysInTable(me: string, truth: seq<Pair>, second: seq<Pair>) {
    forall op :: Planned(me, TruthRead(truth, second), FdbRead(truth, second), op) ==> op.mac in TableOf(truth)
  }

  /** That holds exactly when the table is not empty, or no listed destination is another node's: an
      empty truth file makes awk take the listing for the truth. */
  lemma StaysInTableIffNotEmpty(me: string, truth: seq<Pair>, second: seq<Pair>)
    ensures StaysInTable(me, truth, second) <==> truth != [] || NoneForeign(me, TableOf(second))
  {
    var t := TableOf(second);
    if truth == [] {
      assert TableOf(truth) == map[];
      if m :| Foreign(me, t, m) {
        var op := Replace(m, t[m]);
        assert Planned(me, TruthRead(truth, second), FdbRead(truth, second), op);
        assert op.mac !in TableOf(truth);
      } else {
        assert forall op :: Planned(me, TruthRead(truth, second), FdbRead(truth, second), op)
                            ==> Foreign(me, t, op.mac);
      }
    }
  }

  lemma EmptyTruthRewritesForeignRow()
    ensures Planned("10.0.0.1", TruthRead([], [("02:42:0a:00:00:09", "10.0.0.2")]),
                    FdbRead([], [("02:42:0a:00:00:09", "10.0.0.2")]), Replace("02:42:0a:00:00:09", "10.0.0.2"))
  {
    var second := [("02:42:0a:00:00:09", "10.0.0.2")];
    assert second[..0] == [];
    assert TableOf(second) == map["02:42:0a:00:00:09" := "10.0.0.2"];
    assert "10.0.0.2"[7] != "10.0.0.1"[7];
  }
}
