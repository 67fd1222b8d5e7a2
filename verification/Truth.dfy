/** The truth table of the overlay: every node's endpoint claims, sorted and made unique, with the
    MACs that several nodes claim filtered out. */
module Truth {
  import opened Text
  import opened Sorting

  /** A node says that it runs the endpoint with this MAC. */
  datatype Claim = Claim(mac: string, ip: string)

  function Line(c: Claim): string {
    c.mac + " " + c.ip
  }

  function Lines(cs: seq<Claim>): (r: seq<string>)
    ensures |r| == |cs| && forall i :: 0 <= i < |cs| ==> r[i] == Line(cs[i])
  {
    seq(|cs|, i requires 0 <= i < |cs| => Line(cs[i]))
  }

  /** MACs are written with colons and one common length, node addresses without colons. */
  predicate WellFormed(c: Claim, n: nat) {
    |c.mac| == n && ' ' !in c.mac && ':' in c.mac && ':' !in c.ip
  }

  predicate AllWellFormed(cs: seq<Claim>, n: nat) {
    forall c :: c in cs ==> WellFormed(c, n)
  }

  // ---------------------------------------------------------------- the tools

  /** cut -d' ' -f1, also awk's $1. */
  function Key(line: string): string {
    line[..IndexOf(line, ' ')]
  }

  function Keys(lines: seq<string>): (r: seq<string>)
    ensures |r| == |lines| && forall i :: 0 <= i < |lines| ==> r[i] == Key(lines[i])
  {
    seq(|lines|, i requires 0 <= i < |lines| => Key(lines[i]))
  }

  /** Length of the run of equal lines at the start. */
  function RunLength<T(==)>(ks: seq<T>): (n: nat)
    requires ks != []
    ensures 1 <= n <= |ks| && (forall i :: 0 <= i < n ==> ks[i] == ks[0])
    ensures n < |ks| ==> ks[n] != ks[0]
  {
    if |ks| > 1 && ks[1] == ks[0] then 1 + RunLength(ks[1..]) else 1
  }

  /** uniq -d: the first line of every run of two or more. */
  function UniqD<T(==)>(ks: seq<T>): seq<T> {
    if ks == [] then []
    else var n := RunLength(ks); (if n > 1 then [ks[0]] else []) + UniqD(ks[n..])
  }

  predicate OccursAt(p: string, line: string, i: nat) {
    i + |p| <= |line| && line[i..i + |p|] == p
  }

  predicate Occurs(p: string, line: string) {
    exists i :: 0 <= i <= |line| && OccursAt(p, line, i)
  }

  /** grep -v -F -f: the lines in which no pattern occurs. */
  function GrepV(lines: seq<string>, patterns: seq<string>): (r: seq<string>)
    ensures forall l :: l in r <==> l in lines && forall p :: p in patterns ==> !Occurs(p, l)
    ensures StrictlySorted(lines) ==> StrictlySorted(r)
  {
    if lines == [] then
      []
    else
      var rest := GrepV(lines[1..], patterns);
      assert StrictlySorted(lines) ==> forall l :: l in rest ==> Below(lines[0], l) by {
        if StrictlySorted(lines) {
          forall l | l in rest ensures Below(lines[0], l) {
            var i :| 0 <= i < |lines[1..]| && lines[1..][i] == l;
            assert lines[i + 1] == l;
          }
        }
      }
      if exists p :: p in patterns && Occurs(p, lines[0]) then rest else [lines[0]] + rest
  }

  function Conflicts(sorted: seq<string>): seq<string> {
    UniqD(Keys(sorted))
  }

  /** The final truth file made from the collected claim lines. */
  function TruthFinal(all: seq<string>): (r: seq<string>)
    ensures StrictlySorted(r)
  {
    var u := SortUnique(all);
    if |Conflicts(u)| > 0 then GrepV(u, Conflicts(u)) else u
  }

  // ---------------------------------------------------------------- lines and keys

  lemma LineParts(c: Claim, n: nat)
    requires WellFormed(c, n)
    ensures Key(Line(c)) == c.mac && Line(c)[..n] == c.mac && |Line(c)| > n
    ensures Line(c)[n + 1..] == c.ip
  {
    assert Line(c)[..n] == c.mac && Line(c)[n] == ' ';
    IndexOfFirst(Line(c), ' ', n);
  }

  lemma LineIsInjective(a: Claim, b: Claim, n: nat)
    requires WellFormed(a, n) && WellFormed(b, n) && Line(a) == Line(b)
    ensures a == b
  {
    LineParts(a, n);
    LineParts(b, n);
  }

  /** A MAC occurs in another claim's line only where it is that claim's own MAC. */
  lemma MacOccursOnlyAsKey(mac: string, c: Claim, n: nat)
    requires |mac| == n && ' ' !in mac && ':' in mac && WellFormed(c, n)
    ensures Occurs(mac, Line(c)) <==> mac == c.mac
  {
    var line := Line(c);
    LineParts(c, n);
    if mac == c.mac {
      assert OccursAt(mac, line, 0);
    }
    if mac != c.mac {
      forall i: nat | i <= |line| ensures !OccursAt(mac, line, i) {
        if i + n <= |line| {
          var w := line[i..i + n];
          if 0 < i <= n {
            assert w[n - i] == line[n] == ' ';
            assert ' ' in w;
          } else if n < i {
            assert forall k :: 0 <= k < n ==> w[k] == line[n + 1..][i + k - n - 1];
            assert ':' !in w;
          }
        }
      }
    }
  }

  /** Every line of a list is the line of some claim. */
  ghost predicate FromClaims(lines: seq<string>, cs: seq<Claim>) {
    forall l :: l in lines ==> exists c :: c in cs && Line(c) == l
  }

  /** The position of a claim's line in the sorted list. */
  lemma SortedHasClaims(cs: seq<Claim>)
    ensures FromClaims(SortUnique(Lines(cs)), cs)
    ensures forall c :: c in cs ==> Line(c) in SortUnique(Lines(cs))
  {
    var ls := Lines(cs);
    forall l | l in SortUnique(ls) ensures exists c :: c in cs && Line(c) == l {
      var i :| 0 <= i < |ls| && ls[i] == l;
      assert cs[i] in cs && Line(cs[i]) == l;
    }
    forall c | c in cs ensures Line(c) in SortUnique(ls) {
      var i :| 0 <= i < |cs| && cs[i] == c;
      assert ls[i] == Line(c) && ls[i] in ls;
    }
  }

  lemma TruthFromClaims(cs: seq<Claim>)
    ensures FromClaims(TruthFinal(Lines(cs)), cs)
  {
    SortedHasClaims(cs);
    assert forall l :: l in TruthFinal(Lines(cs)) ==> l in SortUnique(Lines(cs));
  }

  // ---------------------------------------------------------------- equal keys are adjacent

  ghost predicate Grouped<T>(ks: seq<T>) {
    forall i, j, k :: 0 <= i < j < k < |ks| && ks[i] == ks[k] ==> ks[j] == ks[i]
  }

  lemma SortedKeysAreGrouped(lines: seq<string>, cs: seq<Claim>, n: nat)
    requires StrictlySorted(lines) && FromClaims(lines, cs) && AllWellFormed(cs, n)
    ensures Grouped(Keys(lines))
  {
    var ks := Keys(lines);
    forall i | 0 <= i < |lines| ensures |lines[i]| > n && ks[i] == lines[i][..n] {
      assert lines[i] in lines;
      var c :| c in cs && Line(c) == lines[i];
      LineParts(c, n);
    }
    forall i, j, k | 0 <= i < j < k < |ks| && ks[i] == ks[k] ensures ks[j] == ks[i] {
      PrefixSandwich(lines[i], lines[j], lines[k], n);
    }
  }

  ghost predicate BothAre<T>(ks: seq<T>, k: T, i: nat, j: nat) {
    i < j < |ks| && ks[i] == k && ks[j] == k
  }

  ghost predicate Repeated<T>(ks: seq<T>, k: T) {
    exists i: nat, j: nat :: BothAre(ks, k, i, j)
  }

  ghost predicate NoRepeats<T>(s: seq<T>) {
    forall i, j :: 0 <= i < j < |s| ==> s[i] != s[j]
  }

  /** The first n elements are one run and its key does not come back. */
  ghost predicate HeadRun<T>(ks: seq<T>, n: nat) {
    && 1 <= n <= |ks|
    && (forall x :: 0 <= x < n ==> ks[x] == ks[0])
    && (forall x :: n <= x < |ks| ==> ks[x] != ks[0])
  }

  lemma GroupedHead<T>(ks: seq<T>)
    requires ks != [] && Grouped(ks)
    ensures HeadRun(ks, RunLength(ks)) && Grouped(ks[RunLength(ks)..])
  {
    var n := RunLength(ks);
    assert forall j :: 0 < n < j < |ks| ==> ks[j] != ks[0];
  }

  lemma RepeatedSplits<T>(ks: seq<T>, k: T, n: nat)
    requires HeadRun(ks, n)
    ensures Repeated(ks, k) <==> (n > 1 && k == ks[0]) || Repeated(ks[n..], k)
  {
    if i: nat, j: nat :| BothAre(ks[n..], k, i, j) {
      assert BothAre(ks, k, n + i, n + j);
    }
    if n > 1 && k == ks[0] {
      assert BothAre(ks, k, 0, 1);
    }
    if i: nat, j: nat :| BothAre(ks, k, i, j) {
      if i >= n {
        assert BothAre(ks[n..], k, i - n, j - n);
      }
    }
  }

  /** On grouped lines uniq -d lists each repeated line once. */
  lemma {:induction false} UniqDListsRepeated<T(!new)>(ks: seq<T>)
    requires Grouped(ks)
    ensures forall k :: k in UniqD(ks) <==> Repeated(ks, k)
    ensures NoRepeats(UniqD(ks))
    decreases |ks|
  {
    if ks != [] {
      var n := RunLength(ks);
      var rest := ks[n..];
      GroupedHead(ks);
      UniqDListsRepeated(rest);
      hide Repeated, Grouped;
      forall k ensures k in UniqD(ks) <==> Repeated(ks, k) {
        RepeatedSplits(ks, k, n);
      }
      assert ks[0] !in UniqD(rest) by { RepeatedIsThere(rest, ks[0]); }
    }
  }

  lemma RepeatedIsThere<T>(ks: seq<T>, k: T)
    ensures Repeated(ks, k) ==> k in ks
  {
  }

  // ---------------------------------------------------------------- what the table says

  /** Two nodes claim the MAC. */
  ghost predicate Contested(cs: seq<Claim>, mac: string) {
    exists a, b :: a in cs && b in cs && a.mac == mac && b.mac == mac && a.ip != b.ip
  }

  lemma RepeatedKeyIsContested(cs: seq<Claim>, n: nat, mac: string)
    requires AllWellFormed(cs, n)
    ensures Repeated(Keys(SortUnique(Lines(cs))), mac) <==> Contested(cs, mac)
  {
    hide Key, Keys, SortUnique, WellFormed;
    var u := SortUnique(Lines(cs));
    SortedHasClaims(cs);
    if i: nat, j: nat :| BothAre(Keys(u), mac, i, j) {
      BothContest(u, cs, n, mac, i, j);
    }
    if a, b :| a in cs && b in cs && a.mac == mac && b.mac == mac && a.ip != b.ip {
      ContestedRepeats(u, cs, n, a, b);
    }
  }

  lemma BothContest(u: seq<string>, cs: seq<Claim>, n: nat, mac: string, i: nat, j: nat)
    requires StrictlySorted(u) && FromClaims(u, cs) && AllWellFormed(cs, n) && BothAre(Keys(u), mac, i, j)
    ensures Contested(cs, mac)
  {
    hide Key, Below;
    assert u[i] in u && u[j] in u;
    var a :| a in cs && Line(a) == u[i];
    var b :| b in cs && Line(b) == u[j];
    LineParts(a, n);
    LineParts(b, n);
    BelowTotal(u[i], u[j]);
  }

  lemma ContestedRepeats(u: seq<string>, cs: seq<Claim>, n: nat, a: Claim, b: Claim)
    requires AllWellFormed(cs, n) && a in cs && b in cs && Line(a) in u && Line(b) in u
    requires a.mac == b.mac && a.ip != b.ip
    ensures Repeated(Keys(u), a.mac)
  {
    hide Key;
    LineParts(a, n);
    LineParts(b, n);
    var i :| 0 <= i < |u| && u[i] == Line(a);
    var j :| 0 <= j < |u| && u[j] == Line(b);
    assert i != j by { if Line(a) == Line(b) { LineIsInjective(a, b, n); } }
    assert BothAre(Keys(u), a.mac, i, j) || BothAre(Keys(u), a.mac, j, i);
  }

  ghost function ContestedMacs(cs: seq<Claim>): set<string> {
    set c | c in cs && Contested(cs, c.mac) :: c.mac
  }

  /** The conflict list holds each MAC that several nodes claim, once; its length is their number. */
  lemma ConflictsAreContestedMacs(cs: seq<Claim>, n: nat)
    requires AllWellFormed(cs, n)
    ensures var found := Conflicts(SortUnique(Lines(cs)));
            && (forall mac :: mac in found <==> Contested(cs, mac))
            && |found| == |ContestedMacs(cs)|
  {
    var u := SortUnique(Lines(cs));
    SortedHasClaims(cs);
    SortedKeysAreGrouped(u, cs, n);
    UniqDListsRepeated(Keys(u));
    var found := Conflicts(u);
    forall mac ensures mac in found <==> Contested(cs, mac) {
      RepeatedKeyIsContested(cs, n, mac);
    }
    forall mac ensures mac in found <==> mac in ContestedMacs(cs) {
      if Contested(cs, mac) {
        var a :| a in cs && a.mac == mac;
      }
    }
    ListOfDistinct(found, ContestedMacs(cs));
  }

  lemma {:induction false} ListOfDistinct<T(!new)>(s: seq<T>, S: set<T>)
    requires NoRepeats(s) && forall x :: x in s <==> x in S
    ensures |s| == |S|
  {
    if s == [] {
      assert S == {};
    } else {
      var x := s[|s| - 1];
      var t := s[..|s| - 1];
      assert x in S;
      forall y ensures y in t <==> y in S - {x} {
        if y in S - {x} {
          var i :| 0 <= i < |s| && s[i] == y;
          assert t[i] == y;
        }
      }
      ListOfDistinct(t, S - {x});
    }
  }

  /** The final table holds exactly the claims that no other node contradicts. */
  lemma TruthIsUncontested(cs: seq<Claim>, n: nat)
    requires AllWellFormed(cs, n)
    ensures FromClaims(TruthFinal(Lines(cs)), cs)
    ensures forall c :: WellFormed(c, n) ==>
              (Line(c) in TruthFinal(Lines(cs)) <==> c in cs && !Contested(cs, c.mac))
  {
    var u := SortUnique(Lines(cs));
    var found := Conflicts(u);
    SortedHasClaims(cs);
    ConflictsAreContestedMacs(cs, n);
    forall c | WellFormed(c, n)
      ensures Line(c) in TruthFinal(Lines(cs)) <==> c in cs && !Contested(cs, c.mac)
    {
      if Line(c) in u {
        var d :| d in cs && Line(d) == Line(c);
        LineIsInjective(c, d, n);
        forall p | p in found ensures Occurs(p, Line(c)) <==> p == c.mac {
          assert Contested(cs, p);
          MacOccursOnlyAsKey(p, c, n);
        }
      }
    }
  }

  /** The final table is a function from MAC to node. */
  lemma TruthIsAFunction(cs: seq<Claim>, n: nat)
    requires AllWellFormed(cs, n)
    ensures NoRepeats(Keys(TruthFinal(Lines(cs))))
  {
    var t := TruthFinal(Lines(cs));
    TruthIsUncontested(cs, n);
    forall i, j | 0 <= i < j < |t| ensures Keys(t)[i] != Keys(t)[j] {
      assert t[i] in t && t[j] in t;
      var a :| a in cs && Line(a) == t[i];
      var b :| b in cs && Line(b) == t[j];
      LineParts(a, n);
      LineParts(b, n);
      BelowTotal(t[i], t[j]);
      assert a.mac == b.mac && a.ip != b.ip ==> Contested(cs, a.mac);
    }
  }
}
