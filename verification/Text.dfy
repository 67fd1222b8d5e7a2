/** Strings as the shell tools and Go's strings package cut them up: searching, splitting
    at one character, trimming, and the byte order that sorting uses. */
module Text {
  datatype Option<+T> = None | Some(value: T)

  /** Position of the first c in s, or |s| when there is none. */
  function IndexOf(s: string, c: char): (k: nat)
    ensures k <= |s| && c !in s[..k]
    ensures k < |s| ==> s[k] == c
  {
    if s == "" || s[0] == c then
      0
    else
      var k := 1 + IndexOf(s[1..], c);
      assert s[..k] == [s[0]] + s[1..][..k - 1];
      k
  }

  /** All pieces between consecutive occurrences of c, empty ones included. */
  function Split(s: string, c: char): (pieces: seq<string>)
    ensures |pieces| > 0
    ensures forall p :: p in pieces ==> c !in p
    decreases |s|
  {
    var k := IndexOf(s, c);
    if k == |s| then
      assert s[..k] == s;
      [s]
    else
      [s[..k]] + Split(s[k + 1..], c)
  }

  lemma IndexOfFirst(s: string, c: char, k: nat)
    requires k <= |s| && c !in s[..k] && (k < |s| ==> s[k] == c)
    ensures IndexOf(s, c) == k
  {
    var i := IndexOf(s, c);
    assert forall j :: 0 <= j < k ==> s[j] in s[..k];
    assert forall j :: 0 <= j < i ==> s[j] in s[..i];
  }

  lemma SplitAfter(a: string, c: char, b: string)
    requires c !in a
    ensures Split(a + [c] + b, c) == [a] + Split(b, c)
  {
    var s := a + [c] + b;
    assert s[..|a|] == a && s[|a|] == c && s[|a| + 1..] == b;
    IndexOfFirst(s, c, |a|);
  }

  lemma SplitNothing(s: string, c: char)
    requires c !in s
    ensures Split(s, c) == [s]
  {
    assert s[..|s|] == s;
    IndexOfFirst(s, c, |s|);
  }

  /** The last piece comes after the last c. */
  lemma {:induction false} SplitBefore(a: string, c: char, b: string)
    requires c !in b
    ensures Split(a + [c] + b, c) == Split(a, c) + [b]
    decreases |a|
  {
    hide Split;
    var s, k := a + [c] + b, IndexOf(a, c);
    if k == |a| {
      assert a[..k] == a;
      SplitNothing(a, c);
      SplitNothing(b, c);
      SplitAfter(a, c, b);
    } else {
      var x, y := a[..k], a[k + 1..];
      assert a == x + [c] + y && s == x + [c] + (y + [c] + b);
      SplitBefore(y, c, b);
      SplitAfter(x, c, y);
      SplitAfter(x, c, y + [c] + b);
    }
  }

  /** And a text of several pieces has such a last one. */
  lemma {:induction false} LastPiece(s: string, c: char) returns (a: string)
    requires |Split(s, c)| > 1
    ensures var ps := Split(s, c);
            s == a + [c] + ps[|ps| - 1] && Split(a, c) == ps[..|ps| - 1]
    decreases |s|
  {
    var x, y := FirstPiece(s, c);
    hide Split, IndexOf;
    SplitAfter(x, c, y);
    var ps, rest := Split(s, c), Split(y, c);
    var last := rest[|rest| - 1];
    assert ps[|ps| - 1] == last && ps[..|ps| - 1] == [x] + rest[..|rest| - 1];
    if |rest| == 1 {
      OnePiece(y, c);
      a := x;
      SplitNothing(x, c);
    } else {
      var b := LastPiece(y, c);
      a := x + [c] + b;
      SplitAfter(x, c, b);
      Regroup(x, [c], b, [c], last);
    }
  }

  lemma Regroup(a: string, b: string, c: string, d: string, e: string)
    ensures a + b + (c + d + e) == a + b + c + d + e
  {
  }

  lemma FirstPiece(s: string, c: char) returns (x: string, y: string)
    requires |Split(s, c)| > 1
    ensures c !in x && s == x + [c] + y
  {
    var k := IndexOf(s, c);
    x, y := s[..k], s[k + 1..];
  }

  lemma OnePiece(s: string, c: char)
    requires |Split(s, c)| == 1
    ensures Split(s, c) == [s]
  {
  }

  /** w stands at position i of s with c or an end of s on both sides. */
  predicate PieceAt(s: string, c: char, w: string, i: nat) {
    && i + |w| <= |s|
    && s[i..i + |w|] == w
    && (i == 0 || s[i - 1] == c)
    && (i + |w| == |s| || s[i + |w|] == c)
  }

  /** A piece is what comes before the first c, or a piece of what comes behind it. */
  lemma SplitCases(s: string, c: char, w: string)
    requires w in Split(s, c)
    ensures var k := IndexOf(s, c); w == s[..k] || (k < |s| && w in Split(s[k + 1..], c))
  {
    hide IndexOf;
    assert s[..|s|] == s;
  }

  lemma {:induction false} PieceFromSplit(s: string, c: char, w: string) returns (i: nat)
    requires w in Split(s, c)
    ensures PieceAt(s, c, w, i)
    decreases |s|
  {
    hide Split, IndexOf;
    var k := IndexOf(s, c);
    SplitCases(s, c, w);
    if w == s[..k] {
      i := 0;
    } else {
      i := PieceFromSplit(s[k + 1..], c, w);
      PieceShift(s, c, w, k + 1, i);
      i := i + (k + 1);
    }
  }

  lemma {:induction false} PieceInSplit(s: string, c: char, w: string, i: nat)
    requires c !in w && PieceAt(s, c, w, i)
    ensures w in Split(s, c)
    decreases |s|
  {
    var k := IndexOf(s, c);
    if k == |s| {
      assert forall j :: 0 <= j < |s| ==> s[j] in s[..k];
      assert s[..|s|] == s && s[0..|s|] == s;
    } else {
      PieceInRest(s, c, w, i, k);
      if w != s[..k] {
        PieceInSplit(s[k + 1..], c, w, i - k - 1);
      }
    }
  }

  lemma PieceShift(s: string, c: char, w: string, k: nat, i: nat)
    requires k <= |s| && PieceAt(s[k..], c, w, i)
    requires i == 0 && k > 0 ==> s[k - 1] == c
    ensures PieceAt(s, c, w, i + k)
  {
    assert s[i + k..i + k + |w|] == s[k..][i..i + |w|];
  }

  lemma PieceInRest(s: string, c: char, w: string, i: nat, k: nat)
    requires c !in w && PieceAt(s, c, w, i)
    requires k < |s| && s[k] == c && c !in s[..k]
    ensures w == s[..k] || (i > k && PieceAt(s[k + 1..], c, w, i - k - 1))
  {
    assert forall j :: 0 <= j < k ==> s[j] in s[..k];
    assert forall j :: 0 <= j < |w| ==> s[i + j] == w[j] && w[j] in w;
    if i > k {
      assert s[k + 1..][i - k - 1..i - k - 1 + |w|] == s[i..i + |w|];
    } else {
      assert i == 0;
      assert |w| == k;
    }
  }

  predicate HasPrefix(s: string, p: string) {
    p <= s
  }

  predicate HasSuffix(s: string, p: string) {
    |p| <= |s| && s[|s| - |p|..] == p
  }

  /** White space in the sense of Go's unicode.IsSpace, which strings.Fields and strings.TrimSpace use. */
  predicate IsSpace(c: char) {
    || '\t' <= c <= '\r' || c == ' ' || c == '\U{0085}' || c == '\U{00A0}'
    || c == '\U{1680}' || '\U{2000}' <= c <= '\U{200A}' || c == '\U{2028}' || c == '\U{2029}'
    || c == '\U{202F}' || c == '\U{205F}' || c == '\U{3000}'
  }

  /** The blanks of plain text, and that no printing ASCII character is one. */
  lemma PlainBlanks()
    ensures forall c :: c in " \t\n\r\U{000B}\U{000C}" ==> IsSpace(c)
    ensures forall c :: '!' <= c <= '~' ==> !IsSpace(c)
    ensures forall c :: c < '\t' || '\r' < c < ' ' ==> !IsSpace(c)
  {
  }

  function TrimSpace(s: string): (t: string)
    ensures t != "" ==> !IsSpace(t[0]) && !IsSpace(t[|t| - 1])
    decreases |s|
  {
    if s == "" then ""
    else if IsSpace(s[0]) then TrimSpace(s[1..])
    else if IsSpace(s[|s| - 1]) then TrimSpace(s[..|s| - 1])
    else s
  }

  predicate AllSpace(s: string) {
    forall i :: 0 <= i < |s| ==> IsSpace(s[i])
  }

  lemma {:induction false} TrimFront(a: string, u: string)
    requires AllSpace(a)
    ensures TrimSpace(a + u) == TrimSpace(u)
  {
    hide IsSpace;
    if a == "" {
      assert a + u == u;
    } else {
      assert (a + u)[1..] == a[1..] + u && (a + u)[0] == a[0];
      TrimFront(a[1..], u);
    }
  }

  lemma {:induction false} TrimBack(t: string, b: string)
    requires AllSpace(b) && t != "" && !IsSpace(t[0]) && !IsSpace(t[|t| - 1])
    ensures TrimSpace(t + b) == t
  {
    hide IsSpace;
    if b == "" {
      assert t + b == t;
    } else {
      var s, n := t + b, |b| - 1;
      assert s[..|s| - 1] == t + b[..n] && s[|s| - 1] == b[n] && s[0] == t[0];
      TrimBack(t, b[..n]);
    }
  }

  /** Trimming takes away the white space around a text, and nothing else. */
  lemma {:induction false} TrimTakesBlanks(a: string, t: string, b: string)
    requires AllSpace(a) && AllSpace(b)
    requires t == "" || (!IsSpace(t[0]) && !IsSpace(t[|t| - 1]))
    ensures TrimSpace(a + t + b) == t
  {
    hide IsSpace, TrimSpace, AllSpace;
    assert a + t + b == a + (t + b);
    TrimFront(a, t + b);
    if t == "" {
      assert t + b == b + "";
      TrimFront(b, "");
      TrimNothing();
    } else {
      TrimBack(t, b);
    }
  }

  lemma TrimNothing()
    ensures TrimSpace("") == ""
  {
  }
}

/** Byte order on strings and what `sort -u`, sort.Strings and sorted() return. */
module Sorting {
  predicate Below(a: string, b: string)
    decreases |a|
  {
    b != "" && (a == "" || a[0] < b[0] || (a[0] == b[0] && Below(a[1..], b[1..])))
  }

  /** a is a proper beginning of b, or smaller at the first character where they differ. */
  ghost predicate Precedes(a: string, b: string) {
    a < b || exists k: nat :: k < |a| && k < |b| && a[..k] == b[..k] && a[k] < b[k]
  }

  lemma {:induction false} BelowIsByteOrder(a: string, b: string)
    ensures Below(a, b) <==> Precedes(a, b)
    decreases |a|
  {
    if a != "" && b != "" && a[0] == b[0] {
      BelowIsByteOrder(a[1..], b[1..]);
      assert a == [a[0]] + a[1..] && b == [b[0]] + b[1..];
      if k: nat :| k < |a[1..]| && k < |b[1..]| && a[1..][..k] == b[1..][..k] && a[1..][k] < b[1..][k] {
        assert a[..k + 1] == [a[0]] + a[1..][..k] && b[..k + 1] == [b[0]] + b[1..][..k];
        assert a[k + 1] < b[k + 1];
      }
      if k: nat :| k < |a| && k < |b| && a[..k] == b[..k] && a[k] < b[k] {
        assert k > 0;
        assert a[1..][..k - 1] == a[..k][1..] && b[1..][..k - 1] == b[..k][1..];
        assert a[1..][k - 1] < b[1..][k - 1];
      }
    } else if a != "" && b != "" {
      if a[0] < b[0] {
        assert a[..0] == b[..0];
      }
      if k: nat :| k < |a| && k < |b| && a[..k] == b[..k] && a[k] < b[k] {
        assert k > 0 ==> a[..k][0] == b[..k][0];
      }
    }
  }

  lemma {:induction false} BelowTransitive(a: string, b: string, c: string)
    requires Below(a, b) && Below(b, c)
    ensures Below(a, c)
    decreases |a|
  {
    if a != "" && a[0] == b[0] && b[0] == c[0] {
      BelowTransitive(a[1..], b[1..], c[1..]);
    }
  }

  lemma {:induction false} BelowTotal(a: string, b: string)
    ensures a == b || Below(a, b) || Below(b, a)
    ensures !(Below(a, b) && Below(b, a))
    ensures a == b ==> !Below(a, b)
    decreases |a|
  {
    if a != "" && b != "" && a[0] == b[0] {
      BelowTotal(a[1..], b[1..]);
      assert a == [a[0]] + a[1..] && b == [b[0]] + b[1..];
    }
  }

  /** Strings that agree on their first n characters sandwich only strings that agree too. */
  lemma {:induction false} PrefixSandwich(a: string, b: string, c: string, n: nat)
    requires Below(a, b) && Below(b, c)
    requires n <= |a| && n <= |b| && n <= |c| && a[..n] == c[..n]
    ensures b[..n] == a[..n]
    decreases n
  {
    if n > 0 {
      assert a[0] == a[..n][0] && c[0] == c[..n][0];
      assert a[1..][..n - 1] == a[..n][1..] && c[1..][..n - 1] == c[..n][1..];
      PrefixSandwich(a[1..], b[1..], c[1..], n - 1);
      assert b[..n] == [b[0]] + b[1..][..n - 1] && a[..n] == [a[0]] + a[1..][..n - 1];
    }
  }

  predicate StrictlySorted(s: seq<string>) {
    forall i, j :: 0 <= i < j < |s| ==> Below(s[i], s[j])
  }

  function Insert(x: string, s: seq<string>): (r: seq<string>)
    requires StrictlySorted(s)
    ensures StrictlySorted(r)
    ensures forall y :: y in r <==> y == x || y in s
  {
    if s == [] then
      [x]
    else if x == s[0] then
      s
    else if Below(x, s[0]) then
      (forall j | 0 <= j < |s| ensures Below(x, s[j]) {
         if j > 0 { BelowTransitive(x, s[0], s[j]); }
       }
       [x] + s)
    else
      var rest := Insert(x, s[1..]);
      BelowTotal(x, s[0]);
      assert forall j :: 0 <= j < |rest| ==> rest[j] in rest;
      [s[0]] + rest
  }

  /** `sort -u`, and sorting a list that has no repetitions. */
  function SortUnique(s: seq<string>): (r: seq<string>)
    ensures StrictlySorted(r)
    ensures forall y :: y in r <==> y in s
  {
    if s == [] then [] else Insert(s[0], SortUnique(s[1..]))
  }

  /** A strictly sorted list is determined by its elements. */
  lemma {:induction false} SortedIsCanonical(a: seq<string>, b: seq<string>)
    requires StrictlySorted(a) && StrictlySorted(b)
    requires forall x :: x in a <==> x in b
    ensures a == b
    decreases |a|
  {
    assert a != [] ==> a[0] in b;
    assert b != [] ==> b[0] in a;
    if a != [] {
      var i :| 0 <= i < |b| && b[i] == a[0];
      var j :| 0 <= j < |a| && a[j] == b[0];
      BelowTotal(a[0], b[0]);
      assert a[0] == b[0];
      forall x ensures x in a[1..] <==> x in b[1..] {
        if x in a[1..] {
          var k :| 0 <= k < |a[1..]| && a[1..][k] == x;
          assert Below(a[0], a[k + 1]);
          BelowTotal(a[0], x);
          assert x in b && x != b[0];
        }
        if x in b[1..] {
          var k :| 0 <= k < |b[1..]| && b[1..][k] == x;
          assert Below(b[0], b[k + 1]);
          BelowTotal(b[0], x);
          assert x in a && x != a[0];
        }
      }
      SortedIsCanonical(a[1..], b[1..]);
    }
  }
}

module Sets {
  lemma {:induction false} SubsetSize<T>(a: set<T>, b: set<T>)
    requires a <= b
    ensures |a| <= |b|
  {
    if a != {} {
      var x :| x in a;
      SubsetSize(a - {x}, b - {x});
    }
  }
}
