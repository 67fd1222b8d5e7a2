/** The text of a NUT status: the word search the decision machine uses, the stricter check
    that guards a release, and the VAR reply the status is read from. */
module StatusText {
  import opened Text

  // ---------------------------------------------------------------- words

  /** w stands at position i of s with a space or an end of s on both sides. */
  predicate WordAt(s: string, w: string, i: nat) {
    PieceAt(s, ' ', w, i)
  }

  method ContainsWord(s: string, w: string) returns (found: bool)
    ensures found <==> exists i: nat :: WordAt(s, w, i)
  {
    var i := 0;
    while i + |w| <= |s|
      invariant forall j: nat :: j < i ==> !WordAt(s, w, j)
    {
      if s[i..i + |w|] == w {
        var before := i == 0 || s[i - 1] == ' ';
        var after := i + |w| == |s| || s[i + |w|] == ' ';
        if before && after {
          assert WordAt(s, w, i);
          return true;
        }
      }
      i := i + 1;
    }
    return false;
  }

  /** w is one of the space-separated tokens of s. */
  predicate HasWord(s: string, w: string) {
    w in Split(s, ' ')
  }

  /** The word search finds exactly the tokens of a split at single spaces. */
  lemma WordIsToken(s: string, w: string)
    requires ' ' !in w
    ensures HasWord(s, w) <==> exists i: nat :: WordAt(s, w, i)
  {
    hide Split, PieceAt;
    if HasWord(s, w) {
      var i := PieceFromSplit(s, ' ', w);
      assert WordAt(s, w, i);
    }
    if i: nat :| WordAt(s, w, i) {
      PieceInSplit(s, ' ', w, i);
    }
  }

  // ---------------------------------------------------------------- fields

  /** Length of the run of non-blank characters at the start of s. */
  function WordLength(s: string): (k: nat)
    ensures k <= |s| && (forall j :: 0 <= j < k ==> !IsSpace(s[j]))
    ensures k < |s| ==> IsSpace(s[k])
  {
    if s == "" || IsSpace(s[0]) then 0 else 1 + WordLength(s[1..])
  }

  /** strings.Fields: the maximal runs of non-blank characters. */
  function Fields(s: string): seq<string>
    decreases |s|
  {
    if s == "" then []
    else if IsSpace(s[0]) then Fields(s[1..])
    else var k := WordLength(s); [s[..k]] + Fields(s[k..])
  }

  predicate IsWord(w: string) {
    w != "" && forall j :: 0 <= j < |w| ==> !IsSpace(w[j])
  }

  /** w stands at position i of s with white space or an end of s on both sides. */
  predicate BlankWordAt(s: string, w: string, i: nat) {
    && i + |w| <= |s|
    && s[i..i + |w|] == w
    && (i == 0 || IsSpace(s[i - 1]))
    && (i + |w| == |s| || IsSpace(s[i + |w|]))
  }

  lemma BlankWordBehind(s: string, w: string, k: nat, i: nat)
    requires BlankWordAt(s, w, i) && k <= i
    ensures BlankWordAt(s[k..], w, i - k)
  {
    hide IsSpace;
    assert s[k..][i - k..i - k + |w|] == s[i..i + |w|];
  }

  /** Where the first run of non-blanks ends, a word either is that run or comes after it. */
  lemma BlankWordOrRun(s: string, w: string, i: nat)
    requires IsWord(w) && BlankWordAt(s, w, i) && !IsSpace(s[0])
    ensures 0 < WordLength(s) && (w == s[..WordLength(s)] || WordLength(s) <= i)
  {
    hide IsSpace;
    var k := WordLength(s);
    assert forall j :: 0 <= j < |w| ==> s[i + j] == w[j];
    assert i == 0 || IsSpace(s[i - 1]);
  }

  lemma {:induction false} BlankWordIsField(s: string, w: string, i: nat)
    requires IsWord(w) && BlankWordAt(s, w, i)
    ensures w in Fields(s)
    decreases |s|
  {
    hide IsSpace, WordLength;
    if IsSpace(s[0]) {
      assert s[i] == s[i..i + |w|][0] == w[0];
      BlankWordBehind(s, w, 1, i);
      BlankWordIsField(s[1..], w, i - 1);
    } else {
      var k := WordLength(s);
      BlankWordOrRun(s, w, i);
      if w != s[..k] {
        BlankWordBehind(s, w, k, i);
        BlankWordIsField(s[k..], w, i - k);
      }
    }
  }

  lemma BlankWordShift(s: string, w: string, k: nat, i: nat)
    requires k <= |s| && BlankWordAt(s[k..], w, i)
    requires i == 0 && k > 0 ==> IsSpace(s[k - 1])
    ensures BlankWordAt(s, w, i + k)
  {
    hide IsSpace;
    assert s[i + k..i + k + |w|] == s[k..][i..i + |w|];
  }

  lemma FieldCases(s: string, w: string)
    requires w in Fields(s)
    ensures s != ""
    ensures IsSpace(s[0]) ==> w in Fields(s[1..])
    ensures !IsSpace(s[0]) ==> 0 < WordLength(s) && (w == s[..WordLength(s)] || w in Fields(s[WordLength(s)..]))
  {
    hide IsSpace;
  }

  lemma {:induction false} FieldIsBlankWord(s: string, w: string) returns (i: nat)
    requires w in Fields(s)
    ensures BlankWordAt(s, w, i) && IsWord(w)
    decreases |s|
  {
    hide IsSpace, Fields, WordLength;
    FieldCases(s, w);
    if IsSpace(s[0]) {
      i := FieldIsBlankWord(s[1..], w);
      BlankWordShift(s, w, 1, i);
      i := i + 1;
    } else {
      var k := WordLength(s);
      if w == s[..k] {
        i := 0;
      } else {
        i := FieldIsBlankWord(s[k..], w);
        assert w[0] == s[k..][i];
        BlankWordShift(s, w, k, i);
        i := i + k;
      }
    }
  }

  /** The fields of s are exactly its words between white space. */
  lemma FieldsAreBlankWords(s: string, w: string)
    requires IsWord(w)
    ensures w in Fields(s) <==> exists i: nat :: BlankWordAt(s, w, i)
  {
    if w in Fields(s) {
      var i := FieldIsBlankWord(s, w);
    }
    if i: nat :| BlankWordAt(s, w, i) {
      BlankWordIsField(s, w, i);
    }
  }

  // ---------------------------------------------------------------- classes

  datatype Class = LowBattery | OnBattery | OnMains

  /** How the decision machine reads a status it received: LB first, then OB, anything else is mains. */
  function Classify(status: string): Class {
    if HasWord(status, "LB") then LowBattery
    else if HasWord(status, "OB") then OnBattery
    else OnMains
  }

  ghost predicate Contains(status: string, w: string) {
    exists i: nat :: WordAt(status, w, i)
  }

  /** By the words it contains: LB wins over OB, and without either a status is mains. */
  lemma ClassifyByWords(status: string)
    ensures Classify(status) == LowBattery <==> Contains(status, "LB")
    ensures Classify(status) == OnBattery <==> Contains(status, "OB") && !Contains(status, "LB")
    ensures Classify(status) == OnMains <==> !Contains(status, "OB") && !Contains(status, "LB")
  {
    hide HasWord, WordAt;
    WordIsToken(status, "LB");
    WordIsToken(status, "OB");
  }

  /** The release guard: OL by the word search, and no blank-separated field OB or LB. */
  predicate SafeForUndrain(status: string) {
    HasWord(status, "OL") && "OB" !in Fields(status) && "LB" !in Fields(status)
  }

  /** A token between plain spaces is also a field. */
  lemma TokenIsField(s: string, w: string)
    requires IsWord(w) && ' ' !in w
    ensures HasWord(s, w) ==> w in Fields(s)
  {
    WordIsToken(s, w);
    if i: nat :| WordAt(s, w, i) {
      assert BlankWordAt(s, w, i);
      BlankWordIsField(s, w, i);
    }
  }

  /** A status that releases the node is one the machine counts as mains. */
  lemma SafeIsMains(status: string)
    requires SafeForUndrain(status)
    ensures Classify(status) == OnMains
  {
    hide Split, Fields;
    TokenIsField(status, "LB");
    TokenIsField(status, "OB");
  }

  predicate ReadingsAgree(status: string) {
    SafeForUndrain(status) <==> HasWord(status, "OL") && Classify(status) == OnMains
  }

  /** The word stands between white space, but nowhere between plain spaces or ends. */
  ghost predicate OnlyBehindOtherBlanks(s: string, w: string) {
    (exists i: nat :: BlankWordAt(s, w, i)) && !exists i: nat :: WordAt(s, w, i)
  }

  /** The guard and the machine differ exactly on a status with the token OL in which OB or LB stands
      between white space other than plain spaces only, and neither is a token. */
  lemma ReadingsAgreeIff(status: string)
    ensures ReadingsAgree(status) <==>
              !(HasWord(status, "OL") && Classify(status) == OnMains
                && (OnlyBehindOtherBlanks(status, "OB") || OnlyBehindOtherBlanks(status, "LB")))
    ensures ReadingsAgree(status) <==>
              (HasWord(status, "OL") && !HasWord(status, "OB") && !HasWord(status, "LB")
               ==> "OB" !in Fields(status) && "LB" !in Fields(status))
  {
    hide Split, Fields, WordAt, BlankWordAt;
    FieldsAreBlankWords(status, "OB");
    FieldsAreBlankWords(status, "LB");
    TokenIsField(status, "OB");
    TokenIsField(status, "LB");
    WordIsToken(status, "OB");
    WordIsToken(status, "LB");
  }

  /** The only white space in s is the plain space. */
  predicate PlainSpaces(s: string) {
    forall j :: 0 <= j < |s| && IsSpace(s[j]) ==> s[j] == ' '
  }

  /** So the two readings agree wherever plain spaces are the only white space. */
  lemma SafeIffMainsWithOL(status: string)
    requires PlainSpaces(status)
    ensures SafeForUndrain(status) <==> HasWord(status, "OL") && Classify(status) == OnMains
  {
    hide Split, Fields;
    forall w: string, i: nat | BlankWordAt(status, w, i) ensures WordAt(status, w, i) {
    }
    ReadingsAgreeIff(status);
  }

  /** They differ on this status: the guard refuses it while the machine counts mains. */
  lemma TabSeparatesTheReadings()
    ensures HasWord("OL \tOB", "OL") && Classify("OL \tOB") == OnMains
    ensures !SafeForUndrain("OL \tOB")
  {
    hide Split, Fields;
    TokensAroundTab();
    var s := "OL \tOB";
    assert BlankWordAt(s, "OB", 4);
    BlankWordIsField(s, "OB", 4);
  }

  lemma TokensAroundTab()
    ensures Split("OL \tOB", ' ') == ["OL", "\tOB"]
  {
    hide Split;
    assert "OL \tOB" == "OL" + [' '] + "\tOB";
    SplitAfter("OL", ' ', "\tOB");
    SplitNothing("\tOB", ' ');
  }

  lemma PlainStatuses()
    ensures SafeForUndrain("OL") && Classify("LB") == LowBattery
  {
    hide Split, Fields;
    SplitNothing("OL", ' ');
    SplitNothing("LB", ' ');
    FieldsAreBlankWords("OL", "OB");
    FieldsAreBlankWords("OL", "LB");
    assert "OL"[1] != "OB"[1] && "OL"[0] != "LB"[0];
  }

  // ---------------------------------------------------------------- VAR replies

  /** The two escapes of the NUT protocol, resolved; other backslashes vanish or stay at the end. */
  function Unescape(s: string): string {
    if s == "" then ""
    else if s[0] == '\\' && |s| > 1 then [s[1]] + Unescape(s[2..])
    else [s[0]] + Unescape(s[1..])
  }

  method UnescapeNUT(s: string) returns (r: string)
    ensures r == Unescape(s)
  {
    hide Unescape;
    if '\\' !in s {
      UnescapePlain(s);
      return s;
    }
    r := "";
    UnescapeNothing(s);
    var i := 0;
    while i < |s|
      invariant i <= |s|
      invariant r + Unescape(s[i..]) == Unescape(s)
    {
      UnescapeStep(s, i);
      ghost var r0 := r;
      var resolved := false;
      if s[i] == '\\' && i + 1 < |s| {
        i := i + 1;
        if s[i] == '\\' {
          r := r + ['\\'];
          resolved := true;
        } else if s[i] == '"' {
          r := r + ['"'];
          resolved := true;
        }
      }
      if !resolved {
        r := r + [s[i]];
      }
      assert r == r0 + [s[i]];
      i := i + 1;
    }
  }

  lemma UnescapeNothing(s: string)
    ensures Unescape(s[0..]) == Unescape(s) && Unescape(s[|s|..]) == ""
  {
    assert s[0..] == s;
  }

  lemma UnescapeStep(s: string, i: nat)
    requires i < |s|
    ensures s[i] == '\\' && i + 1 < |s| ==> Unescape(s[i..]) == [s[i + 1]] + Unescape(s[i + 2..])
    ensures !(s[i] == '\\' && i + 1 < |s|) ==> Unescape(s[i..]) == [s[i]] + Unescape(s[i + 1..])
  {
    assert s[i..][1..] == s[i + 1..];
    if i + 1 < |s| {
      assert s[i..][2..] == s[i + 2..];
    }
  }

  lemma {:induction false} UnescapePlain(s: string)
    requires '\\' !in s
    ensures Unescape(s) == s
  {
    if s != "" {
      UnescapePlain(s[1..]);
    }
  }

  /** Behind a backslash any character stands for itself; a backslash at the end stays. */
  lemma UnescapeDropsBackslash(c: char, rest: string)
    ensures Unescape(['\\', c] + rest) == [c] + Unescape(rest)
    ensures Unescape("\\") == "\\"
    ensures c != '\\' ==> Unescape([c] + rest) == [c] + Unescape(rest)
  {
    assert (['\\', c] + rest)[2..] == rest && ([c] + rest)[1..] == rest;
    assert "\\"[1..] == "";
  }

  /** What a NUT server writes between the quotes. */
  function Escape(s: string): string {
    if s == "" then ""
    else (if s[0] == '\\' || s[0] == '"' then ['\\', s[0]] else [s[0]]) + Escape(s[1..])
  }

  lemma {:induction false} UnescapeInvertsEscape(s: string)
    ensures Unescape(Escape(s)) == s
  {
    if s != "" {
      UnescapeInvertsEscape(s[1..]);
      var e := Escape(s);
      if s[0] == '\\' || s[0] == '"' {
        assert e[2..] == Escape(s[1..]);
      } else {
        assert e[1..] == Escape(s[1..]);
      }
      assert [s[0]] + s[1..] == s;
    }
  }

  datatype Reply = Value(status: string) | Unexpected | SliceOutOfRange

  function ReplyPrefix(ups: string): string {
    "VAR " + ups + " ups.status \""
  }

  /** The quoted value of a VAR reply. The closing quote may be the prefix's own last character:
      then the slice bounds cross and the program stops. */
  function ParseVarReply(ups: string, line: string): Reply {
    var prefix := ReplyPrefix(ups);
    if !HasPrefix(line, prefix) || !HasSuffix(line, "\"") then Unexpected
    else if |line| - 1 < |prefix| then SliceOutOfRange
    else Value(Unescape(line[|prefix|..|line| - 1]))
  }

  function PrintVarReply(ups: string, status: string): string {
    ReplyPrefix(ups) + Escape(status) + "\""
  }

  lemma ParseInvertsPrint(ups: string, status: string)
    ensures ParseVarReply(ups, PrintVarReply(ups, status)) == Value(status)
  {
    var line, prefix := PrintVarReply(ups, status), ReplyPrefix(ups);
    assert line[|prefix|..|line| - 1] == Escape(status);
    UnescapeInvertsEscape(status);
  }

  /** The reply in the words of the protocol, for a status without a character to escape. */
  lemma PlainReplyParses(ups: string, status: string)
    requires '\\' !in status
    ensures ParseVarReply(ups, "VAR " + ups + " ups.status \"" + status + "\"") == Value(status)
  {
    var line := "VAR " + ups + " ups.status \"" + status + "\"";
    assert line == ReplyPrefix(ups) + status + "\"";
    assert line[|ReplyPrefix(ups)|..|line| - 1] == status;
    UnescapePlain(status);
  }

  /** Exactly one line stops the program: the prefix alone. Every other line yields a value or an error. */
  lemma ParseStopsExactlyOnBarePrefix(ups: string, line: string)
    ensures ParseVarReply(ups, line) == SliceOutOfRange <==> line == ReplyPrefix(ups)
  {
    var prefix := ReplyPrefix(ups);
    assert prefix[|prefix| - 1..] == "\"";
    if HasPrefix(line, prefix) && |line| - 1 < |prefix| {
      assert line == prefix;
    }
  }
}
