/** The DNS record publisher: which router hosts are accepted, how a host set is printed and read
    back, and the guard against a sudden contraction. */
module DnsGenerator {
  import opened Sets
  import opened Sorting
  import opened Text

  const HOME: string := "home.danhughes.dev"

  // ---------------------------------------------------------------- host names

  predicate IsLowerAlnum(c: char) {
    'a' <= c <= 'z' || '0' <= c <= '9'
  }

  /** One label: 1 to 63 letters, digits and hyphens, no hyphen at either end. */
  predicate IsLabel(s: string) {
    && 1 <= |s| <= 63
    && IsLowerAlnum(s[0]) && IsLowerAlnum(s[|s| - 1])
    && forall i :: 0 <= i < |s| ==> IsLowerAlnum(s[i]) || s[i] == '-'
  }

  predicate IsDnsName(s: string) {
    1 <= |s| <= 253 && forall l :: l in Split(s, '.') ==> IsLabel(l)
  }

  /** A name the generator accepts. */
  predicate ValidHost(h: string) {
    IsDnsName(h) && (h == "danhughes.dev" || HasSuffix(h, ".danhughes.dev"))
  }

  /** Lower case as far as it can yield a name; the Kelvin sign is the one foreign character that does. */
  function Lower(s: string): (r: string)
    ensures |r| == |s|
  {
    seq(|s|, i requires 0 <= i < |s| =>
      if 'A' <= s[i] <= 'Z' then (s[i] as int + 32) as char else if s[i] == '\U{212A}' then 'k' else s[i])
  }

  function StripDots(s: string): (r: string)
    ensures r == "" || r[|r| - 1] != '.'
  {
    if s != "" && s[|s| - 1] == '.' then StripDots(s[..|s| - 1]) else s
  }

  // ---------------------------------------------------------------- what the names mean

  /** A label in the shape of the pattern: one letter or digit, or two with up to 61 letters, digits and
      hyphens between them. */
  ghost predicate LabelShape(s: string) {
    || (|s| == 1 && IsLowerAlnum(s[0]))
    || (|s| >= 2 && exists mid: string ::
         && s == [s[0]] + mid + [s[|s| - 1]] && |mid| <= 61 && |s| == |mid| + 2
         && IsLowerAlnum(s[0]) && IsLowerAlnum(s[|s| - 1])
         && forall c :: c in mid ==> IsLowerAlnum(c) || c == '-')
  }

  lemma LabelMeans(s: string)
    ensures IsLabel(s) <==> s != "" && LabelShape(s)
  {
    hide IsLowerAlnum;
    if IsLabel(s) && |s| > 1 {
      var mid := s[1..|s| - 1];
      assert s == [s[0]] + mid + [s[|s| - 1]];
      assert forall c :: c in mid ==> IsLowerAlnum(c) || c == '-';
    }
    if s != "" && |s| != 1 && LabelShape(s) {
      var mid: string :| s == [s[0]] + mid + [s[|s| - 1]] && |mid| <= 61 && |s| == |mid| + 2
                         && IsLowerAlnum(s[0]) && IsLowerAlnum(s[|s| - 1])
                         && forall c :: c in mid ==> IsLowerAlnum(c) || c == '-';
      forall i | 0 <= i < |s| ensures IsLowerAlnum(s[i]) || s[i] == '-' {
        if 0 < i < |s| - 1 {
          assert s[i] == mid[i - 1] && mid[i - 1] in mid;
        }
      }
    }
  }

  /** The last two components are those of the domain. */
  ghost predicate InDomain(h: string) {
    var ps := Split(h, '.');
    |ps| >= 2 && ps[|ps| - 2] == "danhughes" && ps[|ps| - 1] == "dev"
  }

  lemma DomainSplits(a: string)
    ensures Split("danhughes.dev", '.') == ["danhughes", "dev"]
    ensures Split(a + ".danhughes.dev", '.') == Split(a, '.') + ["danhughes"] + ["dev"]
  {
    hide Split;
    assert "danhughes.dev" == "danhughes" + ['.'] + "dev";
    SplitNothing("danhughes", '.');
    SplitBefore("danhughes", '.', "dev");
    SplitBefore(a, '.', "danhughes");
    SplitBefore(a + ['.'] + "danhughes", '.', "dev");
    assert a + ".danhughes.dev" == a + ['.'] + "danhughes" + ['.'] + "dev";
  }

  lemma DomainIsSuffix(h: string)
    ensures InDomain(h) <==> h == "danhughes.dev" || HasSuffix(h, ".danhughes.dev")
  {
    hide Split;
    DomainSplits("");
    if HasSuffix(h, ".danhughes.dev") {
      var a := h[..|h| - |".danhughes.dev"|];
      assert h == a + ".danhughes.dev";
      DomainSplits(a);
    }
    if InDomain(h) {
      var ps := Split(h, '.');
      var a := LastPiece(h, '.');
      if |ps| == 2 {
        OnePiece(a, '.');
        assert h == "danhughes" + ['.'] + "dev" == "danhughes.dev";
      } else {
        var b := LastPiece(a, '.');
        assert h == b + ['.'] + "danhughes" + ['.'] + "dev" == b + ".danhughes.dev";
        assert h[|h| - |".danhughes.dev"|..] == ".danhughes.dev";
      }
    }
  }

  /** A name is accepted exactly if it has at most 253 characters, its components are labels and the last
      two are those of the domain. */
  lemma ValidHostMeans(h: string)
    ensures ValidHost(h) <==> |h| <= 253 && InDomain(h) && forall l :: l in Split(h, '.') ==> l != "" && LabelShape(l)
  {
    hide Split, IsLabel, LabelShape, InDomain;
    DomainIsSuffix(h);
    forall l ensures IsLabel(l) <==> l != "" && LabelShape(l) {
      LabelMeans(l);
    }
  }

  /** d is c in lower case, as far as names go. */
  predicate Folds(c: char, d: char) {
    if 'A' <= c <= 'Z' then d as int - 'a' as int == c as int - 'A' as int
    else if c == '\U{212A}' then d == 'k'
    else d == c
  }

  /** The text is this name up to case, with any number of dots behind it. */
  predicate SameName(text: string, h: string) {
    && |h| <= |text|
    && (forall i :: 0 <= i < |h| ==> Folds(text[i], h[i]))
    && (forall i :: |h| <= i < |text| ==> text[i] == '.')
  }

  lemma {:induction false} StripDotsMeans(s: string)
    ensures var h := StripDots(s);
            |h| <= |s| && s[..|h|] == h && forall i :: |h| <= i < |s| ==> s[i] == '.'
  {
    if s != "" && s[|s| - 1] == '.' {
      StripDotsMeans(s[..|s| - 1]);
    } else {
      assert s[..|s|] == s;
    }
  }

  lemma NameMeans(text: string, h: string)
    requires h == "" || h[|h| - 1] != '.'
    ensures h == StripDots(Lower(text)) <==> SameName(text, h)
  {
    var low := Lower(text);
    var k := StripDots(low);
    StripDotsMeans(low);
    assert forall i :: 0 <= i < |text| ==> Folds(text[i], low[i]);
    if SameName(text, h) {
      assert forall i :: 0 <= i < |h| ==> low[i] == h[i];
      assert forall i :: |h| <= i < |low| ==> low[i] == '.';
      assert |h| > 0 ==> low[|h| - 1] == h[|h| - 1];
      assert |k| > 0 ==> low[|k| - 1] == k[|k| - 1];
      assert k == low[..|h|] == h;
    }
  }

  /** A router: its status and the back-quoted names inside its rule's Host calls. */
  datatype Router = Router(status: string, names: seq<string>)

  predicate Enabled(r: Router) {
    r.status == "enabled" || r.status == "warning"
  }

  /** Some enabled router names this host, up to case and trailing dots. */
  ghost predicate Named(routers: seq<Router>, h: string) {
    exists r, name :: r in routers && Enabled(r) && name in r.names && h == StripDots(Lower(name))
  }

  ghost predicate Accepted(routers: seq<Router>, hosts: set<string>) {
    forall h :: h in hosts <==> ValidHost(h) && Named(routers, h)
  }

  /** Some router that is enabled, or enabled with a warning, names this host, up to case and trailing dots. */
  ghost predicate NamedBy(routers: seq<Router>, h: string) {
    exists r, name :: r in routers && (r.status == "enabled" || r.status == "warning") && name in r.names
                      && SameName(name, h)
  }

  lemma NamedMeans(routers: seq<Router>, h: string)
    requires ValidHost(h)
    ensures Named(routers, h) <==> NamedBy(routers, h)
  {
    hide SameName, IsDnsName, StripDots, Lower;
    EndsInLetter(h);
    forall name: string ensures h == StripDots(Lower(name)) <==> SameName(name, h) {
      NameMeans(name, h);
    }
    if r, name :| r in routers && Enabled(r) && name in r.names && h == StripDots(Lower(name)) {
      assert SameName(name, h);
    }
    if r, name :| r in routers && (r.status == "enabled" || r.status == "warning") && name in r.names && SameName(name, h) {
      assert Enabled(r) && h == StripDots(Lower(name));
    }
  }

  lemma EndsInLetter(h: string)
    requires ValidHost(h)
    ensures h[|h| - 1] == 'v'
  {
    hide IsDnsName;
    assert "danhughes.dev"[12] == 'v' && ".danhughes.dev"[13] == 'v';
    if HasSuffix(h, ".danhughes.dev") {
      assert h[|h| - 1] == h[|h| - 14..][13];
    }
  }

  method HostsFromRouters(routers: seq<Router>) returns (hosts: set<string>)
    ensures Accepted(routers, hosts)
    ensures forall h :: h in hosts <==> ValidHost(h) && NamedBy(routers, h)
  {
    hosts := {};
    for i := 0 to |routers|
      invariant forall h :: h in hosts <==> ValidHost(h) && Named(routers[..i], h)
    {
      var r := routers[i];
      ghost var before := hosts;
      assert routers[..i + 1] == routers[..i] + [r];
      if Enabled(r) {
        var found := RouterHosts(r);
        hosts := hosts + found;
      }
    }
    assert routers[..|routers|] == routers;
    forall h | ValidHost(h) ensures Named(routers, h) <==> NamedBy(routers, h) {
      NamedMeans(routers, h);
    }
  }

  method RouterHosts(r: Router) returns (hosts: set<string>)
    ensures forall h :: h in hosts <==> ValidHost(h) && exists name :: name in r.names && h == StripDots(Lower(name))
  {
    hosts := {};
    for k := 0 to |r.names|
      invariant forall h :: h in hosts <==> ValidHost(h) && exists name :: name in r.names[..k] && h == StripDots(Lower(name))
    {
      assert r.names[..k + 1] == r.names[..k] + [r.names[k]];
      var host := StripDots(Lower(r.names[k]));
      if ValidHost(host) {
        hosts := hosts + {host};
      }
    }
    assert r.names[..|r.names|] == r.names;
  }

  // ---------------------------------------------------------------- print and parse

  const OPENING: string := "local-zone: \""
  const CLOSING: string := ".\" static"

  function ZoneLine(h: string): string {
    OPENING + h + CLOSING
  }

  function DataLine(h: string, ip: string): string {
    "local-data: \"" + h + ". 60 IN A " + ip + "\""
  }

  /** The two lines of every host, hosts in sorted order. */
  function Render(hosts: seq<string>, ip: string): string {
    if hosts == [] then ""
    else ZoneLine(hosts[0]) + ['\n'] + (DataLine(hosts[0], ip) + ['\n'] + Render(hosts[1..], ip))
  }

  predicate IsZoneChar(c: char) {
    IsLowerAlnum(c) || c == '.' || c == '-'
  }

  /** The name in a line that LOCAL_ZONE matches. */
  function ParseZone(line: string): Option<string> {
    if |line| > |OPENING| + |CLOSING| && HasPrefix(line, OPENING) && HasSuffix(line, CLOSING) then
      var name := line[|OPENING|..|line| - |CLOSING|];
      if forall i :: 0 <= i < |name| ==> IsZoneChar(name[i]) then Some(name) else None
    else
      None
  }

  function ZonesIn(lines: seq<string>): seq<string> {
    if lines == [] then []
    else (match ParseZone(lines[0]) case None => [] case Some(n) => [n]) + ZonesIn(lines[1..])
  }

  /** LOCAL_ZONE.findall: the pattern is anchored to whole lines. */
  function FindZones(text: string): seq<string> {
    ZonesIn(Split(text, '\n'))
  }

  predicate IsDecimal(s: string) {
    && 1 <= |s| <= 3 && (forall i :: 0 <= i < |s| ==> '0' <= s[i] <= '9')
    && (|s| > 1 ==> s[0] != '0')
    && (|s| == 3 ==> s[0] < '2' || (s[0] == '2' && (s[1] < '5' || (s[1] == '5' && s[2] <= '5'))))
  }

  function Digit(d: nat): char
    requires d < 10
  {
    ('0' as int + d) as char
  }

  /** A number below a thousand as it is written, without leading zeros. */
  function Written(v: nat): string
    requires v < 1000
  {
    if v < 10 then [Digit(v)]
    else if v < 100 then [Digit(v / 10), Digit(v % 10)]
    else [Digit(v / 100), Digit(v / 10 % 10), Digit(v % 10)]
  }

  function Value(c: char): nat {
    if '0' <= c <= '9' then c as int - '0' as int else 0
  }

  lemma ValueWritten(c: char)
    requires '0' <= c <= '9'
    ensures Value(c) < 10 && Digit(Value(c)) == c
  {
  }

  lemma WrittenIsDecimal(v: nat)
    requires v < 256
    ensures IsDecimal(Written(v))
  {
  }

  lemma DecimalIsWritten(s: string) returns (v: nat)
    requires IsDecimal(s)
    ensures v < 256 && s == Written(v)
  {
    ValueWritten(s[0]);
    if |s| == 1 {
      v := Value(s[0]);
    } else if |s| == 2 {
      ValueWritten(s[1]);
      v := 10 * Value(s[0]) + Value(s[1]);
    } else {
      ValueWritten(s[1]);
      ValueWritten(s[2]);
      v := 100 * Value(s[0]) + 10 * Value(s[1]) + Value(s[2]);
    }
  }

  /** One byte of an address: a number from 0 to 255 as it is written. */
  lemma DecimalMeans(s: string)
    ensures IsDecimal(s) <==> exists v: nat :: v < 256 && s == Written(v)
  {
    hide IsDecimal, Written;
    if IsDecimal(s) {
      var v := DecimalIsWritten(s);
    }
    if v: nat :| v < 256 && s == Written(v) {
      WrittenIsDecimal(v);
    }
  }

  /** What ipaddress.IPv4Address accepts. */
  predicate IsIPv4(s: string) {
    |Split(s, '.')| == 4 && forall p :: p in Split(s, '.') ==> IsDecimal(p)
  }

  lemma {:induction false} PieceWith(s: string, c: char, i: nat) returns (p: string)
    requires i < |s| && s[i] != c
    ensures p in Split(s, c) && s[i] in p
    decreases |s|
  {
    var k := IndexOf(s, c);
    if i < k {
      p := s[..k];
      assert p[i] == s[i];
      assert s[..|s|] == s;
      assert Split(s, c)[0] == p;
    } else {
      var rest := s[k + 1..];
      p := PieceWith(rest, c, i - k - 1);
      assert Split(s, c) == [s[..k]] + Split(rest, c);
    }
  }

  lemma HostChars(h: string, i: nat)
    requires IsDnsName(h) && i < |h|
    ensures IsZoneChar(h[i])
  {
    if h[i] != '.' {
      var p := PieceWith(h, '.', i);
      assert IsLabel(p);
    }
  }

  lemma IpHasNoNewline(ip: string)
    requires IsIPv4(ip)
    ensures '\n' !in ip
  {
    forall i | 0 <= i < |ip| ensures ip[i] != '\n' {
      if ip[i] != '.' {
        var p := PieceWith(ip, '.', i);
        assert IsDecimal(p);
      }
    }
  }

  lemma ZoneLineParses(h: string)
    requires IsDnsName(h)
    ensures ParseZone(ZoneLine(h)) == Some(h) && '\n' !in ZoneLine(h)
  {
    var line := ZoneLine(h);
    assert line[|OPENING|..|line| - |CLOSING|] == h;
    assert line[|line| - |CLOSING|..] == CLOSING;
    forall i | 0 <= i < |h| ensures IsZoneChar(h[i]) {
      HostChars(h, i);
    }
  }

  lemma DataLineDoesNotParse(h: string, ip: string)
    requires IsDnsName(h) && IsIPv4(ip)
    ensures ParseZone(DataLine(h, ip)) == None && '\n' !in DataLine(h, ip)
  {
    IpHasNoNewline(ip);
    forall i | 0 <= i < |h| ensures IsZoneChar(h[i]) {
      HostChars(h, i);
    }
    assert DataLine(h, ip)[6] == 'd' && OPENING[6] == 'z';
  }

  lemma TwoLines(a: string, b: string, rest: string, name: string)
    requires '\n' !in a && '\n' !in b && ParseZone(a) == Some(name) && ParseZone(b) == None
    ensures FindZones(a + ['\n'] + (b + ['\n'] + rest)) == [name] + FindZones(rest)
  {
    hide ParseZone, Split;
    SplitAfter(b, '\n', rest);
    SplitAfter(a, '\n', b + ['\n'] + rest);
    var tail := Split(rest, '\n');
    assert ([a] + ([b] + tail))[1..] == [b] + tail && ([b] + tail)[1..] == tail;
    assert ZonesIn([b] + tail) == [] + ZonesIn(tail);
  }

  /** Reading back a rendered list gives the list. */
  lemma {:induction false} FindZonesInvertsRender(hosts: seq<string>, ip: string)
    requires IsIPv4(ip) && forall h :: h in hosts ==> IsDnsName(h)
    ensures FindZones(Render(hosts, ip)) == hosts
  {
    if hosts == [] {
      SplitNothing("", '\n');
    } else {
      hide IsDnsName, IsIPv4, FindZones, ParseZone, ZoneLine, DataLine;
      var h := hosts[0];
      FindZonesInvertsRender(hosts[1..], ip);
      ZoneLineParses(h);
      DataLineDoesNotParse(h, ip);
      TwoLines(ZoneLine(h), DataLine(h, ip), Render(hosts[1..], ip), h);
    }
  }

  // ---------------------------------------------------------------- sets and sorting

  /** sorted(hosts) */
  ghost predicate SortedAs(s: seq<string>, hosts: set<string>) {
    StrictlySorted(s) && forall h :: h in s <==> h in hosts
  }

  method SortedHosts(hosts: set<string>) returns (s: seq<string>)
    ensures SortedAs(s, hosts)
  {
    s := [];
    var todo := hosts;
    while todo != {}
      invariant StrictlySorted(s) && todo <= hosts && forall h :: h in s <==> h in hosts - todo
      decreases todo
    {
      var h :| h in todo;
      s := Insert(h, s);
      todo := todo - {h};
    }
  }

  /** The file holds the records of exactly this set. */
  ghost predicate Holds(text: string, ip: string, hosts: set<string>) {
    exists s :: SortedAs(s, hosts) && text == Render(s, ip)
  }

  lemma RenderedHolds(s: seq<string>, ip: string, hosts: set<string>)
    requires SortedAs(s, hosts)
    ensures Holds(Render(s, ip), ip, hosts)
  {
  }

  function ZoneSet(text: string): set<string> {
    set n | n in FindZones(text)
  }

  /** Whatever set a file holds, its own parser finds exactly that set. */
  lemma ParsedIsWhatItHolds(text: string, ip: string, hosts: set<string>)
    requires IsIPv4(ip) && (forall h :: h in hosts ==> ValidHost(h)) && Holds(text, ip, hosts)
    ensures ZoneSet(text) == hosts
  {
    var s :| SortedAs(s, hosts) && text == Render(s, ip);
    FindZonesInvertsRender(s, ip);
  }

  // ---------------------------------------------------------------- polling

  /** One poll: what Traefik answered, if anything, and whether reading and replacing the file worked. */
  datatype Poll = Poll(routers: Option<seq<Router>>, readable: bool, replaced: bool)

  /** A set that may be published: home is in it and every name is valid. */
  predicate GoodHosts(hosts: set<string>) {
    HOME in hosts && forall h :: h in hosts ==> ValidHost(h)
  }

  /** Allowed to replace a file of these hosts: at most a quarter of five or more may vanish. */
  predicate PlausibleChange(previous: set<string>, hosts: set<string>) {
    |previous| >= 5 ==> |previous - hosts| <= |previous| / 4
  }

  /** Good sets, each a plausible successor of the one before. */
  ghost predicate Chain(sets: seq<set<string>>) {
    && (forall i :: 0 <= i < |sets| ==> GoodHosts(sets[i]))
    && (forall i :: 0 <= i < |sets| - 1 ==> PlausibleChange(sets[i], sets[i + 1]))
  }

  /** hosts may come after these sets. */
  ghost predicate MayFollow(sets: seq<set<string>>, hosts: set<string>) {
    sets != [] ==> PlausibleChange(sets[|sets| - 1], hosts)
  }

  lemma MayFollowNothing(hosts: set<string>)
    ensures MayFollow([], hosts)
  {
  }

  lemma MayFollowLast(sets: seq<set<string>>, hosts: set<string>)
    requires sets != []
    ensures var last := sets[|sets| - 1];
            MayFollow(sets, hosts) <==> !(|last| >= 5 && |last - hosts| > |last| / 4)
  {
  }

  lemma ChainExtends(sets: seq<set<string>>, hosts: set<string>)
    requires Chain(sets) && GoodHosts(hosts) && MayFollow(sets, hosts)
    ensures Chain(sets + [hosts])
  {
  }

  lemma EndOfChain(sets: seq<set<string>>)
    requires Chain(sets) && sets != []
    ensures GoodHosts(sets[|sets| - 1])
  {
  }

  /** At most a quarter of the last published hosts are missing, if they were five or more. */
  ghost predicate Within(sets: seq<set<string>>, hosts: set<string>) {
    || sets == []
    || |sets[|sets| - 1]| < 5
    || 4 * |sets[|sets| - 1] - hosts| <= |sets[|sets| - 1]|
  }

  lemma AcceptedAreGood(routers: seq<Router>, hosts: set<string>)
    requires HOME in hosts && Accepted(routers, hosts)
    ensures GoodHosts(hosts)
  {
  }

  class Generator {
    const ip: string
    var file: Option<string>
    ghost var published: seq<set<string>>

    /** The file is absent, or holds the last of a chain of plausible host sets. */
    ghost predicate Valid()
      reads this
    {
      && IsIPv4(ip) && Chain(published)
      && (file.None? <==> published == [])
      && (file.Some? ==> Holds(file.value, ip, published[|published| - 1]))
    }

    constructor (address: string, f: Option<string>, ghost hosts: set<string>)
      requires IsIPv4(address)
      requires f.Some? ==> GoodHosts(hosts) && Holds(f.value, address, hosts)
      ensures Valid() && file == f && ip == address
    {
      ip, file := address, f;
      published := if f.Some? then [hosts] else [];
    }

    /** Replaces the file atomically or leaves it; unchanged content is not written again. */
    method Publish(content: string, replaced: bool) returns (changed: bool)
      modifies this`file
      ensures file == if changed then Some(content) else old(file)
      ensures changed ==> replaced && old(file) != Some(content)
      ensures !changed ==> old(file) == Some(content) || !replaced
    {
      if file == Some(content) {
        return false;
      }
      if replaced {
        file := Some(content);
      }
      return replaced;
    }

    /** The guard: a file of five or more hosts may lose at most a quarter of them at once. */
    method Plausible(hosts: set<string>) returns (ok: bool)
      requires Valid()
      ensures ok <==> MayFollow(published, hosts)
      ensures ok <==> Within(published, hosts)
    {
      hide Holds, ZoneSet, IsIPv4, Chain, ValidHost, MayFollow;
      if file.None? {
        MayFollowNothing(hosts);
        return true;
      }
      ghost var last := published[|published| - 1];
      assert ZoneSet(file.value) == last by {
        EndOfChain(published);
        ParsedIsWhatItHolds(file.value, ip, last);
      }
      MayFollowLast(published, hosts);
      var previous := ZoneSet(file.value);
      return !(|previous| >= 5 && |previous - hosts| > |previous| / 4);
    }

    method PollOnce(p: Poll)
      requires Valid()
      modifies this
      ensures Valid() && old(published) <= published
      ensures |published| <= |old(published)| + 1
      ensures file != old(file) ==> published != old(published)
      ensures old(file).Some? ==> file.Some?
      ensures p.routers.None? || !p.readable ==> file == old(file)
      ensures p.routers.Some? && p.readable ==>
                exists hosts: set<string> ::
                  && (forall h :: h in hosts <==> ValidHost(h) && NamedBy(p.routers.value, h))
                  && if HOME in hosts && Within(old(published), hosts) && p.replaced
                     then file.Some? && Holds(file.value, ip, hosts)
                     else file == old(file)
    {
      hide Chain, Holds, IsIPv4, MayFollow, Render, GoodHosts, ValidHost, Accepted, NamedBy, Within;
      if p.routers.None? || !p.readable {
        return;
      }
      var hosts := HostsFromRouters(p.routers.value);
      var sorted := SortedHosts(hosts);
      RenderedHolds(sorted, ip, hosts);
      if HOME !in hosts {
        return;
      }
      assert GoodHosts(hosts) by { AcceptedAreGood(p.routers.value, hosts); }
      var plausible := Plausible(hosts);
      if !plausible {
        return;
      }
      ChainExtends(published, hosts);
      var changed := Publish(Render(sorted, ip), p.replaced);
      if changed {
        published := published + [hosts];
      }
    }

    /** On every run of polls the file is some rendered good set, and successive sets are plausible. */
    method Run(polls: seq<Poll>)
      requires Valid()
      modifies this
      ensures Valid() && old(published) <= published
      ensures old(file).Some? ==> file.Some?
    {
      for i := 0 to |polls|
        invariant Valid() && old(published) <= published
        invariant old(file).Some? ==> file.Some?
      {
        PollOnce(polls[i]);
      }
    }
  }

  // ---------------------------------------------------------------- how fast the set may shrink

  lemma PlausibleSize(previous: set<string>, hosts: set<string>)
    requires PlausibleChange(previous, hosts) && |previous| >= 5
    ensures 4 * |hosts| >= 3 * |previous|
  {
    assert previous == (previous - hosts) + (previous * hosts);
    SubsetSize(previous * hosts, hosts);
  }

  function Pow(b: nat, k: nat): nat {
    if k == 0 then 1 else b * Pow(b, k - 1)
  }

  /** After k publishes at least (3/4)^k of the records remain, while no earlier set had fewer than five. */
  lemma {:induction false} GeometricBound(sets: seq<set<string>>, k: nat)
    requires Chain(sets) && k < |sets|
    requires forall i :: 0 <= i < k ==> |sets[i]| >= 5
    ensures Pow(4, k) * |sets[k]| >= Pow(3, k) * |sets[0]|
  {
    if k > 0 {
      GeometricBound(sets, k - 1);
      PlausibleSize(sets[k - 1], sets[k]);
      ShrinkStep(Pow(4, k - 1), Pow(3, k - 1), |sets[k - 1]|, |sets[k]|, |sets[0]|);
    }
  }

  lemma ShrinkStep(p: nat, q: nat, a: nat, b: nat, n: nat)
    requires p * a >= q * n && 4 * b >= 3 * a
    ensures 4 * p * b >= 3 * q * n
  {
    assert 4 * p * b == p * (4 * b) >= p * (3 * a) == 3 * (p * a);
    assert 3 * q * n == 3 * (q * n);
  }
}
