/** The two ends of the DNS pipeline together: whether the consumer takes what the publisher writes. */
module DnsPipeline {
  import opened Text
  import opened DnsGenerator
  import R = DnsResolver

  const VIP: string := "10.10.10.20"

  lemma SplitStep(hosts: seq<string>, ip: string)
    requires hosts != [] && IsDnsName(hosts[0]) && IsIPv4(ip)
    ensures Split(Render(hosts, ip), '\n') ==
            [ZoneLine(hosts[0])] + ([DataLine(hosts[0], ip)] + Split(Render(hosts[1..], ip), '\n'))
  {
    hide IsDnsName, IsIPv4, ZoneLine, DataLine, ParseZone, Split;
    var h, rest := hosts[0], Render(hosts[1..], ip);
    ZoneLineParses(h);
    DataLineDoesNotParse(h, ip);
    SplitAfter(DataLine(h, ip), '\n', rest);
    SplitAfter(ZoneLine(h), '\n', DataLine(h, ip) + ['\n'] + rest);
    assert Render(hosts, ip) == ZoneLine(h) + ['\n'] + (DataLine(h, ip) + ['\n'] + rest);
  }

  /** Two lines of a file are a host's, in the resolver's syntax: a static zone and its address record. */
  predicate AreLinesOf(zone: string, data: string, h: string, ip: string) {
    && zone == "local-zone: \"" + h + ".\" static"
    && data == "local-data: \"" + h + ". 60 IN A " + ip + "\""
  }

  lemma LinesWritten(h: string, ip: string)
    ensures AreLinesOf(ZoneLine(h), DataLine(h, ip), h, ip)
  {
  }

  /** The lines of a published file: each host's, in the order of the hosts, and an empty one at the end. */
  lemma {:induction false} LinesOfRender(hosts: seq<string>, ip: string)
    requires IsIPv4(ip) && forall h :: h in hosts ==> IsDnsName(h)
    ensures var lines := Split(Render(hosts, ip), '\n');
            && |lines| == 2 * |hosts| + 1 && lines[2 * |hosts|] == ""
            && forall i :: 0 <= i < |hosts| ==> AreLinesOf(lines[2 * i], lines[2 * i + 1], hosts[i], ip)
  {
    if hosts == [] {
      SplitNothing("", '\n');
    } else {
      hide IsDnsName, IsIPv4, Split, Render, AreLinesOf, ZoneLine, DataLine;
      var h, tail := hosts[0], hosts[1..];
      LinesOfRender(tail, ip);
      SplitStep(hosts, ip);
      LinesWritten(h, ip);
      PushTwo(ZoneLine(h), DataLine(h, ip), Split(Render(tail, ip), '\n'), hosts, ip);
    }
  }

  lemma PushTwo(zone: string, data: string, rest: seq<string>, hosts: seq<string>, ip: string)
    requires hosts != [] && AreLinesOf(zone, data, hosts[0], ip) && |rest| == 2 * |hosts[1..]| + 1
    requires forall i :: 0 <= i < |hosts[1..]| ==> AreLinesOf(rest[2 * i], rest[2 * i + 1], hosts[1..][i], ip)
    ensures var lines := [zone] + ([data] + rest);
            && |lines| == 2 * |hosts| + 1 && lines[2 * |hosts|] == rest[2 * |hosts[1..]|]
            && forall i :: 0 <= i < |hosts| ==> AreLinesOf(lines[2 * i], lines[2 * i + 1], hosts[i], ip)
  {
    hide AreLinesOf;
    var lines := [zone] + ([data] + rest);
    forall i | 0 <= i < |hosts| ensures AreLinesOf(lines[2 * i], lines[2 * i + 1], hosts[i], ip) {
      if i > 0 {
        assert AreLinesOf(rest[2 * (i - 1)], rest[2 * (i - 1) + 1], hosts[1..][i - 1], ip);
        assert lines[2 * i] == rest[2 * (i - 1)] && lines[2 * i + 1] == rest[2 * (i - 1) + 1];
      }
    }
  }

  /** The same for whatever set a file holds: exactly these lines, in the sorted order of the hosts. */
  lemma PublishedLines(text: string, ip: string, hosts: set<string>, l: string)
    requires IsIPv4(ip) && Holds(text, ip, hosts) && forall h :: h in hosts ==> ValidHost(h)
    ensures l in Split(text, '\n') <==>
              || l == ""
              || exists h :: h in hosts && (l == "local-zone: \"" + h + ".\" static"
                                            || l == "local-data: \"" + h + ". 60 IN A " + ip + "\"")
  {
    hide IsDnsName, IsIPv4, Split, Render;
    var s :| SortedAs(s, hosts) && text == Render(s, ip);
    assert forall h :: h in s ==> IsDnsName(h);
    LinesOfRender(s, ip);
    var lines := Split(text, '\n');
    forall h | h in s
      ensures ("local-zone: \"" + h + ".\" static") in lines
      ensures ("local-data: \"" + h + ". 60 IN A " + ip + "\"") in lines
    {
      var i :| 0 <= i < |s| && s[i] == h;
      assert lines[2 * i] in lines && lines[2 * i + 1] in lines;
    }
    assert lines[2 * |s|] in lines;
    if l in lines && l != "" {
      var k :| 0 <= k < |lines| && lines[k] == l;
      var i := k / 2;
      assert i < |s| && (k == 2 * i || k == 2 * i + 1);
      assert s[i] in s && s[i] in hosts;
    }
  }

  /** A data line determines its host and its address. */
  lemma DataLineIsInjective(h: string, ip: string, h': string, ip': string)
    requires IsDnsName(h) && IsDnsName(h') && DataLine(h, ip) == DataLine(h', ip')
    ensures h == h' && ip == ip'
  {
    hide IsDnsName;
    var n := |"local-data: \""|;
    var line := DataLine(h, ip);
    NameEnds(h, ip);
    NameEnds(h', ip');
    assert line[n..][..|h|] == h && line[n..][..|h'|] == h';
    assert line[n + |h| + |". 60 IN A "|..|line| - 1] == ip;
    assert line[n + |h'| + |". 60 IN A "|..|line| - 1] == ip';
  }

  lemma NameEnds(h: string, ip: string)
    requires IsDnsName(h)
    ensures IndexOf(DataLine(h, ip)[|"local-data: \""|..], ' ') == |h| + 1
  {
    var rest := DataLine(h, ip)[|"local-data: \""|..];
    assert rest[..|h|] == h && rest[|h|] == '.' && rest[|h| + 1] == ' ';
    forall i | 0 <= i < |h| + 1 ensures rest[i] != ' ' {
      if i < |h| {
        HostChars(h, i);
        assert rest[i] == h[i];
      }
    }
    IndexOfFirst(rest, ' ', |h| + 1);
  }

  lemma HomeRecordIsDataLine()
    ensures R.HOME_RECORD == DataLine(HOME, VIP)
  {
    var named := "local-data: \"home.danhughes.dev";
    assert "local-data: \"" + HOME == named;
    var typed := "local-data: \"home.danhughes.dev. 60 IN A ";
    assert named + ". 60 IN A " == typed;
    assert typed + VIP + "\"" == R.HOME_RECORD;
  }

  lemma Labels()
    ensures IsLabel("home") && IsLabel("danhughes") && IsLabel("dev")
  {
  }

  lemma HomeIsName()
    ensures IsDnsName(HOME)
  {
    hide Split, IsLabel;
    Labels();
    var rest := "danhughes.dev";
    assert rest == "danhughes" + ['.'] + "dev";
    SplitNothing("dev", '.');
    SplitAfter("danhughes", '.', "dev");
    assert HOME == "home" + ['.'] + rest;
    SplitAfter("home", '.', rest);
    assert Split(HOME, '.') == ["home", "danhughes", "dev"];
  }

  lemma VipIsAddress()
    ensures IsIPv4(VIP)
  {
    hide Split;
    var two, three := "10.20", "10.10.20";
    assert two == "10" + ['.'] + "20" && three == "10" + ['.'] + two && VIP == "10" + ['.'] + three;
    SplitNothing("20", '.');
    SplitAfter("10", '.', "20");
    SplitAfter("10", '.', two);
    SplitAfter("10", '.', three);
    assert Split(VIP, '.') == ["10", "10", "10", "20"];
  }

  /** The consumer's check looks for one line of the file. */
  lemma HomeRecordIsLine(x: string)
    ensures R.HasHomeRecord(x) <==> DataLine(HOME, VIP) in Split(x, '\n')
  {
    hide Split, PieceAt, DataLine, IsDnsName, IsIPv4;
    HomeRecordIsDataLine();
    HomeIsName();
    VipIsAddress();
    DataLineDoesNotParse(HOME, VIP);
    var line := DataLine(HOME, VIP);
    if line in Split(x, '\n') {
      var i := PieceFromSplit(x, '\n', line);
      PieceIsInside(x, '\n', line, i);
    }
    if i: nat :| i <= |x| && PieceAt(x, '\n', line, i) {
      PieceInSplit(x, '\n', line, i);
    }
  }

  lemma PieceIsInside(s: string, c: char, w: string, i: nat)
    requires PieceAt(s, c, w, i)
    ensures i <= |s|
  {
  }

  /** A published file has the record that the consumer asks for exactly if home is among its hosts and its
      address is the one that the consumer is written for. */
  lemma RecordIffHomeAtVip(text: string, ip: string, hosts: set<string>)
    requires IsIPv4(ip) && Holds(text, ip, hosts) && forall h :: h in hosts ==> ValidHost(h)
    ensures R.HasHomeRecord(text) <==> HOME in hosts && ip == VIP
  {
    hide IsDnsName, IsIPv4, Split, R.HasHomeRecord, ZoneLine, DataLine;
    var record := DataLine(HOME, VIP);
    HomeRecordIsLine(text);
    PublishedLines(text, ip, hosts, record);
    forall h ensures AreLinesOf(ZoneLine(h), DataLine(h, ip), h, ip) {
      LinesWritten(h, ip);
    }
    HomeIsName();
    DataLineIsSomething(HOME, VIP);
    forall h ensures record != ZoneLine(h) {
      ZoneIsNotData(h, HOME, VIP);
    }
    assert HOME in hosts ==> IsDnsName(HOME);
    if h :| h in hosts && record == DataLine(h, ip) {
      DataLineIsInjective(HOME, VIP, h, ip);
    }
  }

  lemma DataLineIsSomething(h: string, ip: string)
    ensures DataLine(h, ip) != ""
  {
  }

  lemma ZoneIsNotData(h: string, h': string, ip: string)
    ensures ZoneLine(h) != DataLine(h', ip)
  {
    assert DataLine(h', ip)[6] == 'd' && OPENING[6] == 'z' && ZoneLine(h)[6] == OPENING[6];
  }

  /** So whatever the generator has published for that address is acceptable exactly if the configuration
      check says so, and for no other address is it ever acceptable. */
  lemma PublishedIsAcceptableIff(g: Generator, tools: R.Tools)
    requires g.Valid() && g.file.Some?
    ensures tools.Accepts(g.file.value) <==> g.ip == VIP && tools.check(g.file.value)
  {
    hide IsIPv4, Holds, R.HasHomeRecord, ValidHost;
    var hosts := g.published[|g.published| - 1];
    EndOfChain(g.published);
    RecordIffHomeAtVip(g.file.value, g.ip, hosts);
    if g.file.value == "" {
      EmptyHasNoRecord();
    }
  }

  lemma EmptyHasNoRecord()
    ensures !R.HasHomeRecord("")
  {
  }

  /** A published file that stays and passes the configuration check is installed at the first reload that
      succeeds. */
  lemma PublishedIsInstalled(g: Generator, tools: R.Tools, runtime: string, polls: seq<R.Poll>)
    requires g.Valid() && g.file.Some? && g.ip == VIP && tools.check(g.file.value)
    requires forall p :: p in polls ==> p.generated == g.file
    ensures R.InstalledAfter(tools, runtime, polls) ==
            if exists p :: p in polls && p.reloadOk then g.file.value else runtime
  {
    hide IsIPv4, Holds, R.HasHomeRecord, ValidHost;
    PublishedIsAcceptableIff(g, tools);
    R.StableFileIsInstalled(tools, runtime, g.file.value, polls);
  }
}
