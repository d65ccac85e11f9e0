/**
 * The text rules of IpsecManager.py that only read: the `conn` header and
 * `leftsubnet=`/`rightsubnet=` patterns, the tunnel listing of the managed
 * region of ipsec.conf, the lookups by tunnel name and by source address,
 * the gateway.conf extractors, the command strings the manager emits, the
 * excision predicates of `removeIpsecTunnel` and the decisions of
 * `addIpsecTunnel`. Files are sequences of lines without their terminators.
 */
module IpsecConfig {
  import opened Wrappers
  import opened Strings
  import opened UtilityMethods
  import opened Shell

  const IpsecConfTitleLine := "### IpsecManager Tunnels ###"
  const GatewayOvsPort := "veth_ovs"
  const GatewayInterfaceName := "veth_ipsec"

  /** A listed tunnel: its name and the addresses found in its block, if any. */
  datatype Tunnel = Tunnel(name: string, sourceIp: Option<string>, destIp: Option<string>)

  // ---------------------------------------------------------------------
  // Patterns
  // ---------------------------------------------------------------------

  /** The name `^conn (\S+)$` captures in a line of ipsec.conf, if the line is a tunnel header. */
  function TunnelHeaderName(line: string): (r: Option<string>)
    ensures r.Some? ==> r.value != "" && NoSpace(r.value) && line == "conn " + r.value
  {
    if |line| > 5 && line[..5] == "conn " && NoSpace(line[5..]) then Some(line[5..]) else None
  }

  /** Every `conn <name>` line with a non-empty, blank-free name is a header naming that tunnel. */
  lemma HeaderOfName(name: string)
    requires name != "" && NoSpace(name)
    ensures TunnelHeaderName("conn " + name) == Some(name)
  {
    var line := "conn " + name;
    assert line[..5] == "conn " && line[5..] == name;
  }

  /** The length of the longest run of digits at the start of `s`. */
  function DigitRun(s: string): (r: nat)
    ensures r <= |s| && AllDigits(s[..r])
    ensures r < |s| ==> !IsDigit(s[r])
    decreases |s|
  {
    if s != [] && IsDigit(s[0]) then
      var rest := DigitRun(s[1..]);
      assert s[..1 + rest] == [s[0]] + s[1..][..rest];
      1 + rest
    else 0
  }

  /**
   * The length of what `(\d+\.){groups}\d+` matches at the start of `s`.
   * The digit runs are greedy and a dot must follow each of the first
   * `groups` ones, so the match takes maximal runs.
   */
  function DottedQuadLength(s: string, groups: nat): (r: Option<nat>)
    ensures r.Some? ==> 0 < r.value <= |s|
    ensures r.Some? && r.value < |s| ==> !IsDigit(s[r.value])
    decreases groups
  {
    var n := DigitRun(s);
    if n == 0 then None
    else if groups == 0 then Some(n)
    else if n < |s| && s[n] == '.' then
      match DottedQuadLength(s[n + 1..], groups - 1)
      case None => None
      case Some(m) => Some(n + 1 + m)
    else None
  }

  lemma DigitsHaveNoDot(s: string)
    requires AllDigits(s)
    ensures '.' !in s
  {
  }

  /** What the pattern matches is `groups + 1` digit runs joined by dots. */
  lemma {:induction false} DottedQuadLengthFields(s: string, groups: nat)
    requires DottedQuadLength(s, groups).Some?
    ensures var m := DottedQuadLength(s, groups).value;
            |Split(s[..m], '.')| == groups + 1 &&
            forall k :: 0 <= k < groups + 1 ==> IsDigits(Split(s[..m], '.')[k])
    decreases groups
  {
    var n := DigitRun(s);
    var m := DottedQuadLength(s, groups).value;
    DigitsHaveNoDot(s[..n]);
    if groups == 0 {
      SplitWithoutSeparator(s[..n], '.');
    } else {
      var tail := s[n + 1..];
      var m' := DottedQuadLength(tail, groups - 1).value;
      DottedQuadLengthFields(tail, groups - 1);
      assert s[..m] == s[..n] + ['.'] + tail[..m'];
      SplitAfterField(s[..n], '.', tail[..m']);
      var fields := Split(s[..m], '.');
      assert fields == [s[..n]] + Split(tail[..m'], '.');
      forall k | 0 <= k < groups + 1 ensures IsDigits(fields[k]) {
        if k > 0 {
          assert fields[k] == Split(tail[..m'], '.')[k - 1];
        }
      }
    }
  }

  /** Whether `keyword=` followed by a dotted quad starts at position `p` of `text`. */
  predicate KeywordIpAt(text: string, keyword: string, p: nat)
    requires p <= |text|
  {
    StartsWith(text[p..], keyword + "=") && DottedQuadLength(text[p + |keyword| + 1..], 3).Some?
  }

  /** The dotted quad captured by a match of `keyword=` at position `p`. */
  function IpAt(text: string, keyword: string, p: nat): (r: string)
    requires p <= |text| && KeywordIpAt(text, keyword, p)
    ensures IsDottedQuad(r)
  {
    var after := text[p + |keyword| + 1..];
    DottedQuadLengthFields(after, 3);
    after[..DottedQuadLength(after, 3).value]
  }

  /** The leftmost position, from `p` on, where `keyword=` and a dotted quad match. */
  function FirstKeywordIp(text: string, keyword: string, p: nat): (r: Option<nat>)
    requires p <= |text|
    ensures r.Some? ==> p <= r.value <= |text| && KeywordIpAt(text, keyword, r.value)
    ensures r.Some? ==> forall q :: p <= q < r.value ==> !KeywordIpAt(text, keyword, q)
    ensures r.None? ==> forall q :: p <= q <= |text| ==> !KeywordIpAt(text, keyword, q)
    decreases |text| - p
  {
    if KeywordIpAt(text, keyword, p) then Some(p)
    else if p == |text| then None
    else FirstKeywordIp(text, keyword, p + 1)
  }

  /** `re.search(keyword + '=((\d+\.){3}\d+)', line.strip())` and its captured address. */
  function SearchKeywordIp(line: string, keyword: string): (r: Option<string>)
    ensures r.Some? ==> IsDottedQuad(r.value)
  {
    var text := Strip(line);
    match FirstKeywordIp(text, keyword, 0)
    case None => None
    case Some(p) => Some(IpAt(text, keyword, p))
  }

  /** The first of `tunnelLines`, from `from` on, where the pattern matches; `|tunnelLines|` when none does. */
  function FirstMatchingLine(tunnelLines: seq<string>, keyword: string, from: nat): (r: nat)
    requires from <= |tunnelLines|
    ensures from <= r <= |tunnelLines|
    ensures forall i :: from <= i < r ==> SearchKeywordIp(tunnelLines[i], keyword).None?
    ensures r < |tunnelLines| ==> SearchKeywordIp(tunnelLines[r], keyword).Some?
    decreases |tunnelLines| - from
  {
    if from == |tunnelLines| then from
    else if SearchKeywordIp(tunnelLines[from], keyword).Some? then from
    else FirstMatchingLine(tunnelLines, keyword, from + 1)
  }

  /** `getIpFromTunnelLines`: the address of the first line, in order, where the pattern matches. */
  function GetIpFromTunnelLines(tunnelLines: seq<string>, keyword: string): (r: Option<string>)
    ensures r.Some? ==> IsDottedQuad(r.value)
    ensures r.None? <==> forall i :: 0 <= i < |tunnelLines| ==> SearchKeywordIp(tunnelLines[i], keyword).None?
    ensures r.Some? ==> exists i :: 0 <= i < |tunnelLines| && SearchKeywordIp(tunnelLines[i], keyword) == r &&
                          forall j :: 0 <= j < i ==> SearchKeywordIp(tunnelLines[j], keyword).None?
  {
    var k := FirstMatchingLine(tunnelLines, keyword, 0);
    if k == |tunnelLines| then None else SearchKeywordIp(tunnelLines[k], keyword)
  }

  // ---------------------------------------------------------------------
  // Listing the tunnels of the managed region
  // ---------------------------------------------------------------------

  /** The lines `lines[k:k + n]`: a window of `n` lines, cut short at the end of the file. */
  function Window(lines: seq<string>, k: nat, n: nat): (r: seq<string>)
    requires k <= |lines|
    ensures |r| <= n && k + |r| <= |lines|
    ensures forall i :: 0 <= i < |r| ==> r[i] == lines[k + i]
    ensures k + n <= |lines| ==> |r| == n
    ensures k + n > |lines| ==> k + |r| == |lines|
  {
    lines[k..if k + n <= |lines| then k + n else |lines|]
  }

  /** The first line whose stripped text is the title line. */
  function TitleIndex(lines: seq<string>): (r: Option<nat>)
    ensures r.Some? ==> r.value < |lines| && Strip(lines[r.value]) == IpsecConfTitleLine
    ensures r.Some? ==> forall k :: 0 <= k < r.value ==> Strip(lines[k]) != IpsecConfTitleLine
    ensures r.None? ==> forall k :: 0 <= k < |lines| ==> Strip(lines[k]) != IpsecConfTitleLine
  {
    if lines == [] then None
    else if Strip(lines[0]) == IpsecConfTitleLine then Some(0)
    else
      var r := TitleIndex(lines[1..]);
      assert forall k :: 1 <= k < |lines| ==> lines[k] == lines[1..][k - 1];
      match r
      case None => None
      case Some(t) => Some(t + 1)
  }

  /** A listed tunnel: its name and the first `leftsubnet=` and `rightsubnet=` addresses of its window. */
  function TunnelOfWindow(name: string, window: seq<string>): Tunnel {
    Tunnel(name, GetIpFromTunnelLines(window, "leftsubnet"), GetIpFromTunnelLines(window, "rightsubnet"))
  }

  /** The tunnel whose header is line `k`, read from the `n`-line window starting there; none if it is no header. */
  function TunnelAt(lines: seq<string>, k: nat, n: nat): seq<Tunnel>
    requires k < |lines|
  {
    match TunnelHeaderName(lines[k])
    case None => []
    case Some(name) =>
      [TunnelOfWindow(name, Window(lines, k, n))]
  }

  /** The tunnels whose headers are at line `from` or later, in file order. */
  function TunnelsFrom(lines: seq<string>, from: nat, n: nat): seq<Tunnel>
    requires from <= |lines|
    decreases |lines| - from
  {
    if from == |lines| then [] else TunnelAt(lines, from, n) + TunnelsFrom(lines, from + 1, n)
  }

  /**
   * What `listIpsecTunnels` returns for an ipsec.conf of `lines` and a
   * tunnel template of `n` lines: the tunnels after the title line, or none
   * when there is no title line.
   */
  function ListTunnels(lines: seq<string>, n: nat): (r: seq<Tunnel>)
    ensures (forall k :: 0 <= k < |lines| ==> Strip(lines[k]) != IpsecConfTitleLine) ==> r == []
  {
    match TitleIndex(lines)
    case None => []
    case Some(t) => TunnelsFrom(lines, t + 1, n)
  }

  /** `getIpsecTunnelNames`. */
  function TunnelNames(tunnels: seq<Tunnel>): (r: seq<string>)
    ensures |r| == |tunnels| && forall i :: 0 <= i < |r| ==> r[i] == tunnels[i].name
  {
    seq(|tunnels|, i requires 0 <= i < |tunnels| => tunnels[i].name)
  }

  /** The walk of `listIpsecTunnels` once it sees the first title line at `t`: the listing is what follows. */
  lemma TitleFoundAt(lines: seq<string>, t: nat, n: nat)
    requires t < |lines| && Strip(lines[t]) == IpsecConfTitleLine
    requires forall k :: 0 <= k < t ==> Strip(lines[k]) != IpsecConfTitleLine
    ensures ListTunnels(lines, n) == TunnelsFrom(lines, t + 1, n)
  {
    var r := TitleIndex(lines);
    assert r.Some?;
    assert !(r.value < t);
    assert !(t < r.value);
  }

  /** One step of the walk after the title line: a header adds the tunnel read from its window, any other line nothing. */
  lemma ListingStep(lines: seq<string>, k: nat, n: nat)
    requires k < |lines|
    ensures TunnelHeaderName(lines[k]).None? ==> TunnelsFrom(lines, k, n) == TunnelsFrom(lines, k + 1, n)
    ensures TunnelHeaderName(lines[k]).Some? ==>
              TunnelsFrom(lines, k, n) ==
              [TunnelOfWindow(TunnelHeaderName(lines[k]).value, lines[k..if k + n <= |lines| then k + n else |lines|])] +
              TunnelsFrom(lines, k + 1, n)
  {
  }

  /** The tunnel read at a line depends only on the lines from there on. */
  lemma TunnelAtOfSuffix(x: seq<string>, i: nat, y: seq<string>, j: nat, n: nat)
    requires i < |x| && j < |y| && x[i..] == y[j..]
    ensures TunnelAt(x, i, n) == TunnelAt(y, j, n)
  {
    assert x[i] == x[i..][0] == y[j..][0] == y[j];
    var w, v := Window(x, i, n), Window(y, j, n);
    assert |w| == |v|;
    forall m | 0 <= m < |w| ensures w[m] == v[m] {
      assert w[m] == x[i..][m] == y[j..][m] == v[m];
    }
    assert w == v;
  }

  /** The listing from a line depends only on the lines from there on. */
  lemma {:induction false} TunnelsFromSuffix(x: seq<string>, i: nat, y: seq<string>, j: nat, n: nat)
    requires i <= |x| && j <= |y| && x[i..] == y[j..]
    ensures TunnelsFrom(x, i, n) == TunnelsFrom(y, j, n)
    decreases |x| - i
  {
    if i < |x| {
      assert x[i + 1..] == x[i..][1..] == y[j..][1..] == y[j + 1..];
      TunnelsFromSuffix(x, i + 1, y, j + 1, n);
      TunnelAtOfSuffix(x, i, y, j, n);
    } else {
      assert |y[j..]| == 0;
    }
  }

  /**
   * Headers at or before the first title line are ignored: the listing
   * depends only on the lines after it.
   */
  lemma ListingIgnoresLinesBeforeTitle(before: seq<string>, title: string, after: seq<string>, n: nat)
    requires forall k :: 0 <= k < |before| ==> Strip(before[k]) != IpsecConfTitleLine
    requires Strip(title) == IpsecConfTitleLine
    ensures ListTunnels(before + [title] + after, n) == TunnelsFrom(after, 0, n)
  {
    var lines := before + [title] + after;
    assert lines[|before|] == title;
    assert forall k :: 0 <= k < |before| ==> lines[k] == before[k];
    assert TitleIndex(lines) == Some(|before|);
    assert lines[|before| + 1..] == after[0..];
    TunnelsFromSuffix(lines, |before| + 1, after, 0, n);
  }

  /** The names a header line contributes to the listing: its own, or none. */
  lemma TunnelAtNames(lines: seq<string>, k: nat, n: nat)
    requires k < |lines|
    ensures TunnelHeaderName(lines[k]).None? ==> TunnelNames(TunnelAt(lines, k, n)) == []
    ensures TunnelHeaderName(lines[k]).Some? ==> TunnelNames(TunnelAt(lines, k, n)) == [TunnelHeaderName(lines[k]).value]
  {
  }

  lemma NamesOfAppend(a: seq<Tunnel>, b: seq<Tunnel>)
    ensures TunnelNames(a + b) == TunnelNames(a) + TunnelNames(b)
  {
  }

  /** Whether a header naming `name` lies at line `from` or later. */
  predicate HeaderFrom(lines: seq<string>, from: nat, name: string) {
    exists k :: from <= k < |lines| && TunnelHeaderName(lines[k]) == Some(name)
  }

  /** A header at or after `from` is either at `from` or after it. */
  lemma HeaderFromStep(lines: seq<string>, from: nat, name: string)
    requires from < |lines|
    ensures HeaderFrom(lines, from, name) <==>
              TunnelHeaderName(lines[from]) == Some(name) || HeaderFrom(lines, from + 1, name)
  {
    if HeaderFrom(lines, from, name) {
      var k :| from <= k < |lines| && TunnelHeaderName(lines[k]) == Some(name);
      if k != from {
        assert from + 1 <= k;
      }
    }
    if TunnelHeaderName(lines[from]) == Some(name) {
      assert from <= from < |lines|;
    }
  }

  /** A name is listed exactly when a header naming it lies at line `from` or later. */
  lemma {:induction false} ListedIffHeader(lines: seq<string>, from: nat, n: nat, name: string)
    requires from <= |lines|
    ensures name in TunnelNames(TunnelsFrom(lines, from, n)) <==> HeaderFrom(lines, from, name)
    decreases |lines| - from
  {
    if from < |lines| {
      ListedIffHeader(lines, from + 1, n, name);
      HeaderFromStep(lines, from, name);
      var head := TunnelAt(lines, from, n);
      var rest := TunnelsFrom(lines, from + 1, n);
      assert TunnelsFrom(lines, from, n) == head + rest;
      NamesOfAppend(head, rest);
      TunnelAtNames(lines, from, n);
      var names := TunnelNames(head) + TunnelNames(rest);
      assert name in names <==> name in TunnelNames(head) || name in TunnelNames(rest);
      assert name in TunnelNames(head) <==> TunnelHeaderName(lines[from]) == Some(name);
    } else {
      assert TunnelsFrom(lines, from, n) == [];
      assert !HeaderFrom(lines, from, name);
    }
  }

  /** Every listed tunnel comes from a header after the title line, and every such header is listed. */
  lemma ListedIffHeaderAfterTitle(lines: seq<string>, n: nat, name: string)
    ensures name in TunnelNames(ListTunnels(lines, n)) <==>
              TitleIndex(lines).Some? &&
              exists k :: TitleIndex(lines).value < k < |lines| && TunnelHeaderName(lines[k]) == Some(name)
  {
    match TitleIndex(lines)
    case None =>
      assert ListTunnels(lines, n) == [];
    case Some(t) =>
      assert ListTunnels(lines, n) == TunnelsFrom(lines, t + 1, n);
      ListedIffHeader(lines, t + 1, n, name);
  }

  // ---------------------------------------------------------------------
  // Lookups by tunnel name and by source address
  // ---------------------------------------------------------------------

  /** The first line, from `from` on, that is exactly `conn <name>` (the search starts at the top of the file). */
  function ConnLineIndex(lines: seq<string>, tunnelName: string, from: nat): (r: Option<nat>)
    requires from <= |lines|
    ensures r.Some? ==> from <= r.value < |lines| && lines[r.value] == "conn " + tunnelName
    ensures r.Some? ==> forall k :: from <= k < r.value ==> lines[k] != "conn " + tunnelName
    ensures r.None? ==> forall k :: from <= k < |lines| ==> lines[k] != "conn " + tunnelName
    decreases |lines| - from
  {
    if from == |lines| then None
    else if lines[from] == "conn " + tunnelName then Some(from)
    else ConnLineIndex(lines, tunnelName, from + 1)
  }

  /** `getIpFromIpsecConf`: the address in the window of the first `conn <name>` line of the whole file. */
  function GetIpFromIpsecConf(lines: seq<string>, tunnelName: string, keyword: string, n: nat): (r: Option<string>)
    ensures r.Some? ==> IsDottedQuad(r.value)
    ensures ConnLineIndex(lines, tunnelName, 0).None? ==> r.None?
  {
    match ConnLineIndex(lines, tunnelName, 0)
    case None => None
    case Some(k) => GetIpFromTunnelLines(Window(lines, k, n), keyword)
  }

  /** `getTunnelThatSharesSourceIp`: the first other tunnel, in listing order, with the same source address. */
  function GetTunnelThatSharesSourceIp(tunnels: seq<Tunnel>, tunnelName: string, sourceIp: Option<string>): (r: Option<Tunnel>)
    ensures r.Some? ==> r.value.name != tunnelName && r.value.sourceIp == sourceIp
    ensures r.None? <==> forall i :: 0 <= i < |tunnels| ==> !(tunnels[i].name != tunnelName && tunnels[i].sourceIp == sourceIp)
    ensures r.Some? ==> exists i :: 0 <= i < |tunnels| && tunnels[i] == r.value &&
                          forall j :: 0 <= j < i ==> !(tunnels[j].name != tunnelName && tunnels[j].sourceIp == sourceIp)
  {
    if tunnels == [] then None
    else if tunnels[0].name != tunnelName && tunnels[0].sourceIp == sourceIp then Some(tunnels[0])
    else
      var r := GetTunnelThatSharesSourceIp(tunnels[1..], tunnelName, sourceIp);
      assert forall i :: 1 <= i < |tunnels| ==> tunnels[i] == tunnels[1..][i - 1];
      assert r.Some? ==> exists i :: 0 <= i < |tunnels| && tunnels[i] == r.value &&
                           forall j :: 0 <= j < i ==> !(tunnels[j].name != tunnelName && tunnels[j].sourceIp == sourceIp)
        by {
          if r.Some? {
            var i :| 0 <= i < |tunnels| - 1 && tunnels[1..][i] == r.value &&
                     forall j :: 0 <= j < i ==> !(tunnels[1..][j].name != tunnelName && tunnels[1..][j].sourceIp == sourceIp);
            assert tunnels[i + 1] == r.value;
          }
        }
      r
  }

  /** `anotherTunnelSharesSourceIp`: a found tuple is always truthy, so this asks whether some other tunnel has the source address. */
  predicate AnotherTunnelSharesSourceIp(tunnels: seq<Tunnel>, tunnelName: string, sourceIp: Option<string>)
    ensures AnotherTunnelSharesSourceIp(tunnels, tunnelName, sourceIp) <==>
              exists i :: 0 <= i < |tunnels| && tunnels[i].name != tunnelName && tunnels[i].sourceIp == sourceIp
  {
    GetTunnelThatSharesSourceIp(tunnels, tunnelName, sourceIp).Some?
  }

  // ---------------------------------------------------------------------
  // gateway.conf
  // ---------------------------------------------------------------------

  /** The text `read()` returns for a file of `lines`: every line followed by its line break. */
  function FileText(lines: seq<string>): string {
    if lines == [] then "" else lines[0] + "\n" + FileText(lines[1..])
  }

  /** The length of the longest run of blanks at the start of `s`. */
  function SpaceRun(s: string): (r: nat)
    ensures r <= |s| && forall i :: 0 <= i < r ==> IsSpace(s[i])
    ensures r < |s| ==> !IsSpace(s[r])
    decreases |s|
  {
    if s != [] && IsSpace(s[0]) then 1 + SpaceRun(s[1..]) else 0
  }

  /** The length of the longest run of non-blanks at the start of `s`. */
  function NonSpaceRun(s: string): (r: nat)
    ensures r <= |s| && NoSpace(s[..r])
    ensures r < |s| ==> IsSpace(s[r])
    decreases |s|
  {
    if s != [] && !IsSpace(s[0]) then
      var rest := NonSpaceRun(s[1..]);
      assert s[..1 + rest] == [s[0]] + s[1..][..rest];
      1 + rest
    else 0
  }

  predicate IsHexDigit(c: char) {
    ('0' <= c <= '9') || ('a' <= c <= 'f') || ('A' <= c <= 'F')
  }

  /** `([0-9A-Fa-f]{2}:){5}[0-9A-Fa-f]{2}` matched against the whole text. */
  predicate IsMacAddress(s: string) {
    |s| == 17 && forall i :: 0 <= i < 17 ==> if i % 3 == 2 then s[i] == ':' else IsHexDigit(s[i])
  }

  /** The three value patterns of the gateway.conf extractors. */
  datatype ValuePattern = DottedQuadValue | NonSpaceValue | MacValue

  /** What the value pattern captures at the start of `s`. */
  function ValueAt(s: string, pattern: ValuePattern): (r: Option<string>)
    ensures r.Some? ==> StartsWith(s, r.value)
    ensures r.Some? && pattern == DottedQuadValue ==> IsDottedQuad(r.value)
    ensures r.Some? && pattern == NonSpaceValue ==> r.value != "" && NoSpace(r.value)
    ensures r.Some? && pattern == MacValue ==> IsMacAddress(r.value)
  {
    match pattern
    case DottedQuadValue =>
      (match DottedQuadLength(s, 3)
       case None => None
       case Some(m) => DottedQuadLengthFields(s, 3); Some(s[..m]))
    case NonSpaceValue =>
      var m := NonSpaceRun(s);
      if m == 0 then None else Some(s[..m])
    case MacValue =>
      if |s| >= 17 && IsMacAddress(s[..17]) then Some(s[..17]) else None
  }

  /**
   * `key\s+:\s+` and the value pattern at position `p` of `text`. The
   * blank runs are greedy and neither `:` nor the first character of a
   * value is blank, so each run is taken whole.
   */
  function FieldAt(text: string, key: string, pattern: ValuePattern, p: nat): (r: Option<string>)
    requires p <= |text|
    ensures r.Some? && pattern == DottedQuadValue ==> IsDottedQuad(r.value)
    ensures r.Some? && pattern == NonSpaceValue ==> r.value != "" && NoSpace(r.value)
    ensures r.Some? && pattern == MacValue ==> IsMacAddress(r.value)
  {
    if !StartsWith(text[p..], key) then None
    else
      var afterKey := text[p + |key|..];
      var w := SpaceRun(afterKey);
      if w == 0 || w == |afterKey| || afterKey[w] != ':' then None
      else
        var afterColon := afterKey[w + 1..];
        var w' := SpaceRun(afterColon);
        if w' == 0 then None else ValueAt(afterColon[w'..], pattern)
  }

  /** The leftmost position, from `p` on, where the field pattern matches. */
  function FirstFieldMatch(text: string, key: string, pattern: ValuePattern, p: nat): (r: Option<nat>)
    requires p <= |text|
    ensures r.Some? ==> p <= r.value <= |text| && FieldAt(text, key, pattern, r.value).Some?
    ensures r.Some? ==> forall q :: p <= q < r.value ==> FieldAt(text, key, pattern, q).None?
    ensures r.None? ==> forall q :: p <= q <= |text| ==> FieldAt(text, key, pattern, q).None?
    decreases |text| - p
  {
    if FieldAt(text, key, pattern, p).Some? then Some(p)
    else if p == |text| then None
    else FirstFieldMatch(text, key, pattern, p + 1)
  }

  /** `re.search` of the field pattern: what it captures at the leftmost match, if any. */
  function SearchField(text: string, key: string, pattern: ValuePattern): (r: Option<string>)
    ensures r.Some? && pattern == DottedQuadValue ==> IsDottedQuad(r.value)
    ensures r.Some? && pattern == NonSpaceValue ==> r.value != "" && NoSpace(r.value)
    ensures r.Some? && pattern == MacValue ==> IsMacAddress(r.value)
  {
    match FirstFieldMatch(text, key, pattern, 0)
    case None => None
    case Some(q) => FieldAt(text, key, pattern, q)
  }

  /** `getLocalGatewayIpFromGatewayConf`; `None` is the failed match whose `.group` raises. */
  function GetLocalGatewayIpFromGatewayConf(gatewayConf: seq<string>): (r: Option<string>)
    ensures r.Some? ==> IsDottedQuad(r.value)
  {
    SearchField(FileText(gatewayConf), "gatewayIp", DottedQuadValue)
  }

  /** `getOvsBridgeFromGatewayConf`. */
  function GetOvsBridgeFromGatewayConf(gatewayConf: seq<string>): (r: Option<string>)
    ensures r.Some? ==> r.value != "" && NoSpace(r.value)
  {
    SearchField(FileText(gatewayConf), "ovsBridge", NonSpaceValue)
  }

  /** `getLocalGatewayMacAddressFromGatewayConf`. */
  function GetLocalGatewayMacAddressFromGatewayConf(gatewayConf: seq<string>): (r: Option<string>)
    ensures r.Some? ==> IsMacAddress(r.value)
  {
    SearchField(FileText(gatewayConf), "gatewayMac", MacValue)
  }

  // ---------------------------------------------------------------------
  // Command strings
  // ---------------------------------------------------------------------

  /**
   * `getArpIpSpoofingRule`: answer ARP requests for the source address with
   * the destination address as sender. `None` when the destination is not
   * numeric, where `int()` raises.
   */
  function GetArpIpSpoofingRule(ovsBridge: string, sourceIp: string, destIp: string): (r: Option<string>)
    ensures r.Some? <==> ConvertIpToHex(destIp).Some?
    ensures r.Some? ==> r.value == ArpRulePrefix(ovsBridge, sourceIp) + ConvertIpToHex(destIp).value + ArpRuleSuffix
  {
    match ConvertIpToHex(destIp)
    case None => None
    case Some(hex) => Some(ArpRulePrefix(ovsBridge, sourceIp) + hex + ArpRuleSuffix)
  }

  function ArpRulePrefix(ovsBridge: string, sourceIp: string): string {
    "ovs-ofctl add-flow " + ovsBridge + " \"table=0, arp, nw_dst=" + sourceIp + ", in_port=" + GatewayOvsPort + ", actions=load:0x"
  }

  const ArpRuleSuffix := "->NXM_OF_ARP_SPA[], normal\""

  /**
   * For a valid destination address the rule loads eight lower-case hex
   * digits, the address's fields in order.
   */
  lemma ArpRuleOfValidAddress(ovsBridge: string, sourceIp: string, destIp: string)
    requires IsIpv4(destIp)
    ensures GetArpIpSpoofingRule(ovsBridge, sourceIp, destIp).Some?
    ensures var hex := ConvertIpToHex(destIp).value;
            |hex| == 8 && (forall i :: 0 <= i < 8 ==> IsLowerHexDigit(hex[i])) &&
            GetArpIpSpoofingRule(ovsBridge, sourceIp, destIp).value == ArpRulePrefix(ovsBridge, sourceIp) + hex + ArpRuleSuffix &&
            forall k :: 0 <= k < 4 ==> HexPairValue(hex, k) == DigitsValue(Split(destIp, '.')[k])
  {
    ConvertIpv4ToHex(destIp);
  }

  /** The rule that sends traffic from the source to the destination through the gateway port. */
  function ForwardFlowCommand(ovsBridge: string, sourceIp: string, destIp: string, gatewayMac: string): string {
    "ovs-ofctl add-flow " + ovsBridge + " table=0,ip,nw_src=" + sourceIp + ",nw_dst=" + destIp
    + ",action=mod_dl_dst:" + gatewayMac + "," + GatewayOvsPort
  }

  function RouteAddCommand(sourceIp: string): string {
    "ip route add " + sourceIp + "/32 via 0.0.0.0 dev " + GatewayInterfaceName
  }

  function RouteDeleteCommand(sourceIp: string): string {
    "ip route del " + sourceIp + "/32"
  }

  function DeleteForwardFlowCommand(ovsBridge: string, sourceIp: string, destIp: string): string {
    "ovs-ofctl del-flows " + ovsBridge + " table=0,ip,nw_src=" + sourceIp + ",nw_dst=" + destIp
  }

  function DeleteArpFlowCommand(ovsBridge: string, sourceIp: string): string {
    "ovs-ofctl del-flows " + ovsBridge + " table=0,arp,nw_dst=" + sourceIp + ",in_port=" + GatewayOvsPort
  }

  const UpdateCommand := "strongswan update"
  const SecretsCommand := "strongswan secrets"
  const StopCommand := "strongswan stop"

  /** Deleting one end of the veth pair deletes both. */
  const DeleteLinkCommand := "ip link delete " + GatewayOvsPort

  function UpCommand(name: string): string {
    "strongswan up " + name
  }

  function DownCommand(name: string): string {
    "strongswan down " + name
  }

  function DeletePortCommand(ovsBridge: string): string {
    "ovs-vsctl del-port " + ovsBridge + " " + GatewayOvsPort
  }

  /** The seven steps of `createIpsecGateway`; the link, the port and the daemon can be undone. */
  function GatewayCreationSteps(ovsBridge: string, gatewayIp: string): (r: seq<Step>)
    ensures |r| == 7
  {
    [Step("ip link add " + GatewayOvsPort + " type veth peer name " + GatewayInterfaceName, Some(DeleteLinkCommand)),
     Step("ovs-vsctl add-port " + ovsBridge + " " + GatewayOvsPort, Some(DeletePortCommand(ovsBridge))),
     Step("ip link set " + GatewayOvsPort + " up", None),
     Step("ip link set " + GatewayInterfaceName + " up", None),
     Step("echo 1 > /proc/sys/net/ipv4/ip_forward", None),
     Step("ip addr add " + gatewayIp + " dev " + GatewayInterfaceName, None),
     Step("strongswan start", Some(StopCommand))]
  }

  // ---------------------------------------------------------------------
  // Messages
  // ---------------------------------------------------------------------

  /** The error of a failed gateway step: a header naming the command, then the error's lines. */
  function ComposeError(command: string, message: string): string {
    Join(["Failed to execute '" + command + "':"] + Split(message, '\n'), "\n    ")
  }

  /**
   * The header comes first, then every line of the underlying error on a
   * line of its own, indented by four spaces.
   */
  lemma ComposeErrorLayout(command: string, message: string)
    ensures ComposeError(command, message) == "Failed to execute '" + command + "':" + PrefixEach(Split(message, '\n'), "\n    ")
    ensures forall k :: 0 <= k < |Split(message, '\n')| ==> '\n' !in Split(message, '\n')[k]
    ensures Join(Split(message, '\n'), "\n") == message
  {
    JoinIsHeadThenPrefixed("Failed to execute '" + command + "':", Split(message, '\n'), "\n    ");
    SplitFieldsAvoidSeparator(message, '\n');
    JoinSplit(message, '\n');
  }

  /** The error of `strongswan up` output that is neither success nor an authentication failure. */
  function UpFailureMessage(name: string, output: string): string {
    "Failed to set up the tunnel" + "\n" + Join(["strongswan up " + name + "'s output:"] + Split(output, '\n'), "\n    ")
  }

  function NoGatewayMessage(): string { "There is no local gateway" }

  function UnreachableMessage(name: string): string {
    "Tunnel '" + name + "' is set up locally, but the remote gateway couldn't be reached"
  }

  function NotAuthenticatedMessage(name: string): string {
    "Tunnel '" + name + "' is set up, but the connection couldn't be authenticated on the other side"
  }

  function SuccessLine(name: string): string {
    "connection '" + name + "' established successfully"
  }

  /** How the output of a `strongswan up` that exited 0 is read. */
  datatype UpResult = Established | NotAuthenticated | UpFailed

  /** The success line wins; otherwise either failure marker leaves the tunnel in place. */
  function ClassifyUp(name: string, output: string): (r: UpResult)
    ensures r == Established <==> Contains(output, SuccessLine(name))
    ensures r == NotAuthenticated <==>
              !Contains(output, SuccessLine(name)) &&
              (Contains(output, "AUTHENTICATION_FAILED") || Contains(output, "NO_PROPOSAL_CHOSEN"))
  {
    if Contains(output, SuccessLine(name)) then Established
    else if Contains(output, "AUTHENTICATION_FAILED") || Contains(output, "NO_PROPOSAL_CHOSEN") then NotAuthenticated
    else UpFailed
  }

  /** A listed tunnel the new one may not coexist with: the same name, or the same source and destination together. */
  predicate ConflictsWith(tunnel: Tunnel, name: string, sourceIp: string, destIp: string) {
    tunnel.name == name || (tunnel.sourceIp == Some(sourceIp) && tunnel.destIp == Some(destIp))
  }

  /** The index of the first listed tunnel, from `from` on, that conflicts; `|tunnels|` when none does. */
  function FirstConflict(tunnels: seq<Tunnel>, name: string, sourceIp: string, destIp: string, from: nat): (r: nat)
    requires from <= |tunnels|
    ensures from <= r <= |tunnels|
    ensures forall i :: from <= i < r ==> !ConflictsWith(tunnels[i], name, sourceIp, destIp)
    ensures r < |tunnels| ==> ConflictsWith(tunnels[r], name, sourceIp, destIp)
    decreases |tunnels| - from
  {
    if from == |tunnels| then from
    else if ConflictsWith(tunnels[from], name, sourceIp, destIp) then from
    else FirstConflict(tunnels, name, sourceIp, destIp, from + 1)
  }

  function NameTakenMessage(name: string): string {
    "A tunnel named " + name + " already exists"
  }

  function PairTakenMessage(sourceIp: string, destIp: string): string {
    "A tunnel from " + sourceIp + " to " + destIp + " already exists"
  }

  /**
   * The duplicate check of `addIpsecTunnel`: the listed tunnels are visited
   * in order and the first one with the same name, or with the same source
   * and destination, raises; the name is compared first.
   */
  function DuplicateTunnelError(tunnels: seq<Tunnel>, name: string, sourceIp: string, destIp: string): (r: Option<string>)
    ensures r.None? <==>
              forall i :: 0 <= i < |tunnels| ==>
                tunnels[i].name != name && !(tunnels[i].sourceIp == Some(sourceIp) && tunnels[i].destIp == Some(destIp))
    ensures r.Some? ==>
              var k := FirstConflict(tunnels, name, sourceIp, destIp, 0);
              k < |tunnels| &&
              r.value == (if tunnels[k].name == name then NameTakenMessage(name) else PairTakenMessage(sourceIp, destIp))
  {
    var k := FirstConflict(tunnels, name, sourceIp, destIp, 0);
    if k == |tunnels| then None
    else if tunnels[k].name == name then Some(NameTakenMessage(name))
    else Some(PairTakenMessage(sourceIp, destIp))
  }

  // ---------------------------------------------------------------------
  // Excision predicates of removeIpsecTunnel
  // ---------------------------------------------------------------------

  /** A stripped secrets line ending in `# <name>`. */
  function SecretsLineMatchesTunnel(name: string): string -> bool {
    line => EndsWith(line, "# " + name)
  }

  function SecretsLineDoesNotMatchTunnel(name: string): string -> bool {
    line => !EndsWith(line, "# " + name)
  }

  /** A stripped ipsec.conf line that is exactly `conn <name>`. */
  function ConfLineStartsTunnel(name: string): string -> bool {
    line => line == "conn " + name
  }

  /** A stripped ipsec.conf line that starts another tunnel: `conn ` and a non-blank, but not this tunnel. */
  function ConfLineStartsNextTunnel(name: string): string -> bool {
    line => |line| > 5 && line[..5] == "conn " && !IsSpace(line[5]) && line != "conn " + name
  }

  /** The secrets file loses exactly the lines that end in the tunnel's marker, whatever else they hold. */
  lemma SecretsExcisionDropsMarkedLines(lines: seq<string>, name: string)
    ensures Kept(lines, false, SecretsLineMatchesTunnel(name), SecretsLineDoesNotMatchTunnel(name))
            == Unmarked(lines, SecretsLineMatchesTunnel(name))
  {
    ComplementaryPredicatesDropMarkedLines(lines, false, SecretsLineMatchesTunnel(name), SecretsLineDoesNotMatchTunnel(name));
  }

  /** A header line has no blank at either end, so stripping leaves it as it is. */
  lemma StripOfHeader(name: string)
    requires name != "" && NoSpace(name)
    ensures Strip("conn " + name) == "conn " + name
  {
    var line := "conn " + name;
    assert line[|line| - 1] == name[|name| - 1];
    StripOfPadded("", line, "");
    assert "" + line + "" == line;
  }

  /** After the ipsec.conf excision of a tunnel, no tunnel of that name is listed. */
  lemma RemovedTunnelIsNotListed(lines: seq<string>, name: string, n: nat)
    ensures var kept := Kept(lines, false, ConfLineStartsTunnel(name), ConfLineStartsNextTunnel(name));
            name !in TunnelNames(ListTunnels(kept, n))
  {
    var start := ConfLineStartsTunnel(name);
    var next := ConfLineStartsNextTunnel(name);
    var kept := Kept(lines, false, start, next);
    KeptLinesDoNotStartRuns(lines, false, start, next);
    ListedIffHeaderAfterTitle(kept, n, name);
    if name in TunnelNames(ListTunnels(kept, n)) {
      var k :| TitleIndex(kept).value < k < |kept| && TunnelHeaderName(kept[k]) == Some(name);
      StripOfHeader(name);
      assert false;
    }
  }
}
