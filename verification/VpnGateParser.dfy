/** VPNGate rows and the endpoint inside a configuration (internal/providers/vpngate/parser.go). CSV cells and
    the base64 decoder are given. */
module VpnGateParser {
  import opened Lists
  import opened Store
  import opened Text

  function SafeInt(v: string): int { Atoi(TrimSpace(v)).GetOr(0) }

  function NormalizeTransport(v: string): Transport {
    var l := ToLower(v);
    if Contains(l, "tcp") then Tcp else if Contains(l, "udp") then Udp else Unknown
  }

  // ---- where a configuration connects -----------------------------------------------------

  datatype Remote = Remote(host: string, port: int, transport: Transport)

  predicate Inactive(line: string) { line == "" || line[0] == '#' || line[0] == ';' }

  /** The words of an active line. */
  function Words(raw: string): seq<string> {
    var line := TrimSpace(raw);
    if Inactive(line) then [] else Fields(line)
  }

  predicate IsProto(raw: string) { var w := Words(raw); |w| >= 2 && ToLower(w[0]) == "proto" }
  predicate IsRemote(raw: string) { var w := Words(raw); |w| >= 3 && ToLower(w[0]) == "remote" }

  function ReadLine(r: Remote, raw: string): Remote {
    var w := Words(raw);
    if IsProto(raw) then r.(transport := NormalizeTransport(w[1]))
    else if IsRemote(raw) then
      Remote(w[1], SafeInt(w[2]), if |w| >= 4 then NormalizeTransport(w[3]) else r.transport)
    else r
  }

  function RemoteOf(config: string, fallbackHost: string): Remote {
    Fold(ReadLine, Remote(fallbackHost, 0, Unknown), Split(config))
  }

  method ParseRemote(config: string, fallbackHost: string) returns (r: Remote)
    ensures r == RemoteOf(config, fallbackHost)
  {
    r := Remote(fallbackHost, 0, Unknown);
    var lines := Split(config);
    for k := 0 to |lines|
      invariant r == Fold(ReadLine, Remote(fallbackHost, 0, Unknown), lines[..k])
    {
      assert lines[..k + 1][..k] == lines[..k];
      r := ParseLine(r, lines[k]);
    }
    assert lines[..|lines|] == lines;
  }

  method ParseLine(before: Remote, raw: string) returns (r: Remote)
    ensures r == ReadLine(before, raw)
  {
    r := before;
    var line := TrimSpace(raw);
    if Inactive(line) { return; }
    var parts := Fields(line);
    if |parts| == 0 { return; }
    var directive := ToLower(parts[0]);
    if directive == "proto" {
      if |parts| >= 2 { r := r.(transport := NormalizeTransport(parts[1])); }
      assert directive != "remote" by { assert |"proto"| != |"remote"|; }
    } else if directive == "remote" {
      if |parts| >= 3 {
        r := r.(host := parts[1], port := SafeInt(parts[2]));
        if |parts| >= 4 { r := r.(transport := NormalizeTransport(parts[3])); }
      }
    }
  }

  /** The line is a remote directive naming this endpoint. */
  predicate Names(raw: string, host: string, port: int) {
    IsRemote(raw) && Words(raw)[1] == host && SafeInt(Words(raw)[2]) == port
  }

  lemma LineEffect(r: Remote, raw: string)
    ensures !IsRemote(raw) ==> ReadLine(r, raw).host == r.host && ReadLine(r, raw).port == r.port
    ensures !IsRemote(raw) && !IsProto(raw) ==> ReadLine(r, raw) == r
  {}

  lemma RemoteEffect(r: Remote, raw: string, host: string, port: int)
    requires Names(raw, host, port)
    ensures ReadLine(r, raw).host == host && ReadLine(r, raw).port == port
  {
    assert "proto" != "remote" by { assert |"proto"| != |"remote"|; }
  }

  /** The last remote line decides host and port; without one the host is the fallback and the port 0. */
  lemma LastRemoteWins(config: string, fallbackHost: string, i: nat, host: string, port: int)
    requires i < |Split(config)| && Names(Split(config)[i], host, port)
    requires forall j :: i < j < |Split(config)| ==> !IsRemote(Split(config)[j])
    ensures RemoteOf(config, fallbackHost).host == host && RemoteOf(config, fallbackHost).port == port
  {
    var lines := Split(config);
    var q := (r: Remote) => r.host == host && r.port == port;
    forall a ensures q(ReadLine(a, lines[i])) { RemoteEffect(a, lines[i], host, port); }
    forall j, a | i < j < |lines| && q(a) ensures q(ReadLine(a, lines[j])) { LineEffect(a, lines[j]); }
    FoldEstablishes(ReadLine, Remote(fallbackHost, 0, Unknown), lines, i, q);
  }

  lemma NoRemoteNoPort(config: string, fallbackHost: string)
    requires forall j :: 0 <= j < |Split(config)| ==> !IsRemote(Split(config)[j])
    ensures RemoteOf(config, fallbackHost).host == fallbackHost && RemoteOf(config, fallbackHost).port == 0
  {
    var lines := Split(config);
    var q := (r: Remote) => r.host == fallbackHost && r.port == 0;
    forall j, a | 0 <= j < |lines| && q(a) ensures q(ReadLine(a, lines[j])) { LineEffect(a, lines[j]); }
    FoldKeeps(ReadLine, Remote(fallbackHost, 0, Unknown), lines, q);
  }

  // ---- lines in plain terms ----------------------------------------------------------------

  /** The word occurs in it, in any case. */
  ghost predicate Says(v: string, word: string) { exists a, b :: ToLower(v) == a + word + b }

  /** TCP when it says so anywhere, else UDP, else unknown. */
  lemma TransportMeans(v: string)
    ensures NormalizeTransport(v) == if Says(v, "tcp") then Tcp else if Says(v, "udp") then Udp else Unknown
  {
    SaysMeans(v, "tcp");
    SaysMeans(v, "udp");
  }

  lemma SaysMeans(v: string, word: string)
    ensures Contains(ToLower(v), word) <==> Says(v, word)
  {
    var l := ToLower(v);
    if Contains(l, word) {
      var i :| 0 <= i <= |l| && word <= l[i..];
      assert l == l[..i] + word + l[i + |word|..];
    }
    if Says(v, word) {
      var a, b :| l == a + word + b;
      assert l[|a|..] == word + b;
    }
  }

  /** A number as the program prints it is read back; anything Atoi rejects reads as 0. */
  lemma SafeIntReads(n: int)
    requires MIN_INT <= n <= MAX_INT
    ensures SafeInt(Itoa(n)) == n
  {
    AtoiItoa(n);
    NumeralIsToken(n);
    TrimmedJoin([Itoa(n)]);
  }

  lemma NumeralIsToken(n: int)
    ensures IsToken(Itoa(n))
  {
    var digits := DecimalNat(if n < 0 then -n else n);
    forall i | 0 <= i < |digits| ensures !IsSpace(digits[i]) { assert IsDigit(digits[i]); }
  }

  lemma LineWords(ts: seq<string>)
    requires ts != [] && forall i :: 0 <= i < |ts| ==> IsToken(ts[i])
    requires ts[0] != "" && ts[0][0] != '#' && ts[0][0] != ';'
    ensures Words(JoinTokens(ts)) == ts
  {
    TrimmedJoin(ts);
    FieldsOfJoin(ts);
    assert JoinTokens(ts)[0] == ts[0][0];
  }

  /** A remote line sets host and port, and the transport if it names one. */
  lemma RemoteLineReads(r: Remote, host: string, port: nat, protocol: string)
    requires IsToken(host) && IsToken(protocol) && port <= MAX_INT
    ensures ReadLine(r, JoinTokens(["remote", host, Itoa(port)])) == Remote(host, port, r.transport)
    ensures ReadLine(r, JoinTokens(["remote", host, Itoa(port), protocol])) ==
      Remote(host, port, NormalizeTransport(protocol))
  {
    NumeralIsToken(port);
    RemoteWordsRead(r, ["remote", host, Itoa(port)], port);
    RemoteWordsRead(r, ["remote", host, Itoa(port), protocol], port);
  }

  lemma RemoteWordsRead(r: Remote, ts: seq<string>, port: nat)
    requires 3 <= |ts| <= 4 && forall i :: 0 <= i < |ts| ==> IsToken(ts[i])
    requires ts[0] == "remote" && ts[2] == Itoa(port) && port <= MAX_INT
    ensures ReadLine(r, JoinTokens(ts)) ==
      Remote(ts[1], port, if |ts| == 4 then NormalizeTransport(ts[3]) else r.transport)
  {
    SafeIntReads(port);
    LineWords(ts);
    RemoteIsNoProto();
    RemoteWordsMean(r, JoinTokens(ts));
  }

  lemma RemoteIsNoProto()
    ensures ToLower("remote") == "remote" && ToLower("remote") != "proto"
  {
    assert |"proto"| != |"remote"|;
  }

  lemma RemoteWordsMean(r: Remote, raw: string)
    ensures var w := Words(raw);
      3 <= |w| <= 4 && ToLower(w[0]) == "remote" && ToLower(w[0]) != "proto" ==>
        ReadLine(r, raw) == Remote(w[1], SafeInt(w[2]), if |w| == 4 then NormalizeTransport(w[3]) else r.transport)
  {}

  /** A proto line sets the transport and nothing else. */
  lemma ProtoLineReads(r: Remote, protocol: string)
    requires IsToken(protocol)
    ensures ReadLine(r, JoinTokens(["proto", protocol])) == r.(transport := NormalizeTransport(protocol))
  {
    LineWords(["proto", protocol]);
    assert ToLower("proto") == "proto";
  }

  /** A commented line says nothing. */
  lemma CommentIsInert(r: Remote, rest: string)
    ensures ReadLine(r, "#" + rest) == r && ReadLine(r, ";" + rest) == r
  {
    forall c | c == '#' || c == ';' ensures Words([c] + rest) == [] {
      var line := [c] + rest;
      assert TrimLeft(line) == line;
      assert !IsSpace(line[0]);
      assert TrimRight(line) != [] && TrimRight(line)[0] == c;
    }
    assert "#" + rest == ['#'] + rest && ";" + rest == [';'] + rest;
  }

  // ---- rows ----------------------------------------------------------------------------------

  /** A CSV record by column name, or a record the reader rejects. */
  datatype Record = Row(cells: map<string, string>) | Unreadable

  datatype GateNode = GateNode(
    id: Id, identity: string, hostName: string, country: string, countryCode: string, ip: string,
    remote: Remote, score: int, ping: int, speed: int, sessions: int, config: string)

  datatype Stats = Stats(total: nat, valid: nat, duplicate: nat, malformed: nat, missing: nat)

  datatype ParseResult = ParseResult(nodes: seq<GateNode>, stats: Stats)

  /** decodeConfig, upper casing and buildNodeID are given. */
  datatype Environment = Environment(
    decode: string -> Option<string>, upper: string -> string, makeId: (string, string) -> Id)

  datatype Reading = Missing | Malformed | Usable(node: GateNode)

  function Cell(row: map<string, string>, column: string): string { if column in row then row[column] else "" }

  function Identity(ip: string): string { "vpngate:" + TrimSpace(ip) }

  function NodeFrom(e: Environment, row: map<string, string>, config: string): GateNode {
    var ip, code := TrimSpace(Cell(row, "IP")), e.upper(TrimSpace(Cell(row, "CountryShort")));
    GateNode(e.makeId(code, ip), Identity(ip), Cell(row, "HostName"), Cell(row, "CountryLong"), code, ip,
             RemoteOf(config, ip), SafeInt(Cell(row, "Score")), SafeInt(Cell(row, "Ping")),
             SafeInt(Cell(row, "Speed")), SafeInt(Cell(row, "NumVpnSessions")), config)
  }

  /** What a row is worth on its own. A negative port is usable: only 0 is rejected. */
  function ReadRow(e: Environment, row: map<string, string>): Reading {
    var ip, encoded := TrimSpace(Cell(row, "IP")), TrimSpace(Cell(row, "OpenVPN_ConfigData_Base64"));
    if ip == "" || encoded == "" then Missing
    else match e.decode(encoded)
      case None => Malformed
      case Some(config) => if RemoteOf(config, ip).port == 0 then Malformed else Usable(NodeFrom(e, row, config))
  }

  function ReadRecord(e: Environment, r: Record): Reading { if r.Row? then ReadRow(e, r.cells) else Malformed }

  function IsMissing(e: Environment): Record -> bool { (r: Record) => ReadRecord(e, r).Missing? }
  function IsMalformed(e: Environment): Record -> bool { (r: Record) => ReadRecord(e, r).Malformed? }

  /** The usable nodes in order, and of those the first of each identity. */
  function UsableNodes(e: Environment, rows: seq<Record>): seq<GateNode> {
    if rows == [] then [] else
      var last := ReadRecord(e, rows[|rows| - 1]);
      UsableNodes(e, rows[..|rows| - 1]) + if last.Usable? then [last.node] else []
  }

  function Identities(nodes: seq<GateNode>): set<string> { set n | n in nodes :: n.identity }

  function FirstOfEach(nodes: seq<GateNode>): seq<GateNode> {
    if nodes == [] then [] else
      var front, last := FirstOfEach(nodes[..|nodes| - 1]), nodes[|nodes| - 1];
      if last.identity in Identities(front) then front else front + [last]
  }

  function Distinct(e: Environment, rows: seq<Record>): seq<GateNode> { FirstOfEach(UsableNodes(e, rows)) }

  lemma FirstOfEachStep(nodes: seq<GateNode>, last: GateNode)
    ensures FirstOfEach(nodes + [last]) ==
      if last.identity in Identities(FirstOfEach(nodes)) then FirstOfEach(nodes) else FirstOfEach(nodes) + [last]
  {
    assert (nodes + [last])[..|nodes|] == nodes;
  }

  predicate FirstAt(nodes: seq<GateNode>, k: nat)
    requires k < |nodes|
  { forall i :: 0 <= i < k ==> nodes[i].identity != nodes[k].identity }

  lemma {:induction false} IdentitiesKept(nodes: seq<GateNode>)
    ensures Identities(FirstOfEach(nodes)) == Identities(nodes)
  {
    if nodes != [] {
      var front, last := nodes[..|nodes| - 1], nodes[|nodes| - 1];
      IdentitiesKept(front);
      assert nodes == front + [last];
      assert Identities(nodes) == Identities(front) + {last.identity};
      assert Identities(FirstOfEach(front) + [last]) == Identities(FirstOfEach(front)) + {last.identity};
    }
  }

  lemma {:induction false} KeptOnce(nodes: seq<GateNode>)
    ensures forall i, j :: 0 <= i < j < |FirstOfEach(nodes)| ==>
      FirstOfEach(nodes)[i].identity != FirstOfEach(nodes)[j].identity
  {
    if nodes != [] {
      var kept := FirstOfEach(nodes[..|nodes| - 1]);
      KeptOnce(nodes[..|nodes| - 1]);
      assert forall i :: 0 <= i < |kept| ==> kept[i].identity in Identities(kept);
    }
  }

  /** First occurrences: each identity is kept once, by its first node. */
  lemma {:induction false} KeptAreFirst(nodes: seq<GateNode>, n: GateNode)
    ensures n in FirstOfEach(nodes) ==> exists k :: 0 <= k < |nodes| && nodes[k] == n && FirstAt(nodes, k)
  {
    if nodes != [] {
      var front, last := nodes[..|nodes| - 1], nodes[|nodes| - 1];
      KeptAreFirst(front, n);
      if n in FirstOfEach(front) {
        var k :| 0 <= k < |front| && front[k] == n && FirstAt(front, k);
        assert nodes[k] == n && FirstAt(nodes, k);
      } else if n in FirstOfEach(nodes) {
        IdentitiesKept(front);
        LastIsFirst(front, last);
        assert nodes == front + [last];
        assert nodes[|front|] == n && FirstAt(nodes, |front|);
      }
    }
  }

  lemma LastIsFirst(front: seq<GateNode>, last: GateNode)
    ensures last.identity !in Identities(front) ==> FirstAt(front + [last], |front|)
  {
    forall i | 0 <= i < |front| ensures front[i].identity in Identities(front) { assert front[i] in front; }
  }

  // ---- the row loop ------------------------------------------------------------------------------

  /** Of the first k rows, those up to the one that fills the limit. */
  ghost predicate Examined(e: Environment, rows: seq<Record>, k: nat, limit: int, n: nat)
    requires k <= |rows|
  {
    && n <= k
    && (forall j :: 0 <= j < n ==> |Distinct(e, rows[..j])| < limit)
    && (n < k ==> |Distinct(e, rows[..n])| >= limit)
  }

  ghost predicate Tallies(e: Environment, rows: seq<Record>, s: Stats, nodes: seq<GateNode>) {
    && s.missing == Count(rows, IsMissing(e)) && s.malformed == Count(rows, IsMalformed(e))
    && s.valid == |nodes| && s.valid + s.duplicate == |UsableNodes(e, rows)|
  }

  lemma {:induction false} EveryRowIsTallied(e: Environment, rows: seq<Record>)
    ensures |UsableNodes(e, rows)| + Count(rows, IsMalformed(e)) + Count(rows, IsMissing(e)) == |rows|
  {
    if rows != [] {
      EveryRowIsTallied(e, rows[..|rows| - 1]);
      CountLast(rows, IsMalformed(e));
      CountLast(rows, IsMissing(e));
    }
  }

  lemma {:induction false} CountLast<T(!new)>(s: seq<T>, p: T -> bool)
    requires s != []
    ensures Count(s, p) == Count(s[..|s| - 1], p) + if p(s[|s| - 1]) then 1 else 0
  {
    if |s| > 1 {
      CountLast(s[1..], p);
      assert s[1..][..|s| - 2] == s[..|s| - 1][1..];
    }
  }

  lemma TallyRow(e: Environment, rows: seq<Record>, k: nat)
    requires k < |rows|
    ensures var r := ReadRecord(e, rows[k]);
      && Count(rows[..k + 1], IsMissing(e)) == Count(rows[..k], IsMissing(e)) + (if r.Missing? then 1 else 0)
      && Count(rows[..k + 1], IsMalformed(e)) == Count(rows[..k], IsMalformed(e)) + (if r.Malformed? then 1 else 0)
      && UsableNodes(e, rows[..k + 1]) == UsableNodes(e, rows[..k]) + (if r.Usable? then [r.node] else [])
  {
    assert rows[..k + 1][..k] == rows[..k];
    CountLast(rows[..k + 1], IsMissing(e));
    CountLast(rows[..k + 1], IsMalformed(e));
  }

  lemma DistinctRow(e: Environment, rows: seq<Record>, k: nat)
    requires k < |rows|
    ensures Distinct(e, rows[..k + 1]) == Admit(Distinct(e, rows[..k]), ReadRecord(e, rows[k]))
  {
    TallyRow(e, rows, k);
    var before, r := UsableNodes(e, rows[..k]), ReadRecord(e, rows[k]);
    if r.Usable? { FirstOfEachStep(before, r.node); } else { assert before + [] == before; }
  }

  function Admit(nodes: seq<GateNode>, r: Reading): seq<GateNode> {
    if r.Usable? && r.node.identity !in Identities(nodes) then nodes + [r.node] else nodes
  }

  lemma AdmitGrows(nodes: seq<GateNode>, r: Reading)
    ensures nodes <= Admit(nodes, r)
  {}

  lemma OneRowGrows(e: Environment, rows: seq<Record>, k: nat)
    requires k < |rows|
    ensures Distinct(e, rows[..k]) <= Distinct(e, rows[..k + 1])
  {
    DistinctRow(e, rows, k);
    AdmitGrows(Distinct(e, rows[..k]), ReadRecord(e, rows[k]));
  }

  lemma {:induction false} PrefixesGrow<T>(f: nat -> seq<T>, k: nat, n: nat)
    requires k <= n && forall i: nat, j: nat :: k <= i < j <= n && j == i + 1 ==> f(i) <= f(j)
    ensures f(k) <= f(n)
  {
    if k < n {
      PrefixesGrow(f, k, n - 1);
      assert f(n - 1) <= f(n);
    }
  }

  function DistinctPrefix(e: Environment, rows: seq<Record>): nat -> seq<GateNode> {
    (k: nat) => if k <= |rows| then Distinct(e, rows[..k]) else []
  }

  lemma NextPrefixGrows(e: Environment, rows: seq<Record>, i: nat, j: nat)
    requires i < j <= |rows| && j == i + 1
    ensures DistinctPrefix(e, rows)(i) <= DistinctPrefix(e, rows)(j)
  {
    OneRowGrows(e, rows, i);
  }

  lemma PrefixGrows(e: Environment, rows: seq<Record>, k: nat, n: nat)
    requires k <= n <= |rows|
    ensures DistinctPrefix(e, rows)(k) <= DistinctPrefix(e, rows)(n)
  {
    var f := DistinctPrefix(e, rows);
    forall i: nat, j: nat | k <= i < j <= n && j == i + 1 ensures f(i) <= f(j) { NextPrefixGrows(e, rows, i, j); }
    PrefixesGrow(f, k, n);
  }

  lemma DistinctGrows(e: Environment, rows: seq<Record>, k: nat, n: nat)
    requires k <= n <= |rows|
    ensures Distinct(e, rows[..k]) <= Distinct(e, rows[..n])
  {
    PrefixGrows(e, rows, k, n);
    var f := DistinctPrefix(e, rows);
    assert f(k) == Distinct(e, rows[..k]) && f(n) == Distinct(e, rows[..n]);
  }

  /** The loop's step on a row that still counts. */
  function Tally(s: Stats, nodes: seq<GateNode>, r: Reading): Stats {
    match r
    case Missing => s.(missing := s.missing + 1)
    case Malformed => s.(malformed := s.malformed + 1)
    case Usable(n) =>
      if n.identity in Identities(nodes) then s.(duplicate := s.duplicate + 1) else s.(valid := s.valid + 1)
  }

  lemma TalliesStep(e: Environment, rows: seq<Record>, k: nat, s: Stats)
    requires k < |rows| && Tallies(e, rows[..k], s, Distinct(e, rows[..k]))
    ensures Tallies(e, rows[..k + 1], Tally(s, Distinct(e, rows[..k]), ReadRecord(e, rows[k])),
      Distinct(e, rows[..k + 1]))
  {
    TallyRow(e, rows, k);
    DistinctRow(e, rows, k);
  }

  method ClassifyRow(e: Environment, row: map<string, string>) returns (r: Reading)
    ensures r == ReadRow(e, row)
  {
    var ip, encoded := TrimSpace(Cell(row, "IP")), TrimSpace(Cell(row, "OpenVPN_ConfigData_Base64"));
    if ip == "" || encoded == "" { return Missing; }
    var config := e.decode(encoded);
    if config == None { return Malformed; }
    var remote := ParseRemote(config.value, ip);
    if remote.port == 0 { return Malformed; }
    r := Usable(NodeFrom(e, row, config.value));
  }

  method TakeReading(r: Reading, nodes: seq<GateNode>, seen: set<string>, stats: Stats)
    returns (n: seq<GateNode>, known: set<string>, s: Stats)
    requires seen == Identities(nodes)
    ensures n == Admit(nodes, r) && known == Identities(n) && s == Tally(stats, nodes, r)
  {
    n, known, s := nodes, seen, stats;
    match r {
      case Missing => s := s.(missing := s.missing + 1);
      case Malformed => s := s.(malformed := s.malformed + 1);
      case Usable(node) =>
        if node.identity in seen {
          s := s.(duplicate := s.duplicate + 1);
        } else {
          n, known := nodes + [node], seen + {node.identity};
          s := s.(valid := s.valid + 1);
        }
    }
  }

  lemma ExaminedMore(e: Environment, rows: seq<Record>, k: nat, limit: int, n: nat)
    requires k < |rows| && Examined(e, rows, k, limit, n)
    ensures if |Distinct(e, rows[..n])| >= limit then Examined(e, rows, k + 1, limit, n)
            else n == k && Examined(e, rows, k + 1, limit, k + 1)
  {}

  lemma FilledOrDone(e: Environment, rows: seq<Record>, limit: int, n: nat)
    requires Examined(e, rows, |rows|, limit, n)
    ensures |Distinct(e, rows[..n])| == if n == |rows| then |Distinct(e, rows)| else if limit < 0 then 0 else limit
    ensures n == |rows| && limit >= 0 ==> |Distinct(e, rows)| <= limit
  {
    assert rows[..|rows|] == rows && rows[..0] == [];
    if n > 0 {
      DistinctRow(e, rows, n - 1);
      assert |Distinct(e, rows[..n - 1])| < limit;
    }
  }

  /** Where the row loop stands after k rows. */
  ghost predicate Progress(e: Environment, rows: seq<Record>, k: nat, limit: int, examined: nat, nodes: seq<GateNode>,
        s: Stats)
    requires k <= |rows|
  {
    && Examined(e, rows, k, limit, examined)
    && nodes == Distinct(e, rows[..examined]) && Tallies(e, rows[..examined], s, nodes) && s.total == k
  }

  lemma TallyIgnoresTotal(e: Environment, rows: seq<Record>, s: Stats, nodes: seq<GateNode>, total: nat)
    requires Tallies(e, rows, s, nodes)
    ensures Tallies(e, rows, s.(total := total), nodes)
  {}

  /** A row after the limit is full. */
  lemma SkipStep(e: Environment, rows: seq<Record>, k: nat, limit: int, examined: nat, nodes: seq<GateNode>, s: Stats)
    requires k < |rows| && Progress(e, rows, k, limit, examined, nodes, s) && |nodes| >= limit
    ensures Progress(e, rows, k + 1, limit, examined, nodes, s.(total := s.total + 1))
  {
    ExaminedMore(e, rows, k, limit, examined);
    TallyIgnoresTotal(e, rows[..examined], s, nodes, s.total + 1);
  }

  lemma TakeStep(e: Environment, rows: seq<Record>, k: nat, limit: int, examined: nat, nodes: seq<GateNode>, s: Stats)
    requires k < |rows| && Progress(e, rows, k, limit, examined, nodes, s) && |nodes| < limit
    ensures var r := ReadRecord(e, rows[k]);
      Progress(e, rows, k + 1, limit, k + 1, Admit(nodes, r), Tally(s.(total := s.total + 1), nodes, r))
  {
    ExaminedMore(e, rows, k, limit, examined);
    TallyIgnoresTotal(e, rows[..examined], s, nodes, s.total + 1);
    TalliesStep(e, rows, k, s.(total := s.total + 1));
    DistinctRow(e, rows, k);
  }

  /** The nodes are the first `limit` distinct usable ones; every row is counted once, or comes after the limit was
      full. */
  ghost predicate Parsed(e: Environment, rows: seq<Record>, limit: int, p: ParseResult, examined: nat) {
    var all, s := Distinct(e, rows), p.stats;
    && p.nodes <= all && |p.nodes| == (if limit < 0 then 0 else if |all| < limit then |all| else limit)
    && s.total == |rows|
    && Examined(e, rows, |rows|, limit, examined) && Tallies(e, rows[..examined], s, p.nodes)
    && s.valid + s.duplicate + s.malformed + s.missing + (|rows| - examined) == s.total
  }

  lemma Concludes(e: Environment, rows: seq<Record>, limit: int, examined: nat, nodes: seq<GateNode>, s: Stats)
    requires Progress(e, rows, |rows|, limit, examined, nodes, s)
    ensures Parsed(e, rows, limit, ParseResult(nodes, s), examined)
  {
    assert rows[..|rows|] == rows;
    EveryRowIsTallied(e, rows[..examined]);
    DistinctGrows(e, rows, examined, |rows|);
    FilledOrDone(e, rows, limit, examined);
  }

  /** A usable row, column by column. */
  lemma UsableRowMeans(e: Environment, row: map<string, string>, n: GateNode)
    requires ReadRow(e, row) == Usable(n)
    ensures var ip := TrimSpace(Cell(row, "IP"));
      && ip != "" && n.ip == ip && n.identity == "vpngate:" + TrimSpace(ip)
      && e.decode(TrimSpace(Cell(row, "OpenVPN_ConfigData_Base64"))) == Some(n.config)
      && n.remote == RemoteOf(n.config, ip) && n.remote.port != 0
      && n.countryCode == e.upper(TrimSpace(Cell(row, "CountryShort"))) && n.id == e.makeId(n.countryCode, ip)
      && n.hostName == Cell(row, "HostName") && n.country == Cell(row, "CountryLong")
      && n.score == SafeInt(Cell(row, "Score")) && n.ping == SafeInt(Cell(row, "Ping"))
      && n.speed == SafeInt(Cell(row, "Speed")) && n.sessions == SafeInt(Cell(row, "NumVpnSessions"))
  {}

  /** A row is usable exactly when it has an address and a configuration that decodes and names a port. */
  lemma UsableExactly(e: Environment, row: map<string, string>)
    ensures var ip, encoded := TrimSpace(Cell(row, "IP")), TrimSpace(Cell(row, "OpenVPN_ConfigData_Base64"));
      && (ReadRow(e, row).Missing? <==> ip == "" || encoded == "")
      && (ReadRow(e, row).Usable? <==>
            ip != "" && encoded != "" && e.decode(encoded).Some? && RemoteOf(e.decode(encoded).value, ip).port != 0)
  {}

  lemma {:induction false} UsableNodesAre(e: Environment, rows: seq<Record>, n: GateNode)
    ensures n in UsableNodes(e, rows) <==> exists r <- rows :: ReadRecord(e, r) == Usable(n)
  {
    if rows != [] {
      var front, last := rows[..|rows| - 1], rows[|rows| - 1];
      assert rows == front + [last];
      UsableNodesAre(e, front, n);
    }
  }

  lemma ResultIs(e: Environment, rows: seq<Record>, limit: int, p: ParseResult, examined: nat)
    requires Parsed(e, rows, limit, p, examined)
    ensures examined <= |rows| && p.nodes == Distinct(e, rows[..examined])
  {
    DistinctGrows(e, rows, examined, |rows|);
    FilledOrDone(e, rows, limit, examined);
    assert rows[..|rows|] == rows;
  }

  /** Every node of the result comes from a usable row, and every usable row that was examined is represented. */
  lemma ResultMeans(e: Environment, rows: seq<Record>, limit: int, p: ParseResult, examined: nat, n: GateNode)
    requires Parsed(e, rows, limit, p, examined) && examined <= |rows|
    ensures n in p.nodes ==> exists r <- rows[..examined] :: ReadRecord(e, r) == Usable(n)
    ensures (exists r <- rows[..examined] :: ReadRecord(e, r) == Usable(n)) ==> n.identity in Identities(p.nodes)
  {
    var usable := UsableNodes(e, rows[..examined]);
    ResultIs(e, rows, limit, p, examined);
    UsableNodesAre(e, rows[..examined], n);
    KeptAreFirst(usable, n);
    IdentitiesKept(usable);
  }

  predicate Readable(rows: seq<Record>, k: nat)
    requires k <= |rows|
  { forall i :: 0 <= i < k ==> rows[i].Row? }

  lemma ReadableStep(rows: seq<Record>, k: nat)
    requires k < |rows|
    ensures Readable(rows, k + 1) <==> Readable(rows, k) && rows[k].Row?
    ensures rows[k].Unreadable? ==> !Readable(rows, |rows|)
  {}

  /** ParseResponse after the header. One unreadable record fails the whole response. */
  method ParseRows(e: Environment, rows: seq<Record>, limit: int) returns (r: Option<ParseResult>, ghost examined: nat)
    ensures r.None? <==> !Readable(rows, |rows|)
    ensures r.Some? ==> Parsed(e, rows, limit, r.value, examined)
  {
    var nodes: seq<GateNode>, seen: set<string>, s := [], {}, Stats(0, 0, 0, 0, 0);
    examined := 0;
    for k := 0 to |rows|
      invariant Readable(rows, k)
      invariant Progress(e, rows, k, limit, examined, nodes, s) && seen == Identities(nodes)
    {
      ReadableStep(rows, k);
      if rows[k].Unreadable? { return None, 0; }
      if |nodes| >= limit {
        SkipStep(e, rows, k, limit, examined, nodes, s);
        s := s.(total := s.total + 1);
        continue;
      }
      TakeStep(e, rows, k, limit, examined, nodes, s);
      examined := k + 1;
      var reading := ClassifyRow(e, rows[k].cells);
      nodes, seen, s := TakeReading(reading, nodes, seen, s.(total := s.total + 1));
    }
    Concludes(e, rows, limit, examined, nodes, s);
    r := Some(ParseResult(nodes, s));
  }
}
