/** Filtering and ranking of candidate nodes (internal/services/pool.go). Scores are exact reals. */
module Ranking {
  import opened Lists
  import opened Sorting
  import opened Text
  import opened Store

  datatype IpType = Residential | Mobile | Hosting | UnknownIp
  datatype RoutingMode = Auto | SpeedFirst | Smart | ResidentialFirst | ByCountry | Fixed | Favorites
  datatype RoutingIp = AnyIp | ResidentialIp | HostingIp

  datatype Node = Node(
    id: Id, country: string, ipType: IpType, status: Status, latency: int,
    sourceSpeed: int, sourceScore: int, sourcePing: int, sourceSessions: int,
    lastProbed: Option<Time>, livenessFailures: nat)

  datatype Settings = Settings(
    connectionEnabled: bool, mode: RoutingMode, ip: RoutingIp,
    forceCountry: string, fixedNode: Option<Id>, favorites: seq<Id>)

  const CANDIDATE_FETCH_LIMIT: nat := 5000
  const UNMEASURED: int := 999999

  /** The country labels this project translates; the table itself is data. */
  type Labels = map<string, string>

  function NormalizeCountry(labels: Labels, value: string): string {
    var v := TrimSpace(value);
    if v in labels then labels[v] else v
  }

  // ---- filtering -----------------------------------------------------------------------

  predicate ModeAdmits(labels: Labels, s: Settings, n: Node) {
    match s.mode
    case Fixed => n.id == s.fixedNode.GetOr("")
    case ByCountry =>
      s.forceCountry == "" || NormalizeCountry(labels, n.country) == NormalizeCountry(labels, s.forceCountry)
    case Favorites => n.id in s.favorites
    case _ => true
  }

  predicate IpAdmits(s: Settings, n: Node, includeUnknown: bool) {
    match s.ip
    case AnyIp => true
    case ResidentialIp => n.ipType == Residential || n.ipType == Mobile || (includeUnknown && n.ipType == UnknownIp)
    case HostingIp => n.ipType == Hosting || (includeUnknown && n.ipType == UnknownIp)
  }

  function Eligible(labels: Labels, s: Settings, includeUnknown: bool): Node -> bool {
    (n: Node) => ModeAdmits(labels, s, n) && IpAdmits(s, n, includeUnknown)
  }

  method ApplyFilters(labels: Labels, nodes: seq<Node>, s: Settings, includeUnknown: bool) returns (out: seq<Node>)
    ensures out == Filter(nodes, Eligible(labels, s, includeUnknown))
  {
    out := [];
    var fixed := "";
    if s.fixedNode.Some? { fixed := s.fixedNode.value; }
    for k := 0 to |nodes|
      invariant out == Filter(nodes[..k], Eligible(labels, s, includeUnknown))
    {
      FilterStep(nodes, k, Eligible(labels, s, includeUnknown));
      var n := nodes[k];
      match s.mode {
        case Fixed => if n.id != fixed { continue; }
        case ByCountry =>
          var wanted := NormalizeCountry(labels, s.forceCountry);
          if s.forceCountry != "" && NormalizeCountry(labels, n.country) != wanted { continue; }
        case Favorites => if n.id !in s.favorites { continue; }
        case _ =>
      }
      match s.ip {
        case ResidentialIp =>
          if !(n.ipType == Residential || n.ipType == Mobile || (includeUnknown && n.ipType == UnknownIp)) { continue; }
        case HostingIp => if !(n.ipType == Hosting || (includeUnknown && n.ipType == UnknownIp)) { continue; }
        case _ =>
      }
      out := out + [n];
    }
    assert nodes[..|nodes|] == nodes;
  }

  // ---- the comparison modes ---------------------------------------------------------------

  function ResidentialRank(n: Node): int { if n.ipType == Residential || n.ipType == Mobile then 0 else 1 }
  function EffLatency(n: Node): int { if n.latency > 0 then n.latency else UNMEASURED }
  function EffSpeed(n: Node): int { if n.sourceSpeed > 0 then n.sourceSpeed else -1 }

  predicate LessFor(mode: RoutingMode, a: Node, b: Node) {
    if mode == SpeedFirst then
      if EffSpeed(a) != EffSpeed(b) then EffSpeed(a) > EffSpeed(b)
      else if EffLatency(a) != EffLatency(b) then EffLatency(a) < EffLatency(b)
      else if a.sourceScore != b.sourceScore then a.sourceScore > b.sourceScore
      else ResidentialRank(a) < ResidentialRank(b)
    else if mode == ResidentialFirst then
      if ResidentialRank(a) != ResidentialRank(b) then ResidentialRank(a) < ResidentialRank(b)
      else if EffLatency(a) != EffLatency(b) then EffLatency(a) < EffLatency(b)
      else if a.sourceScore != b.sourceScore then a.sourceScore > b.sourceScore
      else a.sourceSpeed > b.sourceSpeed
    else
      if EffLatency(a) != EffLatency(b) then EffLatency(a) < EffLatency(b)
      else if a.sourceScore != b.sourceScore then a.sourceScore > b.sourceScore
      else if a.sourceSpeed != b.sourceSpeed then a.sourceSpeed > b.sourceSpeed
      else ResidentialRank(a) < ResidentialRank(b)
  }

  function ModeOrder(mode: RoutingMode): Less<Node> { (a: Node, b: Node) => LessFor(mode, a, b) }

  lemma ModeOrderIsWeakOrder(mode: RoutingMode)
    ensures StrictWeakOrder(ModeOrder(mode))
  {
    var less := ModeOrder(mode);
    assert forall x, y :: less(x, y) == LessFor(mode, x, y);
  }

  // ---- in plain terms ----------------------------------------------------------------------

  /** Who is admitted, mode by mode and type by type. */
  lemma EligibleMeans(labels: Labels, s: Settings, includeUnknown: bool, n: Node)
    ensures Eligible(labels, s, includeUnknown)(n) <==>
      && (s.mode == Fixed ==> s.fixedNode == Some(n.id) || (s.fixedNode == None && n.id == ""))
      && (s.mode == ByCountry && s.forceCountry != "" ==>
            NormalizeCountry(labels, n.country) == NormalizeCountry(labels, s.forceCountry))
      && (s.mode == Favorites ==> n.id in s.favorites)
      && (s.ip == ResidentialIp ==>
            n.ipType == Residential || n.ipType == Mobile || (includeUnknown && n.ipType == UnknownIp))
      && (s.ip == HostingIp ==> n.ipType == Hosting || (includeUnknown && n.ipType == UnknownIp))
  {}

  /** Two spellings of a country agree when they are equal up to white space around them, or translate alike. */
  lemma CountriesAgree(labels: Labels, a: string, b: string)
    ensures TrimSpace(a) == TrimSpace(b) ==> NormalizeCountry(labels, a) == NormalizeCountry(labels, b)
    ensures TrimSpace(a) in labels && TrimSpace(b) in labels ==>
      (NormalizeCountry(labels, a) == NormalizeCountry(labels, b) <==> labels[TrimSpace(a)] == labels[TrimSpace(b)])
    ensures TrimSpace(a) !in labels && TrimSpace(b) !in labels ==>
      (NormalizeCountry(labels, a) == NormalizeCountry(labels, b) <==> TrimSpace(a) == TrimSpace(b))
  {}

  /** Lexicographic order: smaller at the first place where they differ. */
  predicate LexLess(a: seq<int>, b: seq<int>) {
    exists i :: 0 <= i < |a| && i < |b| && a[i] < b[i] && forall j :: 0 <= j < i ==> a[j] == b[j]
  }

  lemma LexTail(a: seq<int>, b: seq<int>)
    requires a != [] && b != []
    ensures LexLess(a, b) <==> a[0] < b[0] || (a[0] == b[0] && LexLess(a[1..], b[1..]))
  {
    if LexLess(a, b) {
      var i :| 0 <= i < |a| && i < |b| && a[i] < b[i] && forall j :: 0 <= j < i ==> a[j] == b[j];
      if i > 0 { assert a[1..][i - 1] < b[1..][i - 1]; }
    }
    if a[0] == b[0] && LexLess(a[1..], b[1..]) {
      var i :| 0 <= i < |a[1..]| && i < |b[1..]| && a[1..][i] < b[1..][i]
        && forall j :: 0 <= j < i ==> a[1..][j] == b[1..][j];
      forall j | 0 <= j < i + 1 ensures a[j] == b[j] { if j > 0 { assert a[1..][j - 1] == b[1..][j - 1]; } }
      assert a[i + 1] < b[i + 1];
    }
  }

  lemma LexFour(a: seq<int>, b: seq<int>)
    requires |a| == |b| == 4
    ensures LexLess(a, b) <==>
      a[0] < b[0] || (a[0] == b[0] && (a[1] < b[1] || (a[1] == b[1] && (a[2] < b[2] || (a[2] == b[2] && a[3] < b[3])))))
  {
    if a[0] == b[0] && a[1] == b[1] && a[2] == b[2] { assert LexLess(a, b) <==> a[3] < b[3]; }
  }

  /** What a mode goes by, most important first, smaller is better. A node without a measured latency counts as very
      slow, one without a speed as slower than any. */
  function ModeKey(mode: RoutingMode, n: Node): seq<int> {
    var latency := if n.latency > 0 then n.latency else 999999;
    var slowness := if n.sourceSpeed > 0 then -n.sourceSpeed else 1;
    var commercial := if n.ipType == Residential || n.ipType == Mobile then 0 else 1;
    match mode
    case SpeedFirst => [slowness, latency, -n.sourceScore, commercial]
    case ResidentialFirst => [commercial, latency, -n.sourceScore, -n.sourceSpeed]
    case _ => [latency, -n.sourceScore, -n.sourceSpeed, commercial]
  }

  lemma LessIsLexicographic(mode: RoutingMode, a: Node, b: Node)
    ensures LessFor(mode, a, b) <==> LexLess(ModeKey(mode, a), ModeKey(mode, b))
  {
    LexFour(ModeKey(mode, a), ModeKey(mode, b));
  }

  // ---- the smart ranking ---------------------------------------------------------------------

  function SmartLatency(n: Node, useSourcePing: bool): real {
    if n.latency > 0 then n.latency as real
    else if useSourcePing && n.sourcePing > 0 then n.sourcePing as real
    else UNMEASURED as real
  }

  function Latencies(nodes: seq<Node>, useSourcePing: bool): seq<real> {
    seq(|nodes|, i requires 0 <= i < |nodes| => SmartLatency(nodes[i], useSourcePing))
  }
  function Speeds(nodes: seq<Node>): seq<real> {
    seq(|nodes|, i requires 0 <= i < |nodes| => EffSpeed(nodes[i]) as real)
  }
  function Sessions(nodes: seq<Node>): seq<real> {
    seq(|nodes|, i requires 0 <= i < |nodes| => nodes[i].sourceSessions as real)
  }

  datatype Range = Range(lo: real, hi: real)

  /** The least and the greatest of the values. */
  ghost predicate Spans(r: Range, values: seq<real>) {
    r.lo in values && r.hi in values && forall v :: v in values ==> r.lo <= v <= r.hi
  }

  function RangeOf(values: seq<real>): (r: Range)
    requires values != []
    ensures Spans(r, values)
  {
    var last := values[|values| - 1];
    if |values| == 1 then Range(last, last) else
      var r := RangeOf(values[..|values| - 1]);
      assert values == values[..|values| - 1] + [last];
      Range(if last < r.lo then last else r.lo, if last > r.hi then last else r.hi)
  }

  method MinMax(values: seq<real>) returns (r: Range)
    requires values != []
    ensures r == RangeOf(values)
  {
    r := Range(values[0], values[0]);
    for k := 1 to |values|
      invariant r == RangeOf(values[..k])
    {
      assert values[..k + 1][..k] == values[..k];
      var value := values[k];
      if value < r.lo { r := r.(lo := value); }
      if value > r.hi { r := r.(hi := value); }
    }
    assert values[..|values|] == values;
  }

  function Normalize(value: real, r: Range): real {
    if r.hi == r.lo then 0.5 else (value - r.lo) / (r.hi - r.lo)
  }

  function Weighted(latency: real, speed: real, sessions: real): real {
    0.4 * (1.0 - latency) + 0.4 * speed + 0.2 * (1.0 - sessions)
  }

  datatype Ranges = Ranges(latency: Range, speed: Range, sessions: Range)

  function RangesOf(pool: seq<Node>, useSourcePing: bool): Ranges
    requires pool != []
  { Ranges(RangeOf(Latencies(pool, useSourcePing)), RangeOf(Speeds(pool)), RangeOf(Sessions(pool))) }

  function ScoreIn(r: Ranges, useSourcePing: bool): Node -> real {
    (n: Node) => Weighted(Normalize(SmartLatency(n, useSourcePing), r.latency),
                          Normalize(EffSpeed(n) as real, r.speed),
                          Normalize(n.sourceSessions as real, r.sessions))
  }

  /** A node's score relative to the pool it is ranked in. */
  function Score(n: Node, pool: seq<Node>, useSourcePing: bool): real
    requires pool != []
  { ScoreIn(RangesOf(pool, useSourcePing), useSourcePing)(n) }

  /** The score table, filled node by node: a repeated id keeps its last score. */
  function Table(nodes: seq<Node>, score: Node -> real): map<Id, real> {
    if nodes == [] then map[] else
      var last := nodes[|nodes| - 1];
      Table(nodes[..|nodes| - 1], score)[last.id := score(last)]
  }

  function SmartScores(pool: seq<Node>, useSourcePing: bool): map<Id, real>
    requires pool != []
  { Table(pool, ScoreIn(RangesOf(pool, useSourcePing), useSourcePing)) }

  function Points(scores: map<Id, real>, id: Id): real { if id in scores then scores[id] else 0.0 }

  predicate HigherScore(scores: map<Id, real>, a: Node, b: Node) {
    if Points(scores, a.id) != Points(scores, b.id) then Points(scores, a.id) > Points(scores, b.id)
    else StringLess(a.id, b.id)
  }

  function ScoreOrder(scores: map<Id, real>): Less<Node> { (a: Node, b: Node) => HigherScore(scores, a, b) }

  function SmartRanking(nodes: seq<Node>, useSourcePing: bool): seq<Node> {
    if nodes == [] then [] else Sorted(ScoreOrder(SmartScores(nodes, useSourcePing)), nodes)
  }

  method SortSmartCandidates(nodes: array<Node>, useSourcePing: bool)
    modifies nodes
    ensures nodes[..] == SmartRanking(old(nodes[..]), useSourcePing)
  {
    if nodes.Length < 2 {
      if nodes.Length == 1 { SortedOfOne(ScoreOrder(SmartScores(nodes[..], useSourcePing)), nodes[..]); }
      return;
    }
    var scores := ScoreTable(nodes[..], useSourcePing);
    SliceStable(nodes, ScoreOrder(scores));
  }

  method Measure(nodes: seq<Node>, useSourcePing: bool)
    returns (latencies: seq<real>, speeds: seq<real>, sessions: seq<real>)
    ensures latencies == Latencies(nodes, useSourcePing) && speeds == Speeds(nodes) && sessions == Sessions(nodes)
  {
    latencies, speeds, sessions := [], [], [];
    for i := 0 to |nodes|
      invariant latencies == Latencies(nodes[..i], useSourcePing) && speeds == Speeds(nodes[..i])
        && sessions == Sessions(nodes[..i])
    {
      latencies := latencies + [SmartLatency(nodes[i], useSourcePing)];
      speeds := speeds + [EffSpeed(nodes[i]) as real];
      sessions := sessions + [nodes[i].sourceSessions as real];
    }
    assert nodes[..|nodes|] == nodes;
  }

  method ScoreTable(nodes: seq<Node>, useSourcePing: bool) returns (scores: map<Id, real>)
    requires nodes != []
    ensures scores == SmartScores(nodes, useSourcePing)
  {
    var latencies, speeds, sessions := Measure(nodes, useSourcePing);
    assert |latencies| == |speeds| == |sessions| == |nodes|;
    var latencyRange := MinMax(latencies);
    var speedRange := MinMax(speeds);
    var sessionRange := MinMax(sessions);
    scores := FillTable(nodes, ScoreIn(Ranges(latencyRange, speedRange, sessionRange), useSourcePing));
  }

  method FillTable(nodes: seq<Node>, score: Node -> real) returns (scores: map<Id, real>)
    ensures scores == Table(nodes, score)
  {
    scores := map[];
    for i := 0 to |nodes|
      invariant scores == Table(nodes[..i], score)
    {
      assert nodes[..i + 1] == nodes[..i] + [nodes[i]];
      scores := scores[nodes[i].id := score(nodes[i])];
    }
    assert nodes[..|nodes|] == nodes;
  }

  /** No two different nodes share an id. */
  ghost predicate IdsIdentify(nodes: seq<Node>) {
    forall x, y :: x in nodes && y in nodes && x.id == y.id ==> x == y
  }

  lemma ScoreOrderIsWeakOrder(scores: map<Id, real>)
    ensures StrictWeakOrder(ScoreOrder(scores))
  {
    var less := ScoreOrder(scores);
    forall x, y | less(x, y) ensures !less(y, x) { StringLessTotal(x.id, y.id); }
    forall x, y, z | less(x, z) ensures less(x, y) || less(y, z) {
      StringLessTotal(x.id, y.id);
      if StringLess(y.id, x.id) && StringLess(x.id, z.id) { StringLessTransitive(y.id, x.id, z.id); }
    }
  }

  function Ids(nodes: seq<Node>): set<Id> { set n | n in nodes :: n.id }

  lemma {:induction false} TableOf(nodes: seq<Node>, score: Node -> real)
    requires IdsIdentify(nodes)
    ensures Table(nodes, score).Keys == Ids(nodes)
    ensures forall n <- nodes :: Table(nodes, score)[n.id] == score(n)
  {
    if nodes != [] {
      var front, last := nodes[..|nodes| - 1], nodes[|nodes| - 1];
      assert nodes == front + [last];
      TableOf(front, score);
    }
  }

  lemma ScoreOfMember(pool: seq<Node>, useSourcePing: bool, n: Node)
    requires n in pool && IdsIdentify(pool)
    ensures Points(SmartScores(pool, useSourcePing), n.id) == Score(n, pool, useSourcePing)
  {
    TableOf(pool, ScoreIn(RangesOf(pool, useSourcePing), useSourcePing));
  }

  // ---- properties of the score -----------------------------------------------------------------

  lemma Quotients(a: real, b: real, d: real)
    requires d > 0.0
    ensures a <= b ==> a / d <= b / d
    ensures a < b ==> a / d < b / d
    ensures d / d == 1.0 && 0.0 / d == 0.0
  {
    assert (b - a) / d == b / d - a / d;
    if a <= b { assert (b - a) / d >= 0.0; }
    if a < b { assert (b - a) / d > 0.0; }
  }

  lemma NormalizeBounds(v: real, r: Range)
    requires r.lo <= v <= r.hi
    ensures 0.0 <= Normalize(v, r) <= 1.0
  {
    if r.hi != r.lo {
      assert r.lo < r.hi;
      Quotients(0.0, v - r.lo, r.hi - r.lo);
      Quotients(v - r.lo, r.hi - r.lo, r.hi - r.lo);
    }
  }

  lemma NormalizeMonotone(v: real, w: real, r: Range)
    requires r.lo <= v <= r.hi && r.lo <= w <= r.hi && v <= w
    ensures Normalize(v, r) <= Normalize(w, r) && (v < w ==> Normalize(v, r) < Normalize(w, r))
  {
    if r.hi != r.lo { Quotients(v - r.lo, w - r.lo, r.hi - r.lo); }
  }

  lemma InRanges(n: Node, pool: seq<Node>, useSourcePing: bool)
    requires n in pool
    ensures var l := RangeOf(Latencies(pool, useSourcePing)); l.lo <= SmartLatency(n, useSourcePing) <= l.hi
    ensures var s := RangeOf(Speeds(pool)); s.lo <= EffSpeed(n) as real <= s.hi
    ensures var c := RangeOf(Sessions(pool)); c.lo <= n.sourceSessions as real <= c.hi
  {
    var i :| 0 <= i < |pool| && pool[i] == n;
    assert Latencies(pool, useSourcePing)[i] in Latencies(pool, useSourcePing);
    assert Speeds(pool)[i] in Speeds(pool) && Sessions(pool)[i] in Sessions(pool);
  }

  lemma ScoreInUnitInterval(n: Node, pool: seq<Node>, useSourcePing: bool)
    requires n in pool
    ensures 0.0 <= Score(n, pool, useSourcePing) <= 1.0
  {
    InRanges(n, pool, useSourcePing);
    NormalizeBounds(SmartLatency(n, useSourcePing), RangeOf(Latencies(pool, useSourcePing)));
    NormalizeBounds(EffSpeed(n) as real, RangeOf(Speeds(pool)));
    NormalizeBounds(n.sourceSessions as real, RangeOf(Sessions(pool)));
  }

  /** At least as good in latency, speed and sessions, and better in one. */
  predicate Dominates(a: Node, b: Node, useSourcePing: bool) {
    && SmartLatency(a, useSourcePing) <= SmartLatency(b, useSourcePing)
    && EffSpeed(a) >= EffSpeed(b) && a.sourceSessions <= b.sourceSessions
    && (|| SmartLatency(a, useSourcePing) < SmartLatency(b, useSourcePing)
        || EffSpeed(a) > EffSpeed(b) || a.sourceSessions < b.sourceSessions)
  }

  lemma DominatorScoresHigher(a: Node, b: Node, pool: seq<Node>, useSourcePing: bool)
    requires a in pool && b in pool && Dominates(a, b, useSourcePing)
    ensures Score(a, pool, useSourcePing) > Score(b, pool, useSourcePing)
  {
    InRanges(a, pool, useSourcePing);
    InRanges(b, pool, useSourcePing);
    NormalizeMonotone(SmartLatency(a, useSourcePing), SmartLatency(b, useSourcePing),
        RangeOf(Latencies(pool, useSourcePing)));
    NormalizeMonotone(EffSpeed(b) as real, EffSpeed(a) as real, RangeOf(Speeds(pool)));
    NormalizeMonotone(a.sourceSessions as real, b.sourceSessions as real, RangeOf(Sessions(pool)));
  }

  lemma SmartRankingOrdered(pool: seq<Node>, useSourcePing: bool)
    requires pool != []
    ensures Ordered(ScoreOrder(SmartScores(pool, useSourcePing)), SmartRanking(pool, useSourcePing))
    ensures forall n <- SmartRanking(pool, useSourcePing) :: n in pool
  {
    var order := ScoreOrder(SmartScores(pool, useSourcePing));
    ScoreOrderIsWeakOrder(SmartScores(pool, useSourcePing));
    SortedIsStable(order, pool);
    SortedKeepsElements(order, pool);
    SameElements(Sorted(order, pool), pool);
  }

  lemma AheadInOrder<T(!new)>(less: Less<T>, r: seq<T>, i: nat, j: nat)
    requires Ordered(less, r) && i < |r| && j < |r| && less(r[i], r[j]) && r[i] != r[j]
    ensures i < j
  {}

  /** A node is ranked ahead of every node it dominates. */
  lemma DominatorRanksAhead(pool: seq<Node>, useSourcePing: bool, r: seq<Node>, i: nat, j: nat)
    requires IdsIdentify(pool) && r == SmartRanking(pool, useSourcePing) && i < |r| && j < |r|
    requires Dominates(r[i], r[j], useSourcePing)
    ensures i < j
  {
    SmartRankingOrdered(pool, useSourcePing);
    DominatorIsHigher(r[i], r[j], pool, useSourcePing);
    AheadInOrder(ScoreOrder(SmartScores(pool, useSourcePing)), r, i, j);
  }

  lemma DominatorIsHigher(a: Node, b: Node, pool: seq<Node>, useSourcePing: bool)
    requires a in pool && b in pool && IdsIdentify(pool) && Dominates(a, b, useSourcePing)
    ensures HigherScore(SmartScores(pool, useSourcePing), a, b)
  {
    ScoreOfMember(pool, useSourcePing, a);
    ScoreOfMember(pool, useSourcePing, b);
    DominatorScoresHigher(a, b, pool, useSourcePing);
  }

  lemma SpanUnique(a: seq<real>, b: seq<real>, r: Range, q: Range)
    requires Spans(r, a) && Spans(q, b) && forall v :: v in a <==> v in b
    ensures r == q
  {}

  lemma SameValues(s: seq<Node>, t: seq<Node>, useSourcePing: bool)
    requires forall n :: n in s <==> n in t
    ensures forall v :: v in Latencies(s, useSourcePing) <==> v in Latencies(t, useSourcePing)
    ensures forall v :: v in Speeds(s) <==> v in Speeds(t)
    ensures forall v :: v in Sessions(s) <==> v in Sessions(t)
  {
    ValuesWithin(s, t, useSourcePing);
    ValuesWithin(t, s, useSourcePing);
  }

  lemma ValuesWithin(s: seq<Node>, t: seq<Node>, useSourcePing: bool)
    requires forall n :: n in s ==> n in t
    ensures forall v :: v in Latencies(s, useSourcePing) ==> v in Latencies(t, useSourcePing)
    ensures forall v :: v in Speeds(s) ==> v in Speeds(t)
    ensures forall v :: v in Sessions(s) ==> v in Sessions(t)
  {
    forall i | 0 <= i < |s|
      ensures Latencies(s, useSourcePing)[i] in Latencies(t, useSourcePing)
      ensures Speeds(s)[i] in Speeds(t) && Sessions(s)[i] in Sessions(t)
    {
      assert s[i] in t;
      var j :| 0 <= j < |t| && t[j] == s[i];
      assert Latencies(t, useSourcePing)[j] == Latencies(s, useSourcePing)[i];
      assert Speeds(t)[j] == Speeds(s)[i] && Sessions(t)[j] == Sessions(s)[i];
    }
  }

  lemma SameScore(s: seq<Node>, t: seq<Node>, useSourcePing: bool, n: Node)
    requires s != [] && t != [] && forall m :: m in s <==> m in t
    ensures Score(n, s, useSourcePing) == Score(n, t, useSourcePing)
  {
    SameValues(s, t, useSourcePing);
    var ls, lt := Latencies(s, useSourcePing), Latencies(t, useSourcePing);
    SpanUnique(ls, lt, RangeOf(ls), RangeOf(lt));
    SpanUnique(Speeds(s), Speeds(t), RangeOf(Speeds(s)), RangeOf(Speeds(t)));
    SpanUnique(Sessions(s), Sessions(t), RangeOf(Sessions(s)), RangeOf(Sessions(t)));
  }

  lemma SameTables(s: seq<Node>, t: seq<Node>, f: Node -> real, g: Node -> real)
    requires IdsIdentify(s) && (forall n :: n in s <==> n in t) && forall n <- s :: f(n) == g(n)
    ensures Table(s, f) == Table(t, g)
  {
    TableOf(s, f);
    TableOf(t, g);
    assert Table(s, f).Keys == Table(t, g).Keys;
    forall id | id in Table(s, f) ensures Table(s, f)[id] == Table(t, g)[id] {
      var n :| n in s && n.id == id;
    }
  }

  lemma ScoresIgnoreInputOrder(s: seq<Node>, t: seq<Node>, useSourcePing: bool)
    requires s != [] && t != [] && IdsIdentify(s) && forall n :: n in s <==> n in t
    ensures SmartScores(s, useSourcePing) == SmartScores(t, useSourcePing)
  {
    var f, g := ScoreIn(RangesOf(s, useSourcePing), useSourcePing), ScoreIn(RangesOf(t, useSourcePing), useSourcePing);
    forall n | n in s ensures f(n) == g(n) { SameScore(s, t, useSourcePing, n); }
    SameTables(s, t, f, g);
  }

  /** The smart ranking depends on which nodes there are, not on the order they were listed in. */
  lemma SmartRankingIgnoresInputOrder(s: seq<Node>, t: seq<Node>, useSourcePing: bool)
    requires multiset(s) == multiset(t) && IdsIdentify(s)
    ensures SmartRanking(s, useSourcePing) == SmartRanking(t, useSourcePing)
  {
    SameElements(s, t);
    if s != [] {
      ScoresIgnoreInputOrder(s, t, useSourcePing);
      var scores := SmartScores(s, useSourcePing);
      ScoreOrderIsWeakOrder(scores);
      forall x, y | x in s && y in s && x != y ensures HigherScore(scores, x, y) || HigherScore(scores, y, x) {
        StringLessTotal(x.id, y.id);
      }
      SortedIgnoresInputOrder(ScoreOrder(scores), s, t);
    }
  }

  // ---- the score in plain terms ------------------------------------------------------------------

  /** What a node's latency counts as. */
  function Slowness(n: Node, useSourcePing: bool): int {
    if n.latency > 0 then n.latency else if useSourcePing && n.sourcePing > 0 then n.sourcePing else 999999
  }

  function Swiftness(n: Node): int { if n.sourceSpeed > 0 then n.sourceSpeed else -1 }

  function SlownessOf(useSourcePing: bool): Node -> int { (m: Node) => Slowness(m, useSourcePing) }
  function SwiftnessOf(): Node -> int { (m: Node) => Swiftness(m) }
  function SessionsOf(): Node -> int { (m: Node) => m.sourceSessions }

  /** lo and hi are the least and the greatest value of f over the pool. */
  ghost predicate Extremes(pool: seq<Node>, f: Node -> int, lo: int, hi: int) {
    && (exists n <- pool :: f(n) == lo) && (exists n <- pool :: f(n) == hi)
    && forall n <- pool :: lo <= f(n) <= hi
  }

  /** The worst and the best latency, speed and number of sessions of the pool. */
  ghost predicate Spread(pool: seq<Node>, useSourcePing: bool, l: (int, int), s: (int, int), c: (int, int)) {
    && Extremes(pool, SlownessOf(useSourcePing), l.0, l.1)
    && Extremes(pool, SwiftnessOf(), s.0, s.1) && Extremes(pool, SessionsOf(), c.0, c.1)
  }

  /** How much of the way from worst to best, and half of it when all are alike. */
  function Share(gained: int, width: int): real { if width == 0 then 0.5 else gained as real / width as real }

  lemma ShareOfNormal(v: int, lo: int, hi: int)
    ensures Normalize(v as real, Range(lo as real, hi as real)) == Share(v - lo, hi - lo)
    ensures 1.0 - Normalize(v as real, Range(lo as real, hi as real)) == Share(hi - v, hi - lo)
  {
    if lo != hi {
      var d := (hi - lo) as real;
      assert (hi - v) as real == d - (v - lo) as real;
      assert (d - (v - lo) as real) / d == d / d - (v - lo) as real / d;
      assert d / d == 1.0;
    }
  }

  lemma RangeIs(values: seq<real>, pool: seq<Node>, f: Node -> int, lo: int, hi: int)
    requires |values| == |pool| > 0 && forall i :: 0 <= i < |pool| ==> values[i] == f(pool[i]) as real
    requires Extremes(pool, f, lo, hi)
    ensures RangeOf(values) == Range(lo as real, hi as real)
  {
    var r := RangeOf(values);
    var l, h :| l in pool && f(l) == lo && h in pool && f(h) == hi;
    var i, j :| 0 <= i < |pool| && pool[i] == l && 0 <= j < |pool| && pool[j] == h;
    assert values[i] in values && values[j] in values;
    forall v | v in values ensures lo as real <= v <= hi as real {
      var k :| 0 <= k < |values| && values[k] == v;
      assert pool[k] in pool;
    }
  }

  /** Two fifths for latency, two fifths for speed, one fifth for few sessions, each by where the value stands between
      the worst and the best. */
  function Blend(latency: int, speed: int, sessions: int, l: (int, int), s: (int, int), c: (int, int)): real {
    0.4 * Share(l.1 - latency, l.1 - l.0) + 0.4 * Share(speed - s.0, s.1 - s.0)
    + 0.2 * Share(c.1 - sessions, c.1 - c.0)
  }

  /** The score blends where the node stands in its pool. */
  lemma ScoreIs(n: Node, pool: seq<Node>, useSourcePing: bool, l: (int, int), s: (int, int), c: (int, int))
    requires n in pool && Spread(pool, useSourcePing, l, s, c)
    ensures Score(n, pool, useSourcePing) == Blend(Slowness(n, useSourcePing), Swiftness(n), n.sourceSessions, l, s, c)
  {
    RangesAre(pool, useSourcePing, l, s, c);
    ScoreGiven(n, pool, useSourcePing, Ranges(RangeFrom(l), RangeFrom(s), RangeFrom(c)));
    SharesAre(Slowness(n, useSourcePing), Swiftness(n), n.sourceSessions, l, s, c);
  }

  lemma SharesAre(latency: int, speed: int, sessions: int, l: (int, int), s: (int, int), c: (int, int))
    ensures Weighted(Normalize(latency as real, RangeFrom(l)), Normalize(speed as real, RangeFrom(s)),
                     Normalize(sessions as real, RangeFrom(c))) ==
      Blend(latency, speed, sessions, l, s, c)
  {
    ShareOfNormal(latency, l.0, l.1);
    ShareOfNormal(speed, s.0, s.1);
    ShareOfNormal(sessions, c.0, c.1);
  }

  function RangeFrom(bounds: (int, int)): Range { Range(bounds.0 as real, bounds.1 as real) }

  lemma RangesAre(pool: seq<Node>, useSourcePing: bool, l: (int, int), s: (int, int), c: (int, int))
    requires pool != []
    ensures Spread(pool, useSourcePing, l, s, c) ==>
      RangesOf(pool, useSourcePing) == Ranges(RangeFrom(l), RangeFrom(s), RangeFrom(c))
  {
    if Spread(pool, useSourcePing, l, s, c) {
      RangeIs(Latencies(pool, useSourcePing), pool, SlownessOf(useSourcePing), l.0, l.1);
      RangeIs(Speeds(pool), pool, SwiftnessOf(), s.0, s.1);
      RangeIs(Sessions(pool), pool, SessionsOf(), c.0, c.1);
    }
  }

  lemma ScoreGiven(n: Node, pool: seq<Node>, useSourcePing: bool, r: Ranges)
    requires pool != []
    ensures RangesOf(pool, useSourcePing) == r ==>
      Score(n, pool, useSourcePing) ==
        Weighted(Normalize(Slowness(n, useSourcePing) as real, r.latency), Normalize(Swiftness(n) as real, r.speed),
                 Normalize(n.sourceSessions as real, r.sessions))
  {}


  /** The smart ranking: never a lower score ahead of a higher one, and among equal scores the smaller id first. */
  lemma SmartRankingMeans(pool: seq<Node>, useSourcePing: bool, i: nat, j: nat)
    requires IdsIdentify(pool) && i < j < |SmartRanking(pool, useSourcePing)|
    ensures pool != [] && var r := SmartRanking(pool, useSourcePing);
      var a, b := Score(r[i], pool, useSourcePing), Score(r[j], pool, useSourcePing);
      a > b || (a == b && !StringLess(r[j].id, r[i].id))
  {
    var r := SmartRanking(pool, useSourcePing);
    SmartRankingOrdered(pool, useSourcePing);
    assert r[i] in r && r[j] in r;
    ScoreOfMember(pool, useSourcePing, r[i]);
    ScoreOfMember(pool, useSourcePing, r[j]);
    assert !ScoreOrder(SmartScores(pool, useSourcePing))(r[j], r[i]);
  }
}
