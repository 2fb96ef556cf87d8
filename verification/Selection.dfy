/** Picking the exit node: the listing query, the ranking of a filtered list, and its first element
    (internal/services/pool.go, selectExcluding in internal/services/autoswitch.go). */
module Selection {
  import opened Lists
  import opened Ranking
  import opened Sorting
  import opened Store
  import opened Text

  const SWITCH_FETCH_LIMIT: nat := 1000

  // ---- the listing query ---------------------------------------------------------------

  predicate ListedBefore(a: Node, b: Node) {
    if EffLatency(a) != EffLatency(b) then EffLatency(a) < EffLatency(b)
    else if a.sourceScore != b.sourceScore then a.sourceScore > b.sourceScore
    else StringLess(a.id, b.id)
  }

  function ListOrder(): Less<Node> { (a: Node, b: Node) => ListedBefore(a, b) }

  function Take<T>(s: seq<T>, n: nat): seq<T> { if |s| <= n then s else s[..n] }

  /** The first `limit` rows that `keep` admits, in listing order. */
  function ListNodes(rows: seq<Node>, keep: Node -> bool, limit: nat): seq<Node> {
    Take(Sorted(ListOrder(), Filter(rows, keep)), limit)
  }

  function IsReady(): Node -> bool { (n: Node) => n.status == Ready }

  lemma ListOrderIsWeakOrder()
    ensures StrictWeakOrder(ListOrder())
  {
    var less := ListOrder();
    forall x, y | less(x, y) ensures !less(y, x) { StringLessTotal(x.id, y.id); }
    forall x, y, z | less(x, z) ensures less(x, y) || less(y, z) {
      StringLessTotal(x.id, y.id);
      if StringLess(y.id, x.id) && StringLess(x.id, z.id) { StringLessTransitive(y.id, x.id, z.id); }
    }
  }

  lemma ListedIsRow(rows: seq<Node>, keep: Node -> bool, limit: nat, n: Node)
    requires n in ListNodes(rows, keep, limit)
    ensures n in rows && keep(n)
  {
    SortedKeepsElements(ListOrder(), Filter(rows, keep));
    SameElements(Sorted(ListOrder(), Filter(rows, keep)), Filter(rows, keep));
    assert n in Sorted(ListOrder(), Filter(rows, keep));
  }

  /** A listing holds only admitted rows; it leaves one out only when the limit is full of rows before it. */
  lemma ListingIsFaithful(rows: seq<Node>, keep: Node -> bool, limit: nat, n: Node)
    requires IdsIdentify(rows)
    ensures n in ListNodes(rows, keep, limit) ==> n in rows && keep(n)
    ensures n in rows && keep(n) && n !in ListNodes(rows, keep, limit) ==>
      |ListNodes(rows, keep, limit)| == limit && forall m <- ListNodes(rows, keep, limit) :: ListedBefore(m, n)
  {
    var kept, listed := Filter(rows, keep), ListNodes(rows, keep, limit);
    var all := Sorted(ListOrder(), kept);
    ListOrderIsWeakOrder();
    SortedIsStable(ListOrder(), kept);
    SortedKeepsElements(ListOrder(), kept);
    SameElements(all, kept);
    if n in rows && keep(n) && n !in listed {
      assert n in kept;
      var i :| 0 <= i < |all| && all[i] == n;
      forall m | m in listed ensures ListedBefore(m, n) {
        var j :| 0 <= j < limit && listed[j] == m;
        assert all[j] == m && j < i;
        assert !ListOrder()(n, m);
        StringLessTotal(m.id, n.id);
      }
    }
  }

  // ---- the ranking and its head -----------------------------------------------------------

  function Preference(s: Settings, pool: seq<Node>): Less<Node>
    requires pool != []
  {
    if s.mode == Smart then ScoreOrder(SmartScores(pool, false)) else ModeOrder(s.mode)
  }

  function Ranked(s: Settings, pool: seq<Node>): seq<Node> {
    if s.mode == Smart then SmartRanking(pool, false) else Sorted(ModeOrder(s.mode), pool)
  }

  method SortCandidates(nodes: array<Node>, s: Settings)
    modifies nodes
    ensures nodes[..] == Ranked(s, old(nodes[..]))
  {
    if s.mode == Smart {
      SortSmartCandidates(nodes, false);
      return;
    }
    SliceStable(nodes, ModeOrder(s.mode));
  }

  /** Nothing in the pool is preferred to b, and b is preferred to everything listed before it. */
  ghost predicate Best(s: Settings, pool: seq<Node>, b: Node) {
    && (forall n <- pool :: !Preference(s, pool)(n, b))
    && exists i :: 0 <= i < |pool| && pool[i] == b && forall j :: 0 <= j < i ==> Preference(s, pool)(b, pool[j])
  }

  lemma PreferenceIsWeakOrder(s: Settings, pool: seq<Node>)
    requires pool != []
    ensures StrictWeakOrder(Preference(s, pool))
  {
    if s.mode == Smart { ScoreOrderIsWeakOrder(SmartScores(pool, false)); } else { ModeOrderIsWeakOrder(s.mode); }
  }

  /** p admits nothing before position i. */
  ghost predicate NoneBefore<T>(s: seq<T>, p: T -> bool, i: nat) { i < |s| && forall j :: 0 <= j < i ==> !p(s[j]) }

  lemma {:induction false} FilterHead<T(!new)>(s: seq<T>, p: T -> bool) returns (i: nat)
    requires Filter(s, p) != []
    ensures NoneBefore(s, p, i) && s[i] == Filter(s, p)[0]
  {
    i := 0;
    if !p(s[0]) {
      var k := FilterHead(s[1..], p);
      i := k + 1;
      forall j | 0 <= j < i ensures !p(s[j]) { if j > 0 { assert s[j] == s[1..][j - 1]; } }
    }
  }

  lemma HeadIsBest(s: Settings, pool: seq<Node>)
    requires pool != []
    ensures Ranked(s, pool) != [] && Best(s, pool, Ranked(s, pool)[0])
  {
    var less, r := Preference(s, pool), Ranked(s, pool);
    PreferenceIsWeakOrder(s, pool);
    SortedIsStable(less, pool);
    SortedKeepsElements(less, pool);
    SameElements(r, pool);
    var b := r[0];
    forall n | n in pool ensures !less(n, b) { HeadIsLeast(less, r, n); }
    var p := Equals(less, b);
    assert Filter(r, p)[0] == b;
    var i := FilterHead(pool, p);
    forall j | 0 <= j < i ensures less(b, pool[j]) { assert pool[j] in pool; }
  }

  // ---- selection ----------------------------------------------------------------------------

  function NotIn(excluded: set<Id>): Node -> bool { (n: Node) => n.id !in excluded }

  /** The ready rows a selection considers. */
  function Candidates(labels: Labels, rows: seq<Node>, s: Settings, excluded: set<Id>, limit: nat): seq<Node> {
    Filter(Filter(ListNodes(rows, IsReady(), limit), Eligible(labels, s, false)), NotIn(excluded))
  }

  ghost predicate Selects(labels: Labels, rows: seq<Node>, s: Settings, excluded: set<Id>, limit: nat,
                          best: Option<Node>)
  {
    var pool := Candidates(labels, rows, s, excluded, limit);
    (best.None? <==> pool == []) && (best.Some? ==> Best(s, pool, best.value))
  }

  method PickFirst(labels: Labels, rows: seq<Node>, s: Settings, excluded: set<Id>, limit: nat)
    returns (best: Option<Node>)
    ensures Selects(labels, rows, s, excluded, limit, best)
  {
    var listed := ListNodes(rows, IsReady(), limit);
    var candidates := ApplyFilters(labels, listed, s, false);
    var filtered: seq<Node> := [];
    for k := 0 to |candidates|
      invariant filtered == Filter(candidates[..k], NotIn(excluded))
    {
      FilterStep(candidates, k, NotIn(excluded));
      if candidates[k].id !in excluded { filtered := filtered + [candidates[k]]; }
    }
    assert candidates[..|candidates|] == candidates;
    if |filtered| == 0 { return None; }
    var nodes := new Node[|filtered|](i requires 0 <= i < |filtered| => filtered[i]);
    assert nodes[..] == filtered;
    SortCandidates(nodes, s);
    HeadIsBest(s, filtered);
    assert nodes[..][0] == nodes[0];
    best := Some(nodes[0]);
  }

  method SelectBest(labels: Labels, rows: seq<Node>, s: Settings, excludeNode: Id) returns (best: Option<Node>)
    ensures !s.connectionEnabled ==> best == None
    ensures s.connectionEnabled ==>
      Selects(labels, rows, s, if excludeNode == "" then {} else {excludeNode}, 5000, best)
  {
    if !s.connectionEnabled { return None; }
    best := PickFirst(labels, rows, s, if excludeNode == "" then {} else {excludeNode}, CANDIDATE_FETCH_LIMIT);
  }

  /** selectExcluding: it lists a fifth of what SelectBest lists. */
  method SelectExcluding(labels: Labels, rows: seq<Node>, s: Settings, excluded: set<Id>) returns (best: Option<Node>)
    ensures Selects(labels, rows, s, excluded, 1000, best)
  {
    best := PickFirst(labels, rows, s, excluded, SWITCH_FETCH_LIMIT);
  }

  datatype Verdict = Allowed | Disabled | RoutingMismatch

  method ValidateAllowed(labels: Labels, n: Node, s: Settings) returns (v: Verdict)
    ensures v ==
      if !s.connectionEnabled then Disabled else if Eligible(labels, s, false)(n) then Allowed else RoutingMismatch
  {
    if !s.connectionEnabled { return Disabled; }
    var admitted := ApplyFilters(labels, [n], s, false);
    assert [n][0] == n && (|admitted| == 0 <==> !Eligible(labels, s, false)(n)) by {
      if Eligible(labels, s, false)(n) { assert n in admitted; } else { FilterNone([n], Eligible(labels, s, false)); }
    }
    v := if |admitted| == 0 then RoutingMismatch else Allowed;
  }

  predicate Qualifies(labels: Labels, s: Settings, excluded: set<Id>, n: Node) {
    n.status == Ready && Eligible(labels, s, false)(n) && n.id !in excluded
  }

  /** A selected node is a ready row the routing settings allow and the caller did not exclude. With no more
      ready rows than the limit, one is selected whenever there is one, and no other such row is preferred to it. */
  lemma SelectionIsSound(labels: Labels, rows: seq<Node>, s: Settings, excluded: set<Id>, limit: nat,
        best: Option<Node>, n: Node)
    requires IdsIdentify(rows) && Selects(labels, rows, s, excluded, limit, best)
    ensures best.Some? ==>
      && best.value in rows && best.value.status == Ready && Eligible(labels, s, false)(best.value)
      && best.value.id !in excluded
    ensures |Filter(rows, IsReady())| <= limit && n in rows && Qualifies(labels, s, excluded, n) ==>
      best.Some? && !Preference(s, Candidates(labels, rows, s, excluded, limit))(n, best.value)
  {
    var pool := Candidates(labels, rows, s, excluded, limit);
    if best.Some? {
      assert best.value in pool;
      ListingIsFaithful(rows, IsReady(), limit, best.value);
    }
    if |Filter(rows, IsReady())| <= limit && n in rows && Qualifies(labels, s, excluded, n) {
      SortedKeepsElements(ListOrder(), Filter(rows, IsReady()));
      SameElements(Sorted(ListOrder(), Filter(rows, IsReady())), Filter(rows, IsReady()));
      assert n in ListNodes(rows, IsReady(), limit);
      assert n in pool;
    }
  }

  // ---- what is listed, and what is chosen, in plain terms -------------------------------------

  /** The listing goes by measured latency, then score, then id. */
  lemma ListedBeforeMeans(a: Node, b: Node)
    ensures var x, y := if a.latency > 0 then a.latency else 999999, if b.latency > 0 then b.latency else 999999;
      ListedBefore(a, b) <==>
        || LexLess([x, -a.sourceScore], [y, -b.sourceScore])
        || (x == y && a.sourceScore == b.sourceScore && StringLess(a.id, b.id))
  {
    var x, y := if a.latency > 0 then a.latency else 999999, if b.latency > 0 then b.latency else 999999;
    LexTwo(x, -a.sourceScore, y, -b.sourceScore);
  }

  lemma LexTwo(a: int, b: int, x: int, y: int)
    ensures LexLess([a, b], [x, y]) <==> a < x || (a == x && b < y)
  {
    LexTail([a, b], [x, y]);
    assert [a, b][1..] == [b] && [x, y][1..] == [y];
    LexTail([b], [y]);
  }

  /** Outside the smart mode, the choice has the least key of the candidates. */
  lemma BestHasLeastKey(s: Settings, pool: seq<Node>, best: Node, n: Node)
    requires Best(s, pool, best) && s.mode != Smart && n in pool
    ensures !LexLess(ModeKey(s.mode, n), ModeKey(s.mode, best))
  {
    LessIsLexicographic(s.mode, n, best);
    assert !Preference(s, pool)(n, best);
  }

  lemma FirstKeyDecides(a: seq<int>, b: seq<int>)
    requires a != [] && b != [] && a[0] < b[0]
    ensures LexLess(a, b)
  {}

  /** So by speed no candidate is faster; by residence, a commercial exit is chosen only without any other; and in the
      remaining modes no candidate has a lower measured latency. */
  lemma BestMeans(s: Settings, pool: seq<Node>, best: Node, n: Node)
    requires Best(s, pool, best) && s.mode != Smart && n in pool
    ensures s.mode == SpeedFirst && n.sourceSpeed > 0 ==> best.sourceSpeed >= n.sourceSpeed
    ensures s.mode == ResidentialFirst && (n.ipType == Residential || n.ipType == Mobile) ==>
      best.ipType == Residential || best.ipType == Mobile
    ensures s.mode != SpeedFirst && s.mode != ResidentialFirst && 0 < n.latency < 999999 ==>
      0 < best.latency <= n.latency
  {
    BestHasLeastKey(s, pool, best, n);
    var a, b := ModeKey(s.mode, n), ModeKey(s.mode, best);
    if a[0] < b[0] { FirstKeyDecides(a, b); }
  }

  /** In the smart mode no candidate is better than the choice in latency, speed and sessions at once. */
  lemma SmartBestIsUndominated(s: Settings, pool: seq<Node>, best: Node, n: Node)
    requires Best(s, pool, best) && s.mode == Smart && n in pool && best in pool && IdsIdentify(pool)
    ensures !(Slowness(n, false) < Slowness(best, false) && Swiftness(n) > Swiftness(best)
              && n.sourceSessions < best.sourceSessions)
  {
    assert !Preference(s, pool)(n, best);
    if Slowness(n, false) < Slowness(best, false) && Swiftness(n) > Swiftness(best)
      && n.sourceSessions < best.sourceSessions
    {
      DominatorIsHigher(n, best, pool, false);
    }
  }
}
