/** The maintenance cycle's probe lists (internal/services/maintenance.go). */
module Maintenance {
  import opened Lists
  import opened Ranking
  import opened Selection
  import opened Sorting
  import opened Store
  import opened Text

  const PROBE_BUDGET: nat := 200

  // ---- who is worth a handshake -----------------------------------------------------------

  predicate Worth(n: Node, includeUnavailable: bool) {
    n.status == Discovered || n.status == Ready || (includeUnavailable && n.status == Unavailable)
  }

  function IsReachable(): Node -> bool { (n: Node) => n.livenessFailures == 0 }
  function IsWorth(includeUnavailable: bool): Node -> bool { (n: Node) => Worth(n, includeUnavailable) }

  method CandidateNodes(rows: seq<Node>, includeUnavailable: bool) returns (out: seq<Node>)
    ensures out == Filter(ListNodes(rows, IsReachable(), CANDIDATE_FETCH_LIMIT), IsWorth(includeUnavailable))
  {
    var nodes := ListNodes(rows, IsReachable(), CANDIDATE_FETCH_LIMIT);
    out := [];
    for k := 0 to |nodes|
      invariant out == Filter(nodes[..k], IsWorth(includeUnavailable))
    {
      FilterStep(nodes, k, IsWorth(includeUnavailable));
      match nodes[k].status {
        case Discovered => out := out + [nodes[k]];
        case Ready => out := out + [nodes[k]];
        case Unavailable => if includeUnavailable { out := out + [nodes[k]]; }
        case _ =>
      }
    }
    assert nodes[..|nodes|] == nodes;
  }

  // ---- the fast pass of a disconnected gateway -----------------------------------------------

  function EffPing(n: Node): int { if n.sourcePing == 0 then UNMEASURED else n.sourcePing }

  predicate ProbeLess(mode: RoutingMode, a: Node, b: Node) {
    if mode == SpeedFirst && a.sourceSpeed != b.sourceSpeed then a.sourceSpeed > b.sourceSpeed
    else if EffPing(a) != EffPing(b) then EffPing(a) < EffPing(b)
    else if a.sourceScore != b.sourceScore then a.sourceScore > b.sourceScore
    else if a.sourceSpeed != b.sourceSpeed then a.sourceSpeed > b.sourceSpeed
    else a.sourceSessions < b.sourceSessions
  }

  function FastOrder(mode: RoutingMode): Less<Node> { (a: Node, b: Node) => ProbeLess(mode, a, b) }

  lemma FastOrderIsWeakOrder(mode: RoutingMode)
    ensures StrictWeakOrder(FastOrder(mode))
  {
    var less := FastOrder(mode);
    assert forall x, y :: less(x, y) == ProbeLess(mode, x, y);
  }

  function FastRanking(mode: RoutingMode, nodes: seq<Node>): seq<Node> {
    if mode == Smart then SmartRanking(nodes, true) else Sorted(FastOrder(mode), nodes)
  }

  function IdsOf(nodes: seq<Node>): seq<Id> { seq(|nodes|, i requires 0 <= i < |nodes| => nodes[i].id) }

  /** What the fast pass ranks: the worthwhile reachable rows that the settings admit. */
  function FastCandidates(labels: Labels, rows: seq<Node>, s: Settings): seq<Node> {
    Filter(Filter(ListNodes(rows, IsReachable(), CANDIDATE_FETCH_LIMIT), IsWorth(false)), Eligible(labels, s, true))
  }

  method FastPass(labels: Labels, rows: seq<Node>, s: Settings, limit: nat) returns (fast: seq<Id>)
    ensures fast == IdsOf(Take(FastRanking(s.mode, FastCandidates(labels, rows, s)), limit))
  {
    var candidates := CandidateNodes(rows, false);
    candidates := ApplyFilters(labels, candidates, s, true);
    var ranked := RankForProbe(s.mode, candidates);
    fast := FirstIds(ranked, limit);
  }

  method FirstIds(ranked: seq<Node>, limit: nat) returns (ids: seq<Id>)
    ensures ids == IdsOf(Take(ranked, limit))
  {
    ids := IdList(if limit > |ranked| then ranked else ranked[..limit]);
  }

  method RankForProbe(mode: RoutingMode, candidates: seq<Node>) returns (ranked: seq<Node>)
    ensures ranked == FastRanking(mode, candidates)
  {
    var nodes := new Node[|candidates|](i requires 0 <= i < |candidates| => candidates[i]);
    assert nodes[..] == candidates;
    if mode == Smart { SortSmartCandidates(nodes, true); } else { SliceStable(nodes, FastOrder(mode)); }
    ranked := nodes[..];
  }

  method IdList(nodes: seq<Node>) returns (ids: seq<Id>)
    ensures ids == IdsOf(nodes)
  {
    ids := [];
    for k := 0 to |nodes|
      invariant ids == IdsOf(nodes[..k])
    {
      ids := ids + [nodes[k].id];
    }
    assert nodes[..|nodes|] == nodes;
  }

  /** What the fast pass goes by: in the speed mode the advertised speed first; then the provider's ping, none counting
      as very slow, the score, the speed, and few sessions. */
  function FastKey(mode: RoutingMode, n: Node): seq<int> {
    var ping := if n.sourcePing != 0 then n.sourcePing else 999999;
    [if mode == SpeedFirst then -n.sourceSpeed else 0, ping, -n.sourceScore, -n.sourceSpeed, n.sourceSessions]
  }

  lemma ProbeLessIsLexicographic(mode: RoutingMode, a: Node, b: Node)
    ensures ProbeLess(mode, a, b) <==> LexLess(FastKey(mode, a), FastKey(mode, b))
  {
    var x, y := FastKey(mode, a), FastKey(mode, b);
    assert var tail := x[1] < y[1] || (x[1] == y[1] && LexLess(x[2..], y[2..]));
      LexLess(x, y) <==> x[0] < y[0] || (x[0] == y[0] && tail)
    by {
      LexTail(x, y);
      LexTail(x[1..], y[1..]);
      assert x[1..][1..] == x[2..] && y[1..][1..] == y[2..];
    }
    LexTail(x[2..], y[2..]);
    LexTail(x[3..], y[3..]);
    LexTail(x[4..], y[4..]);
    assert x[2..][1..] == x[3..] && y[2..][1..] == y[3..] && x[3..][1..] == x[4..] && y[3..][1..] == y[4..];
    assert x[4..][1..] == [] && y[4..][1..] == [];
  }

  /** Only reachable rows that are discovered or ready, or unavailable if those count, are worth a handshake; and with
      no more reachable rows than the query fetches every such row is. */
  lemma CandidatesMean(rows: seq<Node>, includeUnavailable: bool, n: Node)
    requires IdsIdentify(rows)
    ensures var worth := Filter(ListNodes(rows, IsReachable(), CANDIDATE_FETCH_LIMIT), IsWorth(includeUnavailable));
      var fit := n in rows && n.livenessFailures == 0
        && (n.status == Discovered || n.status == Ready || (includeUnavailable && n.status == Unavailable));
      (n in worth ==> fit) && (fit && |Filter(rows, IsReachable())| <= 5000 ==> n in worth)
  {
    ListingIsFaithful(rows, IsReachable(), CANDIDATE_FETCH_LIMIT, n);
    var all := Filter(rows, IsReachable());
    SortedKeepsElements(ListOrder(), all);
    SameElements(Sorted(ListOrder(), all), all);
  }

  // ---- the rotation step ------------------------------------------------------------------------

  predicate ProbedBefore(a: Node, b: Node) {
    b.lastProbed.Some? && (a.lastProbed.None? || a.lastProbed.value < b.lastProbed.value)
  }

  function ProbeOrder(): Less<Node> { (a: Node, b: Node) => ProbedBefore(a, b) }

  lemma ProbeOrderIsWeakOrder()
    ensures StrictWeakOrder(ProbeOrder())
  {
    var less := ProbeOrder();
    assert forall x, y :: less(x, y) == ProbedBefore(x, y);
  }

  function ProbeSlice(nodes: seq<Node>): seq<Id> { IdsOf(Take(Sorted(ProbeOrder(), nodes), PROBE_BUDGET)) }

  method SliceForCycle(nodes: array<Node>) returns (ids: seq<Id>)
    modifies nodes
    ensures ids == ProbeSlice(old(nodes[..]))
  {
    SliceStable(nodes, ProbeOrder());
    assert nodes[..nodes.Length] == nodes[..];
    var chosen := if nodes.Length > PROBE_BUDGET then nodes[..PROBE_BUDGET] else nodes[..];
    ids := IdList(chosen);
  }

  /** What one cycle hands to the prober after the fast pass. */
  method RotationStep(rows: seq<Node>, fastIds: set<Id>, active: Id) returns (ids: seq<Id>)
    ensures var worth := Filter(ListNodes(rows, IsReachable(), CANDIDATE_FETCH_LIMIT), IsWorth(true));
            ids == ProbeSlice(Filter(worth, NotIn(fastIds + {active})))
  {
    var all := CandidateNodes(rows, true);
    var eligible: seq<Node> := [];
    for k := 0 to |all|
      invariant eligible == Filter(all[..k], NotIn(fastIds + {active}))
    {
      FilterStep(all, k, NotIn(fastIds + {active}));
      if all[k].id !in fastIds && all[k].id != active { eligible := eligible + [all[k]]; }
    }
    assert all[..|all|] == all;
    var nodes := new Node[|eligible|](i requires 0 <= i < |eligible| => eligible[i]);
    assert nodes[..] == eligible;
    ids := SliceForCycle(nodes);
  }

  predicate IdsOnce(nodes: seq<Node>) { forall i, j :: 0 <= i < j < |nodes| ==> nodes[i].id != nodes[j].id }

  lemma {:induction false} CountOfIds(nodes: seq<Node>)
    ensures |Ids(nodes)| <= |nodes|
    ensures IdsOnce(nodes) ==> |Ids(nodes)| == |nodes|
  {
    if nodes != [] {
      var front, last := nodes[..|nodes| - 1], nodes[|nodes| - 1];
      CountOfIds(front);
      assert nodes == front + [last];
      assert Ids(nodes) == Ids(front) + {last.id};
    }
  }

  /** Rearranging nodes keeps their ids apart. */
  lemma RearrangedIdsOnce(s: seq<Node>, r: seq<Node>)
    requires multiset(s) == multiset(r) && IdsOnce(s)
    ensures IdsOnce(r) && Ids(r) == Ids(s)
  {
    SameElements(s, r);
    forall i, j | 0 <= i < j < |r| ensures r[i].id != r[j].id {
      assert r[i] in s && r[j] in s;
      var k, l :| 0 <= k < |s| && 0 <= l < |s| && s[k] == r[i] && s[l] == r[j];
      if k == l { TwiceCounted(r, i, j); OnceCounted(s, k); }
    }
  }

  lemma TwiceCounted(r: seq<Node>, i: nat, j: nat)
    requires i < j < |r| && r[i] == r[j]
    ensures multiset(r)[r[i]] >= 2
  {
    assert r == r[..i] + [r[i]] + r[i + 1..j] + [r[j]] + r[j + 1..];
  }

  lemma OnceCounted(s: seq<Node>, k: nat)
    requires k < |s| && IdsOnce(s)
    ensures multiset(s)[s[k]] == 1
  {
    assert s == s[..k] + [s[k]] + s[k + 1..];
    assert s[k] !in s[..k] && s[k] !in s[k + 1..];
  }

  lemma SliceIsFromPool(nodes: seq<Node>)
    requires IdsOnce(nodes)
    ensures var ids := ProbeSlice(nodes);
      && (forall i, j :: 0 <= i < j < |ids| ==> ids[i] != ids[j])
      && (forall id <- ids :: id in Ids(nodes))
      && |ids| <= PROBE_BUDGET
  {
    var r, ids := Sorted(ProbeOrder(), nodes), ProbeSlice(nodes);
    ProbeSorted(nodes, r);
    assert forall i :: 0 <= i < |ids| ==> ids[i] == r[i].id && r[i] in nodes;
  }

  /** Each id once, at most 200 of them; a node is left out only for 200 others none of which was probed after it. */
  lemma SliceIsLeastRecentlyProbed(nodes: seq<Node>, u: Node)
    requires IdsOnce(nodes) && u in nodes
    ensures var ids := ProbeSlice(nodes);
      && (forall i, j :: 0 <= i < j < |ids| ==> ids[i] != ids[j])
      && (forall id <- ids :: id in Ids(nodes))
      && |ids| <= 200
      && (u.id !in ids ==> |ids| == 200 && forall n <- nodes :: n.id in ids ==> !ProbedBefore(u, n))
  {
    var r, ids := Sorted(ProbeOrder(), nodes), ProbeSlice(nodes);
    SliceIsFromPool(nodes);
    ProbeSorted(nodes, r);
    if u.id !in ids {
      var k :| 0 <= k < |r| && r[k] == u;
      assert forall i :: 0 <= i < |ids| ==> ids[i] == r[i].id && ids[i] in ids;
      forall n | n in nodes && n.id in ids ensures !ProbedBefore(u, n) {
        var i :| 0 <= i < |ids| && ids[i] == n.id;
        SameId(nodes, r[i], n);
        assert !ProbeOrder()(r[k], r[i]);
      }
    }
  }

  lemma ProbeSorted(nodes: seq<Node>, r: seq<Node>)
    requires IdsOnce(nodes) && r == Sorted(ProbeOrder(), nodes)
    ensures IdsOnce(r) && Ordered(ProbeOrder(), r) && |r| == |nodes| && forall n :: n in r <==> n in nodes
  {
    ProbeOrderIsWeakOrder();
    SortedIsStable(ProbeOrder(), nodes);
    SortedKeepsElements(ProbeOrder(), nodes);
    RearrangedIdsOnce(nodes, r);
    SameElements(nodes, r);
  }

  lemma SameId(nodes: seq<Node>, a: Node, b: Node)
    requires IdsOnce(nodes) && a in nodes && b in nodes && a.id == b.id
    ensures a == b
  {
    var i, j :| 0 <= i < |nodes| && 0 <= j < |nodes| && nodes[i] == a && nodes[j] == b;
    assert i == j;
  }

  /** A node in the slice was never probed, or no later than any node that was left out. */
  lemma SliceIsOldest(nodes: seq<Node>, u: Node, n: Node)
    requires IdsOnce(nodes) && u in nodes && n in nodes && u.id !in ProbeSlice(nodes) && n.id in ProbeSlice(nodes)
    ensures n.lastProbed == None || (u.lastProbed.Some? && n.lastProbed.value <= u.lastProbed.value)
  {
    SliceIsLeastRecentlyProbed(nodes, u);
  }

  /** The fast pass hands out as many as it may before it leaves a node out, and never a worse one instead: none that
      comes later in its mode's key, and in the smart mode none of a lower score. */
  lemma FastPassMeans(mode: RoutingMode, nodes: seq<Node>, limit: nat, u: Node, n: Node)
    requires IdsOnce(nodes) && u in nodes && n in nodes
    requires var ids := IdsOf(Take(FastRanking(mode, nodes), limit)); u.id !in ids && n.id in ids
    ensures |IdsOf(Take(FastRanking(mode, nodes), limit))| == limit
    ensures if mode == Smart then Score(n, nodes, true) >= Score(u, nodes, true)
      else !LexLess(FastKey(mode, u), FastKey(mode, n))
  {
    var r, ids := FastRanking(mode, nodes), IdsOf(Take(FastRanking(mode, nodes), limit));
    FastRankingOrdered(mode, nodes, r);
    var k :| 0 <= k < |r| && r[k] == u;
    var i :| 0 <= i < |ids| && ids[i] == n.id;
    SameId(nodes, r[i], n);
    assert forall j :: 0 <= j < |ids| ==> ids[j] == r[j].id && ids[j] in ids;
    assert i < k;
    if mode == Smart {
      SmartRankingMeans(nodes, true, i, k);
    } else {
      ProbeLessIsLexicographic(mode, u, n);
      assert !FastOrder(mode)(r[k], r[i]);
    }
  }

  lemma FastRankingOrdered(mode: RoutingMode, nodes: seq<Node>, r: seq<Node>)
    requires nodes != [] && r == FastRanking(mode, nodes)
    ensures |r| == |nodes| && forall n :: n in r <==> n in nodes
    ensures mode != Smart ==> Ordered(FastOrder(mode), r)
  {
    var order := if mode == Smart then ScoreOrder(SmartScores(nodes, true)) else FastOrder(mode);
    FastOrderIsWeakOrder(mode);
    SortedKeepsElements(order, nodes);
    SameElements(r, nodes);
    if mode != Smart { SortedIsStable(order, nodes); }
  }

  /** It ranks the reachable rows that are discovered or ready and that the settings admit; an unknown type of address
      is given the benefit of the doubt. */
  lemma FastCandidatesMean(labels: Labels, rows: seq<Node>, s: Settings, n: Node)
    requires IdsIdentify(rows)
    ensures var fit := n in rows && n.livenessFailures == 0 && (n.status == Discovered || n.status == Ready)
        && ModeAdmits(labels, s, n) && IpAdmits(s, n, true);
      (n in FastCandidates(labels, rows, s) ==> fit)
      && (fit && |Filter(rows, IsReachable())| <= 5000 ==> n in FastCandidates(labels, rows, s))
  {
    CandidatesMean(rows, false, n);
    assert Eligible(labels, s, true)(n) <==> ModeAdmits(labels, s, n) && IpAdmits(s, n, true);
  }

  // ---- coverage over cycles -----------------------------------------------------------------------

  /** A probe is recorded on the row its id leads to. */
  function Recorded(aliases: map<Id, Id>, ids: set<Id>): set<Id> { set id | id in ids :: CanonicalId(aliases, id) }

  /** One probe pass on a fixed pool, in whatever order it is listed: later than every earlier probe. */
  ghost predicate Pass(aliases: map<Id, Id>, before: seq<Node>, ids: set<Id>, after: seq<Node>) {
    && IdsOnce(before) && IdsOnce(after) && Ids(before) == Ids(after)
    && forall a, b {:trigger a in after, b in before} :: a in after && b in before && a.id == b.id ==>
      if b.id in Recorded(aliases, ids) then
        && a.lastProbed.Some?
        && forall c <- before :: c.lastProbed.Some? ==> c.lastProbed.value < a.lastProbed.value
      else a.lastProbed == b.lastProbed
  }

  /** A cycle: the fast pass on `fastIds`, then the rotation step on its slice of what that leaves. */
  datatype Round = Round(before: seq<Node>, fastIds: set<Id>, between: seq<Node>, after: seq<Node>) {
    function Slice(): set<Id> { set id | id in ProbeSlice(Eligible()) }
    function Eligible(): seq<Node> { Filter(between, NotIn(fastIds)) }

    ghost predicate Valid(aliases: map<Id, Id>) {
      Pass(aliases, before, fastIds, between) && Pass(aliases, between, Slice(), after)
    }

    /** The rows this cycle probes on record. */
    function Probes(aliases: map<Id, Id>): set<Id> { Recorded(aliases, fastIds) + Recorded(aliases, Slice()) }
  }

  ghost predicate Cycles(aliases: map<Id, Id>, rounds: seq<Round>) {
    && (forall i :: 0 <= i < |rounds| ==> rounds[i].Valid(aliases))
    && forall i, j :: 0 <= i < j < |rounds| && j == i + 1 ==> rounds[j].before == rounds[i].after
  }

  /** Stored ids that are aliases of others: probes of these rows are never recorded on them. */
  function Lost(aliases: map<Id, Id>, ids: set<Id>): set<Id> { set id | id in ids && CanonicalId(aliases, id) != id }

  /** The other ids. */
  function Own(aliases: map<Id, Id>, ids: set<Id>): set<Id> { ids - Lost(aliases, ids) }

  /** The rows of `all` that the first k probe sets missed. */
  function Missed(all: set<Id>, probes: seq<set<Id>>, k: nat): set<Id>
    requires k <= |probes|
  { if k == 0 then all else Missed(all, probes, k - 1) - probes[k - 1] }

  function ProbesOf(aliases: map<Id, Id>, rounds: seq<Round>): (probes: seq<set<Id>>)
    ensures |probes| == |rounds|
  { seq(|rounds|, i requires 0 <= i < |rounds| => rounds[i].Probes(aliases)) }

  /** The pool after k cycles. */
  function PoolAfter(rounds: seq<Round>, k: nat): seq<Node>
    requires rounds != [] && k <= |rounds|
  { if k == 0 then rounds[0].before else rounds[k - 1].after }

  /** Missed rows were probed before all the others that are not lost. */
  ghost predicate Oldest(missed: set<Id>, lost: set<Id>, pool: seq<Node>) {
    forall u, p {:trigger u in pool, p in pool} ::
      u in pool && p in pool && u.id in missed && p.id !in missed && p.id !in lost ==> ProbedBefore(u, p)
  }

  lemma OldestStep(aliases: map<Id, Id>, before: seq<Node>, ids: set<Id>, after: seq<Node>, missed: set<Id>,
        lost: set<Id>)
    requires Pass(aliases, before, ids, after) && Oldest(missed, lost, before)
    ensures Oldest(missed - Recorded(aliases, ids), lost, after)
  {
    var probed := Recorded(aliases, ids);
    forall u, p | u in after && p in after && u.id in missed - probed && p.id !in missed - probed && p.id !in lost
      ensures ProbedBefore(u, p)
    {
      assert u.id in Ids(before) && p.id in Ids(before);
      var v :| v in before && v.id == u.id;
      var q :| q in before && q.id == p.id;
      assert u.lastProbed == v.lastProbed;
      if p.id in probed { assert ProbedBefore(v, p); } else { assert ProbedBefore(v, q); }
    }
  }

  lemma FilteredIdsOnce(nodes: seq<Node>, p: Node -> bool)
    requires IdsOnce(nodes)
    ensures IdsOnce(Filter(nodes, p))
  {
    if nodes != [] {
      FilteredIdsOnce(nodes[1..], p);
      forall n | n in Filter(nodes[1..], p) ensures n.id != nodes[0].id { assert n in nodes[1..]; }
    }
  }

  /** A slice holds all missed rows, or 200 ids that are all missed or lost. */
  lemma SliceOfOldest(pool: seq<Node>, fastIds: set<Id>, missed: set<Id>, lost: set<Id>, slice: set<Id>)
    requires IdsOnce(pool) && Oldest(missed, lost, pool) && missed <= Ids(pool) && missed !! fastIds
    requires slice == set id | id in ProbeSlice(Filter(pool, NotIn(fastIds)))
    ensures missed <= slice || (|slice| == PROBE_BUDGET && slice <= missed + lost)
  {
    var eligible := Filter(pool, NotIn(fastIds));
    if id :| id in missed && id !in slice {
      assert id in Ids(pool);
      var u :| u in pool && u.id == id;
      FilteredIdsOnce(pool, NotIn(fastIds));
      SliceIsLeastRecentlyProbed(eligible, u);
      forall c | c in slice ensures c in missed + lost {
        var n :| n in eligible && n.id == c;
        assert !ProbedBefore(u, n);
      }
      SetOfDistinct(ProbeSlice(eligible));
    }
  }

  lemma {:induction false} SetOfDistinct(ids: seq<Id>)
    requires forall i, j :: 0 <= i < j < |ids| ==> ids[i] != ids[j]
    ensures |set id | id in ids| == |ids|
  {
    if ids != [] {
      var n := |ids| - 1;
      SetOfDistinct(ids[..n]);
      assert (set id | id in ids) == (set id | id in ids[..n]) + {ids[n]};
    }
  }

  lemma RoundKeepsOldest(aliases: map<Id, Id>, r: Round, missed: set<Id>, lost: set<Id>)
    requires r.Valid(aliases) && Oldest(missed, lost, r.before)
    ensures Oldest(missed - r.Probes(aliases), lost, r.after)
  {
    OldestStep(aliases, r.before, r.fastIds, r.between, missed, lost);
    OldestStep(aliases, r.between, r.Slice(), r.after, missed - Recorded(aliases, r.fastIds), lost);
    assert missed - Recorded(aliases, r.fastIds) - Recorded(aliases, r.Slice()) == missed - r.Probes(aliases);
  }

  lemma {:induction false} FixedPool(aliases: map<Id, Id>, rounds: seq<Round>, k: nat)
    requires Cycles(aliases, rounds) && rounds != [] && k <= |rounds|
    ensures IdsOnce(PoolAfter(rounds, k)) && Ids(PoolAfter(rounds, k)) == Ids(rounds[0].before)
  {
    assert rounds[0].Valid(aliases);
    if k > 0 {
      FixedPool(aliases, rounds, k - 1);
      assert rounds[k - 1].Valid(aliases);
    }
  }

  /** What stays true after every cycle. */
  lemma {:induction false} MissedAreOldest(aliases: map<Id, Id>, rounds: seq<Round>, probes: seq<set<Id>>, k: nat)
    requires Cycles(aliases, rounds) && rounds != [] && k <= |rounds| && probes == ProbesOf(aliases, rounds)
    ensures var ids := Ids(rounds[0].before); var missed := Missed(Own(aliases, ids), probes, k);
      missed <= Own(aliases, ids) && Oldest(missed, Lost(aliases, ids), PoolAfter(rounds, k))
  {
    var ids, lost := Ids(rounds[0].before), Lost(aliases, Ids(rounds[0].before));
    if k == 0 {
      assert forall p <- rounds[0].before :: p.id in ids;
    } else {
      MissedAreOldest(aliases, rounds, probes, k - 1);
      assert rounds[k - 1].Valid(aliases) && rounds[k - 1].before == PoolAfter(rounds, k - 1);
      RoundKeepsOldest(aliases, rounds[k - 1], Missed(ids - lost, probes, k - 1), lost);
    }
  }

  /** Ids that lead to themselves are on record when they are handed to the prober. */
  lemma OwnIdsAreRecorded(aliases: map<Id, Id>, own: set<Id>, ids: set<Id>)
    requires forall id <- own :: CanonicalId(aliases, id) == id
    ensures own * ids <= Recorded(aliases, ids)
  {
    forall id | id in own * ids ensures id in Recorded(aliases, ids) { assert CanonicalId(aliases, id) == id; }
  }

  lemma SliceShrinks(missed: set<Id>, lost: set<Id>, slice: set<Id>, next: set<Id>)
    requires missed <= slice || (|slice| == PROBE_BUDGET && slice <= missed + lost)
    requires next <= missed - slice
    ensures next == {} || |next| + PROBE_BUDGET <= |missed| + |lost|
  {
    if next != {} {
      SubsetSize(slice, (slice * missed) + lost);
      SubsetSize(next + (slice * missed), missed);
      assert next !! slice * missed;
    }
  }

  lemma RoundShrinks(aliases: map<Id, Id>, r: Round, now: set<Id>, lost: set<Id>)
    requires r.Valid(aliases) && Oldest(now, lost, r.before) && now <= Ids(r.before)
    requires forall id <- now :: CanonicalId(aliases, id) == id
    ensures var next := now - r.Probes(aliases); next == {} || |next| + PROBE_BUDGET <= |now| + |lost|
  {
    var missed := now - Recorded(aliases, r.fastIds);
    OldestStep(aliases, r.before, r.fastIds, r.between, now, lost);
    OwnIdsAreRecorded(aliases, now, r.fastIds);
    OwnIdsAreRecorded(aliases, now, r.Slice());
    SliceOfOldest(r.between, r.fastIds, missed, lost, r.Slice());
    SubsetSize(missed, now);
    SliceShrinks(missed, lost, r.Slice(), now - r.Probes(aliases));
  }

  /** What that many cycles take if each takes `step` rows. */
  function Capacity(step: nat, cycles: nat): nat { if cycles == 0 then 0 else Capacity(step, cycles - 1) + step }

  lemma {:induction false} CapacityIs(step: nat, cycles: nat)
    ensures Capacity(step, cycles) == step * cycles
  {
    if cycles > 0 {
      CapacityIs(step, cycles - 1);
      assert step * cycles == step * (cycles - 1) + step;
    }
  }

  /** The k-th cycle takes the missed rows that are left, or all of its 200 but the lost ones. */
  ghost predicate Advances(all: set<Id>, probes: seq<set<Id>>, lost: nat, k: nat)
    requires k < |probes|
  {
    var next := Missed(all, probes, k + 1);
    next == {} || |next| + PROBE_BUDGET <= |Missed(all, probes, k)| + lost
  }

  lemma {:induction false} MissedAtMost(all: set<Id>, probes: seq<set<Id>>, lost: nat, k: nat)
    requires k <= |probes| && lost <= PROBE_BUDGET && forall i :: 0 <= i < k ==> Advances(all, probes, lost, i)
    ensures var missed := |Missed(all, probes, k)|;
      missed == 0 || missed + Capacity(PROBE_BUDGET - lost, k) <= |all|
  {
    if k > 0 {
      MissedAtMost(all, probes, lost, k - 1);
      assert Advances(all, probes, lost, k - 1);
    }
  }

  lemma {:induction false} NotMissedWasProbed(all: set<Id>, probes: seq<set<Id>>, k: nat, id: Id)
    requires k <= |probes| && id in all && id !in Missed(all, probes, k)
    ensures exists i :: 0 <= i < k && id in probes[i]
  {
    if k > 0 && id in Missed(all, probes, k - 1) {
      assert id in probes[k - 1];
    } else if k > 0 {
      NotMissedWasProbed(all, probes, k - 1, id);
    }
  }

  lemma EnoughAdvancesProbe(all: set<Id>, probes: seq<set<Id>>, lost: nat, id: Id)
    requires lost <= PROBE_BUDGET && id in all && |all| <= Capacity(PROBE_BUDGET - lost, |probes|)
    ensures (forall k :: 0 <= k < |probes| ==> Advances(all, probes, lost, k)) ==>
      exists i :: 0 <= i < |probes| && id in probes[i]
  {
    if forall k :: 0 <= k < |probes| ==> Advances(all, probes, lost, k) {
      MissedAtMost(all, probes, lost, |probes|);
      NotMissedWasProbed(all, probes, |probes|, id);
    }
  }

  lemma CycleAdvances(aliases: map<Id, Id>, rounds: seq<Round>, probes: seq<set<Id>>, k: nat)
    requires Cycles(aliases, rounds) && k < |rounds| && probes == ProbesOf(aliases, rounds)
    ensures var ids := Ids(rounds[0].before); Advances(Own(aliases, ids), probes, |Lost(aliases, ids)|, k)
  {
    FixedPool(aliases, rounds, k);
    MissedAreOldest(aliases, rounds, probes, k);
    var r, ids := rounds[k], Ids(rounds[0].before);
    assert r.Valid(aliases) && r.before == PoolAfter(rounds, k);
    RoundShrinks(aliases, r, Missed(Own(aliases, ids), probes, k), Lost(aliases, ids));
  }

  lemma OwnSize(aliases: map<Id, Id>, ids: set<Id>)
    ensures |Own(aliases, ids)| + |Lost(aliases, ids)| == |ids|
  {
    assert ids * Lost(aliases, ids) == Lost(aliases, ids);
  }

  /** Enough cycles for the pool: without lost rows, ceil(N / 200). */
  predicate Covers(aliases: map<Id, Id>, pool: seq<Node>, cycles: nat) {
    var lost := |Lost(aliases, Ids(pool))|;
    lost < PROBE_BUDGET && |Ids(pool)| - lost <= (PROBE_BUDGET - lost) * cycles
  }

  lemma EnoughCyclesProbe(aliases: map<Id, Id>, rounds: seq<Round>, lost: nat, id: Id)
    requires Cycles(aliases, rounds) && rounds != [] && lost == |Lost(aliases, Ids(rounds[0].before))| < PROBE_BUDGET
    requires |Ids(rounds[0].before)| - lost <= Capacity(PROBE_BUDGET - lost, |rounds|)
    requires id in Ids(rounds[0].before) && CanonicalId(aliases, id) == id
    ensures exists i :: 0 <= i < |rounds| && id in ProbesOf(aliases, rounds)[i]
  {
    var ids, probes := Ids(rounds[0].before), ProbesOf(aliases, rounds);
    forall k | 0 <= k < |probes| ensures Advances(Own(aliases, ids), probes, |Lost(aliases, ids)|, k) {
      CycleAdvances(aliases, rounds, probes, k);
    }
    OwnSize(aliases, ids);
    EnoughAdvancesProbe(Own(aliases, ids), probes, lost, id);
  }

  /** Over a fixed pool of N rows of which L < 200 are stored under an alias of another id, any k cycles with
      N - L <= (200 - L) * k probe, on record, every other row. */
  lemma EveryNodeIsProbed(aliases: map<Id, Id>, rounds: seq<Round>, id: Id)
    requires Cycles(aliases, rounds) && rounds != [] && Covers(aliases, rounds[0].before, |rounds|)
    requires id in Ids(rounds[0].before) && CanonicalId(aliases, id) == id
    ensures exists i :: 0 <= i < |rounds| && id in rounds[i].Probes(aliases)
  {
    var lost := |Lost(aliases, Ids(rounds[0].before))|;
    CapacityIs(PROBE_BUDGET - lost, |rounds|);
    EnoughCyclesProbe(aliases, rounds, lost, id);
  }

  // ---- the bound is exact ---------------------------------------------------------------------------

  ghost predicate NeverProbed(pool: seq<Node>, ids: set<Id>) {
    ids <= Ids(pool) && forall n <- pool :: n.id in ids ==> n.lastProbed == None
  }

  lemma NeverProbedStep(aliases: map<Id, Id>, before: seq<Node>, ids: set<Id>, after: seq<Node>, lost: set<Id>)
    requires Pass(aliases, before, ids, after) && NeverProbed(before, lost) && ids <= Ids(before)
    requires forall id <- Ids(before) :: CanonicalId(aliases, id) !in lost
    ensures NeverProbed(after, lost)
  {
    forall a | a in after && a.id in lost ensures a.lastProbed == None {
      assert a.id in Ids(before);
      var b :| b in before && b.id == a.id;
    }
  }

  ghost predicate ProbedOnce(pool: seq<Node>, ids: set<Id>) {
    forall n <- pool :: n.id in ids ==> n.lastProbed.Some?
  }

  /** A pool as it is after a returning node was lost: the lost rows were never probed on record and lead outside the
      pool; every other row was probed. */
  ghost predicate Worn(aliases: map<Id, Id>, pool: seq<Node>, ids: set<Id>) {
    && IdsOnce(pool) && Ids(pool) == ids && |Lost(aliases, ids)| < PROBE_BUDGET
    && NeverProbed(pool, Lost(aliases, ids)) && ProbedOnce(pool, Own(aliases, ids))
    && forall id <- Lost(aliases, ids) :: CanonicalId(aliases, id) !in ids
  }

  lemma PassKeepsWorn(aliases: map<Id, Id>, before: seq<Node>, probed: set<Id>, after: seq<Node>, ids: set<Id>)
    requires Pass(aliases, before, probed, after) && Worn(aliases, before, ids) && probed <= ids
    ensures Worn(aliases, after, ids)
  {
    NeverProbedStep(aliases, before, probed, after, Lost(aliases, ids));
    forall a | a in after && a.id in Own(aliases, ids) ensures a.lastProbed.Some? {
      assert a.id in Ids(before);
      var b :| b in before && b.id == a.id;
      if a.id in Recorded(aliases, probed) { assert ProbedBefore(b, a); }
    }
  }

  /** Each slice holds all lost rows: they sort ahead of the others. */
  lemma SliceHoldsLost(aliases: map<Id, Id>, pool: seq<Node>, ids: set<Id>)
    requires Worn(aliases, pool, ids)
    ensures var slice := set id | id in ProbeSlice(pool);
      Lost(aliases, ids) <= slice <= ids && |slice| <= PROBE_BUDGET
  {
    var lost, slice := Lost(aliases, ids), set id | id in ProbeSlice(pool);
    SliceIsFromPool(pool);
    SetOfDistinct(ProbeSlice(pool));
    if id :| id in lost && id !in slice {
      assert id in Ids(pool);
      var u :| u in pool && u.id == id;
      SliceIsLeastRecentlyProbed(pool, u);
      forall c | c in slice ensures c in lost {
        var n :| n in pool && n.id == c;
        assert !ProbedBefore(u, n);
      }
      SubsetSize(slice, lost);
    }
  }

  lemma RecordedOwn(aliases: map<Id, Id>, slice: set<Id>, ids: set<Id>)
    requires Lost(aliases, ids) <= slice <= ids && |slice| <= PROBE_BUDGET
    requires forall id <- Lost(aliases, ids) :: CanonicalId(aliases, id) !in ids
    ensures |Recorded(aliases, slice) * Own(aliases, ids)| <= PROBE_BUDGET - |Lost(aliases, ids)|
  {
    var lost := Lost(aliases, ids);
    forall x | x in Recorded(aliases, slice) * Own(aliases, ids) ensures x in slice - lost {
      var id :| id in slice && CanonicalId(aliases, id) == x;
    }
    SubsetSize(Recorded(aliases, slice) * Own(aliases, ids), slice - lost);
    assert slice * lost == lost;
  }

  lemma NoFastPass(aliases: map<Id, Id>, r: Round)
    requires r.fastIds == {}
    ensures r.Slice() == (set id | id in ProbeSlice(r.between)) && r.Probes(aliases) == Recorded(aliases, r.Slice())
  {
    FilterAll(r.between, NotIn({}));
    assert Recorded(aliases, {}) == {};
  }

  lemma RoundOfWorn(aliases: map<Id, Id>, r: Round, ids: set<Id>)
    requires r.Valid(aliases) && r.fastIds == {} && Worn(aliases, r.before, ids)
    ensures Worn(aliases, r.after, ids)
    ensures |r.Probes(aliases) * Own(aliases, ids)| <= PROBE_BUDGET - |Lost(aliases, ids)|
  {
    NoFastPass(aliases, r);
    PassKeepsWorn(aliases, r.before, {}, r.between, ids);
    SliceHoldsLost(aliases, r.between, ids);
    PassKeepsWorn(aliases, r.between, r.Slice(), r.after, ids);
    RecordedOwn(aliases, r.Slice(), ids);
  }

  lemma {:induction false} StaysWorn(aliases: map<Id, Id>, rounds: seq<Round>, ids: set<Id>, k: nat)
    requires Cycles(aliases, rounds) && rounds != [] && k <= |rounds| && Worn(aliases, rounds[0].before, ids)
    requires forall r <- rounds :: r.fastIds == {}
    ensures Worn(aliases, PoolAfter(rounds, k), ids)
  {
    if k > 0 {
      StaysWorn(aliases, rounds, ids, k - 1);
      assert rounds[k - 1].Valid(aliases) && rounds[k - 1].before == PoolAfter(rounds, k - 1);
      RoundOfWorn(aliases, rounds[k - 1], ids);
    }
  }

  lemma {:induction false} MissedAtLeast(all: set<Id>, probes: seq<set<Id>>, step: nat, k: nat)
    requires k <= |probes| && forall i :: 0 <= i < k ==> |probes[i] * all| <= step
    ensures Missed(all, probes, k) <= all && |Missed(all, probes, k)| + Capacity(step, k) >= |all|
  {
    if k > 0 {
      MissedAtLeast(all, probes, step, k - 1);
      var missed := Missed(all, probes, k - 1);
      SubsetSize(missed * probes[k - 1], probes[k - 1] * all);
      assert missed - probes[k - 1] == missed - (missed * probes[k - 1]);
    }
  }

  lemma {:induction false} MissedIsUnprobed(all: set<Id>, probes: seq<set<Id>>, k: nat, id: Id)
    requires k <= |probes| && id in Missed(all, probes, k)
    ensures forall i :: 0 <= i < k ==> id !in probes[i]
  {
    if k > 0 { MissedIsUnprobed(all, probes, k - 1, id); }
  }

  lemma ProbesFew(aliases: map<Id, Id>, rounds: seq<Round>, ids: set<Id>, i: nat)
    requires Cycles(aliases, rounds) && i < |rounds| && Worn(aliases, rounds[0].before, ids)
    requires forall r <- rounds :: r.fastIds == {}
    ensures |rounds[i].Probes(aliases) * Own(aliases, ids)| <= PROBE_BUDGET - |Lost(aliases, ids)|
  {
    StaysWorn(aliases, rounds, ids, i);
    assert rounds[i].Valid(aliases) && rounds[i].before == PoolAfter(rounds, i);
    RoundOfWorn(aliases, rounds[i], ids);
  }

  /** The cycles that probe more than `step` of the rows. */
  ghost function Busier(own: set<Id>, probes: seq<set<Id>>, step: nat): set<nat> {
    set i: nat | i < |probes| && |probes[i] * own| > step
  }

  lemma NoneBusier(aliases: map<Id, Id>, rounds: seq<Round>, ids: set<Id>, step: nat)
    ensures WornRun(aliases, rounds, ids, step) ==> Busier(Own(aliases, ids), ProbesOf(aliases, rounds), step) == {}
  {
    var busier := Busier(Own(aliases, ids), ProbesOf(aliases, rounds), step);
    if WornRun(aliases, rounds, ids, step) {
      forall i | i in busier ensures false { NotBusier(aliases, rounds, ids, step, i); }
    }
  }

  lemma NotBusier(aliases: map<Id, Id>, rounds: seq<Round>, ids: set<Id>, step: nat, i: nat)
    ensures WornRun(aliases, rounds, ids, step) ==> i !in Busier(Own(aliases, ids), ProbesOf(aliases, rounds), step)
  {
    if WornRun(aliases, rounds, ids, step) && i < |rounds| { ProbesFew(aliases, rounds, ids, i); }
    BusierAt(aliases, rounds, Own(aliases, ids), step, i);
  }

  lemma BusierAt(aliases: map<Id, Id>, rounds: seq<Round>, own: set<Id>, step: nat, i: nat)
    ensures i in Busier(own, ProbesOf(aliases, rounds), step) <==>
      i < |rounds| && |rounds[i].Probes(aliases) * own| > step
  {}

  /** Cycles without a fast pass, from a worn pool on; `step` is what they leave to the rows that are not lost. */
  ghost predicate WornRun(aliases: map<Id, Id>, rounds: seq<Round>, ids: set<Id>, step: nat) {
    && Cycles(aliases, rounds) && rounds != [] && Worn(aliases, rounds[0].before, ids)
    && step == PROBE_BUDGET - |Lost(aliases, ids)|
    && forall r <- rounds :: r.fastIds == {}
  }

  /** The rows no cycle probed on record. */
  ghost function Unprobed(own: set<Id>, probes: seq<set<Id>>): set<Id> {
    set id | id in own && forall i :: 0 <= i < |probes| ==> id !in probes[i]
  }

  lemma TooFewCycles(own: set<Id>, probes: seq<set<Id>>, step: nat, cycles: nat)
    ensures |probes| == cycles && Busier(own, probes, step) == {} && |own| > Capacity(step, cycles) ==>
      Unprobed(own, probes) != {}
  {
    if |probes| == cycles && Busier(own, probes, step) == {} && |own| > Capacity(step, cycles) {
      forall i | 0 <= i < cycles ensures |probes[i] * own| <= step { assert i !in Busier(own, probes, step); }
      MissedAtLeast(own, probes, step, cycles);
      var id :| id in Missed(own, probes, cycles);
      MissedIsUnprobed(own, probes, cycles, id);
      assert id in Unprobed(own, probes);
    }
  }

  lemma EnoughCycles(aliases: map<Id, Id>, rounds: seq<Round>, ids: set<Id>)
    requires Cycles(aliases, rounds) && rounds != [] && ids == Ids(rounds[0].before)
    ensures Covers(aliases, rounds[0].before, |rounds|) ==> Unprobed(Own(aliases, ids), ProbesOf(aliases, rounds)) == {}
  {
    if Covers(aliases, rounds[0].before, |rounds|) { EnoughCyclesProbeAll(aliases, rounds, ids); }
  }

  lemma EnoughCyclesProbeAll(aliases: map<Id, Id>, rounds: seq<Round>, ids: set<Id>)
    requires Cycles(aliases, rounds) && rounds != [] && ids == Ids(rounds[0].before)
    requires Covers(aliases, rounds[0].before, |rounds|)
    ensures Unprobed(Own(aliases, ids), ProbesOf(aliases, rounds)) == {}
  {
    forall id | id in Own(aliases, ids) ensures id !in Unprobed(Own(aliases, ids), ProbesOf(aliases, rounds)) {
      EveryNodeIsProbed(aliases, rounds, id);
      var i :| 0 <= i < |rounds| && id in rounds[i].Probes(aliases);
      assert id in ProbesOf(aliases, rounds)[i];
    }
  }

  lemma TooFewForWorn(aliases: map<Id, Id>, rounds: seq<Round>, ids: set<Id>, step: nat)
    ensures WornRun(aliases, rounds, ids, step) && |Own(aliases, ids)| > Capacity(step, |rounds|) ==>
      Unprobed(Own(aliases, ids), ProbesOf(aliases, rounds)) != {}
  {
    NoneBusier(aliases, rounds, ids, step);
    TooFewCycles(Own(aliases, ids), ProbesOf(aliases, rounds), step, |rounds|);
  }

  lemma WornCovers(aliases: map<Id, Id>, pool: seq<Node>, ids: set<Id>, cycles: nat)
    requires Ids(pool) == ids && |Lost(aliases, ids)| < PROBE_BUDGET
    ensures Covers(aliases, pool, cycles) <==>
      |Own(aliases, ids)| <= Capacity(PROBE_BUDGET - |Lost(aliases, ids)|, cycles)
  {
    OwnSize(aliases, ids);
    CapacityIs(PROBE_BUDGET - |Lost(aliases, ids)|, cycles);
  }

  lemma BoundOfWorn(aliases: map<Id, Id>, rounds: seq<Round>, ids: set<Id>, step: nat)
    ensures WornRun(aliases, rounds, ids, step) ==>
      (Unprobed(Own(aliases, ids), ProbesOf(aliases, rounds)) == {} <==> Covers(aliases, rounds[0].before, |rounds|))
  {
    if WornRun(aliases, rounds, ids, step) {
      EnoughCycles(aliases, rounds, ids);
      WornCovers(aliases, rounds[0].before, ids, |rounds|);
    }
    TooFewForWorn(aliases, rounds, ids, step);
  }

  /** The bound of EveryNodeIsProbed is exact: where the lost rows were never probed on record, and no fast pass runs,
      k cycles probe every other row if and only if N - L <= (200 - L) * k. */
  lemma BoundIsExact(aliases: map<Id, Id>, rounds: seq<Round>, ids: set<Id>, step: nat)
    requires WornRun(aliases, rounds, ids, step)
    ensures Unprobed(Own(aliases, ids), ProbesOf(aliases, rounds)) == {}
       <==> Covers(aliases, rounds[0].before, |rounds|)
  {
    BoundOfWorn(aliases, rounds, ids, step);
  }

  // ---- starvation -----------------------------------------------------------------------------------

  lemma SliceIsStarved(r: Round, lost: set<Id>, n: Node)
    requires IdsOnce(r.between) && NeverProbed(r.between, lost) && |lost - r.fastIds| >= PROBE_BUDGET
    requires n in r.between && n.lastProbed.Some?
    ensures n.id !in r.Slice()
  {
    var eligible, rest := r.Eligible(), lost - r.fastIds;
    FilteredIdsOnce(r.between, NotIn(r.fastIds));
    SliceIsFromPool(eligible);
    if n !in eligible {
      NotEligible(r, n);
    } else if n.id in r.Slice() {
      SetOfDistinct(ProbeSlice(eligible));
      var id := LeftOut(rest, r.Slice(), n.id);
      assert id in Ids(r.between);
      var u :| u in r.between && u.id == id;
      SliceIsLeastRecentlyProbed(eligible, u);
    }
  }

  lemma LeftOut(rest: set<Id>, slice: set<Id>, other: Id) returns (id: Id)
    requires |rest| >= |slice| && other in slice && other !in rest
    ensures id in rest && id !in slice
  {
    if rest <= slice { SubsetSize(rest + {other}, slice); }
    id :| id in rest && id !in slice;
  }

  lemma NotEligible(r: Round, n: Node)
    requires IdsOnce(r.between) && n in r.between && n !in r.Eligible()
    ensures n.id !in r.Slice()
  {
    assert n.id in r.fastIds;
    FilteredIdsOnce(r.between, NotIn(r.fastIds));
    SliceIsFromPool(r.Eligible());
  }

  lemma RoundNeverProbed(aliases: map<Id, Id>, r: Round, lost: set<Id>)
    requires r.Valid(aliases) && NeverProbed(r.before, lost) && r.fastIds <= Ids(r.before)
    requires forall id <- Ids(r.before) :: CanonicalId(aliases, id) !in lost
    ensures NeverProbed(r.between, lost) && NeverProbed(r.after, lost)
  {
    NeverProbedStep(aliases, r.before, r.fastIds, r.between, lost);
    FilteredIdsOnce(r.between, NotIn(r.fastIds));
    SliceIsFromPool(r.Eligible());
    NeverProbedStep(aliases, r.between, r.Slice(), r.after, lost);
  }

  lemma {:induction false} StayNeverProbed(aliases: map<Id, Id>, rounds: seq<Round>, lost: set<Id>, k: nat)
    requires Cycles(aliases, rounds) && rounds != [] && k <= |rounds| && NeverProbed(rounds[0].before, lost)
    requires forall r <- rounds :: r.fastIds <= Ids(rounds[0].before)
    requires forall id <- Ids(rounds[0].before) :: CanonicalId(aliases, id) !in lost
    ensures NeverProbed(PoolAfter(rounds, k), lost)
  {
    if k > 0 {
      StayNeverProbed(aliases, rounds, lost, k - 1);
      FixedPool(aliases, rounds, k - 1);
      assert rounds[k - 1].Valid(aliases) && rounds[k - 1].before == PoolAfter(rounds, k - 1);
      RoundNeverProbed(aliases, rounds[k - 1], lost);
    }
  }

  /** 200 never-probed rows that no stored id leads to, beyond those the fast pass takes, use up every slice for
      ever: no row that was probed once is ever picked again. */
  lemma LostRowsStarveTheRest(aliases: map<Id, Id>, rounds: seq<Round>, lost: set<Id>, k: nat, n: Node)
    requires Cycles(aliases, rounds) && k < |rounds| && NeverProbed(rounds[0].before, lost)
    requires forall r <- rounds :: r.fastIds <= Ids(rounds[0].before) && |lost - r.fastIds| >= PROBE_BUDGET
    requires forall id <- Ids(rounds[0].before) :: CanonicalId(aliases, id) !in lost
    requires n in rounds[k].between && n.lastProbed.Some?
    ensures n.id !in rounds[k].Slice()
  {
    StayNeverProbed(aliases, rounds, lost, k);
    FixedPool(aliases, rounds, k);
    assert rounds[k].Valid(aliases) && rounds[k].before == PoolAfter(rounds, k);
    RoundNeverProbed(aliases, rounds[k], lost);
    SliceIsStarved(rounds[k], lost, n);
  }
}
