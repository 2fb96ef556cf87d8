/** What the node table means over whole runs: every stored status, counter and timestamp is tied to a
    history of what actually happened to the node since its row was created. */
module Lifecycle {
  import opened Text
  import opened Store
  import opened Liveness

  /** An OpenVPN handshake that left a trace: a probe's, or an activation that failed. */
  datatype Handshake = Probe(at: Time, ok: bool) | ActivationFailure {
    predicate Succeeded() { Probe? && ok }
  }

  /** A provider listing of the node; kept: it was stored, which is what last_seen_at knows of. */
  datatype Listing = Listing(at: Time, kept: bool)

  datatype History = History(handshakes: seq<Handshake>, dials: seq<bool>, listings: seq<Listing>)

  const NO_HISTORY := History([], [], [])

  datatype World = World(t: Tables, history: map<Id, History>)

  datatype Event =
    | Discover(provider: string, now: Time, fetched: Time, nodes: seq<DiscoveredNode>, fault: Fault)
    | StartProbe(id: Id)
    | FinishProbe(id: Id, ok: bool, latency: int, at: Time)
    | FailActivation(id: Id)
    | Cool(id: Id, expires: Time)
    | Expire(now: Time)
    | Purge(cutoff: Time)
    | RecordSweep(alive: seq<Id>, dead: seq<Id>, keep: Id, now: Time)
    | Choose(favorites: set<Id>, fixedNode: Option<Id>)

  // ---- reading a history -------------------------------------------------------------

  function LastProbe(hs: seq<Handshake>): (r: Option<Handshake>)
    ensures r.Some? ==> r.value.Probe?
  {
    if hs == [] then None
    else if hs[|hs| - 1].Probe? then Some(hs[|hs| - 1])
    else LastProbe(hs[..|hs| - 1])
  }

  function LastKept(ls: seq<Listing>): Option<Time> {
    if ls == [] then None
    else if ls[|ls| - 1].kept then Some(ls[|ls| - 1].at)
    else LastKept(ls[..|ls| - 1])
  }

  /** Length of the trailing run of failures. */
  function TrailingFailures(s: seq<bool>): nat {
    if s == [] || s[|s| - 1] then 0 else 1 + TrailingFailures(s[..|s| - 1])
  }

  function Outcomes(hs: seq<Handshake>): (r: seq<bool>)
    ensures |r| == |hs|
  { seq(|hs|, i requires 0 <= i < |hs| => hs[i].Succeeded()) }

  predicate LastAllFailed(s: seq<bool>, n: nat) {
    |s| >= n && forall i :: |s| - n <= i < |s| ==> !s[i]
  }

  lemma {:induction false} TrailingMeansLast(s: seq<bool>, n: nat)
    ensures TrailingFailures(s) >= n <==> LastAllFailed(s, n)
  {
    if n > 0 && s != [] && !s[|s| - 1] {
      TrailingMeansLast(s[..|s| - 1], n - 1);
      if LastAllFailed(s[..|s| - 1], n - 1) {
        forall i | |s| - n <= i < |s| ensures !s[i] { if i < |s| - 1 { assert !s[..|s| - 1][i]; } }
      }
    }
  }

  lemma Appended<T>(s: seq<T>, x: T)
    ensures (s + [x])[|s + [x]| - 1] == x && (s + [x])[..|s + [x]| - 1] == s
  {}

  lemma OutcomesAppend(hs: seq<Handshake>, h: Handshake)
    ensures Outcomes(hs + [h]) == Outcomes(hs) + [h.Succeeded()]
  {}

  // ---- the tie between a row and its history -------------------------------------------

  ghost predicate Ordered(ls: seq<Listing>) { forall i, j :: 0 <= i <= j < |ls| ==> ls[i].at <= ls[j].at }

  ghost predicate Faithful(r: Row, h: History, blacklisted: bool) {
    var last := LastProbe(h.handshakes);
    && r.lastProbed == (if last.Some? then Some(last.value.at) else None)
    && (LastProbeSucceeded(r) <==> last.Some? && last.value.ok)
    && (r.lastSuccess.Some? ==> last.Some? && r.lastSuccess.value <= last.value.at)
    && (r.status.Ready? ==> LastProbeSucceeded(r))
    && (r.status.Cooldown? ==> blacklisted)
    && r.consecutiveFailures == TrailingFailures(Outcomes(h.handshakes))
    && r.livenessFailures == TrailingFailures(h.dials)
    && r.lastSeen == LastKept(h.listings)
    && r.lastSeen.Some?
    && Ordered(h.listings)
  }

  ghost predicate RowIsFaithful(w: World, id: Id) {
    id in w.t.nodes && id in w.history && Faithful(w.t.nodes[id], w.history[id], id in w.t.blacklist)
  }

  ghost predicate Inv(w: World) {
    && w.history.Keys == w.t.nodes.Keys
    && UniqueIdentities(w.t)
    && forall id <- w.t.nodes :: RowIsFaithful(w, id)
  }

  // ---- events ------------------------------------------------------------------------

  function AddHandshake(h: History, x: Handshake): History { h.(handshakes := h.handshakes + [x]) }
  function AddListing(h: History, at: Time, kept: bool): History { h.(listings := h.listings + [Listing(at, kept)]) }
  function AddDial(h: History, id: Id, alive: seq<Id>, dead: seq<Id>): History {
    if id in alive then h.(dials := h.dials + [true])
    else if id in dead then h.(dials := h.dials + [false])
    else h
  }

  function Trace(w: World, id: Id, x: Handshake): map<Id, History> {
    if id in w.history then w.history[id := AddHandshake(w.history[id], x)] else w.history
  }

  /** A listing that is not stored: the tables do not see it. */
  ghost function Dropped(w: World, n: DiscoveredNode): World {
    var id := Target(w.t, n);
    if id.Some? && id.value in w.history
    then w.(history := w.history[id.value := AddListing(w.history[id.value], n.fetchedAt, false)])
    else w
  }

  ghost function DroppedAll(w: World, ns: seq<DiscoveredNode>): World {
    if ns == [] then w else Dropped(DroppedAll(w, ns[..|ns| - 1]), ns[|ns| - 1])
  }

  /** A listing that is stored. */
  ghost function Listed(w: World, n: DiscoveredNode): World {
    match Upserted(w.t, n)
    case None => w
    case Some(t) =>
      var id := Target(w.t, n).GetOr(n.id);
      var h := if id in w.history && id in w.t.nodes then w.history[id] else NO_HISTORY;
      World(t, w.history[id := AddListing(h, n.fetchedAt, true)])
  }

  /** The batch from row k on, and the row at which it stopped. */
  ghost function ListedFrom(w: World, ns: seq<DiscoveredNode>, k: nat, fault: Fault): (r: (World, nat))
    requires k <= |ns|
    ensures k <= r.1 <= |ns|
    decreases |ns| - k
  {
    if k == |ns| then (w, k)
    else
      var (t, stored) := UpsertedRow(w.t, ns[k], k, fault);
      if stored then ListedFrom(Listed(w, ns[k]), ns, k + 1, fault) else (w.(t := t), k)
  }

  /** It does to the tables what the repository does. */
  lemma {:induction false} ListingsAreUpserts(w: World, ns: seq<DiscoveredNode>, k: nat, fault: Fault)
    requires k <= |ns|
    ensures ListedFrom(w, ns, k, fault).0.t == UpsertedFrom(w.t, ns, k, fault).0
    ensures ListedFrom(w, ns, k, fault).1 == UpsertedFrom(w.t, ns, k, fault).1
    decreases |ns| - k
  {
    if k < |ns| && UpsertedRow(w.t, ns[k], k, fault).1 { ListingsAreUpserts(Listed(w, ns[k]), ns, k + 1, fault); }
  }

  function Filtered(ns: seq<DiscoveredNode>, blacklist: map<Id, Time>, listed: bool): (r: seq<DiscoveredNode>)
    ensures forall n :: n in r <==> n in ns && ((n.id in blacklist) == listed)
  {
    if ns == [] then []
    else (if (ns[0].id in blacklist) == listed then [ns[0]] else []) + Filtered(ns[1..], blacklist, listed)
  }

  function Identities(ns: seq<DiscoveredNode>): seq<string> { seq(|ns|, i requires 0 <= i < |ns| => Identity(ns[i])) }

  /** Drop what is still blacklisted, upsert the rest, and lose the row the batch stops at and those behind it. */
  ghost function BatchStep(w: World, ns: seq<DiscoveredNode>, fault: Fault): (World, bool) {
    var kept := Filtered(ns, w.t.blacklist, false);
    var (u, stop) := ListedFrom(DroppedAll(w, Filtered(ns, w.t.blacklist, true)), kept, 0, fault);
    (DroppedAll(u, kept[stop..]), stop == |kept|)
  }

  /** Discover: expire the blacklist, store the batch and, if all of it went in, mark the snapshot. With the
      blacklist unread (its expiry is then an event of its own, if it came to that) nothing is stored. */
  ghost function DiscoverStep(w: World, e: Event): World
    requires e.Discover?
  {
    if e.fault.BlacklistUnread? then DroppedAll(w, e.nodes)
    else
      var (u, stored) := BatchStep(w.(t := ExpiryRestored(w.t, e.now)), e.nodes, e.fault);
      if stored && !e.fault.SnapshotFails? then u.(t := SnapshotMarked(u.t, e.provider, Identities(e.nodes))) else u
  }

  ghost function SweepHistory(w: World, alive: seq<Id>, dead: seq<Id>): map<Id, History> {
    map id | id in w.history :: AddDial(w.history[id], id, alive, dead)
  }

  ghost function Restrict(h: map<Id, History>, nodes: map<Id, Row>): map<Id, History> {
    h - (h.Keys - nodes.Keys)
  }

  function FinishProbeStep(w: World, id: Id, ok: bool, latency: int, at: Time): World {
    World(ProbeRecorded(w.t, id, ok, latency, at), Trace(w, ResolveAlias(w.t, id), Probe(at, ok)))
  }

  function FailActivationStep(w: World, id: Id): World {
    World(ActivationFailureRecorded(w.t, id), Trace(w, ResolveAlias(w.t, id), ActivationFailure))
  }

  ghost function PurgeStep(w: World, cutoff: Time): World {
    World(Purged(w.t, cutoff), Restrict(w.history, Purged(w.t, cutoff).nodes))
  }

  ghost function SweepStep(w: World, alive: seq<Id>, dead: seq<Id>, keep: Id, now: Time): World {
    var t := SweptByRow(w.t, alive, dead, keep, now);
    World(t, Restrict(SweepHistory(w, alive, dead), t.nodes))
  }

  ghost function Apply(w: World, e: Event): World {
    match e
    case Discover(_, _, _, _, _) => DiscoverStep(w, e)
    case StartProbe(id) => w.(t := MarkedProbing(w.t, id))
    case FinishProbe(id, ok, latency, at) => FinishProbeStep(w, id, ok, latency, at)
    case FailActivation(id) => FailActivationStep(w, id)
    case Cool(id, expires) => w.(t := Blacklisted(w.t, id, expires))
    case Expire(now) => w.(t := ExpiryRestored(w.t, now))
    case Purge(cutoff) => PurgeStep(w, cutoff)
    case RecordSweep(alive, dead, keep, now) => SweepStep(w, alive, dead, keep, now)
    case Choose(favorites, fixedNode) => w.(t := w.t.(favorites := favorites, fixedNode := fixedNode))
  }

  /** Clocks move forward: a node's probes are strictly later one after another, listings never earlier.
      One sweep's two lists hold each node once. */
  ghost predicate Admissible(w: World, e: Event) {
    match e
    case Discover(_, _, fetched, nodes, _) =>
      && (forall n <- nodes :: n.fetchedAt == fetched)
      && (forall id <- w.history, l <- w.history[id].listings :: l.at <= fetched)
    case FinishProbe(id, _, _, at) =>
      var c := ResolveAlias(w.t, id);
      c in w.t.nodes && w.t.nodes[c].lastProbed.Some? ==> w.t.nodes[c].lastProbed.value < at
    case RecordSweep(alive, dead, _, _) => forall id <- alive :: id !in dead
    case _ => true
  }

  // ---- preservation, one row at a time -------------------------------------------------

  lemma ProbeRowFaithful(r: Row, h: History, b: bool, ok: bool, latency: int, at: Time)
    requires Faithful(r, h, b) && (r.lastProbed.Some? ==> r.lastProbed.value < at)
    ensures Faithful(ProbedRow(r, ok, latency, at), AddHandshake(h, Probe(at, ok)), b)
  {
    Appended(h.handshakes, Probe(at, ok));
    OutcomesAppend(h.handshakes, Probe(at, ok));
    Appended(Outcomes(h.handshakes), ok);
  }

  lemma FailedActivationRowFaithful(r: Row, h: History, b: bool)
    requires Faithful(r, h, b)
    ensures Faithful(FailedActivationRow(r), AddHandshake(h, ActivationFailure), b)
  {
    Appended(h.handshakes, ActivationFailure);
    OutcomesAppend(h.handshakes, ActivationFailure);
    Appended(Outcomes(h.handshakes), false);
  }

  /** The row a sweep leaves, before deletion. */
  function SweptRow(r: Row, id: Id, alive: seq<Id>, dead: seq<Id>, keep: Id, now: Time): Row {
    var r1 := if id in alive then RowUpdate(Promote, id, RowUpdate(MarkAlive(now), id, r)) else r;
    if id in dead then RowUpdate(Demote(keep), id, RowUpdate(CountFailure, id, r1)) else r1
  }

  lemma RecordedRow(nodes: map<Id, Row>, alive: seq<Id>, dead: seq<Id>, keep: Id, now: Time, id: Id)
    requires id in nodes
    ensures var r := RecordedAtOnce(nodes, alive, dead, keep, now);
      id in r && r[id] == SweptRow(nodes[id], id, alive, dead, keep, now)
  {}

  predicate DeadRow(t: Tables, r: Row, id: Id, keep: Id, now: Time) {
    && r.lastSeen.Some?
    && (if r.transport.Tcp? then r.livenessFailures >= 3 && r.lastSeen.value < now - 24 * 3600
        else r.consecutiveFailures >= 5 && r.lastSeen.value < now - 72 * 3600)
    && id != keep && !Protected(t, id)
  }

  /** The sweep's five statements, row by row. */
  function SweptByRow(t: Tables, alive: seq<Id>, dead: seq<Id>, keep: Id, now: Time): Tables {
    var swept := map id | id in t.nodes :: SweptRow(t.nodes[id], id, alive, dead, keep, now);
    t.(nodes := swept - (set id | id in t.nodes && DeadRow(t, swept[id], id, keep, now)))
  }

  lemma SweepRowByRow(t: Tables, alive: seq<Id>, dead: seq<Id>, keep: Id, now: Time)
    ensures Swept(t, alive, dead, keep, now) == SweptByRow(t, alive, dead, keep, now)
  {
    var recorded := t.(nodes := RecordedAtOnce(t.nodes, alive, dead, keep, now));
    forall id | id in t.nodes
      ensures id in recorded.nodes && recorded.nodes[id] == SweptRow(t.nodes[id], id, alive, dead, keep, now)
      ensures Dead(recorded, Rule(keep, now), id) <==> DeadRow(t, recorded.nodes[id], id, keep, now)
    {
      RecordedRow(t.nodes, alive, dead, keep, now, id);
    }
    assert recorded.nodes.Keys == t.nodes.Keys;
    assert Swept(t, alive, dead, keep, now).nodes == SweptByRow(t, alive, dead, keep, now).nodes;
  }

  lemma SweptRowSame(r: Row, id: Id, alive: seq<Id>, dead: seq<Id>, keep: Id, now: Time)
    ensures var u := SweptRow(r, id, alive, dead, keep, now);
      u.provider == r.provider && u.identity == r.identity && u.transport == r.transport && u.lastSeen == r.lastSeen
      && u.consecutiveFailures == r.consecutiveFailures
  {}

  lemma SweptRowFaithful(r: Row, h: History, b: bool, id: Id, alive: seq<Id>, dead: seq<Id>, keep: Id, now: Time)
    requires Faithful(r, h, b) && (id in alive ==> id !in dead)
    ensures Faithful(SweptRow(r, id, alive, dead, keep, now), AddDial(h, id, alive, dead), b)
  {
    Appended(h.dials, true);
    Appended(h.dials, false);
  }

  lemma ListingFaithful(r: Row, h: History, b: bool, at: Time)
    requires Faithful(r, h, b) && (forall l <- h.listings :: l.at <= at)
    ensures Faithful(r, AddListing(h, at, false), b)
    ensures forall n: DiscoveredNode :: n.fetchedAt == at ==> Faithful(RelistedRow(r, n), AddListing(h, at, true), b)
  {
    Appended(h.listings, Listing(at, false));
    Appended(h.listings, Listing(at, true));
  }

  lemma NewRowFaithful(n: DiscoveredNode, b: bool)
    ensures Faithful(NewRow(n), AddListing(NO_HISTORY, n.fetchedAt, true), b)
  {
    assert Outcomes([]) == [];
  }

  // ---- preservation, event by event ----------------------------------------------------

  lemma ExpireKeepsInv(w: World, now: Time)
    requires Inv(w)
    ensures Inv(w.(t := ExpiryRestored(w.t, now)))
  {
    var t := ExpiryRestored(w.t, now);
    forall a, b | a in t.nodes && HasIdentity(t, b, t.nodes[a].provider, t.nodes[a].identity) ensures a == b {
      assert HasIdentity(w.t, b, w.t.nodes[a].provider, w.t.nodes[a].identity);
    }
  }

  lemma SubsetKeepsUnique(t: Tables, u: Tables)
    requires UniqueIdentities(t) && u.nodes.Keys <= t.nodes.Keys
    requires forall id <- u.nodes ::
      u.nodes[id].provider == t.nodes[id].provider && u.nodes[id].identity == t.nodes[id].identity
    ensures UniqueIdentities(u)
  {
    forall a, b | a in u.nodes && HasIdentity(u, b, u.nodes[a].provider, u.nodes[a].identity) ensures a == b {
      assert HasIdentity(t, b, t.nodes[a].provider, t.nodes[a].identity);
    }
  }

  predicate SameIdentity(t: Tables, u: Tables, id: Id) {
    && id in t.nodes && id in u.nodes
    && u.nodes[id].provider == t.nodes[id].provider && u.nodes[id].identity == t.nodes[id].identity
  }

  lemma RowsKeepInv(w: World, u: World)
    requires Inv(w) && u.history.Keys == u.t.nodes.Keys
    requires forall id <- u.t.nodes :: SameIdentity(w.t, u.t, id) && RowIsFaithful(u, id)
    ensures Inv(u)
  {
    forall id | id in u.t.nodes ensures id in w.t.nodes { assert SameIdentity(w.t, u.t, id); }
    SubsetKeepsUnique(w.t, u.t);
  }

  lemma OneRowKeepsInv(w: World, c: Id, r: Row, h: History)
    requires Inv(w) && c in w.t.nodes && Faithful(r, h, c in w.t.blacklist)
    requires r.provider == w.t.nodes[c].provider && r.identity == w.t.nodes[c].identity
    ensures Inv(World(w.t.(nodes := w.t.nodes[c := r]), w.history[c := h]))
  {
    var u := World(w.t.(nodes := w.t.nodes[c := r]), w.history[c := h]);
    forall id | id in u.t.nodes ensures SameIdentity(w.t, u.t, id) && RowIsFaithful(u, id) {
      OneRowIsFaithful(w, c, r, h, id);
    }
    RowsKeepInv(w, u);
  }

  lemma OneRowIsFaithful(w: World, c: Id, r: Row, h: History, id: Id)
    requires if id == c then Faithful(r, h, c in w.t.blacklist) else RowIsFaithful(w, id)
    ensures RowIsFaithful(World(w.t.(nodes := w.t.nodes[c := r]), w.history[c := h]), id)
  {}

  /** No listing in the world is later than `at`. */
  ghost predicate ListedBy(w: World, at: Time) { forall id <- w.history, l <- w.history[id].listings :: l.at <= at }

  lemma DroppedKeepsInv(w: World, n: DiscoveredNode)
    requires Inv(w) && ListedBy(w, n.fetchedAt)
    ensures Inv(Dropped(w, n)) && ListedBy(Dropped(w, n), n.fetchedAt) && Dropped(w, n).t == w.t
  {
    var id := Target(w.t, n);
    if id.Some? {
      var c := id.value;
      ListingFaithful(w.t.nodes[c], w.history[c], c in w.t.blacklist, n.fetchedAt);
      assert w.t.nodes[c := w.t.nodes[c]] == w.t.nodes;
      OneRowKeepsInv(w, c, w.t.nodes[c], AddListing(w.history[c], n.fetchedAt, false));
    }
  }

  lemma {:induction false} DroppedAllKeepsInv(w: World, ns: seq<DiscoveredNode>, at: Time)
    requires Inv(w) && ListedBy(w, at) && forall n <- ns :: n.fetchedAt == at
    ensures Inv(DroppedAll(w, ns)) && ListedBy(DroppedAll(w, ns), at) && DroppedAll(w, ns).t == w.t
  {
    if ns != [] {
      DroppedAllKeepsInv(w, ns[..|ns| - 1], at);
      DroppedKeepsInv(DroppedAll(w, ns[..|ns| - 1]), ns[|ns| - 1]);
    }
  }

  lemma ListedKeepsInv(w: World, n: DiscoveredNode)
    requires Inv(w) && ListedBy(w, n.fetchedAt)
    ensures Inv(Listed(w, n)) && ListedBy(Listed(w, n), n.fetchedAt)
  {
    ListedStaysListedBy(w, n);
    ListedKeepsUnique(w, n);
    forall id | id in Listed(w, n).t.nodes ensures RowIsFaithful(Listed(w, n), id) { ListedKeepsFaithful(w, n, id); }
  }

  lemma ListedStaysListedBy(w: World, n: DiscoveredNode)
    requires ListedBy(w, n.fetchedAt)
    ensures ListedBy(Listed(w, n), n.fetchedAt)
  {}

  lemma ListedKeepsUnique(w: World, n: DiscoveredNode)
    requires w.history.Keys == w.t.nodes.Keys && UniqueIdentities(w.t)
    ensures Listed(w, n).history.Keys == Listed(w, n).t.nodes.Keys && UniqueIdentities(Listed(w, n).t)
  {
    if Upserted(w.t, n).Some? { UpsertKeepsUnique(w.t, n); }
  }

  lemma ListedKeepsFaithful(w: World, n: DiscoveredNode, id: Id)
    requires Inv(w) && ListedBy(w, n.fetchedAt) && id in Listed(w, n).t.nodes
    ensures RowIsFaithful(Listed(w, n), id)
  {
    if Upserted(w.t, n).Some? && id == Target(w.t, n).GetOr(n.id) {
      if Target(w.t, n).Some? {
        ListingFaithful(w.t.nodes[id], w.history[id], id in w.t.blacklist, n.fetchedAt);
      } else {
        NewRowFaithful(n, n.id in w.t.blacklist);
      }
    }
  }

  lemma AliasesKeepInv(w: World, aliases: map<Id, Id>)
    requires Inv(w)
    ensures Inv(w.(t := w.t.(aliases := aliases)))
  {
    SubsetKeepsUnique(w.t, w.t.(aliases := aliases));
  }

  lemma UnstoredKeepsInv(w: World, n: DiscoveredNode, k: nat, fault: Fault)
    requires Inv(w) && !UpsertedRow(w.t, n, k, fault).1
    ensures Inv(w.(t := UpsertedRow(w.t, n, k, fault).0))
  {
    var t := UpsertedRow(w.t, n, k, fault).0;
    AliasesKeepInv(w, t.aliases);
    assert t == w.t.(aliases := t.aliases);
  }

  lemma {:induction false} ListedFromKeepsInv(w: World, ns: seq<DiscoveredNode>, k: nat, fault: Fault, at: Time)
    requires k <= |ns| && Inv(w) && ListedBy(w, at) && forall n <- ns :: n.fetchedAt == at
    ensures Inv(ListedFrom(w, ns, k, fault).0) && ListedBy(ListedFrom(w, ns, k, fault).0, at)
    decreases |ns| - k
  {
    if k < |ns| && UpsertedRow(w.t, ns[k], k, fault).1 {
      ListedKeepsInv(w, ns[k]);
      ListedFromKeepsInv(Listed(w, ns[k]), ns, k + 1, fault, at);
    } else if k < |ns| {
      UnstoredKeepsInv(w, ns[k], k, fault);
    }
  }

  lemma BatchKeepsInv(w: World, ns: seq<DiscoveredNode>, fault: Fault, at: Time)
    requires Inv(w) && ListedBy(w, at) && forall n <- ns :: n.fetchedAt == at
    ensures Inv(BatchStep(w, ns, fault).0)
  {
    var dropped, kept := Filtered(ns, w.t.blacklist, true), Filtered(ns, w.t.blacklist, false);
    DroppedAllKeepsInv(w, dropped, at);
    ListedFromKeepsInv(DroppedAll(w, dropped), kept, 0, fault, at);
    var (u, stop) := ListedFrom(DroppedAll(w, dropped), kept, 0, fault);
    DroppedAllKeepsInv(u, kept[stop..], at);
  }

  lemma SnapshotKeepsInv(w: World, provider: string, identities: seq<string>)
    requires Inv(w)
    ensures Inv(w.(t := SnapshotMarked(w.t, provider, identities)))
  {
    SubsetKeepsUnique(w.t, SnapshotMarked(w.t, provider, identities));
  }

  lemma DiscoverKeepsInv(w: World, e: Event)
    requires Inv(w) && e.Discover? && Admissible(w, e)
    ensures Inv(DiscoverStep(w, e))
  {
    if e.fault.BlacklistUnread? {
      DroppedAllKeepsInv(w, e.nodes, e.fetched);
    } else {
      var w1 := w.(t := ExpiryRestored(w.t, e.now));
      ExpireKeepsInv(w, e.now);
      BatchKeepsInv(w1, e.nodes, e.fault, e.fetched);
      SnapshotKeepsInv(BatchStep(w1, e.nodes, e.fault).0, e.provider, Identities(e.nodes));
    }
  }

  lemma SweepKeepsFaithful(w: World, alive: seq<Id>, dead: seq<Id>, keep: Id, now: Time, id: Id)
    requires Inv(w) && (forall a <- alive :: a !in dead) && id in SweepStep(w, alive, dead, keep, now).t.nodes
    ensures var n := SweepStep(w, alive, dead, keep, now); SameIdentity(w.t, n.t, id) && RowIsFaithful(n, id)
  {
    assert RowIsFaithful(w, id);
    SweptRowSame(w.t.nodes[id], id, alive, dead, keep, now);
    SweptRowFaithful(w.t.nodes[id], w.history[id], id in w.t.blacklist, id, alive, dead, keep, now);
  }

  lemma SweepKeepsKeys(w: World, alive: seq<Id>, dead: seq<Id>, keep: Id, now: Time)
    requires w.history.Keys == w.t.nodes.Keys
    ensures var n := SweepStep(w, alive, dead, keep, now); n.history.Keys == n.t.nodes.Keys
  {}

  lemma SweepKeepsInv(w: World, alive: seq<Id>, dead: seq<Id>, keep: Id, now: Time)
    requires Inv(w) && (forall id <- alive :: id !in dead)
    ensures Inv(SweepStep(w, alive, dead, keep, now))
  {
    var n := SweepStep(w, alive, dead, keep, now);
    forall id | id in n.t.nodes ensures SameIdentity(w.t, n.t, id) && RowIsFaithful(n, id) {
      SweepKeepsFaithful(w, alive, dead, keep, now, id);
    }
    SweepKeepsKeys(w, alive, dead, keep, now);
    RowsKeepInv(w, n);
  }

  lemma StartProbeKeepsInv(w: World, id: Id)
    requires Inv(w)
    ensures Inv(w.(t := MarkedProbing(w.t, id)))
  {
    SubsetKeepsUnique(w.t, MarkedProbing(w.t, id));
  }

  lemma CoolKeepsInv(w: World, id: Id, expires: Time)
    requires Inv(w)
    ensures Inv(w.(t := Blacklisted(w.t, id, expires)))
  {
    SubsetKeepsUnique(w.t, Blacklisted(w.t, id, expires));
  }

  lemma ChooseKeepsInv(w: World, favorites: set<Id>, fixedNode: Option<Id>)
    requires Inv(w)
    ensures Inv(w.(t := w.t.(favorites := favorites, fixedNode := fixedNode)))
  {
    SubsetKeepsUnique(w.t, w.t.(favorites := favorites, fixedNode := fixedNode));
  }

  lemma PurgeKeepsInv(w: World, cutoff: Time)
    requires Inv(w)
    ensures Inv(PurgeStep(w, cutoff))
  {
    SubsetKeepsUnique(w.t, Purged(w.t, cutoff));
  }

  lemma FinishProbeKeepsInv(w: World, id: Id, ok: bool, latency: int, at: Time)
    requires Inv(w)
    requires var c := ResolveAlias(w.t, id);
      c in w.t.nodes && w.t.nodes[c].lastProbed.Some? ==> w.t.nodes[c].lastProbed.value < at
    ensures Inv(FinishProbeStep(w, id, ok, latency, at))
  {
    var c := ResolveAlias(w.t, id);
    if c in w.t.nodes {
      ProbeRowFaithful(w.t.nodes[c], w.history[c], c in w.t.blacklist, ok, latency, at);
      OneRowKeepsInv(w, c, ProbedRow(w.t.nodes[c], ok, latency, at), AddHandshake(w.history[c], Probe(at, ok)));
    }
  }

  lemma FailActivationKeepsInv(w: World, id: Id)
    requires Inv(w)
    ensures Inv(FailActivationStep(w, id))
  {
    var c := ResolveAlias(w.t, id);
    if c in w.t.nodes {
      FailedActivationRowFaithful(w.t.nodes[c], w.history[c], c in w.t.blacklist);
      OneRowKeepsInv(w, c, FailedActivationRow(w.t.nodes[c]), AddHandshake(w.history[c], ActivationFailure));
    }
  }

  lemma StepKeepsInv(w: World, e: Event)
    requires Inv(w) && Admissible(w, e)
    ensures Inv(Apply(w, e))
  {
    match e {
      case Discover(_, _, _, _, _) => DiscoverKeepsInv(w, e);
      case StartProbe(id) => StartProbeKeepsInv(w, id);
      case FinishProbe(id, ok, latency, at) => FinishProbeKeepsInv(w, id, ok, latency, at);
      case FailActivation(id) => FailActivationKeepsInv(w, id);
      case Expire(now) => ExpireKeepsInv(w, now);
      case Purge(cutoff) => PurgeKeepsInv(w, cutoff);
      case RecordSweep(alive, dead, keep, now) =>
        SweepKeepsInv(w, alive, dead, keep, now);
      case Cool(id, expires) => CoolKeepsInv(w, id, expires);
      case Choose(favorites, fixedNode) => ChooseKeepsInv(w, favorites, fixedNode);
    }
  }

  // ---- whole runs --------------------------------------------------------------------

  const EMPTY := World(Tables(map[], map[], {}, None, map[]), map[])

  ghost predicate Possible(w: World, run: seq<Event>)
    decreases run
  {
    run == [] || (Admissible(w, run[0]) && Possible(Apply(w, run[0]), run[1..]))
  }

  ghost function After(w: World, run: seq<Event>): World
    decreases run
  {
    if run == [] then w else After(Apply(w, run[0]), run[1..])
  }

  lemma {:induction false} RunKeepsInv(w: World, run: seq<Event>)
    requires Inv(w) && Possible(w, run)
    ensures Inv(After(w, run))
    decreases run
  {
    if run != [] {
      StepKeepsInv(w, run[0]);
      RunKeepsInv(Apply(w, run[0]), run[1..]);
    }
  }

  lemma OneStep(w: World, e: Event, rest: seq<Event>)
    ensures Possible(w, [e] + rest) <==> Admissible(w, e) && Possible(Apply(w, e), rest)
    ensures After(w, [e] + rest) == After(Apply(w, e), rest)
  {
    assert ([e] + rest)[1..] == rest;
  }

  lemma SplitHead<T>(a: seq<T>, b: seq<T>)
    requires a != []
    ensures a == [a[0]] + a[1..] && a + b == [a[0]] + (a[1..] + b)
  {}

  lemma {:induction false} RunsCompose(w: World, a: seq<Event>, b: seq<Event>)
    ensures Possible(w, a + b) <==> Possible(w, a) && Possible(After(w, a), b)
    ensures After(w, a + b) == After(After(w, a), b)
    decreases |a|
  {
    if a == [] {
      assert a + b == b;
    } else {
      SplitHead(a, b);
      OneStep(w, a[0], a[1..]);
      OneStep(w, a[0], a[1..] + b);
      RunsCompose(Apply(w, a[0]), a[1..], b);
    }
  }

  lemma Reachable(run: seq<Event>)
    requires Possible(EMPTY, run)
    ensures Inv(After(EMPTY, run))
  {
    RunKeepsInv(EMPTY, run);
  }

  /** Status and counters after any run: ready means the most recent probe succeeded, cooldown means a
      blacklist row, and both counters are the length of the trailing run of failures. */
  lemma StatusIsEarned(run: seq<Event>, id: Id)
    requires Possible(EMPTY, run) && id in After(EMPTY, run).t.nodes
    ensures var w := After(EMPTY, run); var r := w.t.nodes[id];
      && id in w.history
      && (r.status.Ready? ==> LastProbe(w.history[id].handshakes).Some? && LastProbe(w.history[id].handshakes).value.ok)
      && (r.status.Cooldown? ==> id in w.t.blacklist)
      && r.livenessFailures == TrailingFailures(w.history[id].dials)
      && r.consecutiveFailures == TrailingFailures(Outcomes(w.history[id].handshakes))
  {
    Reachable(run);
  }

  /** A sweep deletes exactly these rows. */
  ghost predicate Condemned(w: World, alive: seq<Id>, dead: seq<Id>, keep: Id, now: Time, id: Id)
    requires id in w.t.nodes && id in w.history
  {
    var h := AddDial(w.history[id], id, alive, dead);
    var seen := LastKept(h.listings);
    && seen.Some?
    && (if w.t.nodes[id].transport.Tcp?
        then LastAllFailed(h.dials, 3) && seen.value < now - 24 * 3600
        else LastAllFailed(Outcomes(h.handshakes), 5) && seen.value < now - 72 * 3600)
    && id != keep && id !in w.t.favorites && id !in w.t.blacklist && w.t.fixedNode != Some(id)
  }

  lemma DeadRowMeansCondemned(w: World, alive: seq<Id>, dead: seq<Id>, keep: Id, now: Time, id: Id)
    requires Inv(w) && id in w.t.nodes && (id in alive ==> id !in dead)
    ensures DeadRow(w.t, SweptRow(w.t.nodes[id], id, alive, dead, keep, now), id, keep, now)
       <==> Condemned(w, alive, dead, keep, now, id)
  {
    var r := SweptRow(w.t.nodes[id], id, alive, dead, keep, now);
    var h := AddDial(w.history[id], id, alive, dead);
    SweptRowSame(w.t.nodes[id], id, alive, dead, keep, now);
    SweptRowFaithful(w.t.nodes[id], w.history[id], id in w.t.blacklist, id, alive, dead, keep, now);
    TrailingMeansLast(h.dials, 3);
    TrailingMeansLast(Outcomes(h.handshakes), 5);
    assert r.livenessFailures == TrailingFailures(h.dials) && r.lastSeen == LastKept(h.listings);
  }

  /** A TCP row goes only when its last three recorded dials, this sweep's included, all failed and its last
      stored listing is over 24 hours old; any other row needs five failed handshakes in a row and 72 hours.
      The active node's id, favourites, blacklisted and fixed nodes stay. And nothing else is kept. */
  lemma SweepDeletesExactly(run: seq<Event>, alive: seq<Id>, dead: seq<Id>, keep: Id, now: Time, id: Id)
    requires Possible(EMPTY, run) && (forall a <- alive :: a !in dead)
    requires id in After(EMPTY, run).t.nodes
    ensures var w := After(EMPTY, run);
      && id in w.history
      && (id !in SweepStep(w, alive, dead, keep, now).t.nodes <==> Condemned(w, alive, dead, keep, now, id))
  {
    Reachable(run);
    var w := After(EMPTY, run);
    DeadRowMeansCondemned(w, alive, dead, keep, now, id);
  }

  /** A purge deletes exactly the rows that are absent from the newest snapshot, whose last stored listing is older than
      the cutoff, and that nobody chose or blacklisted; it changes no other. */
  lemma PurgeDeletesExactly(run: seq<Event>, cutoff: Time, id: Id)
    requires Possible(EMPTY, run) && id in After(EMPTY, run).t.nodes
    ensures var w := After(EMPTY, run); var n := PurgeStep(w, cutoff).t;
      && id in w.history
      && (id !in n.nodes <==>
            && !w.t.nodes[id].present
            && LastKept(w.history[id].listings).Some? && LastKept(w.history[id].listings).value < cutoff
            && id !in w.t.favorites && id !in w.t.blacklist && w.t.fixedNode != Some(id))
      && (id in n.nodes ==> n.nodes[id] == w.t.nodes[id])
  {
    Reachable(run);
    assert RowIsFaithful(After(EMPTY, run), id);
  }

  lemma {:induction false} LastKeptIsLatest(ls: seq<Listing>)
    requires Ordered(ls)
    ensures forall l <- ls :: l.kept ==> LastKept(ls).Some? && l.at <= LastKept(ls).value
  {
    if ls != [] {
      LastKeptIsLatest(ls[..|ls| - 1]);
      forall l | l in ls && l.kept ensures LastKept(ls).Some? && l.at <= LastKept(ls).value {
        var i :| 0 <= i < |ls| && ls[i] == l;
        if i < |ls| - 1 { assert ls[..|ls| - 1][i] == l; }
      }
    }
  }

  // ---- listings a discovery lost ---------------------------------------------------------

  /** One of the listings is of node `id`. */
  ghost predicate Names(t: Tables, ns: seq<DiscoveredNode>, id: Id) { exists n <- ns :: Target(t, n) == Some(id) }

  /** A batch loses a listing of node `id`: its generated id is blacklisted, or it is the row the batch stops at,
      because it is rejected or the database fails, or it is behind that row. */
  ghost predicate BatchLoses(t: Tables, ns: seq<DiscoveredNode>, fault: Fault, id: Id) {
    var kept := Filtered(ns, t.blacklist, false);
    var (u, stop) := UpsertedFrom(t, kept, 0, fault);
    Names(t, Filtered(ns, t.blacklist, true), id) || Names(u, kept[stop..], id)
  }

  /** This discovery loses a listing of node `id`. */
  ghost predicate Loses(t: Tables, e: Event, id: Id)
    requires e.Discover?
  {
    if e.fault.BlacklistUnread? then Names(t, e.nodes, id)
    else BatchLoses(ExpiryRestored(t, e.now), e.nodes, e.fault, id)
  }

  /** The history holds a dropped listing no older than x. */
  ghost predicate DroppedSince(history: map<Id, History>, id: Id, x: Time) {
    id in history && exists l <- history[id].listings :: !l.kept && l.at >= x
  }

  lemma ListingAdded(h: History, at: Time, kept: bool, x: Time)
    ensures (exists l <- AddListing(h, at, kept).listings :: !l.kept && l.at >= x)
       <==> ((exists l <- h.listings :: !l.kept && l.at >= x) || (!kept && at >= x))
  {
    assert AddListing(h, at, kept).listings[|h.listings|] == Listing(at, kept);
    if l :| l in h.listings && !l.kept && l.at >= x { assert l in AddListing(h, at, kept).listings; }
  }

  lemma DropRecorded(w: World, n: DiscoveredNode, id: Id, x: Time)
    requires w.history.Keys == w.t.nodes.Keys
    ensures Dropped(w, n).t == w.t && Dropped(w, n).history.Keys == w.t.nodes.Keys
    ensures DroppedSince(Dropped(w, n).history, id, x)
       <==> (DroppedSince(w.history, id, x) || (Target(w.t, n) == Some(id) && n.fetchedAt >= x))
  {
    if Target(w.t, n) == Some(id) { ListingAdded(w.history[id], n.fetchedAt, false, x); }
  }

  lemma {:induction false} DropsRecorded(w: World, ns: seq<DiscoveredNode>, id: Id, at: Time, x: Time)
    requires w.history.Keys == w.t.nodes.Keys && forall n <- ns :: n.fetchedAt == at
    ensures DroppedAll(w, ns).t == w.t && DroppedAll(w, ns).history.Keys == w.t.nodes.Keys
    ensures DroppedSince(DroppedAll(w, ns).history, id, x)
       <==> (DroppedSince(w.history, id, x) || (at >= x && Names(w.t, ns, id)))
  {
    if ns != [] {
      var front, last := ns[..|ns| - 1], ns[|ns| - 1];
      DropsRecorded(w, front, id, at, x);
      DropRecorded(DroppedAll(w, front), last, id, x);
      assert ns == front + [last];
    }
  }

  lemma KeptIsNoDrop(w: World, n: DiscoveredNode, id: Id, x: Time)
    requires w.history.Keys == w.t.nodes.Keys
    ensures Listed(w, n).history.Keys == Listed(w, n).t.nodes.Keys
    ensures DroppedSince(Listed(w, n).history, id, x) <==> DroppedSince(w.history, id, x)
  {
    if Upserted(w.t, n).Some? {
      var c := Target(w.t, n).GetOr(n.id);
      if c == id { ListingAdded(if id in w.history then w.history[id] else NO_HISTORY, n.fetchedAt, true, x); }
    }
  }

  lemma {:induction false} KeptAreNoDrops(w: World, ns: seq<DiscoveredNode>, k: nat, fault: Fault, id: Id, x: Time)
    requires k <= |ns| && w.history.Keys == w.t.nodes.Keys
    ensures var u := ListedFrom(w, ns, k, fault).0;
      u.history.Keys == u.t.nodes.Keys && (DroppedSince(u.history, id, x) <==> DroppedSince(w.history, id, x))
    decreases |ns| - k
  {
    if k < |ns| && UpsertedRow(w.t, ns[k], k, fault).1 {
      KeptIsNoDrop(w, ns[k], id, x);
      KeptAreNoDrops(Listed(w, ns[k]), ns, k + 1, fault, id, x);
    }
  }

  lemma BatchDrops(w: World, ns: seq<DiscoveredNode>, fault: Fault, id: Id, at: Time, x: Time)
    requires w.history.Keys == w.t.nodes.Keys && forall n <- ns :: n.fetchedAt == at
    ensures DroppedSince(BatchStep(w, ns, fault).0.history, id, x)
       <==> (DroppedSince(w.history, id, x) || (at >= x && BatchLoses(w.t, ns, fault, id)))
  {
    var dropped, kept := Filtered(ns, w.t.blacklist, true), Filtered(ns, w.t.blacklist, false);
    var w2 := DroppedAll(w, dropped);
    DropsRecorded(w, dropped, id, at, x);
    KeptAreNoDrops(w2, kept, 0, fault, id, x);
    ListingsAreUpserts(w2, kept, 0, fault);
    var (u, stop) := ListedFrom(w2, kept, 0, fault);
    DropsRecorded(u, kept[stop..], id, at, x);
  }

  lemma DiscoveryDrops(w: World, e: Event, id: Id, x: Time)
    requires w.history.Keys == w.t.nodes.Keys && e.Discover? && forall n <- e.nodes :: n.fetchedAt == e.fetched
    ensures DroppedSince(DiscoverStep(w, e).history, id, x)
       <==> (DroppedSince(w.history, id, x) || (e.fetched >= x && Loses(w.t, e, id)))
  {
    if e.fault.BlacklistUnread? {
      DropsRecorded(w, e.nodes, id, e.fetched, x);
    } else {
      BatchDrops(w.(t := ExpiryRestored(w.t, e.now)), e.nodes, e.fault, id, e.fetched, x);
    }
  }

  lemma OtherStepsListNothing(w: World, e: Event, id: Id)
    requires w.history.Keys == w.t.nodes.Keys && !e.Discover? && id in Apply(w, e).t.nodes
    ensures id in w.history && id in Apply(w, e).history && Apply(w, e).history[id].listings == w.history[id].listings
  {}

  lemma StepDrops(w: World, e: Event, id: Id, x: Time)
    requires Inv(w) && Admissible(w, e) && id in Apply(w, e).t.nodes
    ensures DroppedSince(Apply(w, e).history, id, x)
       <==> (DroppedSince(w.history, id, x) || (e.Discover? && e.fetched >= x && Loses(w.t, e, id)))
  {
    if e.Discover? { DiscoveryDrops(w, e, id, x); } else { OtherStepsListNothing(w, e, id); }
  }

  /** Step i of the run fetched no earlier than x and lost a listing of the node. */
  ghost predicate DropsAt(run: seq<Event>, i: nat, id: Id, x: Time) {
    i < |run| && run[i].Discover? && run[i].fetched >= x && Loses(After(EMPTY, run[..i]).t, run[i], id)
  }

  ghost predicate StoredAfter(run: seq<Event>, j: nat, id: Id) { j <= |run| && id in After(EMPTY, run[..j]).t.nodes }

  ghost function DropsAtStep(run: seq<Event>, id: Id, x: Time): nat -> bool { (i: nat) => DropsAt(run, i, id, x) }
  ghost function StoredAfterStep(run: seq<Event>, id: Id): nat -> bool { (j: nat) => StoredAfter(run, j, id) }

  /** Some step from x on did, and the node has been stored ever since. */
  ghost predicate DroppedRecently(run: seq<Event>, id: Id, x: Time) {
    SinceThen(DropsAtStep(run, id, x), StoredAfterStep(run, id), |run|)
  }

  /** There was an i before n, and from i + 1 to n it holds. */
  ghost predicate SinceThen(was: nat -> bool, holds: nat -> bool, n: nat) {
    exists i: nat :: i < n && was(i) && forall j: nat :: i < j <= n ==> holds(j)
  }

  lemma SinceThenStep(was: nat -> bool, holds: nat -> bool, n: nat)
    requires holds(n + 1)
    ensures SinceThen(was, holds, n + 1) <==> ((holds(n) && SinceThen(was, holds, n)) || was(n))
  {
    if holds(n) && SinceThen(was, holds, n) {
      var i: nat :| i < n && was(i) && forall j: nat :: i < j <= n ==> holds(j);
      assert forall j: nat :: i < j <= n + 1 ==> holds(j);
    }
  }

  lemma SinceThenSame(was: nat -> bool, holds: nat -> bool, was': nat -> bool, holds': nat -> bool, n: nat)
    requires forall i: nat :: i < n ==> was(i) == was'(i)
    requires forall j: nat :: j <= n ==> holds(j) == holds'(j)
    ensures SinceThen(was, holds, n) <==> SinceThen(was', holds', n)
  {}

  lemma PrefixSame(run: seq<Event>, n: nat, k: nat, id: Id, x: Time)
    requires k <= n <= |run|
    ensures StoredAfterStep(run, id)(k) == StoredAfterStep(run[..n], id)(k)
    ensures k < n ==> DropsAtStep(run, id, x)(k) == DropsAtStep(run[..n], id, x)(k)
  {
    assert run[..n][..k] == run[..k];
  }

  lemma DroppedRecentlyBefore(run: seq<Event>, n: nat, id: Id, x: Time)
    requires n <= |run|
    ensures SinceThen(DropsAtStep(run, id, x), StoredAfterStep(run, id), n) <==> DroppedRecently(run[..n], id, x)
  {
    var was, holds := DropsAtStep(run, id, x), StoredAfterStep(run, id);
    var was', holds' := DropsAtStep(run[..n], id, x), StoredAfterStep(run[..n], id);
    forall k: nat | k <= n ensures holds(k) == holds'(k) && (k < n ==> was(k) == was'(k)) {
      PrefixSame(run, n, k, id, x);
    }
    SinceThenSame(was, holds, was', holds', n);
  }

  /** One more step, while the node stays stored. */
  lemma DroppedRecentlyStep(run: seq<Event>, id: Id, x: Time)
    requires run != [] && StoredAfter(run, |run|, id)
    ensures var n := |run| - 1;
      DroppedRecently(run, id, x)
      <==> ((StoredAfter(run, n, id) && DroppedRecently(run[..n], id, x)) || DropsAt(run, n, id, x))
  {
    var n := |run| - 1;
    SinceThenStep(DropsAtStep(run, id, x), StoredAfterStep(run, id), n);
    DroppedRecentlyBefore(run, n, id, x);
  }

  lemma ComposeLast(w: World, run: seq<Event>, e: Event)
    requires Possible(w, run + [e])
    ensures Possible(w, run) && Admissible(After(w, run), e) && After(w, run + [e]) == Apply(After(w, run), e)
  {
    RunsCompose(w, run, [e]);
    assert [e] + [] == [e];
    OneStep(After(w, run), e, []);
  }

  lemma LastDrop(run: seq<Event>, e: Event, id: Id, x: Time)
    requires Possible(EMPTY, run + [e]) && id in After(EMPTY, run + [e]).t.nodes
    ensures Possible(EMPTY, run)
    ensures DroppedSince(After(EMPTY, run + [e]).history, id, x)
       <==> (DroppedSince(After(EMPTY, run).history, id, x) || DropsAt(run + [e], |run|, id, x))
    ensures DroppedSince(After(EMPTY, run).history, id, x) ==> StoredAfter(run + [e], |run|, id)
  {
    ComposeLast(EMPTY, run, e);
    Reachable(run);
    StepDrops(After(EMPTY, run), e, id, x);
    assert (run + [e])[..|run|] == run;
  }

  lemma {:induction false} RunDrops(run: seq<Event>, id: Id, x: Time)
    requires Possible(EMPTY, run) && id in After(EMPTY, run).t.nodes
    ensures DroppedSince(After(EMPTY, run).history, id, x) <==> DroppedRecently(run, id, x)
    decreases |run|
  {
    assert run[..|run|] == run;
    if run != [] {
      var n := |run| - 1;
      assert run == run[..n] + [run[n]];
      LastDrop(run[..n], run[n], id, x);
      DroppedRecentlyStep(run, id, x);
      if StoredAfter(run, n, id) { RunDrops(run[..n], id, x); }
    }
  }

  /** For how long a listing protects a row. */
  function Window(r: Row): Time { if r.transport.Tcp? then 24 * 3600 else 72 * 3600 }

  lemma CondemnedThoughListed(w: World, alive: seq<Id>, dead: seq<Id>, keep: Id, now: Time, id: Id)
    requires Inv(w) && id in w.t.nodes
    ensures var x := now - Window(w.t.nodes[id]);
      Condemned(w, alive, dead, keep, now, id) ==>
        && ((exists l <- w.history[id].listings :: l.at >= x) <==> DroppedSince(w.history, id, x))
        && forall l <- w.history[id].listings :: l.at >= x ==> !l.kept
  {
    LastKeptIsLatest(w.history[id].listings);
  }

  lemma SweptThoughListed(w: World, alive: seq<Id>, dead: seq<Id>, keep: Id, now: Time, id: Id, recent: bool)
    requires Inv(w) && id in w.t.nodes && (id in alive ==> id !in dead)
    requires DroppedSince(w.history, id, now - Window(w.t.nodes[id])) == recent
    ensures var x := now - Window(w.t.nodes[id]);
      && id in w.history
      && ((id !in SweepStep(w, alive, dead, keep, now).t.nodes && exists l <- w.history[id].listings :: l.at >= x)
          <==> (Condemned(w, alive, dead, keep, now, id) && recent))
      && (id !in SweepStep(w, alive, dead, keep, now).t.nodes ==>
            forall l <- w.history[id].listings :: l.at >= x ==> !l.kept)
  {
    DeadRowMeansCondemned(w, alive, dead, keep, now, id);
    CondemnedThoughListed(w, alive, dead, keep, now, id);
  }

  /** The sweep reads listings through last_seen_at, which a discovery advances only for the rows it stores. So a
      sweep deletes a node that was listed within the last 24 hours (72 if it is not TCP) exactly when the rules
      condemn it and some discovery of those hours, since which it was stored, lost a listing of it: blacklisted, or
      at or behind the row its batch stopped at, or read with no blacklist to be had. */
  lemma DeletedThoughListed(run: seq<Event>, alive: seq<Id>, dead: seq<Id>, keep: Id, now: Time, id: Id)
    requires Possible(EMPTY, run) && (forall a <- alive :: a !in dead)
    requires id in After(EMPTY, run).t.nodes
    ensures var w := After(EMPTY, run); var x := now - Window(w.t.nodes[id]);
      && id in w.history
      && ((id !in SweepStep(w, alive, dead, keep, now).t.nodes && exists l <- w.history[id].listings :: l.at >= x)
          <==> (Condemned(w, alive, dead, keep, now, id) && DroppedRecently(run, id, x)))
      && (id !in SweepStep(w, alive, dead, keep, now).t.nodes ==>
            forall l <- w.history[id].listings :: l.at >= x ==> !l.kept)
  {
    var x := now - Window(After(EMPTY, run).t.nodes[id]);
    Reachable(run);
    RunDrops(run, id, x);
    SweptThoughListed(After(EMPTY, run), alive, dead, keep, now, id, DroppedRecently(run, id, x));
  }

  lemma AnsweredDialRow(w: World, alive: seq<Id>, dead: seq<Id>, keep: Id, now: Time, id: Id)
    requires Inv(w) && id in alive && id !in dead
    requires id in w.t.nodes && w.t.nodes[id].status.Unavailable? && w.t.nodes[id].transport.Tcp?
    ensures var n := SweepStep(w, alive, dead, keep, now);
      id in n.t.nodes && (n.t.nodes[id].status.Ready? <==> LastProbeSucceeded(w.t.nodes[id]))
  {
    DeadRowMeansCondemned(w, alive, dead, keep, now, id);
    Appended(w.history[id].dials, true);
  }

  /** The documentation promises that nodes which failed their handshake stay down when a dial is answered.
      An answered dial brings an unavailable node back exactly when its last probe succeeded; so a failed
      activation, which is not a probe, is undone: for every ready node, fail its activation and let the next
      sweep reach it, and it is ready again although its last handshake failed. */
  lemma AnsweredDialPromotes(run: seq<Event>, alive: seq<Id>, dead: seq<Id>, keep: Id, now: Time, id: Id)
    requires Possible(EMPTY, run) && (forall a <- alive :: a !in dead) && id in alive
    requires var w := After(EMPTY, run);
      id in w.t.nodes && w.t.nodes[id].status.Unavailable? && w.t.nodes[id].transport.Tcp?
    ensures var w := After(EMPTY, run); var n := SweepStep(w, alive, dead, keep, now);
      && id in n.t.nodes && id in w.history
      && (n.t.nodes[id].status.Ready? <==>
            LastProbe(w.history[id].handshakes).Some? && LastProbe(w.history[id].handshakes).value.ok)
  {
    Reachable(run);
    AnsweredDialRow(After(EMPTY, run), alive, dead, keep, now, id);
  }

  lemma AnsweredDialKeepsHandshakes(w: World, id: Id, keep: Id, now: Time)
    requires Inv(w) && id in w.t.nodes && w.t.nodes[id].transport.Tcp?
    ensures var n := SweepStep(w, [id], [], keep, now);
      && id in n.t.nodes && n.t.nodes[id].consecutiveFailures == w.t.nodes[id].consecutiveFailures
      && id in n.history && n.history[id].handshakes == w.history[id].handshakes
      && (w.t.nodes[id].status.Unavailable? && LastProbeSucceeded(w.t.nodes[id]) ==> n.t.nodes[id].status.Ready?)
      && (w.t.nodes[id].status.Ready? ==> n.t.nodes[id].status.Ready?)
  {
    AnsweredRow(w.t.nodes[id], id, keep, now);
    AnsweredDialStays(w, id, keep, now);
  }

  lemma AnsweredRow(r: Row, id: Id, keep: Id, now: Time)
    ensures var u := SweptRow(r, id, [id], [], keep, now);
      && u.consecutiveFailures == r.consecutiveFailures && u.livenessFailures == 0
      && (r.status.Unavailable? && LastProbeSucceeded(r) && r.transport.Tcp? ==> u.status.Ready?)
      && (r.status.Ready? ==> u.status.Ready?)
  {}

  lemma AnsweredDialStays(w: World, id: Id, keep: Id, now: Time)
    requires Inv(w) && id in w.t.nodes && w.t.nodes[id].transport.Tcp?
    ensures var n := SweepStep(w, [id], [], keep, now);
      && id in n.t.nodes && n.t.nodes[id] == SweptRow(w.t.nodes[id], id, [id], [], keep, now)
      && id in n.history && n.history[id].handshakes == w.history[id].handshakes
  {
    SweptRowSame(w.t.nodes[id], id, [id], [], keep, now);
    AnsweredRow(w.t.nodes[id], id, keep, now);
  }

  lemma UndoneRow(w: World, id: Id, keep: Id, now: Time)
    requires Inv(w) && id in w.t.nodes && w.t.nodes[id].status.Ready? && w.t.nodes[id].transport.Tcp?
    ensures var n := SweepStep(FailActivationStep(w, id), [id], [], keep, now);
      && id in n.t.nodes && n.t.nodes[id].status.Ready?
      && (ResolveAlias(w.t, id) == id ==>
            && n.t.nodes[id].consecutiveFailures > 0 && id in n.history
            && n.history[id].handshakes == w.history[id].handshakes + [ActivationFailure])
  {
    FailActivationKeepsInv(w, id);
    AnsweredDialKeepsHandshakes(FailActivationStep(w, id), id, keep, now);
  }

  lemma FailedActivationIsUndone(run: seq<Event>, id: Id, keep: Id, now: Time)
    requires Possible(EMPTY, run)
    requires var w := After(EMPTY, run); id in w.t.nodes && w.t.nodes[id].status.Ready? && w.t.nodes[id].transport.Tcp?
    ensures var w := After(EMPTY, run);
      var n := SweepStep(FailActivationStep(w, id), [id], [], keep, now);
      && id in n.t.nodes && n.t.nodes[id].status.Ready?
      && (ResolveAlias(w.t, id) == id ==>
            && n.t.nodes[id].consecutiveFailures > 0 && id in n.history && n.history[id].handshakes != []
            && !n.history[id].handshakes[|n.history[id].handshakes| - 1].Succeeded())
  {
    Reachable(run);
    UndoneRow(After(EMPTY, run), id, keep, now);
  }

  /** The active node is protected by the id it was activated under. Activated through an alias, its row is
      deleted like any other: the stored row survives the rule in general exactly when the id is not an alias. */
  lemma ActiveRowProtected(t: Tables, active: Id)
    ensures (forall rule: DeadNodeRule :: rule.keep == active ==> !Dead(t, rule, ResolveAlias(t, active)))
       <==> (var row := ResolveAlias(t, active);
             || row == active || row !in t.nodes || t.nodes[row].lastSeen.None?
             || row in t.favorites || row in t.blacklist || t.fixedNode == Some(row))
  {
    var row := ResolveAlias(t, active);
    if row in t.nodes && t.nodes[row].lastSeen.Some? {
      var seen := t.nodes[row].lastSeen.value;
      var rule := DeadNodeRule(0, seen + 1, 0, seen + 1, active);
      assert Dead(t, rule, row) <==> row != active && !Protected(t, row);
    }
  }

  // ---- a node deleted right after it was listed ------------------------------------------

  /** The world after one admissible event. */
  ghost function Next(w: World, e: Event): Option<World> { if Admissible(w, e) then Some(Apply(w, e)) else None }

  /** The world after a possible run. */
  ghost function Reached(run: seq<Event>): Option<World> {
    if Possible(EMPTY, run) then Some(After(EMPTY, run)) else None
  }

  lemma ReachedNext(run: seq<Event>, e: Event, a: World, b: World)
    requires Reached(run) == Some(a) && Next(a, e) == Some(b)
    ensures Reached(run + [e]) == Some(b)
  {
    RunsCompose(EMPTY, run, [e]);
    OneStep(a, e, []);
    assert [e] + [] == [e];
  }

  /** The worlds a run goes through, one after each event. */
  ghost predicate GoesThrough(run: seq<Event>, worlds: seq<World>, k: nat) {
    k < |run| && |worlds| == |run| + 1 && Next(worlds[k], run[k]) == Some(worlds[k + 1])
  }

  lemma ReachedOneMore(run: seq<Event>, worlds: seq<World>, k: nat)
    requires GoesThrough(run, worlds, k) && Reached(run[..k]) == Some(worlds[k])
    ensures Reached(run[..k + 1]) == Some(worlds[k + 1])
  {
    ReachedNext(run[..k], run[k], worlds[k], worlds[k + 1]);
    assert run[..k + 1] == run[..k] + [run[k]];
  }

  lemma {:induction false} ReachedAll(run: seq<Event>, worlds: seq<World>, k: nat)
    requires |worlds| == |run| + 1 && worlds[0] == EMPTY && k <= |run|
    ensures (forall i: nat :: i < k ==> GoesThrough(run, worlds, i)) ==> Reached(run[..k]) == Some(worlds[k])
  {
    if k > 0 && forall i: nat :: i < k ==> GoesThrough(run, worlds, i) {
      ReachedAll(run, worlds, k - 1);
      assert GoesThrough(run, worlds, k - 1);
      ReachedOneMore(run, worlds, k - 1);
    }
  }

  /** No node, and a world of one. */
  function Bare(aliases: map<Id, Id>): World { World(Tables(map[], map[], {}, None, aliases), map[]) }
  function One(id: Id, r: Row, h: History, blacklist: map<Id, Time>, aliases: map<Id, Id>): World {
    World(Tables(map[id := r], blacklist, {}, None, aliases), map[id := h])
  }

  lemma FilteredOne(n: DiscoveredNode, blacklist: map<Id, Time>, listed: bool)
    ensures Filtered([n], blacklist, listed) == if (n.id in blacklist) == listed then [n] else []
  {
    assert [n][1..] == [];
    assert Filtered([n][1..], blacklist, listed) == [];
  }

  function FirstHistory(n: DiscoveredNode): History { History([], [], [Listing(n.fetchedAt, true)]) }

  lemma FirstListing(n: DiscoveredNode, now: Time, aliases: map<Id, Id>)
    ensures Next(Bare(aliases), Discover(n.provider, now, n.fetchedAt, [n], NoFault)) ==
      Some(One(n.id, NewRow(n), FirstHistory(n), map[], aliases))
  {
    var e, bare := Discover(n.provider, now, n.fetchedAt, [n], NoFault), Bare(aliases);
    assert ExpiryRestored(bare.t, now) == bare.t;
    FilteredOne(n, map[], true);
    FilteredOne(n, map[], false);
    assert forall id :: !HasIdentity(bare.t, id, n.provider, Identity(n));
    assert Target(bare.t, n) == None;
    var w := Listed(bare, n);
    assert ListedFrom(bare, [n], 0, NoFault) == (w, 1);
    assert [n][1..] == [];
    assert Identities([n])[0] == Identity(n);
    assert AddListing(NO_HISTORY, n.fetchedAt, true).listings == [Listing(n.fetchedAt, true)];
    assert w.t.nodes == map[n.id := NewRow(n)] && w.history == map[n.id := FirstHistory(n)];
    assert SnapshotMarked(w.t, n.provider, Identities([n])).nodes == w.t.nodes;
  }

  function Failed(r: Row): Row { r.(livenessFailures := r.livenessFailures + 1) }

  lemma FailedDial(id: Id, r: Row, h: History, now: Time)
    requires id != "" && r.transport.Tcp? && r.lastSeen.Some? && !r.status.Ready?
    ensures Next(One(id, r, h, map[], map[]), RecordSweep([], [id], "", now)) ==
      Some(if Failed(r).livenessFailures >= 3 && r.lastSeen.value < now - 24 * 3600 then Bare(map[])
           else One(id, Failed(r), h.(dials := h.dials + [false]), map[], map[]))
  {
    var w, f := One(id, r, h, map[], map[]), Failed(r);
    assert SweptRow(r, id, [], [id], "", now) == f;
    assert DeadRow(w.t, f, id, "", now) <==> f.livenessFailures >= 3 && r.lastSeen.value < now - 24 * 3600;
    var t := SweptByRow(w.t, [], [id], "", now);
    if DeadRow(w.t, f, id, "", now) {
      assert t.nodes == map[];
      assert Restrict(SweepHistory(w, [], [id]), t.nodes) == map[];
    } else {
      assert t.nodes == map[id := f];
      assert Restrict(SweepHistory(w, [], [id]), t.nodes) == map[id := h.(dials := h.dials + [false])];
    }
  }

  lemma DroppedListing(n: DiscoveredNode, r: Row, h: History, expires: Time, now: Time)
    requires now < expires && r.provider == n.provider && r.identity == Identity(n)
    requires forall l <- h.listings :: l.at <= n.fetchedAt
    ensures Next(One(n.id, r, h, map[n.id := expires], map[]), Discover(n.provider, now, n.fetchedAt, [n], NoFault)) ==
      Some(One(n.id, r, AddListing(h, n.fetchedAt, false), map[n.id := expires], map[]))
  {
    var w := One(n.id, r, h, map[n.id := expires], map[]);
    assert ExpiryRestored(w.t, now) == w.t;
    var blacklist := map[n.id := expires];
    FilteredOne(n, blacklist, true);
    FilteredOne(n, blacklist, false);
    assert HasIdentity(w.t, n.id, n.provider, Identity(n));
    assert Target(w.t, n) == Some(n.id);
    var w2 := Dropped(w, n);
    assert DroppedAll(w, [n]) == w2 by { assert [n][..0] == []; }
    assert w2 == One(n.id, r, AddListing(h, n.fetchedAt, false), blacklist, map[]);
    assert Identities([n])[0] == Identity(n);
    assert SnapshotMarked(w2.t, n.provider, Identities([n])).nodes == w2.t.nodes;
  }

  function Cooled(r: Row, expires: Time): Row { r.(status := Cooldown, cooldownUntil := Some(expires)) }

  lemma CoolOne(id: Id, r: Row, h: History, expires: Time)
    ensures Next(One(id, r, h, map[], map[]), Cool(id, expires)) ==
      Some(One(id, Cooled(r, expires), h, map[id := expires], map[]))
  {
    var t := One(id, r, h, map[], map[]).t;
    assert ResolveAlias(t, id) == id;
    assert t.nodes[id := Cooled(r, expires)] == map[id := Cooled(r, expires)];
    assert t.blacklist[id := expires] == map[id := expires];
  }

  lemma ExpireOne(id: Id, r: Row, h: History, expires: Time)
    ensures Next(One(id, r, h, map[id := expires], map[]), Expire(expires)) ==
      Some(One(id, Restored(r), h, map[], map[]))
  {
    var t := ExpiryRestored(One(id, r, h, map[id := expires], map[]).t, expires);
    assert t.nodes == map[id := Restored(r)] && t.blacklist == map[];
  }

  /** Listed at second 0; two failed sweeps; cooled down until second 100000 and listed again at 99999, which
      discovery drops; the cooldown expires. */
  function ForgottenListing(n: DiscoveredNode): seq<Event> {
    [Discover(n.provider, 0, 0, [n.(fetchedAt := 0)], NoFault), RecordSweep([], [n.id], "", 1),
     RecordSweep([], [n.id], "", 2), Cool(n.id, 100000),
     Discover(n.provider, 99999, 99999, [n.(fetchedAt := 99999)], NoFault), Expire(100000)]
  }

  /** The node's row and history after the two sweeps. */
  function TwiceDead(n: DiscoveredNode): Row { NewRow(n.(fetchedAt := 0)).(livenessFailures := 2) }
  const TWICE_DEAD := History([], [false, false], [Listing(0, true)])
  const FORGOTTEN := AddListing(TWICE_DEAD, 99999, false)

  function ForgottenWorlds(n: DiscoveredNode): seq<World> {
    var r, cooled := NewRow(n.(fetchedAt := 0)), Cooled(TwiceDead(n), 100000);
    [EMPTY, One(n.id, r, FirstHistory(n.(fetchedAt := 0)), map[], map[]),
     One(n.id, Failed(r), History([], [false], [Listing(0, true)]), map[], map[]),
     One(n.id, TwiceDead(n), TWICE_DEAD, map[], map[]), One(n.id, cooled, TWICE_DEAD, map[n.id := 100000], map[]),
     One(n.id, cooled, FORGOTTEN, map[n.id := 100000], map[]), One(n.id, TwiceDead(n), FORGOTTEN, map[], map[])]
  }

  ghost predicate ForgottenLink(n: DiscoveredNode, i: nat)
    requires i < 6
  { Next(ForgottenWorlds(n)[i], ForgottenListing(n)[i]) == Some(ForgottenWorlds(n)[i + 1]) }

  lemma FirstDial(n: DiscoveredNode)
    requires n.id != "" && n.transport.Tcp?
    ensures ForgottenLink(n, 1)
  {
    var first := n.(fetchedAt := 0);
    assert [] + [false] == [false];
    FailedDial(n.id, NewRow(first), FirstHistory(first), 1);
  }

  lemma SecondDial(n: DiscoveredNode)
    requires n.id != "" && n.transport.Tcp?
    ensures ForgottenLink(n, 2)
  {
    assert [false] + [false] == [false, false];
    FailedDial(n.id, Failed(NewRow(n.(fetchedAt := 0))), History([], [false], [Listing(0, true)]), 2);
  }

  lemma SecondListing(n: DiscoveredNode)
    requires n.id != "" && n.transport.Tcp?
    ensures ForgottenLink(n, 4)
  {
    DroppedListing(n.(fetchedAt := 99999), Cooled(TwiceDead(n), 100000), TWICE_DEAD, 100000, 99999);
  }

  lemma CoolingEnds(n: DiscoveredNode)
    ensures ForgottenLink(n, 5)
  {
    var cooled := Cooled(TwiceDead(n), 100000);
    assert Restored(cooled) == TwiceDead(n);
    ExpireOne(n.id, cooled, FORGOTTEN, 100000);
  }

  lemma ForgottenStep(n: DiscoveredNode, i: nat)
    requires n.id != "" && n.transport.Tcp? && i < 6
    ensures ForgottenLink(n, i)
  {
    match i
    case 0 => FirstListing(n.(fetchedAt := 0), 0, map[]);
    case 1 => FirstDial(n);
    case 2 => SecondDial(n);
    case 3 => CoolOne(n.id, TwiceDead(n), TWICE_DEAD, 100000);
    case 4 => SecondListing(n);
    case 5 => CoolingEnds(n);
  }

  lemma ForgottenRun(n: DiscoveredNode)
    requires n.id != "" && n.transport.Tcp?
    ensures Reached(ForgottenListing(n)) == Some(One(n.id, TwiceDead(n), FORGOTTEN, map[], map[]))
  {
    var run, worlds := ForgottenListing(n), ForgottenWorlds(n);
    forall i: nat | i < 6 ensures GoesThrough(run, worlds, i) {
      ForgottenStep(n, i);
      assert ForgottenLink(n, i);
    }
    ReachedAll(run, worlds, 6);
    assert run[..6] == run;
  }

  /** Any TCP node can be deleted two seconds after the provider listed it. */
  lemma ListedYetDeleted(n: DiscoveredNode)
    requires n.id != "" && n.transport.Tcp?
    ensures Possible(EMPTY, ForgottenListing(n))
    ensures var w := After(EMPTY, ForgottenListing(n));
      && n.id in w.t.nodes && n.id in w.history && Listing(99999, false) in w.history[n.id].listings
      && n.id !in SweepStep(w, [], [n.id], "", 100001).t.nodes
  {
    ForgottenRun(n);
    assert FORGOTTEN.listings[1] == Listing(99999, false);
    FailedDial(n.id, TwiceDead(n), FORGOTTEN, 100001);
    assert Apply(One(n.id, TwiceDead(n), FORGOTTEN, map[], map[]), RecordSweep([], [n.id], "", 100001)) == Bare(map[]);
  }

  /** The same id under another identity. */
  function Clash(n: DiscoveredNode): DiscoveredNode { n.(identity := Identity(n) + "x") }

  /** A discovery that loses a listing of the node for another reason than the blacklist: an id clash ahead of it in
      the batch, or a database fault. */
  predicate Stops(n: DiscoveredNode, batch: seq<DiscoveredNode>, fault: Fault) {
    || (batch == [Clash(n), n] && fault == NoFault)
    || (batch == [n] && fault in {LookupFails(0), InsertFails(0), BlacklistUnread})
  }

  lemma FilteredNone(ns: seq<DiscoveredNode>)
    ensures Filtered(ns, map[], true) == [] && Filtered(ns, map[], false) == ns
  {}

  /** Any batch that stops at its first row loses it and all behind it. */
  lemma LostBatch(w: World, e: Event)
    requires e.Discover? && w.t.blacklist == map[] && e.nodes != []
    requires e.fault.BlacklistUnread? || UpsertedRow(w.t, e.nodes[0], 0, e.fault) == (w.t, false)
    ensures DiscoverStep(w, e) == DroppedAll(w, e.nodes)
  {
    assert ExpiryRestored(w.t, e.now) == w.t;
    FilteredNone(e.nodes);
    assert e.nodes[0..] == e.nodes;
  }

  lemma AloneStored(t: Tables, n: DiscoveredNode)
    requires t.nodes.Keys == {n.id} && HasIdentity(t, n.id, n.provider, Identity(n))
    ensures Target(t, n) == Some(n.id) && Target(t, Clash(n)) == None
  {
    assert forall id :: !HasIdentity(t, id, n.provider, Identity(Clash(n)));
  }

  lemma DroppedBatch(w: World, n: DiscoveredNode, batch: seq<DiscoveredNode>)
    requires batch == [n] || (batch == [Clash(n), n] && Target(w.t, Clash(n)) == None)
    ensures DroppedAll(w, batch) == Dropped(w, n)
  {
    var front := batch[..|batch| - 1];
    assert DroppedAll(w, front) == w by {
      if |batch| == 2 { assert front == [Clash(n)] && front[..0] == []; }
    }
  }

  lemma StoppedListing(n: DiscoveredNode, r: Row, h: History, batch: seq<DiscoveredNode>, fault: Fault, now: Time)
    requires r.provider == n.provider && r.identity == Identity(n) && Stops(n, batch, fault)
    requires forall l <- h.listings :: l.at <= n.fetchedAt
    ensures Next(One(n.id, r, h, map[], map[]), Discover(n.provider, now, n.fetchedAt, batch, fault)) ==
      Some(One(n.id, r, AddListing(h, n.fetchedAt, false), map[], map[]))
  {
    StoppedStep(n, r, h, batch, fault, now);
  }

  lemma StoppedStep(n: DiscoveredNode, r: Row, h: History, batch: seq<DiscoveredNode>, fault: Fault, now: Time)
    requires r.provider == n.provider && r.identity == Identity(n) && Stops(n, batch, fault)
    ensures DiscoverStep(One(n.id, r, h, map[], map[]), Discover(n.provider, now, n.fetchedAt, batch, fault)) ==
      One(n.id, r, AddListing(h, n.fetchedAt, false), map[], map[])
  {
    var w := One(n.id, r, h, map[], map[]);
    AloneStored(w.t, n);
    StopsAtFirst(w.t, n, batch, fault);
    LostBatch(w, Discover(n.provider, now, n.fetchedAt, batch, fault));
    DroppedBatch(w, n, batch);
    DroppedAlone(n, r, h);
  }

  lemma StopsAtFirst(t: Tables, n: DiscoveredNode, batch: seq<DiscoveredNode>, fault: Fault)
    requires Stops(n, batch, fault) && n.id in t.nodes && Target(t, n) == Some(n.id) && Target(t, Clash(n)) == None
    ensures fault.BlacklistUnread? || UpsertedRow(t, batch[0], 0, fault) == (t, false)
  {}

  lemma DroppedAlone(n: DiscoveredNode, r: Row, h: History)
    requires Target(One(n.id, r, h, map[], map[]).t, n) == Some(n.id)
    ensures Dropped(One(n.id, r, h, map[], map[]), n) ==
      One(n.id, r, AddListing(h, n.fetchedAt, false), map[], map[])
  {}

  /** Listed at second 0; two failed sweeps; listed again at 99999 in a batch that stops. */
  function StoppedBatch(n: DiscoveredNode, batch: seq<DiscoveredNode>, fault: Fault): seq<Event> {
    ForgottenListing(n)[..3] + [Discover(n.provider, 99999, 99999, batch, fault)]
  }

  lemma TwiceDeadRun(n: DiscoveredNode)
    requires n.id != "" && n.transport.Tcp?
    ensures Reached(ForgottenListing(n)[..3]) == Some(One(n.id, TwiceDead(n), TWICE_DEAD, map[], map[]))
  {
    var run, worlds := ForgottenListing(n), ForgottenWorlds(n);
    forall i: nat | i < 3 ensures GoesThrough(run, worlds, i) {
      ForgottenStep(n, i);
      assert ForgottenLink(n, i);
    }
    ReachedAll(run, worlds, 3);
  }

  lemma StoppedRun(n: DiscoveredNode, batch: seq<DiscoveredNode>, fault: Fault)
    requires n.id != "" && n.transport.Tcp? && Stops(n.(fetchedAt := 99999), batch, fault)
    ensures Reached(StoppedBatch(n, batch, fault)) == Some(One(n.id, TwiceDead(n), FORGOTTEN, map[], map[]))
  {
    TwiceDeadRun(n);
    StoppedListing(n.(fetchedAt := 99999), TwiceDead(n), TWICE_DEAD, batch, fault, 99999);
    ReachedNext(ForgottenListing(n)[..3], Discover(n.provider, 99999, 99999, batch, fault),
                One(n.id, TwiceDead(n), TWICE_DEAD, map[], map[]), One(n.id, TwiceDead(n), FORGOTTEN, map[], map[]));
  }

  /** Nor does it take a blacklist: any TCP node can be deleted two seconds after the provider listed it in a batch
      that stops at or ahead of it. */
  lemma StoppedYetDeleted(n: DiscoveredNode, batch: seq<DiscoveredNode>, fault: Fault)
    requires n.id != "" && n.transport.Tcp? && Stops(n.(fetchedAt := 99999), batch, fault)
    ensures Possible(EMPTY, StoppedBatch(n, batch, fault))
    ensures var w := After(EMPTY, StoppedBatch(n, batch, fault));
      && n.id in w.t.nodes && n.id in w.history && Listing(99999, false) in w.history[n.id].listings
      && n.id !in SweepStep(w, [], [n.id], "", 100001).t.nodes
  {
    StoppedRun(n, batch, fault);
    var w := One(n.id, TwiceDead(n), FORGOTTEN, map[], map[]);
    assert FORGOTTEN.listings[1] == Listing(99999, false);
    FailedDial(n.id, TwiceDead(n), FORGOTTEN, 100001);
    assert Apply(w, RecordSweep([], [n.id], "", 100001)) == Bare(map[]);
  }

  // ---- rows whose own id leads elsewhere ---------------------------------------------------

  /** A probe of a stored row is recorded on that row if and only if its id is not itself an alias. */
  lemma ProbeReachesRow(t: Tables, id: Id)
    requires id in t.nodes
    ensures (forall ok, latency, at ::
               ProbeRecorded(t, id, ok, latency, at).nodes[id] == ProbedRow(t.nodes[id], ok, latency, at))
       <==> ResolveAlias(t, id) == id
  {
    if ResolveAlias(t, id) != id {
      assert ProbeRecorded(t, id, true, 0, 0).nodes[id] == t.nodes[id];
      assert ProbedRow(t.nodes[id], true, 0, 0).successCount == t.nodes[id].successCount + 1;
    }
  }

  function Renamed(n: DiscoveredNode, id: Id, at: Time): DiscoveredNode { n.(id := id, fetchedAt := at) }

  /** Stored under x; listed again under y, which becomes an alias of x; gone from a snapshot and purged; listed
      again under y. */
  function Returning(n: DiscoveredNode, x: Id, y: Id): seq<Event> {
    [Discover(n.provider, 0, 0, [Renamed(n, x, 0)], NoFault), Discover(n.provider, 1, 1, [Renamed(n, y, 1)], NoFault),
     Discover(n.provider, 2, 2, [], NoFault), Purge(3), Discover(n.provider, 4, 4, [Renamed(n, y, 4)], NoFault)]
  }

  lemma RelistedUnderNewId(n: DiscoveredNode, id: Id, r: Row, h: History, now: Time)
    requires r.provider == n.provider && r.identity == Identity(n) && n.id != id
    requires forall l <- h.listings :: l.at <= n.fetchedAt
    ensures Next(One(id, r, h, map[], map[]), Discover(n.provider, now, n.fetchedAt, [n], NoFault)) ==
      Some(One(id, RelistedRow(r, n), AddListing(h, n.fetchedAt, true), map[], map[n.id := id]))
  {
    var w := One(id, r, h, map[], map[]);
    assert ExpiryRestored(w.t, now) == w.t;
    FilteredOne(n, map[], true);
    FilteredOne(n, map[], false);
    assert HasIdentity(w.t, id, n.provider, Identity(n));
    assert Target(w.t, n) == Some(id);
    var u := Listed(w, n);
    assert ListedFrom(w, [n], 0, NoFault) == (u, 1);
    assert [n][1..] == [];
    assert u == One(id, RelistedRow(r, n), AddListing(h, n.fetchedAt, true), map[], map[n.id := id]);
    assert Identities([n])[0] == Identity(n);
    assert SnapshotMarked(u.t, n.provider, Identities([n])).nodes == u.t.nodes;
  }

  lemma EmptySnapshot(id: Id, r: Row, h: History, aliases: map<Id, Id>, now: Time)
    requires forall l <- h.listings :: l.at <= now
    ensures Next(One(id, r, h, map[], aliases), Discover(r.provider, now, now, [], NoFault)) ==
      Some(One(id, r.(present := false), h, map[], aliases))
  {
    var w := One(id, r, h, map[], aliases);
    assert ExpiryRestored(w.t, now) == w.t && Identities([]) == [];
    assert SnapshotMarked(w.t, r.provider, []).nodes == map[id := r.(present := false)];
  }

  lemma PurgedAlone(id: Id, r: Row, h: History, aliases: map<Id, Id>, cutoff: Time)
    requires !r.present && r.lastSeen.Some? && r.lastSeen.value < cutoff
    ensures Next(One(id, r, h, map[], aliases), Purge(cutoff)) == Some(Bare(aliases))
  {
    var w := One(id, r, h, map[], aliases);
    assert Stale(w.t, id, cutoff);
    assert Purged(w.t, cutoff).nodes == map[];
  }

  /** The row and the history after the first two listings. */
  function RelistedOnce(n: DiscoveredNode, x: Id, y: Id): Row {
    RelistedRow(NewRow(Renamed(n, x, 0)), Renamed(n, y, 1))
  }
  function ListedTwice(n: DiscoveredNode, x: Id): History { AddListing(FirstHistory(Renamed(n, x, 0)), 1, true) }

  function ReturningWorlds(n: DiscoveredNode, x: Id, y: Id): seq<World> {
    var r, h, last := RelistedOnce(n, x, y), ListedTwice(n, x), Renamed(n, y, 4);
    [EMPTY, One(x, NewRow(Renamed(n, x, 0)), FirstHistory(Renamed(n, x, 0)), map[], map[]),
     One(x, r, h, map[], map[y := x]), One(x, r.(present := false), h, map[], map[y := x]), Bare(map[y := x]),
     One(y, NewRow(last), FirstHistory(last), map[], map[y := x])]
  }

  ghost predicate ReturningLink(n: DiscoveredNode, x: Id, y: Id, i: nat)
    requires i < 5
  { Next(ReturningWorlds(n, x, y)[i], Returning(n, x, y)[i]) == Some(ReturningWorlds(n, x, y)[i + 1]) }

  lemma ListedAgain(n: DiscoveredNode, x: Id, y: Id)
    requires x != y
    ensures ReturningLink(n, x, y, 1)
  {
    var first := Renamed(n, x, 0);
    RelistedUnderNewId(Renamed(n, y, 1), x, NewRow(first), FirstHistory(first), 1);
  }

  lemma Vanished(n: DiscoveredNode, x: Id, y: Id)
    ensures ReturningLink(n, x, y, 2) && ReturningLink(n, x, y, 3)
  {
    var r, h := RelistedOnce(n, x, y), ListedTwice(n, x);
    EmptySnapshot(x, r, h, map[y := x], 2);
    PurgedAlone(x, r.(present := false), h, map[y := x], 3);
  }

  lemma ReturningStep(n: DiscoveredNode, x: Id, y: Id, i: nat)
    requires x != y && i < 5
    ensures ReturningLink(n, x, y, i)
  {
    match i
    case 0 => FirstListing(Renamed(n, x, 0), 0, map[]);
    case 1 => ListedAgain(n, x, y);
    case 4 => FirstListing(Renamed(n, y, 4), 4, map[y := x]);
    case _ => Vanished(n, x, y);
  }

  lemma ReturningRun(n: DiscoveredNode, x: Id, y: Id)
    requires x != y
    ensures Reached(Returning(n, x, y)) == Some(ReturningWorlds(n, x, y)[5])
  {
    var run, worlds := Returning(n, x, y), ReturningWorlds(n, x, y);
    forall i: nat | i < 5 ensures GoesThrough(run, worlds, i) {
      ReturningStep(n, x, y, i);
      assert ReturningLink(n, x, y, i);
    }
    ReachedAll(run, worlds, 5);
    assert run[..5] == run;
  }

  /** The node is then stored under y, every id of it leads to x, and x is gone: no probe of it is ever recorded,
      and no call finds it. */
  lemma ReturningNodeIsLost(n: DiscoveredNode, x: Id, y: Id)
    requires x != y
    ensures Possible(EMPTY, Returning(n, x, y))
    ensures var t := After(EMPTY, Returning(n, x, y)).t;
      && y in t.nodes && ResolveAlias(t, y) == x && x !in t.nodes
      && forall ok, latency, at :: ProbeRecorded(t, y, ok, latency, at) == t
  {
    ReturningRun(n, x, y);
  }
}
