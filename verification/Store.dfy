/** The node table and its statements (internal/store/repo_ext.go). Each SQL statement is a function on
    the tables; the repository's methods apply them to its state. Instants are integers. */
module Store {
  import opened Text

  type Id = string
  type Time = int

  datatype Status = Discovered | Probing | Ready | Unavailable | Cooldown
  datatype Transport = Tcp | Udp | Unknown

  datatype Row = Row(
    provider: string, identity: string, transport: Transport, remoteHost: string, remotePort: int,
    status: Status, latency: int, lastProbed: Option<Time>, lastSuccess: Option<Time>,
    consecutiveFailures: nat, successCount: nat, failureCount: nat,
    livenessFailures: nat, lastAlive: Option<Time>,
    lastSeen: Option<Time>, present: bool, cooldownUntil: Option<Time>)

  datatype Tables = Tables(
    nodes: map<Id, Row>, blacklist: map<Id, Time>, favorites: set<Id>, fixedNode: Option<Id>, aliases: map<Id, Id>)

  datatype DiscoveredNode = DiscoveredNode(
    id: Id, provider: string, identity: string, ipAddress: string,
    transport: Transport, remoteHost: string, remotePort: int, fetchedAt: Time)

  function Identity(n: DiscoveredNode): string {
    if n.identity == "" then n.provider + ":" + n.ipAddress else n.identity
  }

  function CanonicalId(aliases: map<Id, Id>, id: Id): Id { if id in aliases then aliases[id] else id }
  function ResolveAlias(t: Tables, id: Id): Id { CanonicalId(t.aliases, id) }

  // ---- statements over one row -------------------------------------------------------

  predicate LastProbeSucceeded(r: Row) {
    r.lastProbed.Some? && r.lastSuccess.Some? && r.lastSuccess.value >= r.lastProbed.value
  }

  /** restoreStatusFromProbe. */
  function RestoredStatus(r: Row): Status {
    if r.lastProbed.None? then Discovered else if LastProbeSucceeded(r) then Ready else Unavailable
  }

  function Restored(r: Row): Row { r.(status := RestoredStatus(r), cooldownUntil := None) }

  function ProbedRow(r: Row, ok: bool, latency: int, at: Time): Row {
    if ok then
      r.(status := Ready, latency := latency, lastProbed := Some(at), lastSuccess := Some(at),
         consecutiveFailures := 0, successCount := r.successCount + 1)
    else
      r.(status := Unavailable, latency := latency, lastProbed := Some(at),
         consecutiveFailures := r.consecutiveFailures + 1, failureCount := r.failureCount + 1)
  }

  function FailedActivationRow(r: Row): Row {
    r.(status := Unavailable, consecutiveFailures := r.consecutiveFailures + 1, failureCount := r.failureCount + 1)
  }

  function NewRow(n: DiscoveredNode): Row {
    Row(n.provider, Identity(n), n.transport, n.remoteHost, n.remotePort,
        Discovered, 0, None, None, 0, 0, 0, 0, None, Some(n.fetchedAt), true, None)
  }

  function RelistedRow(r: Row, n: DiscoveredNode): Row {
    r.(transport := n.transport, remoteHost := n.remoteHost, remotePort := n.remotePort,
       lastSeen := Some(n.fetchedAt), present := true)
  }

  // ---- statements over the tables ----------------------------------------------------

  function UpdateOne(t: Tables, id: Id, f: Row -> Row): Tables {
    if id in t.nodes then t.(nodes := t.nodes[id := f(t.nodes[id])]) else t
  }

  function MarkedProbing(t: Tables, id: Id): Tables {
    UpdateOne(t, ResolveAlias(t, id), (r: Row) => r.(status := Probing))
  }

  function ProbeRecorded(t: Tables, id: Id, ok: bool, latency: int, at: Time): Tables {
    UpdateOne(t, ResolveAlias(t, id), (r: Row) => ProbedRow(r, ok, latency, at))
  }

  function ActivationFailureRecorded(t: Tables, id: Id): Tables {
    UpdateOne(t, ResolveAlias(t, id), FailedActivationRow)
  }

  function Blacklisted(t: Tables, id: Id, expires: Time): Tables {
    var canonical := ResolveAlias(t, id);
    UpdateOne(t.(blacklist := t.blacklist[canonical := expires]), canonical,
              (r: Row) => r.(status := Cooldown, cooldownUntil := Some(expires)))
  }

  predicate Expired(t: Tables, id: Id, now: Time) { id in t.blacklist && t.blacklist[id] <= now }

  function ExpiryRestored(t: Tables, now: Time): Tables {
    t.(nodes := map id | id in t.nodes :: if Expired(t, id, now) then Restored(t.nodes[id]) else t.nodes[id],
       blacklist := t.blacklist - (set id | id in t.blacklist && Expired(t, id, now)))
  }

  predicate Protected(t: Tables, id: Id) {
    id in t.favorites || id in t.blacklist || t.fixedNode == Some(id)
  }

  predicate Stale(t: Tables, id: Id, cutoff: Time) {
    && id in t.nodes && !t.nodes[id].present
    && t.nodes[id].lastSeen.Some? && t.nodes[id].lastSeen.value < cutoff
    && !Protected(t, id)
  }

  function Purged(t: Tables, cutoff: Time): Tables {
    t.(nodes := t.nodes - (set id | id in t.nodes && Stale(t, id, cutoff)))
  }

  datatype DeadNodeRule = DeadNodeRule(
    tcpFailures: int, tcpUnseenBefore: Time, otherFailures: int, otherUnseenBefore: Time, keep: Id)

  predicate Dead(t: Tables, rule: DeadNodeRule, id: Id) {
    && id in t.nodes
    && t.nodes[id].lastSeen.Some?
    && (if t.nodes[id].transport.Tcp? then
          t.nodes[id].livenessFailures >= rule.tcpFailures && t.nodes[id].lastSeen.value < rule.tcpUnseenBefore
        else
          t.nodes[id].consecutiveFailures >= rule.otherFailures && t.nodes[id].lastSeen.value < rule.otherUnseenBefore)
    && id != rule.keep
    && !Protected(t, id)
  }

  function DeadDeleted(t: Tables, rule: DeadNodeRule): Tables {
    t.(nodes := t.nodes - (set id | id in t.nodes && Dead(t, rule, id)))
  }

  function SnapshotMarked(t: Tables, provider: string, identities: seq<string>): Tables {
    t.(nodes := map id | id in t.nodes ::
      if t.nodes[id].provider == provider && t.nodes[id].identity !in identities
      then t.nodes[id].(present := false) else t.nodes[id])
  }

  // ---- discovery ---------------------------------------------------------------------

  predicate HasIdentity(t: Tables, id: Id, provider: string, identity: string) {
    id in t.nodes && t.nodes[id].provider == provider && t.nodes[id].identity == identity
  }

  /** UNIQUE (provider, provider_identity). */
  ghost predicate UniqueIdentities(t: Tables) {
    forall a, b :: a in t.nodes && HasIdentity(t, b, t.nodes[a].provider, t.nodes[a].identity) ==> a == b
  }

  ghost function FindIdentity(t: Tables, provider: string, identity: string): (r: Option<Id>)
    ensures r.Some? ==> HasIdentity(t, r.value, provider, identity)
    ensures r.None? ==> forall id :: !HasIdentity(t, id, provider, identity)
  {
    if exists id :: HasIdentity(t, id, provider, identity)
    then var id :| HasIdentity(t, id, provider, identity); Some(id)
    else None
  }

  /** The id a listing lands on, when one exists already. */
  ghost function Target(t: Tables, n: DiscoveredNode): Option<Id> { FindIdentity(t, n.provider, Identity(n)) }

  ghost function WithAlias(t: Tables, n: DiscoveredNode): Tables {
    var id := Target(t, n).GetOr(n.id);
    if id != n.id && n.id !in t.aliases then t.(aliases := t.aliases[n.id := id]) else t
  }

  /** One upsert. None: the generated id belongs to another identity, which the primary key rejects. */
  ghost function Upserted(t: Tables, n: DiscoveredNode): Option<Tables> {
    match Target(t, n)
    case Some(id) => Some(WithAlias(t, n).(nodes := t.nodes[id := RelistedRow(t.nodes[id], n)]))
    case None =>
      if n.id in t.nodes then None else Some(t.(nodes := t.nodes[n.id := NewRow(n)]))
  }

  /** Where the database fails during a discovery: at the blacklist, at the look-up or the insert of one row of the
      batch, or at the snapshot; a cancelled context fails the same way. */
  datatype Fault = NoFault | BlacklistUnread | LookupFails(row: nat) | InsertFails(row: nat) | SnapshotFails

  /** Row k of a batch: the tables after it, and whether it was stored. */
  ghost function UpsertedRow(t: Tables, n: DiscoveredNode, k: nat, fault: Fault): (Tables, bool) {
    if fault == LookupFails(k) then (t, false)
    else if fault == InsertFails(k) then (WithAlias(t, n), false)
    else match Upserted(t, n)
      case None => (t, false)
      case Some(u) => (u, true)
  }

  /** The tables after rows k, k + 1, ..., and the row at which the batch stopped: |ns| if none failed. */
  ghost function UpsertedFrom(t: Tables, ns: seq<DiscoveredNode>, k: nat, fault: Fault): (r: (Tables, nat))
    requires k <= |ns|
    ensures k <= r.1 <= |ns|
    decreases |ns| - k
  {
    if k == |ns| then (t, k)
    else
      var (u, stored) := UpsertedRow(t, ns[k], k, fault);
      if stored then UpsertedFrom(u, ns, k + 1, fault) else (u, k)
  }

  lemma UpsertKeepsUnique(t: Tables, n: DiscoveredNode)
    requires UniqueIdentities(t) && Upserted(t, n).Some?
    ensures UniqueIdentities(Upserted(t, n).value)
  {
    var t' := Upserted(t, n).value;
    assert Target(t, n).None? ==> forall id :: !HasIdentity(t, id, n.provider, Identity(n));
    forall a, b | a in t'.nodes && b in t'.nodes
      ensures HasIdentity(t', b, t'.nodes[a].provider, t'.nodes[a].identity) ==> a == b
    {
      if a in t.nodes && b in t.nodes {
        assert HasIdentity(t', b, t'.nodes[a].provider, t'.nodes[a].identity)
          ==> HasIdentity(t, b, t.nodes[a].provider, t.nodes[a].identity);
      } else {
        assert a in t.nodes ==> !HasIdentity(t, a, n.provider, Identity(n));
        assert b in t.nodes ==> !HasIdentity(t, b, n.provider, Identity(n));
      }
    }
  }

  /** An upsert leaves exactly one row for the listing's identity: the stored one with its own id, state and counters,
      or a fresh one under the generated id. It holds what was listed, and no other row changes. */
  lemma UpsertStores(t: Tables, n: DiscoveredNode) returns (id: Id)
    requires Upserted(t, n).Some?
    ensures var u := Upserted(t, n).value;
      && id in u.nodes && u.nodes[id].provider == n.provider
      && u.nodes[id].identity == (if n.identity != "" then n.identity else n.provider + ":" + n.ipAddress)
      && u.nodes[id].transport == n.transport && u.nodes[id].remoteHost == n.remoteHost
      && u.nodes[id].remotePort == n.remotePort && u.nodes[id].lastSeen == Some(n.fetchedAt) && u.nodes[id].present
      && (forall other :: other != id ==>
            (other in u.nodes <==> other in t.nodes) && (other in t.nodes ==> u.nodes[other] == t.nodes[other]))
      && (id in t.nodes ==>
            && HasIdentity(t, id, n.provider, Identity(n))
            && u.nodes[id].status == t.nodes[id].status && u.nodes[id].lastProbed == t.nodes[id].lastProbed
            && u.nodes[id].consecutiveFailures == t.nodes[id].consecutiveFailures
            && u.nodes[id].livenessFailures == t.nodes[id].livenessFailures
            && (n.id != id && n.id !in t.aliases ==> ResolveAlias(u, n.id) == id))
      && (id !in t.nodes ==>
            && id == n.id && u.nodes[id].status == Discovered && u.nodes[id].lastProbed == None
            && u.nodes[id].consecutiveFailures == 0 && u.nodes[id].livenessFailures == 0)
  {
    id := Target(t, n).GetOr(n.id);
  }

  lemma AliasKeepsUnique(t: Tables, n: DiscoveredNode)
    requires UniqueIdentities(t)
    ensures UniqueIdentities(WithAlias(t, n))
  {
    var u := WithAlias(t, n);
    forall a, b | a in u.nodes && HasIdentity(u, b, u.nodes[a].provider, u.nodes[a].identity) ensures a == b {
      assert HasIdentity(t, b, t.nodes[a].provider, t.nodes[a].identity);
    }
  }

  // ---- the repository ----------------------------------------------------------------

  class NodeRepository {
    var t: Tables

    constructor ()
      ensures UniqueIdentities(t) && t == Tables(map[], map[], {}, None, map[])
    { t := Tables(map[], map[], {}, None, map[]); }

    /** Upserts in order, keeping stored ids and adding aliases; stops at the first row that is rejected or that the
        database fails on. */
    method UpsertDiscovered(ns: seq<DiscoveredNode>, fault: Fault) returns (stored: bool)
      requires UniqueIdentities(t)
      modifies this
      ensures UniqueIdentities(t) && t == UpsertedFrom(old(t), ns, 0, fault).0
      ensures stored <==> UpsertedFrom(old(t), ns, 0, fault).1 == |ns|
    {
      for i := 0 to |ns|
        invariant UniqueIdentities(t)
        invariant UpsertedFrom(old(t), ns, 0, fault) == UpsertedFrom(t, ns, i, fault)
      {
        var n := ns[i];
        ghost var was := t;
        if Upserted(t, n).Some? { UpsertKeepsUnique(t, n); }
        if fault == LookupFails(i) { return false; }
        if existing :| existing in t.nodes && HasIdentity(t, existing, n.provider, Identity(n)) {
          assert Target(t, n) == Some(existing) by {
            assert HasIdentity(t, Target(t, n).value, t.nodes[existing].provider, t.nodes[existing].identity);
          }
          if existing != n.id && n.id !in t.aliases {
            t := t.(aliases := t.aliases[n.id := existing]);
          }
          assert t == WithAlias(was, n);
          AliasKeepsUnique(was, n);
          if fault == InsertFails(i) { return false; }
          t := t.(nodes := t.nodes[existing := RelistedRow(t.nodes[existing], n)]);
        } else {
          assert Target(t, n) == None;
          if fault == InsertFails(i) || n.id in t.nodes { return false; }
          t := t.(nodes := t.nodes[n.id := NewRow(n)]);
        }
      }
      return true;
    }

    method Blacklist(id: Id, now: Time, backoff: Time)
      modifies this
      ensures t == Blacklisted(old(t), id, now + backoff)
    {
      var canonical, expires := ResolveAlias(t, id), now + backoff;
      t := t.(blacklist := t.blacklist[canonical := expires]);
      if canonical in t.nodes {
        t := t.(nodes := t.nodes[canonical := t.nodes[canonical].(status := Cooldown, cooldownUntil := Some(expires))]);
      }
    }

    /** Restores and clears expired entries; returns the ids still blacklisted. */
    method ActiveBlacklistIDs(now: Time) returns (active: set<Id>)
      modifies this
      ensures t == ExpiryRestored(old(t), now)
      ensures active == t.blacklist.Keys && forall id <- active :: t.blacklist[id] > now
    {
      var expired := set id | id in t.blacklist && t.blacklist[id] <= now;
      ghost var was := t;
      assert forall id :: id in expired <==> Expired(was, id, now);
      if expired != {} {
        t := t.(nodes := map id | id in t.nodes :: if id in expired then Restored(t.nodes[id]) else t.nodes[id]);
        t := t.(blacklist := t.blacklist - expired);
      }
      assert t.nodes == ExpiryRestored(was, now).nodes;
      assert t.blacklist == ExpiryRestored(was, now).blacklist;
      active := set id | id in t.blacklist && t.blacklist[id] > now;
      assert active == t.blacklist.Keys;
    }

    method DeleteDeadNodes(rule: DeadNodeRule) returns (count: nat)
      modifies this
      ensures t == DeadDeleted(old(t), rule)
      ensures count == |old(t).nodes| - |t.nodes|
    {
      var dead := set id | id in t.nodes && Dead(t, rule, id);
      ghost var was := t;
      t := t.(nodes := t.nodes - dead);
      assert t.nodes == DeadDeleted(was, rule).nodes;
      count := |dead|;
      assert t.nodes.Keys == was.nodes.Keys - dead;
      assert |was.nodes.Keys| == |was.nodes| && |t.nodes.Keys| == |t.nodes|;
    }
  }
}
