/** What a discovery stores (internal/services/discovery.go, internal/store/repo_ext.go). */
module Discovery {
  import opened Text
  import opened Store
  import opened Lifecycle
  import opened StatusLog

  /** A row for the listing's identity says it was seen then, and is present. */
  ghost predicate Shown(t: Tables, n: DiscoveredNode) {
    exists id :: HasIdentity(t, id, n.provider, Identity(n))
      && t.nodes[id].lastSeen == Some(n.fetchedAt) && t.nodes[id].present
  }

  lemma UpsertShows(t: Tables, n: DiscoveredNode, m: DiscoveredNode)
    requires Upserted(t, n).Some? && n.fetchedAt == m.fetchedAt
    ensures Shown(Upserted(t, n).value, n) && (Shown(t, m) ==> Shown(Upserted(t, n).value, m))
  {
    var u := Upserted(t, n).value;
    var c := UpsertStores(t, n);
    assert HasIdentity(u, c, n.provider, Identity(n));
    if Shown(t, m) {
      var id :| HasIdentity(t, id, m.provider, Identity(m))
        && t.nodes[id].lastSeen == Some(m.fetchedAt) && t.nodes[id].present;
      assert HasIdentity(u, id, m.provider, Identity(m));
    }
  }

  /** What was shown stays so in a batch that goes in. */
  lemma {:induction false} BatchKeepsShown(t: Tables, ns: seq<DiscoveredNode>, k: nat, fault: Fault, m: DiscoveredNode)
    requires k <= |ns| && forall n <- ns :: n.fetchedAt == m.fetchedAt
    requires Shown(t, m) && UpsertedFrom(t, ns, k, fault).1 == |ns|
    ensures Shown(UpsertedFrom(t, ns, k, fault).0, m)
    decreases |ns| - k
  {
    if k < |ns| {
      UpsertShows(t, ns[k], m);
      BatchKeepsShown(UpsertedRow(t, ns[k], k, fault).0, ns, k + 1, fault, m);
    }
  }

  /** Row i of such a batch is shown. */
  lemma {:induction false} BatchShows(t: Tables, ns: seq<DiscoveredNode>, k: nat, fault: Fault, i: nat)
    requires k <= i < |ns| && forall n <- ns :: n.fetchedAt == ns[i].fetchedAt
    requires UpsertedFrom(t, ns, k, fault).1 == |ns|
    ensures Shown(UpsertedFrom(t, ns, k, fault).0, ns[i])
    decreases |ns| - k
  {
    var u := UpsertedRow(t, ns[k], k, fault).0;
    if i == k {
      UpsertShows(t, ns[k], ns[k]);
      BatchKeepsShown(u, ns, k + 1, fault, ns[k]);
    } else {
      BatchShows(u, ns, k + 1, fault, i);
    }
  }

  /** None of the listings has the row's identity. */
  ghost predicate Unlisted(r: Row, ns: seq<DiscoveredNode>) {
    forall n <- ns :: n.provider != r.provider || Identity(n) != r.identity
  }

  lemma {:induction false} BatchLeaves(t: Tables, ns: seq<DiscoveredNode>, k: nat, fault: Fault, id: Id)
    requires k <= |ns| && id in t.nodes && Unlisted(t.nodes[id], ns)
    ensures var u := UpsertedFrom(t, ns, k, fault).0; id in u.nodes && u.nodes[id] == t.nodes[id]
    decreases |ns| - k
  {
    if k < |ns| {
      var (v, stored) := UpsertedRow(t, ns[k], k, fault);
      if stored {
        var c := UpsertStores(t, ns[k]);
        BatchLeaves(v, ns, k + 1, fault, id);
      }
    }
  }

  lemma {:induction false} BatchAdds(t: Tables, ns: seq<DiscoveredNode>, k: nat, fault: Fault, id: Id)
    requires k <= |ns| && id !in t.nodes && id in UpsertedFrom(t, ns, k, fault).0.nodes
    ensures exists n <- ns :: n.id == id
    decreases |ns| - k
  {
    if k < |ns| {
      var (v, stored) := UpsertedRow(t, ns[k], k, fault);
      if stored {
        var c := UpsertStores(t, ns[k]);
        if id in v.nodes { assert ns[k].id == id; } else { BatchAdds(v, ns, k + 1, fault, id); }
      }
    }
  }

  /** The whole batch goes in. */
  ghost predicate Completes(w: World, e: Event)
    requires e.Discover?
  {
    var t := ExpiryRestored(w.t, e.now);
    var kept := Filtered(e.nodes, t.blacklist, false);
    e.fault == NoFault && UpsertedFrom(t, kept, 0, NoFault).1 == |kept|
  }

  lemma CompletedTables(w: World, e: Event)
    requires e.Discover? && Completes(w, e)
    ensures DiscoverStep(w, e).t == SnapshotMarked(Batched(w, e), e.provider, Identities(e.nodes))
  {
    var w1 := w.(t := ExpiryRestored(w.t, e.now));
    BatchTables(w1, e.nodes, e.fault);
    BatchIsStored(w1, e.nodes, e.fault);
  }

  lemma BatchIsStored(w: World, ns: seq<DiscoveredNode>, fault: Fault)
    ensures var kept := Filtered(ns, w.t.blacklist, false);
      BatchStep(w, ns, fault).1 <==> UpsertedFrom(w.t, kept, 0, fault).1 == |kept|
  {
    var dropped, kept := Filtered(ns, w.t.blacklist, true), Filtered(ns, w.t.blacklist, false);
    DroppedTables(w, dropped);
    ListingsAreUpserts(DroppedAll(w, dropped), kept, 0, fault);
  }

  /** A listing whose generated id is not on the blacklist, or no longer, is stored and its row is present. */
  lemma ListingIsStored(w: World, e: Event, n: DiscoveredNode)
    requires e.Discover? && Completes(w, e) && (forall m <- e.nodes :: m.fetchedAt == e.fetched)
    requires n in e.nodes && (n.id in w.t.blacklist ==> w.t.blacklist[n.id] <= e.now)
    ensures Shown(DiscoverStep(w, e).t, n)
  {
    var t := ExpiryRestored(w.t, e.now);
    var kept := Filtered(e.nodes, t.blacklist, false);
    assert n in kept;
    var i :| 0 <= i < |kept| && kept[i] == n;
    BatchShows(t, kept, 0, e.fault, i);
    CompletedTables(w, e);
    var id :| HasIdentity(Batched(w, e), id, n.provider, Identity(n))
      && Batched(w, e).nodes[id].lastSeen == Some(n.fetchedAt) && Batched(w, e).nodes[id].present;
    var j :| 0 <= j < |e.nodes| && e.nodes[j] == n;
    assert Identities(e.nodes)[j] == Identity(n);
    assert HasIdentity(DiscoverStep(w, e).t, id, n.provider, Identity(n));
  }

  /** A row is added only for a listing under its own id that was not on the blacklist. */
  lemma OnlyListingsAreAdded(w: World, e: Event, id: Id)
    requires e.Discover? && Completes(w, e) && id !in w.t.nodes && id in DiscoverStep(w, e).t.nodes
    ensures exists n <- e.nodes :: n.id == id
    ensures id in w.t.blacklist ==> w.t.blacklist[id] <= e.now
  {
    var t := ExpiryRestored(w.t, e.now);
    CompletedTables(w, e);
    BatchAdds(t, Filtered(e.nodes, t.blacklist, false), 0, e.fault, id);
  }

  /** A row whose identity the provider did not list keeps the time it was last seen; it is absent from then on, unless
      it is another provider's. */
  lemma UnlistedIsAbsent(w: World, e: Event, id: Id)
    requires e.Discover? && Completes(w, e) && id in w.t.nodes && Unlisted(w.t.nodes[id], e.nodes)
    requires forall n <- e.nodes :: n.provider == e.provider
    ensures var u := DiscoverStep(w, e).t;
      && id in u.nodes && u.nodes[id].lastSeen == w.t.nodes[id].lastSeen
      && u.nodes[id].present == (w.t.nodes[id].present && w.t.nodes[id].provider != e.provider)
  {
    var t := ExpiryRestored(w.t, e.now);
    CompletedTables(w, e);
    BatchLeaves(t, Filtered(e.nodes, t.blacklist, false), 0, e.fault, id);
    ListedIdentity(e.nodes, w.t.nodes[id].identity);
  }

  lemma ListedIdentity(ns: seq<DiscoveredNode>, identity: string)
    ensures identity in Identities(ns) ==> exists n <- ns :: Identity(n) == identity
  {
    if identity in Identities(ns) {
      var j :| 0 <= j < |ns| && Identities(ns)[j] == identity;
      assert ns[j] in ns;
    }
  }
}
