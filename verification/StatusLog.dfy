/** A node's status, times and counters, computed from the log of what happened to it since its row was created. */
module StatusLog {
  import opened Text
  import opened Store
  import opened Liveness
  import opened Lifecycle

  /** What bears on a row's state: a probe starts, a probe's outcome, a failed activation, a dial that was answered, one
      that was not (of the node in use or not), a cooldown, the end of a cooldown. */
  datatype Mark =
    | Started
    | Tested(at: Time, ok: bool, latency: int)
    | TurnedDown
    | Answered(at: Time)
    | Silent(inUse: bool)
    | Paused(until: Time)
    | Resumed

  // ---- reading the log ---------------------------------------------------------------

  function LastTest(ms: seq<Mark>): (r: Option<Mark>)
    ensures r.Some? ==> r.value.Tested?
  {
    if ms == [] then None
    else if ms[|ms| - 1].Tested? then Some(ms[|ms| - 1])
    else LastTest(ms[..|ms| - 1])
  }

  function LastPass(ms: seq<Mark>): Option<Time> {
    if ms == [] then None
    else if ms[|ms| - 1].Tested? && ms[|ms| - 1].ok then Some(ms[|ms| - 1].at)
    else LastPass(ms[..|ms| - 1])
  }

  function LastAnswer(ms: seq<Mark>): Option<Time> {
    if ms == [] then None
    else if ms[|ms| - 1].Answered? then Some(ms[|ms| - 1].at)
    else LastAnswer(ms[..|ms| - 1])
  }

  function PausedUntil(ms: seq<Mark>): Option<Time> {
    if ms == [] || ms[|ms| - 1].Resumed? then None
    else if ms[|ms| - 1].Paused? then Some(ms[|ms| - 1].until)
    else PausedUntil(ms[..|ms| - 1])
  }

  function Passes(ms: seq<Mark>): nat {
    if ms == [] then 0
    else Passes(ms[..|ms| - 1]) + if ms[|ms| - 1].Tested? && ms[|ms| - 1].ok then 1 else 0
  }

  function Failures(ms: seq<Mark>): nat {
    if ms == [] then 0
    else Failures(ms[..|ms| - 1]) + match ms[|ms| - 1] {
      case Tested(_, ok, _) => if ok then 0 else 1
      case TurnedDown => 1
      case _ => 0
    }
  }

  /** The verdict of the last probe. */
  function Verdict(ms: seq<Mark>): Status {
    var last := LastTest(ms);
    if last.None? then Discovered else if last.value.ok then Ready else Unavailable
  }

  function StatusOf(ms: seq<Mark>): Status {
    if ms == [] then Discovered else
      var before := ms[..|ms| - 1];
      match ms[|ms| - 1]
      case Started => Probing
      case Tested(_, ok, _) => if ok then Ready else Unavailable
      case TurnedDown => Unavailable
      case Answered(_) =>
        if StatusOf(before) == Unavailable && Verdict(before) == Ready then Ready else StatusOf(before)
      case Silent(inUse) => if StatusOf(before) == Ready && !inUse then Unavailable else StatusOf(before)
      case Paused(_) => Cooldown
      case Resumed => Verdict(before)
  }

  /** The row holds what the log says. */
  ghost predicate Told(r: Row, ms: seq<Mark>) {
    var last := LastTest(ms);
    && r.status == StatusOf(ms)
    && r.lastProbed == (if last.Some? then Some(last.value.at) else None)
    && r.latency == (if last.Some? then last.value.latency else 0)
    && r.lastSuccess == LastPass(ms) && r.lastAlive == LastAnswer(ms) && r.cooldownUntil == PausedUntil(ms)
    && r.successCount == Passes(ms) && r.failureCount == Failures(ms)
    && (LastPass(ms).Some? ==> last.Some? && LastPass(ms).value <= last.value.at)
    && (LastProbeSucceeded(r) <==> last.Some? && last.value.ok)
  }

  // ---- one row at a time ---------------------------------------------------------------

  lemma OneMark(ms: seq<Mark>, m: Mark)
    ensures (ms + [m])[|ms + [m]| - 1] == m && (ms + [m])[..|ms + [m]| - 1] == ms
  {}

  lemma StartTold(r: Row, ms: seq<Mark>)
    requires Told(r, ms)
    ensures Told(r.(status := Probing), ms + [Started])
  {
    OneMark(ms, Started);
  }

  lemma TestTold(r: Row, ms: seq<Mark>, ok: bool, latency: int, at: Time)
    requires Told(r, ms) && (r.lastProbed.Some? ==> r.lastProbed.value < at)
    ensures Told(ProbedRow(r, ok, latency, at), ms + [Tested(at, ok, latency)])
  {
    OneMark(ms, Tested(at, ok, latency));
  }

  lemma RefusalTold(r: Row, ms: seq<Mark>)
    requires Told(r, ms)
    ensures Told(FailedActivationRow(r), ms + [TurnedDown])
  {
    OneMark(ms, TurnedDown);
  }

  lemma PauseTold(r: Row, ms: seq<Mark>, expires: Time)
    requires Told(r, ms)
    ensures Told(r.(status := Cooldown, cooldownUntil := Some(expires)), ms + [Paused(expires)])
  {
    OneMark(ms, Paused(expires));
  }

  lemma ResumeTold(r: Row, ms: seq<Mark>)
    requires Told(r, ms)
    ensures Told(Restored(r), ms + [Resumed])
  {
    OneMark(ms, Resumed);
  }

  lemma AnswerTold(r: Row, ms: seq<Mark>, id: Id, now: Time)
    requires Told(r, ms)
    ensures Told(RowUpdate(Promote, id, RowUpdate(MarkAlive(now), id, r)), ms + [Answered(now)])
  {
    OneMark(ms, Answered(now));
  }

  lemma SilenceTold(r: Row, ms: seq<Mark>, id: Id, keep: Id)
    requires Told(r, ms)
    ensures Told(RowUpdate(Demote(keep), id, RowUpdate(CountFailure, id, r)), ms + [Silent(id == keep)])
  {
    OneMark(ms, Silent(id == keep));
  }

  /** The rows differ at most in what a listing writes. */
  predicate SameState(r: Row, u: Row) {
    u == r.(transport := u.transport, remoteHost := u.remoteHost, remotePort := u.remotePort,
            lastSeen := u.lastSeen, present := u.present)
  }

  lemma SameTold(r: Row, u: Row, ms: seq<Mark>)
    requires Told(r, ms) && SameState(r, u)
    ensures Told(u, ms)
  {}

  // ---- the log of a run -------------------------------------------------------------------

  /** What an event in world w writes into the log of the row id. */
  ghost function MarksBy(w: World, e: Event, id: Id): seq<Mark> {
    match e
    case Discover(_, now, _, _, fault) => if !fault.BlacklistUnread? && Expired(w.t, id, now) then [Resumed] else []
    case StartProbe(p) => if ResolveAlias(w.t, p) == id then [Started] else []
    case FinishProbe(p, ok, latency, at) => if ResolveAlias(w.t, p) == id then [Tested(at, ok, latency)] else []
    case FailActivation(p) => if ResolveAlias(w.t, p) == id then [TurnedDown] else []
    case Cool(p, expires) => if ResolveAlias(w.t, p) == id then [Paused(expires)] else []
    case Expire(now) => if Expired(w.t, id, now) then [Resumed] else []
    case Purge(_) => []
    case RecordSweep(alive, dead, keep, now) =>
      (if id in alive then [Answered(now)] else []) + (if id in dead then [Silent(id == keep)] else [])
    case Choose(_, _) => []
  }

  /** The log since the row was created. */
  ghost function Log(run: seq<Event>, id: Id): seq<Mark>
    decreases |run|
  {
    if run == [] then [] else
      var before, e := After(EMPTY, run[..|run| - 1]), run[|run| - 1];
      if id in before.t.nodes then Log(run[..|run| - 1], id) + MarksBy(before, e, id) else []
  }

  lemma ExpiredTold(t: Tables, now: Time, id: Id, ms: seq<Mark>)
    requires id in t.nodes && Told(t.nodes[id], ms)
    ensures var u := ExpiryRestored(t, now);
      id in u.nodes && Told(u.nodes[id], ms + if Expired(t, id, now) then [Resumed] else [])
  {
    if Expired(t, id, now) { ResumeTold(t.nodes[id], ms); } else { assert ms + [] == ms; }
  }

  /** What a listing leaves of a row: its state, or a fresh one. */
  ghost predicate Listing(t: Tables, u: Tables, id: Id) {
    id in u.nodes && if id in t.nodes then SameState(t.nodes[id], u.nodes[id]) else Told(u.nodes[id], [])
  }

  lemma RowListed(t: Tables, n: DiscoveredNode, k: nat, fault: Fault, id: Id)
    requires id in UpsertedRow(t, n, k, fault).0.nodes
    ensures Listing(t, UpsertedRow(t, n, k, fault).0, id)
  {}

  lemma {:induction false} BatchListed(t: Tables, ns: seq<DiscoveredNode>, k: nat, fault: Fault, id: Id)
    requires k <= |ns| && id in UpsertedFrom(t, ns, k, fault).0.nodes
    ensures Listing(t, UpsertedFrom(t, ns, k, fault).0, id)
    decreases |ns| - k
  {
    if k < |ns| {
      var (u, stored) := UpsertedRow(t, ns[k], k, fault);
      if stored {
        BatchListed(u, ns, k + 1, fault, id);
        var v := UpsertedFrom(u, ns, k + 1, fault).0;
        if id in t.nodes { RowsStay(t, ns[k], k, fault, id); }
        if id in u.nodes {
          RowListed(t, ns[k], k, fault, id);
          if id !in t.nodes { SameTold(u.nodes[id], v.nodes[id], []); }
        }
      } else {
        RowListed(t, ns[k], k, fault, id);
      }
    }
  }

  lemma RowsStay(t: Tables, n: DiscoveredNode, k: nat, fault: Fault, id: Id)
    requires id in t.nodes
    ensures id in UpsertedRow(t, n, k, fault).0.nodes
  {}

  lemma BatchTables(w: World, ns: seq<DiscoveredNode>, fault: Fault)
    ensures BatchStep(w, ns, fault).0.t == UpsertedFrom(w.t, Filtered(ns, w.t.blacklist, false), 0, fault).0
  {
    var dropped, kept := Filtered(ns, w.t.blacklist, true), Filtered(ns, w.t.blacklist, false);
    DroppedTables(w, dropped);
    ListingsAreUpserts(DroppedAll(w, dropped), kept, 0, fault);
    var (u, stop) := ListedFrom(DroppedAll(w, dropped), kept, 0, fault);
    DroppedTables(u, kept[stop..]);
  }

  lemma SnapshotSame(t: Tables, provider: string, identities: seq<string>, id: Id)
    requires id in SnapshotMarked(t, provider, identities).nodes
    ensures id in t.nodes && SameState(t.nodes[id], SnapshotMarked(t, provider, identities).nodes[id])
  {}

  /** The tables after the batch of a discovery whose blacklist could be read. */
  ghost function Batched(w: World, e: Event): Tables
    requires e.Discover?
  {
    var t := ExpiryRestored(w.t, e.now);
    UpsertedFrom(t, Filtered(e.nodes, t.blacklist, false), 0, e.fault).0
  }

  lemma DiscoveredRow(w: World, e: Event, id: Id)
    requires e.Discover? && !e.fault.BlacklistUnread? && id in DiscoverStep(w, e).t.nodes
    ensures id in Batched(w, e).nodes && SameState(Batched(w, e).nodes[id], DiscoverStep(w, e).t.nodes[id])
  {
    var w1 := w.(t := ExpiryRestored(w.t, e.now));
    BatchTables(w1, e.nodes, e.fault);
    var (u, stored) := BatchStep(w1, e.nodes, e.fault);
    if stored && !e.fault.SnapshotFails? { SnapshotSame(u.t, e.provider, Identities(e.nodes), id); }
  }

  lemma {:induction false} DroppedTables(w: World, ns: seq<DiscoveredNode>)
    ensures DroppedAll(w, ns).t == w.t
  {
    if ns != [] { DroppedTables(w, ns[..|ns| - 1]); }
  }

  lemma DiscoverTold(w: World, e: Event, id: Id, ms: seq<Mark>)
    requires e.Discover? && id in DiscoverStep(w, e).t.nodes
    requires id in w.t.nodes ==> Told(w.t.nodes[id], ms)
    ensures Told(DiscoverStep(w, e).t.nodes[id], if id in w.t.nodes then ms + MarksBy(w, e, id) else [])
  {
    if e.fault.BlacklistUnread? {
      DroppedTables(w, e.nodes);
      assert ms + [] == ms;
    } else {
      var t := ExpiryRestored(w.t, e.now);
      var u := Batched(w, e);
      DiscoveredRow(w, e, id);
      BatchListed(t, Filtered(e.nodes, t.blacklist, false), 0, e.fault, id);
      if id in w.t.nodes {
        ExpiredTold(w.t, e.now, id, ms);
        SameTold(t.nodes[id], u.nodes[id], ms + MarksBy(w, e, id));
      }
      SameTold(u.nodes[id], DiscoverStep(w, e).t.nodes[id], if id in w.t.nodes then ms + MarksBy(w, e, id) else []);
    }
  }

  lemma SweepTold(w: World, alive: seq<Id>, dead: seq<Id>, keep: Id, now: Time, id: Id, ms: seq<Mark>)
    requires id in w.t.nodes && Told(w.t.nodes[id], ms)
    ensures Told(SweptRow(w.t.nodes[id], id, alive, dead, keep, now),
                 ms + ((if id in alive then [Answered(now)] else [])
                       + (if id in dead then [Silent(id == keep)] else [])))
  {
    var r := w.t.nodes[id];
    var answered := ms + if id in alive then [Answered(now)] else [];
    if id in alive { AnswerTold(r, ms, id, now); } else { assert answered == ms; }
    var r1 := if id in alive then RowUpdate(Promote, id, RowUpdate(MarkAlive(now), id, r)) else r;
    if id in dead { SilenceTold(r1, answered, id, keep); } else { assert answered + [] == answered; }
    assert ms + ((if id in alive then [Answered(now)] else []) + (if id in dead then [Silent(id == keep)] else [])) ==
      answered + if id in dead then [Silent(id == keep)] else [];
  }

  /** The events about one node. */
  lemma NodeEventTold(w: World, e: Event, id: Id, ms: seq<Mark>)
    requires e.StartProbe? || e.FinishProbe? || e.FailActivation? || e.Cool?
    requires Admissible(w, e) && id in w.t.nodes && Told(w.t.nodes[id], ms)
    ensures id in Apply(w, e).t.nodes && Told(Apply(w, e).t.nodes[id], ms + MarksBy(w, e, id))
  {
    var r := w.t.nodes[id];
    if ResolveAlias(w.t, e.id) != id {
      assert ms + [] == ms;
    } else {
      match e
      case StartProbe(_) => StartTold(r, ms);
      case FinishProbe(_, ok, latency, at) => TestTold(r, ms, ok, latency, at);
      case FailActivation(_) => RefusalTold(r, ms);
      case Cool(_, expires) => PauseTold(r, ms, expires);
    }
  }

  lemma SweepEventTold(w: World, e: Event, id: Id, ms: seq<Mark>)
    requires e.RecordSweep? && id in Apply(w, e).t.nodes && id in w.t.nodes && Told(w.t.nodes[id], ms)
    ensures Told(Apply(w, e).t.nodes[id], ms + MarksBy(w, e, id))
  {
    SweepTold(w, e.alive, e.dead, e.keep, e.now, id, ms);
  }

  lemma StepTold(w: World, e: Event, id: Id, ms: seq<Mark>)
    requires Admissible(w, e) && id in Apply(w, e).t.nodes
    requires id in w.t.nodes ==> Told(w.t.nodes[id], ms)
    ensures Told(Apply(w, e).t.nodes[id], if id in w.t.nodes then ms + MarksBy(w, e, id) else [])
  {
    match e
    case Discover(_, _, _, _, _) => DiscoverTold(w, e, id, ms);
    case Expire(now) => ExpiredTold(w.t, now, id, ms);
    case RecordSweep(_, _, _, _) => SweepEventTold(w, e, id, ms);
    case Purge(_) => assert ms + [] == ms;
    case Choose(_, _) => assert ms + [] == ms;
    case _ => NodeEventTold(w, e, id, ms);
  }

  /** In every reachable state every row's status, probe and dial times, latency, cooldown and both totals are what its
      log says. */
  lemma {:induction false} TableIsTold(run: seq<Event>, id: Id)
    requires Possible(EMPTY, run) && id in After(EMPTY, run).t.nodes
    ensures Told(After(EMPTY, run).t.nodes[id], Log(run, id))
    decreases |run|
  {
    if run != [] {
      var front, last := run[..|run| - 1], run[|run| - 1];
      assert run == front + [last];
      ComposeLast(EMPTY, front, last);
      var w := After(EMPTY, front);
      if id in w.t.nodes { TableIsTold(front, id); }
      StepTold(w, last, id, Log(front, id));
    }
  }

  // ---- what that means event by event ----------------------------------------------------------

  /** A row that was there, and still is after one more event, has the log with that event's marks. */
  lemma LogGrows(run: seq<Event>, e: Event, id: Id)
    requires id in After(EMPTY, run).t.nodes
    ensures Log(run + [e], id) == Log(run, id) + MarksBy(After(EMPTY, run), e, id)
  {
    assert (run + [e])[..|run|] == run;
  }

  lemma StatusNow(run: seq<Event>, e: Event, id: Id)
    requires Possible(EMPTY, run + [e]) && id in After(EMPTY, run).t.nodes && id in After(EMPTY, run + [e]).t.nodes
    ensures After(EMPTY, run + [e]).t.nodes[id].status ==
      StatusOf(Log(run, id) + MarksBy(After(EMPTY, run), e, id))
  {
    TableIsTold(run + [e], id);
    LogGrows(run, e, id);
  }

  /** A probe that reaches the row decides it: ready if it succeeded, and unavailable otherwise. */
  lemma ProbeDecides(run: seq<Event>, p: Id, ok: bool, latency: int, at: Time, id: Id)
    requires Possible(EMPTY, run + [FinishProbe(p, ok, latency, at)])
    requires ResolveAlias(After(EMPTY, run).t, p) == id && id in After(EMPTY, run).t.nodes
    ensures var n := After(EMPTY, run + [FinishProbe(p, ok, latency, at)]).t;
      && id in n.nodes && (n.nodes[id].status == Ready <==> ok) && (n.nodes[id].status == Unavailable <==> !ok)
      && n.nodes[id].latency == latency && n.nodes[id].lastProbed == Some(at)
  {
    var e := FinishProbe(p, ok, latency, at);
    ComposeLast(EMPTY, run, e);
    TableIsTold(run + [e], id);
    LogGrows(run, e, id);
    OneMark(Log(run, id), Tested(at, ok, latency));
  }

  /** When a cooldown ends the row goes back to what its last probe said: discovered without one, ready after a success,
      unavailable after a failure, whatever happened in between. */
  lemma CooldownEnds(run: seq<Event>, now: Time, id: Id)
    requires Possible(EMPTY, run + [Expire(now)])
    requires var t := After(EMPTY, run).t; id in t.nodes && id in t.blacklist && t.blacklist[id] <= now
    ensures var n := After(EMPTY, run + [Expire(now)]).t; var h := After(EMPTY, run).history;
      && id in n.nodes && id !in n.blacklist && id in h
      && var last := LastProbe(h[id].handshakes);
        && (n.nodes[id].status == Discovered <==> last.None?)
        && (n.nodes[id].status == Ready <==> last.Some? && last.value.ok)
        && (n.nodes[id].status == Unavailable <==> last.Some? && !last.value.ok)
  {
    ComposeLast(EMPTY, run, Expire(now));
    Reachable(run);
    assert RowIsFaithful(After(EMPTY, run), id);
    TableIsTold(run, id);
    StatusNow(run, Expire(now), id);
    OneMark(Log(run, id), Resumed);
  }

  /** What the other events make of a status: a probe that starts, a failed activation and a cooldown set it; a sweep
      makes a ready node that does not answer unavailable, unless it is in use; every other event leaves it. */
  ghost predicate Decided(t: Tables, e: Event, id: Id, was: Status, now: Status) {
    match e
    case StartProbe(p) => now == if ResolveAlias(t, p) == id then Probing else was
    case FailActivation(p) => now == if ResolveAlias(t, p) == id then Unavailable else was
    case Cool(p, _) => now == if ResolveAlias(t, p) == id then Cooldown else was
    case FinishProbe(p, _, _, _) => ResolveAlias(t, p) == id || now == was
    case RecordSweep(alive, dead, keep, _) =>
      id in alive || now == if id in dead && was == Ready && id != keep then Unavailable else was
    case Discover(_, time, _, _, _) => (id in t.blacklist && t.blacklist[id] <= time) || now == was
    case Expire(time) => (id in t.blacklist && t.blacklist[id] <= time) || now == was
    case _ => now == was
  }

  lemma OthersDecide(run: seq<Event>, e: Event, id: Id)
    requires Possible(EMPTY, run + [e]) && id in After(EMPTY, run).t.nodes && id in After(EMPTY, run + [e]).t.nodes
    ensures Decided(After(EMPTY, run).t, e, id, After(EMPTY, run).t.nodes[id].status,
                    After(EMPTY, run + [e]).t.nodes[id].status)
  {
    var log, marks := Log(run, id), MarksBy(After(EMPTY, run), e, id);
    ComposeLast(EMPTY, run, e);
    TableIsTold(run, id);
    StatusNow(run, e, id);
    assert log + [] == log;
    if |marks| == 1 { OneMark(log, marks[0]); assert marks == [marks[0]]; }
  }
}
