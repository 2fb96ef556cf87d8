/** Reachability sweeps (internal/services/liveness.go) and the batched statements that
    record them (internal/store/repo_ext.go). */
module Liveness {
  import opened Text
  import opened Store

  const CHUNK: nat := 400

  datatype Statement =
    | MarkAlive(now: Time)   // liveness_failures = 0, last_alive_at = now
    | Promote                // unavailable -> ready where the last handshake succeeded
    | CountFailure           // liveness_failures + 1
    | Demote(keep: Id)       // ready -> unavailable, except the node in use

  function RowUpdate(st: Statement, id: Id, r: Row): Row {
    match st
    case MarkAlive(now) => r.(livenessFailures := 0, lastAlive := Some(now))
    case Promote => if r.status.Unavailable? && LastProbeSucceeded(r) then r.(status := Ready) else r
    case CountFailure => r.(livenessFailures := r.livenessFailures + 1)
    case Demote(keep) => if r.status.Ready? && id != keep then r.(status := Unavailable) else r
  }

  /** One UPDATE ... WHERE id IN (ids). */
  function Exec(nodes: map<Id, Row>, st: Statement, ids: seq<Id>): (r: map<Id, Row>)
    ensures r.Keys == nodes.Keys
  {
    map id | id in nodes :: if id in ids then RowUpdate(st, id, nodes[id]) else nodes[id]
  }

  function FirstChunk(ids: seq<Id>): nat { if |ids| < CHUNK then |ids| else CHUNK }

  /** The statement run batch by batch. */
  function InBatches(nodes: map<Id, Row>, st: Statement, ids: seq<Id>): (r: map<Id, Row>)
    ensures r.Keys == nodes.Keys
    decreases |ids|
  {
    if ids == [] then nodes
    else InBatches(Exec(nodes, st, ids[..FirstChunk(ids)]), st, ids[FirstChunk(ids)..])
  }

  /** One round trip to the database, under its bound-parameter ceiling. */
  method ExecStatement(nodes: map<Id, Row>, st: Statement, batch: seq<Id>) returns (r: map<Id, Row>)
    requires |batch| <= 400
    ensures r == Exec(nodes, st, batch)
  {
    r := map id | id in nodes :: if id in batch then RowUpdate(st, id, nodes[id]) else nodes[id];
  }

  method ExecInChunks(nodes: map<Id, Row>, st: Statement, ids: seq<Id>) returns (r: map<Id, Row>)
    ensures r == InBatches(nodes, st, ids)
  {
    r := nodes;
    var start := 0;
    while start < |ids|
      invariant 0 <= start
      invariant InBatches(nodes, st, ids) == if start <= |ids| then InBatches(r, st, ids[start..]) else r
    {
      var end := start + CHUNK;
      if end > |ids| { end := |ids|; }
      assert ids[start..][..FirstChunk(ids[start..])] == ids[start..end];
      assert ids[start..][FirstChunk(ids[start..])..] == ids[end..];
      r := ExecStatement(r, st, ids[start..end]);
      start := start + CHUNK;
    }
  }

  // ---- batching has the effect of one statement --------------------------------------

  /** In how many batches an id occurs. */
  function Hits(ids: seq<Id>, id: Id): nat
    decreases |ids|
  {
    if ids == [] then 0
    else (if id in ids[..FirstChunk(ids)] then 1 else 0) + Hits(ids[FirstChunk(ids)..], id)
  }

  function Repeated(st: Statement, id: Id, r: Row, times: nat): Row
    decreases times
  {
    if times == 0 then r else Repeated(st, id, RowUpdate(st, id, r), times - 1)
  }

  lemma {:induction false} BatchedRow(nodes: map<Id, Row>, st: Statement, ids: seq<Id>, id: Id)
    requires id in nodes
    ensures InBatches(nodes, st, ids)[id] == Repeated(st, id, nodes[id], Hits(ids, id))
    decreases |ids|
  {
    if ids != [] {
      var k := FirstChunk(ids);
      BatchedRow(Exec(nodes, st, ids[..k]), st, ids[k..], id);
    }
  }

  lemma {:induction false} RepeatedRow(st: Statement, id: Id, r: Row, times: nat)
    requires times > 0
    ensures Repeated(st, id, r, times) ==
      if st.CountFailure? then r.(livenessFailures := r.livenessFailures + times) else RowUpdate(st, id, r)
    decreases times
  {
    if times > 1 { RepeatedRow(st, id, RowUpdate(st, id, r), times - 1); }
  }

  lemma {:induction false} HitsPositive(ids: seq<Id>, id: Id)
    ensures Hits(ids, id) > 0 <==> id in ids
    decreases |ids|
  {
    if ids != [] {
      var k := FirstChunk(ids);
      HitsPositive(ids[k..], id);
      assert ids == ids[..k] + ids[k..];
    }
  }

  predicate Distinct(ids: seq<Id>) { forall i, j :: 0 <= i < j < |ids| ==> ids[i] != ids[j] }

  lemma {:induction false} DistinctHitOnce(ids: seq<Id>, id: Id)
    requires Distinct(ids)
    ensures Hits(ids, id) == if id in ids then 1 else 0
    decreases |ids|
  {
    if ids != [] {
      var k := FirstChunk(ids);
      DistinctHitOnce(ids[k..], id);
      assert ids == ids[..k] + ids[k..];
      assert forall i, j :: 0 <= i < k <= j < |ids| ==> ids[i] != ids[j];
    }
  }

  /** Batches do what one whole-set statement does - always, for the statements that set a value; for the
      counter, exactly when no stored id falls into two batches. */
  lemma BatchesEqualOneStatement(nodes: map<Id, Row>, st: Statement, ids: seq<Id>)
    ensures !st.CountFailure? ==> InBatches(nodes, st, ids) == Exec(nodes, st, ids)
    ensures st.CountFailure? ==>
      (InBatches(nodes, st, ids) == Exec(nodes, st, ids) <==> forall id <- nodes :: Hits(ids, id) <= 1)
  {
    forall id | id in nodes
      ensures InBatches(nodes, st, ids)[id] == Exec(nodes, st, ids)[id] <==> (!st.CountFailure? || Hits(ids, id) <= 1)
    {
      BatchedRow(nodes, st, ids, id);
      HitsPositive(ids, id);
      if id in ids { RepeatedRow(st, id, nodes[id], Hits(ids, id)); }
    }
    if st.CountFailure? && InBatches(nodes, st, ids) == Exec(nodes, st, ids) {
      assert forall id <- nodes :: InBatches(nodes, st, ids)[id] == Exec(nodes, st, ids)[id];
    }
  }

  // ---- RecordLiveness ----------------------------------------------------------------

  /** The four statements of the transaction, each over its whole id list. */
  function RecordedAtOnce(nodes: map<Id, Row>, alive: seq<Id>, dead: seq<Id>, keep: Id, now: Time): map<Id, Row> {
    Exec(Exec(Exec(Exec(nodes, MarkAlive(now), alive), Promote, alive), CountFailure, dead), Demote(keep), dead)
  }

  function RecordedInBatches(nodes: map<Id, Row>, alive: seq<Id>, dead: seq<Id>, keep: Id, now: Time): map<Id, Row> {
    InBatches(InBatches(InBatches(InBatches(nodes, MarkAlive(now), alive), Promote, alive), CountFailure, dead),
        Demote(keep), dead)
  }

  method RecordLiveness(nodes: map<Id, Row>, alive: seq<Id>, dead: seq<Id>, keep: Id, now: Time)
    returns (r: map<Id, Row>)
    ensures r == RecordedInBatches(nodes, alive, dead, keep, now)
  {
    if |alive| == 0 && |dead| == 0 { return nodes; }
    r := ExecInChunks(nodes, MarkAlive(now), alive);
    r := ExecInChunks(r, Promote, alive);
    r := ExecInChunks(r, CountFailure, dead);
    r := ExecInChunks(r, Demote(keep), dead);
  }

  /** The whole transaction is one set update exactly when each failed node is counted once - so for
      lists without repetitions, of any length. */
  lemma RecordLivenessIsOneUpdate(nodes: map<Id, Row>, alive: seq<Id>, dead: seq<Id>, keep: Id, now: Time)
    ensures RecordedInBatches(nodes, alive, dead, keep, now) == RecordedAtOnce(nodes, alive, dead, keep, now)
       <==> forall id <- nodes :: Hits(dead, id) <= 1
    ensures Distinct(dead) ==>
      RecordedInBatches(nodes, alive, dead, keep, now) == RecordedAtOnce(nodes, alive, dead, keep, now)
  {
    BatchesEqualOneStatement(nodes, MarkAlive(now), alive);
    var n1 := Exec(nodes, MarkAlive(now), alive);
    BatchesEqualOneStatement(n1, Promote, alive);
    var n2 := Exec(n1, Promote, alive);
    BatchesEqualOneStatement(n2, CountFailure, dead);
    BatchesEqualOneStatement(InBatches(n2, CountFailure, dead), Demote(keep), dead);
    forall id | id in nodes && Hits(dead, id) > 1
      ensures RecordedInBatches(nodes, alive, dead, keep, now)[id] != RecordedAtOnce(nodes, alive, dead, keep, now)[id]
    {
      BatchedRow(n2, CountFailure, dead, id);
      HitsPositive(dead, id);
      RepeatedRow(CountFailure, id, n2[id], Hits(dead, id));
    }
    if Distinct(dead) {
      forall id | id in nodes ensures Hits(dead, id) <= 1 { DistinctHitOnce(dead, id); }
    }
  }

  // ---- dialling ----------------------------------------------------------------------

  datatype LivenessTarget = LivenessTarget(id: Id, host: string, port: int)

  predicate IsTarget(r: Row) { r.transport.Tcp? && r.remoteHost != "" && r.remotePort > 0 }

  /** Only TCP rows with an endpoint are dialled, so no other is ever counted as unreachable. */
  lemma TargetMeans(r: Row)
    ensures IsTarget(r) <==> r.transport == Tcp && r.remoteHost != "" && r.remotePort > 0
  {}

  /** Every dialable TCP row once, in any order: the query result, shuffled and completed in any order. */
  ghost predicate TargetList(nodes: map<Id, Row>, order: seq<LivenessTarget>) {
    && (forall i, j :: 0 <= i < j < |order| ==> order[i].id != order[j].id)
    && (forall i :: 0 <= i < |order| ==> order[i].id in nodes && IsTarget(nodes[order[i].id]))
    && (forall id :: id in nodes && IsTarget(nodes[id]) ==> exists i :: 0 <= i < |order| && order[i].id == id)
  }

  /** dialAll: completions append to the two lists one at a time. `answers` is what each dial reported. */
  method DialAll(order: seq<LivenessTarget>, answers: Id -> bool) returns (alive: seq<Id>, dead: seq<Id>)
    ensures forall id :: id in alive <==> answers(id) && exists i :: 0 <= i < |order| && order[i].id == id
    ensures forall id :: id in dead <==> !answers(id) && exists i :: 0 <= i < |order| && order[i].id == id
    ensures |alive| + |dead| == |order|
    ensures (forall i, j :: 0 <= i < j < |order| ==> order[i].id != order[j].id) ==> Distinct(alive) && Distinct(dead)
  {
    alive, dead := [], [];
    for k := 0 to |order|
      invariant forall id :: id in alive <==> answers(id) && exists i :: 0 <= i < k && order[i].id == id
      invariant forall id :: id in dead <==> !answers(id) && exists i :: 0 <= i < k && order[i].id == id
      invariant |alive| + |dead| == k
      invariant (forall i, j :: 0 <= i < j < |order| ==> order[i].id != order[j].id) ==>
        Distinct(alive) && Distinct(dead)
    {
      var id := order[k].id;
      if answers(id) { alive := alive + [id]; } else { dead := dead + [id]; }
    }
  }

  // ---- the sweep ---------------------------------------------------------------------

  const DELETE_AFTER_FAILURES := 3
  const DELETE_AFTER_UNSEEN: Time := 24 * 3600
  const OTHER_DELETE_AFTER_FAILURES := 5
  const OTHER_DELETE_AFTER_UNSEEN: Time := 72 * 3600

  function Rule(keep: Id, now: Time): DeadNodeRule {
    DeadNodeRule(DELETE_AFTER_FAILURES, now - DELETE_AFTER_UNSEEN, OTHER_DELETE_AFTER_FAILURES,
        now - OTHER_DELETE_AFTER_UNSEEN, keep)
  }

  /** What a completed sweep does to the tables. */
  function Swept(t: Tables, alive: seq<Id>, dead: seq<Id>, keep: Id, now: Time): Tables {
    DeadDeleted(t.(nodes := RecordedAtOnce(t.nodes, alive, dead, keep, now)), Rule(keep, now))
  }

  /** Sweep. The targets were listed minutes before the results are recorded: `listed` is the table then, and the
      repository holds whatever it has become. A cancelled sweep records nothing. */
  method Sweep(repo: NodeRepository, listed: map<Id, Row>, order: seq<LivenessTarget>, answers: Id -> bool,
        cancelled: bool, active: Option<Id>, now: Time)
    returns (alive: seq<Id>, dead: seq<Id>)
    requires TargetList(listed, order)
    modifies repo
    ensures cancelled ==> repo.t == old(repo.t)
    ensures !cancelled ==> repo.t == Swept(old(repo.t), alive, dead, active.GetOr(""), now)
    ensures !cancelled ==> forall id :: id in alive <==> id in listed && IsTarget(listed[id]) && answers(id)
    ensures !cancelled ==> forall id :: id in dead <==> id in listed && IsTarget(listed[id]) && !answers(id)
  {
    alive, dead := DialAll(order, answers);
    if cancelled { return; }
    var rule := Rule(active.GetOr(""), now);
    RecordLivenessIsOneUpdate(repo.t.nodes, alive, dead, rule.keep, now);
    var recorded := RecordLiveness(repo.t.nodes, alive, dead, rule.keep, now);
    repo.t := repo.t.(nodes := recorded);
    var _ := repo.DeleteDeadNodes(rule);
  }
}
