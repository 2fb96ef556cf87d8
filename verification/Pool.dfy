/** The multi-port pool (internal/pool/pool.go): one SOCKS5 port, one device and one routing table per slot.
    Each pass over the slots is one atomic step, the way reconcile runs them one after the other. Whether a
    start succeeds, and when a tunnel dies, is decided outside. */
module Pool {
  import opened Text
  import opened Naming
  import opened Rotation

  datatype Slot = Slot(
    index: nat, port: int, device: string, nodeId: string, table: int, running: bool, forwardOK: bool)

  type Slots = seq<Option<Slot>>

  /** One call of startNode. */
  datatype Attempt = Attempt(port: int, nodeId: string, started: bool)

  predicate Live(s: Option<Slot>) { s.Some? && s.value.running }

  /** Number of running slots. */
  function LiveCount(slots: Slots): (n: nat)
    ensures n <= |slots|
  {
    if slots == [] then 0
    else LiveCount(slots[..|slots| - 1]) + (if Live(slots[|slots| - 1]) then 1 else 0)
  }

  lemma {:induction false} LiveUpdate(slots: Slots, i: nat, s: Option<Slot>)
    requires i < |slots|
    ensures LiveCount(slots[i := s]) + (if Live(slots[i]) then 1 else 0) ==
      LiveCount(slots) + (if Live(s) then 1 else 0)
  {
    var n := |slots| - 1;
    if i == n {
      assert slots[i := s][..n] == slots[..n];
    } else {
      assert slots[i := s][..n] == slots[..n][i := s];
      LiveUpdate(slots[..n], i, s);
    }
  }

  lemma LiveAppend(slots: Slots, s: Option<Slot>)
    ensures LiveCount(slots + [s]) == LiveCount(slots) + (if Live(s) then 1 else 0)
  {
    assert (slots + [s])[..|slots|] == slots;
  }

  lemma {:induction false} NoneLive(slots: Slots)
    requires forall i :: 0 <= i < |slots| ==> slots[i].None?
    ensures LiveCount(slots) == 0
  {
    if slots != [] { NoneLive(slots[..|slots| - 1]); }
  }

  /** Running, and the device it bound still exists: what the session selector asks. */
  predicate Up(slots: Slots, host: set<string>, i: int) {
    0 <= i < |slots| && Live(slots[i]) && slots[i].value.device in host
  }

  /** What repair asks: up, and the forwarding probe has not refuted it. */
  predicate Healthy(slots: Slots, host: set<string>, i: int) { Up(slots, host, i) && slots[i].value.forwardOK }

  /** Every one of these candidates was started on the port, in vain, since position `from` of the log. */
  ghost predicate Refused(log: seq<Attempt>, from: nat, port: int, candidates: seq<string>) {
    forall c <- candidates :: RefusedBy(log, from, port, c)
  }

  ghost predicate RefusedBy(log: seq<Attempt>, from: nat, port: int, nodeId: string) {
    exists k :: from <= k < |log| && log[k] == Attempt(port, nodeId, false)
  }

  /** On some port at or above `port`, all of these candidates were refused. */
  ghost predicate RefusedAbove(log: seq<Attempt>, from: nat, port: int, candidates: seq<string>) {
    exists p :: p >= port && Refused(log, from, p, candidates)
  }

  lemma RefusalStands(log: seq<Attempt>, longer: seq<Attempt>, from: nat, earlier: nat, port: int, nodeId: string)
    requires log <= longer && earlier <= from && RefusedBy(log, from, port, nodeId)
    ensures RefusedBy(longer, earlier, port, nodeId)
  {
    var k :| from <= k < |log| && log[k] == Attempt(port, nodeId, false);
    assert longer[k] == log[k];
  }

  lemma RefusalsStand(log: seq<Attempt>, longer: seq<Attempt>, from: nat, earlier: nat, port: int,
        candidates: seq<string>)
    requires log <= longer && earlier <= from && Refused(log, from, port, candidates)
    ensures Refused(longer, earlier, port, candidates)
  {
    forall c | c in candidates ensures RefusedBy(longer, earlier, port, c) {
      RefusalStands(log, longer, from, earlier, port, c);
    }
  }

  /** The starts that succeeded since position `from` of the log. */
  ghost function Started(log: seq<Attempt>, from: nat): set<Attempt> {
    set k | from <= k < |log| && log[k].started :: log[k]
  }

  /** One of them was on the port of position i. */
  ghost predicate Begun(starts: set<Attempt>, startPort: int, i: int) {
    exists a <- starts :: a.port == startPort + i
  }

  ghost predicate AllFrom(starts: set<Attempt>, candidates: seq<string>) {
    forall a <- starts :: a.nodeId in candidates
  }

  lemma StartedHolds(log: seq<Attempt>, from: nat, k: nat)
    requires from <= k < |log|
    ensures log[k].started <==> log[k] in Started(log, from)
  {}

  lemma StartedSplit(log: seq<Attempt>, longer: seq<Attempt>, from: nat)
    requires log <= longer && from <= |log|
    ensures Started(longer, from) == Started(log, from) + Started(longer, |log|)
  {
    forall a | a in Started(log, from) ensures a in Started(longer, from) {
      var k :| from <= k < |log| && log[k].started && log[k] == a;
      assert longer[k] == log[k];
    }
    forall a | a in Started(longer, from) ensures a in Started(log, from) + Started(longer, |log|) {
      var k :| from <= k < |longer| && longer[k].started && longer[k] == a;
      if k < |log| { assert log[k] == longer[k]; }
    }
  }

  // ---- probe verdicts ------------------------------------------------------------------

  /** One probe tick over the probed slots, in index order: a success sets the flag, a failure clears it only
      when a success came before it in the same tick. */
  function Tick(good: seq<bool>, ok: seq<bool>): (r: seq<bool>)
    requires |good| == |ok|
    ensures |r| == |good|
  {
    seq(|good|, i requires 0 <= i < |good| => ok[i] || (good[i] && !EarlierSuccess(ok, i)))
  }

  /** A slot that forwards is in; one that does not is out once another was seen to forward, and otherwise keeps the
      verdict it had. */
  lemma TickMeans(good: seq<bool>, ok: seq<bool>, i: nat)
    requires |good| == |ok| && i < |ok|
    ensures ok[i] ==> Tick(good, ok)[i]
    ensures !ok[i] && (exists j :: 0 <= j < i && ok[j]) ==> !Tick(good, ok)[i]
    ensures !ok[i] && (forall j :: 0 <= j < i ==> !ok[j]) ==> Tick(good, ok)[i] == good[i]
  {}

  predicate EarlierSuccess(ok: seq<bool>, i: nat)
    requires i <= |ok|
  { exists j :: 0 <= j < i && ok[j] }

  function Ticks(good: seq<bool>, ticks: seq<seq<bool>>): seq<bool>
    requires forall t <- ticks :: |t| == |good|
    decreases ticks
  {
    if ticks == [] then good else Ticks(Tick(good, ticks[0]), ticks[1..])
  }

  /** A forwarding pool never loses its last forwarding slot to probe ticks alone. */
  lemma {:induction false} TicksNeverEmptyPool(good: seq<bool>, ticks: seq<seq<bool>>)
    requires forall t <- ticks :: |t| == |good|
    requires true in good
    ensures true in Ticks(good, ticks)
    decreases ticks
  {
    if ticks != [] {
      var next := Tick(good, ticks[0]);
      var i :| 0 <= i < |good| && good[i];
      if EarlierSuccess(ticks[0], i) {
        var j :| 0 <= j < i && ticks[0][j];
        assert next[j];
      } else {
        assert next[i];
      }
      TicksNeverEmptyPool(next, ticks[1..]);
    }
  }

  lemma {:induction false} OutageChangesNothing(good: seq<bool>, ticks: seq<seq<bool>>)
    requires forall t <- ticks :: |t| == |good| && true !in t
    ensures Ticks(good, ticks) == good
    decreases ticks
  {
    if ticks != [] {
      assert Tick(good, ticks[0]) == good;
      OutageChangesNothing(good, ticks[1..]);
    }
  }

  // ---- the verdicts depend on the order of the slots -----------------------------------------

  predicate IsOrder(order: seq<nat>, n: nat) {
    && |order| == n && (forall k :: 0 <= k < n ==> order[k] < n)
    && (forall k, l :: 0 <= k < l < n ==> order[k] != order[l])
    && forall i: nat :: i < n ==> Occurs(order, i)
  }

  predicate Occurs(order: seq<nat>, i: nat) { exists k :: 0 <= k < |order| && order[k] == i }

  /** A success was seen before slot i, with the results read in this order. */
  predicate SuccessBefore(ok: seq<bool>, order: seq<nat>, i: nat)
    requires IsOrder(order, |ok|)
  { exists k, l :: 0 <= k < l < |order| && order[l] == i && ok[order[k]] }

  /** The same tick with the results read in another order. */
  function TickInOrder(good: seq<bool>, ok: seq<bool>, order: seq<nat>): (r: seq<bool>)
    requires |good| == |ok| && IsOrder(order, |ok|)
    ensures |r| == |good|
  {
    seq(|good|, i requires 0 <= i < |good| => ok[i] || (good[i] && !SuccessBefore(ok, order, i)))
  }

  /** One slot first, the others after it by index; slot 0 first is the order of the code. */
  function FirstInOrder(n: nat, first: nat): seq<nat> {
    seq(n, (k: nat) => if k == 0 then first else if k <= first then k - 1 else k)
  }

  lemma FirstInOrderIsOrder(n: nat, first: nat)
    requires first < n
    ensures IsOrder(FirstInOrder(n, first), n)
  {
    var order := FirstInOrder(n, first);
    forall i: nat | i < n ensures Occurs(order, i) {
      assert order[if i == first then 0 else if i < first then i + 1 else i] == i;
    }
  }

  lemma IndexOrderIsTick(good: seq<bool>, ok: seq<bool>)
    requires |good| == |ok| > 0
    ensures IsOrder(FirstInOrder(|ok|, 0), |ok|) && TickInOrder(good, ok, FirstInOrder(|ok|, 0)) == Tick(good, ok)
  {
    var order := FirstInOrder(|ok|, 0);
    FirstInOrderIsOrder(|ok|, 0);
    forall i: nat | i < |ok| ensures SuccessBefore(ok, order, i) <==> EarlierSuccess(ok, i) {
      if EarlierSuccess(ok, i) { var j :| 0 <= j < i && ok[j]; assert order[j] == j && order[i] == i; }
    }
  }

  /** Reading the results in another order never changes a flag if and only if no slot forwarded, or every slot
      that was good did. */
  lemma VerdictsDependOnOrder(good: seq<bool>, ok: seq<bool>)
    requires |good| == |ok|
    ensures (forall order :: IsOrder(order, |ok|) ==> TickInOrder(good, ok, order) == Tick(good, ok))
       <==> (true !in ok || forall i :: 0 <= i < |ok| ==> good[i] ==> ok[i])
  {
    if true in ok && exists i :: 0 <= i < |ok| && good[i] && !ok[i] {
      var i :| 0 <= i < |ok| && good[i] && !ok[i];
      var j :| 0 <= j < |ok| && ok[j];
      SomeOrderDiffers(good, ok, i, j);
    } else {
      forall order | IsOrder(order, |ok|) ensures TickInOrder(good, ok, order) == Tick(good, ok) {
        forall i | 0 <= i < |ok| ensures TickInOrder(good, ok, order)[i] == Tick(good, ok)[i] {
          if true !in ok { assert !SuccessBefore(ok, order, i) && !EarlierSuccess(ok, i); }
        }
      }
    }
  }

  /** A good slot that failed while another forwarded: first in the order it is kept, after the other it is not. */
  lemma SomeOrderDiffers(good: seq<bool>, ok: seq<bool>, i: nat, j: nat)
    requires |good| == |ok| && i < |ok| && j < |ok| && good[i] && !ok[i] && ok[j]
    ensures exists order :: IsOrder(order, |ok|) && TickInOrder(good, ok, order) != Tick(good, ok)
  {
    if EarlierSuccess(ok, i) {
      var order := FirstInOrder(|ok|, i);
      FirstInOrderIsOrder(|ok|, i);
      assert !SuccessBefore(ok, order, i);
      assert TickInOrder(good, ok, order)[i] && !Tick(good, ok)[i];
    } else {
      var order := FirstInOrder(|ok|, j);
      FirstInOrderIsOrder(|ok|, j);
      assert Occurs(order, i);
      var l :| 0 <= l < |order| && order[l] == i;
      assert ok[order[0]] && SuccessBefore(ok, order, i);
      assert !TickInOrder(good, ok, order)[i] && Tick(good, ok)[i];
    }
  }

  /** In the order the code reads them, the first probed slot is never downgraded, however many ticks find it
      black-holed. */
  lemma {:induction false} FirstSlotNeverDowngraded(good: seq<bool>, ticks: seq<seq<bool>>)
    requires good != [] && good[0] && forall t <- ticks :: |t| == |good|
    ensures Ticks(good, ticks) != [] && Ticks(good, ticks)[0]
    decreases ticks
  {
    if ticks != [] { FirstSlotNeverDowngraded(Tick(good, ticks[0]), ticks[1..]); }
  }

  predicate Present(slots: Slots, items: seq<nat>) {
    forall k :: 0 <= k < |items| ==> items[k] < |slots| && slots[items[k]].Some?
  }

  /** The forwarding flags of some slots. */
  function Flags(slots: Slots, items: seq<nat>): seq<bool>
    requires Present(slots, items)
  { seq(|items|, k requires 0 <= k < |items| => slots[items[k]].value.forwardOK) }

  function Outcomes(answers: nat -> bool, items: seq<nat>): seq<bool> {
    seq(|items|, k requires 0 <= k < |items| => answers(items[k]))
  }

  // ---- the manager ---------------------------------------------------------------------

  class Manager {
    const startPort: int
    const maxPorts: nat
    const deviceBase: nat
    const prefix: string
    const device: int -> string  // the device of each position; see Named

    var slots: Slots
    var hostDevices: set<string>  // interfaces present on the host
    var rotateSessions: map<string, nat>
    var rotateRR: nat
    var attempts: seq<Attempt>
    const comesUp: (nat, int, string) -> bool  // decided outside: the outcome of each call of startNode

    constructor (startPort: int, maxPorts: nat, deviceBase: nat, prefix: string, hostDevices: set<string>,
          comesUp: (nat, int, string) -> bool)
      ensures slots == [] && attempts == [] && Aligned() && rotateSessions == map[]
      ensures this.startPort == startPort && this.maxPorts == maxPorts && this.comesUp == comesUp
    {
      this.startPort, this.maxPorts, this.deviceBase, this.prefix := startPort, maxPorts, deviceBase, prefix;
      this.comesUp := comesUp;
      device := (i: int) => DeviceName(prefix, deviceBase + i);
      slots, this.hostDevices, attempts := [], hostDevices, [];
      rotateSessions, rotateRR := map[], 0;
    }

    function Device(i: int): string { device(i) }

    /** Position i owns device prefix+(base+i). */
    ghost predicate Named() { forall i {:trigger NameAt(i)} :: device(i) == NameAt(i) }

    function NameAt(i: int): string { DeviceName(prefix, deviceBase + i) }

    /** Slot i sits on port start+i, device prefix+(base+i) and table 9528+i. */
    ghost predicate AlignedAt(s: Slot, i: int) {
      s.index == i && s.port == startPort + i && s.device == Device(i) && s.table == POOL_ROUTING_TABLE_BASE + i
    }

    /** The log tells what was decided outside. */
    ghost predicate Logged()
      reads this`attempts
    { forall k {:trigger Told(attempts[k], k)} :: 0 <= k < |attempts| ==> Told(attempts[k], k) }

    predicate Told(a: Attempt, k: nat) { a.started == comesUp(k, a.port, a.nodeId) }

    ghost predicate Aligned()
      reads this
    { Named() && Logged() && forall i :: 0 <= i < |slots| && slots[i].Some? ==> AlignedAt(slots[i].value, i) }

    /** Slot i's device is the name of its position. */
    lemma SlotDevice(i: nat)
      requires Aligned() && i < |slots| && slots[i].Some?
      ensures slots[i].value.device == DeviceName(prefix, deviceBase + i)
    {
      assert device(i) == NameAt(i);
    }

    /** No two slots share a port, a device or a routing table. */
    lemma IdentitiesDistinct(i: nat, j: nat)
      requires Aligned() && i < |slots| && j < |slots| && slots[i].Some? && slots[j].Some? && i != j
      ensures slots[i].value.port != slots[j].value.port
      ensures slots[i].value.device != slots[j].value.device
      ensures slots[i].value.table != slots[j].value.table
    {
      DevicesDistinct(i);
    }

    lemma DevicesDistinct(i: int)
      requires Named()
      ensures forall j :: j != i ==> Device(j) != Device(i)
    {
      forall j | j != i ensures Device(j) != Device(i) {
        assert device(i) == NameAt(i) && device(j) == NameAt(j);
        DeviceNameInjective(prefix, deviceBase + i, deviceBase + j);
      }
    }

    // ---- counting and searching the slots --------------------------------------------

    method CountLive() returns (n: nat)
      ensures n == LiveCount(slots)
    {
      n := 0;
      for i := 0 to |slots|
        invariant n == LiveCount(slots[..i])
      {
        assert slots[..i + 1][..i] == slots[..i];
        if slots[i].Some? && slots[i].value.running { n := n + 1; }
      }
      assert slots[..|slots|] == slots;
    }

    method FindHole() returns (hole: int)
      ensures -1 <= hole < |slots|
      ensures hole >= 0 ==> slots[hole].None?
      ensures forall i :: 0 <= i < (if hole >= 0 then hole else |slots|) ==> slots[i].Some?
    {
      for i := 0 to |slots|
        invariant forall j :: 0 <= j < i ==> slots[j].Some?
      {
        if slots[i].None? { return i; }
      }
      return -1;
    }

    method LastLiveIndex() returns (last: int)
      ensures -1 <= last < |slots|
      ensures last >= 0 ==> slots[last].Some?
      ensures forall i :: last < i < |slots| ==> slots[i].None?
    {
      last := |slots| - 1;
      while last >= 0
        invariant -1 <= last < |slots|
        invariant forall i :: last < i < |slots| ==> slots[i].None?
      {
        if slots[last].Some? { return; }
        last := last - 1;
      }
    }

    method TrimTrailingNils()
      modifies this`slots
      ensures slots <= old(slots)
      ensures slots != [] ==> slots[|slots| - 1].Some?
      ensures forall i :: |slots| <= i < |old(slots)| ==> old(slots)[i].None?
      ensures LiveCount(slots) == LiveCount(old(slots))
    {
      while |slots| > 0 && slots[|slots| - 1].None?
        invariant slots <= old(slots)
        invariant forall i :: |slots| <= i < |old(slots)| ==> old(slots)[i].None?
        invariant LiveCount(slots) == LiveCount(old(slots))
        decreases |slots|
      {
        slots := slots[..|slots| - 1];
      }
    }

    // ---- starting and stopping one slot ----------------------------------------------

    /** startNode: the operating system and the remote node decide whether the tunnel comes up. */
    method StartNode(port: int, nodeId: string) returns (s: Option<Slot>)
      requires Named() && Logged()
      modifies this`hostDevices, this`attempts
      ensures Logged() && attempts == old(attempts) + [Attempt(port, nodeId, s.Some?)]
      ensures s.Some? == comesUp(|old(attempts)|, port, nodeId)
      ensures s.Some? && port >= startPort ==> s.value.table == 9528 + (port - startPort)
      ensures Started(attempts, |old(attempts)|) == if s.Some? then {Attempt(port, nodeId, true)} else {}
      ensures s.None? ==> RefusedBy(attempts, |old(attempts)|, port, nodeId)
      ensures s.None? ==> hostDevices == old(hostDevices)
      ensures var offset := if port < startPort then 0 else port - startPort;
        s.Some? ==>
          && s.value == Slot(offset, port, Device(offset), nodeId, POOL_ROUTING_TABLE_BASE + offset, true, true)
          && hostDevices == old(hostDevices) + {Device(offset)}
    {
      var offset := port - startPort;
      if offset < 0 { offset := 0; }
      assert device(offset) == NameAt(offset);
      var name := DeviceName(prefix, deviceBase + offset);
      var up := comesUp(|attempts|, port, nodeId);
      attempts := attempts + [Attempt(port, nodeId, up)];
      assert attempts[|old(attempts)|] == Attempt(port, nodeId, up);
      if !up { return None; }
      hostDevices := hostDevices + {name};
      return Some(Slot(offset, port, name, nodeId, POOL_ROUTING_TABLE_BASE + offset, true, true));
    }

    method UsedNodeIDs() returns (used: set<string>)
      ensures used == set i | 0 <= i < |slots| && Live(slots[i]) :: slots[i].value.nodeId
    {
      used := {};
      for i := 0 to |slots|
        invariant used == set j | 0 <= j < i && Live(slots[j]) :: slots[j].value.nodeId
      {
        if slots[i].Some? && slots[i].value.running { used := used + {slots[i].value.nodeId}; }
      }
    }

    /** Tries the candidates no running slot uses, in order, then every candidate again. */
    method TryFillPort(port: int, candidates: seq<string>) returns (s: Option<Slot>)
      requires Named() && Logged() && port >= startPort
      modifies this`hostDevices, this`attempts
      ensures Logged() && old(attempts) <= attempts
      ensures Started(attempts, |old(attempts)|) == if s.Some? then {Attempt(port, s.value.nodeId, true)} else {}
      ensures s.None? ==> hostDevices == old(hostDevices) && Refused(attempts, |old(attempts)|, port, candidates)
      ensures s.Some? ==>
        && hostDevices == old(hostDevices) + {s.value.device}
        && AlignedAt(s.value, port - startPort) && s.value.running && s.value.forwardOK
        && s.value.nodeId in candidates
        && |attempts| > |old(attempts)| && attempts[|attempts| - 1] == Attempt(port, s.value.nodeId, true)
      // A node already serving a running slot is shared only when every unused candidate refused.
      ensures s.Some? && Serving(s.value.nodeId) ==>
        forall c <- candidates :: !Serving(c) ==> RefusedBy(attempts, |old(attempts)|, port, c)
      // The candidates ahead of it in the list that could have been taken instead refused.
      ensures s.Some? ==> exists k: nat :: TakenAt(candidates, k, s.value.nodeId, |old(attempts)|, port)
    {
      var used := UsedNodeIDs();
      ghost var from := |attempts|;
      for k := 0 to |candidates|
        invariant Logged() && old(attempts) <= attempts && hostDevices == old(hostDevices)
        invariant Started(attempts, from) == {}
        invariant forall j :: 0 <= j < k && candidates[j] !in used ==> RefusedBy(attempts, from, port, candidates[j])
      {
        if candidates[k] !in used {
          ghost var log := attempts;
          s := StartNode(port, candidates[k]);
          StartedSplit(log, attempts, from);
          KeepRefusals(log, from, port, candidates);
          if s.Some? {
            assert !Serving(s.value.nodeId) && TakenAt(candidates, k, s.value.nodeId, from, port);
            return;
          }
        }
      }
      for k := 0 to |candidates|
        invariant Logged() && old(attempts) <= attempts && hostDevices == old(hostDevices)
        invariant Started(attempts, from) == {}
        invariant forall j :: 0 <= j < |candidates| && candidates[j] !in used ==>
          RefusedBy(attempts, from, port, candidates[j])
        invariant forall j :: 0 <= j < k ==> RefusedBy(attempts, from, port, candidates[j])
      {
        ghost var log := attempts;
        s := StartNode(port, candidates[k]);
        StartedSplit(log, attempts, from);
        KeepRefusals(log, from, port, candidates);
        if s.Some? {
          assert forall c :: !Serving(c) ==> c !in used;
          assert TakenAt(candidates, k, s.value.nodeId, from, port);
          return;
        }
      }
      return None;
    }

    /** The node is candidate k, and the earlier ones that no more serve a running slot than it refused the port. */
    ghost predicate TakenAt(candidates: seq<string>, k: nat, nodeId: string, from: nat, port: int)
      reads this`slots, this`attempts
    {
      && k < |candidates| && candidates[k] == nodeId
      && forall j :: 0 <= j < k ==>
           RefusedBy(attempts, from, port, candidates[j]) || (Serving(candidates[j]) && !Serving(nodeId))
    }

    /** Some running slot uses the node. */
    ghost predicate Serving(nodeId: string)
      reads this`slots
    { exists i :: 0 <= i < |slots| && Live(slots[i]) && slots[i].value.nodeId == nodeId }

    lemma KeepRefusals(log: seq<Attempt>, from: nat, port: int, candidates: seq<string>)
      requires log <= attempts && from <= |log|
      ensures forall j :: 0 <= j < |candidates| && RefusedBy(log, from, port, candidates[j]) ==>
        RefusedBy(attempts, from, port, candidates[j])
      ensures forall j :: 0 <= j < |candidates| && RefusedBy(attempts, |log|, port, candidates[j]) ==>
        RefusedBy(attempts, from, port, candidates[j])
    {
      forall j | 0 <= j < |candidates| && RefusedBy(log, from, port, candidates[j])
        ensures RefusedBy(attempts, from, port, candidates[j])
      {
        RefusalStands(log, attempts, from, from, port, candidates[j]);
      }
      forall j | 0 <= j < |candidates| && RefusedBy(attempts, |log|, port, candidates[j])
        ensures RefusedBy(attempts, from, port, candidates[j])
      {
        RefusalStands(attempts, attempts, |log|, from, port, candidates[j]);
      }
    }

    /** Stops the slot's components; the slice keeps the stopped slot. */
    method TeardownSlotAt(i: nat)
      modifies this`slots, this`hostDevices
      ensures if i < |old(slots)| && old(slots)[i].Some?
        then slots == old(slots)[i := Some(old(slots)[i].value.(running := false))]
          && hostDevices == old(hostDevices) - {old(slots)[i].value.device}
        else slots == old(slots) && hostDevices == old(hostDevices)
    {
      if i >= |slots| || slots[i].None? { return; }
      var s := slots[i].value;
      slots := slots[i := Some(s.(running := false))];
      hostDevices := hostDevices - {s.device};
    }

    /** OpenVPN exits on its own: the exit handler tears the slot down at once. */
    method TunnelExits(i: nat)
      requires Aligned()
      modifies this`slots, this`hostDevices
      ensures Aligned() && |slots| == |old(slots)| && !Up(slots, hostDevices, i)
      ensures forall j :: 0 <= j < |slots| && j != i ==> slots[j] == old(slots)[j]
      ensures forall j :: j != i ==> (Up(slots, hostDevices, j) <==> old(Up(slots, hostDevices, j)))
    {
      DevicesDistinct(i);
      TeardownSlotAt(i);
    }

    // ---- the two passes ----------------------------------------------------------------

    /** Rebuilds every slot that is not healthy; candidates is None when the fetch failed. */
    method RepairDead(candidates: Option<seq<string>>)
      requires Aligned()
      modifies this`slots, this`hostDevices, this`attempts
      ensures Aligned() && |slots| == |old(slots)| && old(attempts) <= attempts
      ensures Repaired(candidates, old(slots), old(hostDevices), slots, hostDevices, attempts, |old(attempts)|)
    {
      if candidates.None? { return; }
      ghost var from := |attempts|;
      NoneStarted();
      var i := 0;
      while i < |slots|
        invariant i <= |slots| && Aligned() && old(attempts) <= attempts
        invariant RepairedTo(old(slots), old(hostDevices), slots, hostDevices, attempts, from, i, candidates.value)
      {
        ghost var log, mid, host := attempts, slots, hostDevices;
        if Healthy(slots, hostDevices, i) {
          HealthySkipped(old(slots), old(hostDevices), slots, hostDevices, attempts, from, i, candidates.value);
        } else {
          assert !Healthy(old(slots), old(hostDevices), i);
          RepairSlot(i, candidates.value);
          SlotRepaired(old(slots), old(hostDevices), mid, host, log, from, i, candidates.value);
        }
        i := i + 1;
      }
    }

    /** Of the first n positions a start succeeded on exactly those that were not healthy and hold a slot now. */
    ghost predicate Rebuilt(was: Slots, wasHost: set<string>, now: Slots, n: nat, starts: set<Attempt>) {
      forall i :: 0 <= i < |now| ==>
        (Begun(starts, startPort, i) <==> i < n && !Healthy(was, wasHost, i) && now[i].Some?)
    }

    /** A healthy slot was kept, any other replaced, or every candidate refused its port. */
    ghost predicate RepairedAt(was: Slots, wasHost: set<string>, now: Slots, host: set<string>, log: seq<Attempt>,
                               from: nat, candidates: seq<string>, i: nat)
      requires i < |was| == |now|
    {
      if Healthy(was, wasHost, i) then now[i] == was[i] && Healthy(now, host, i)
      else if now[i].Some? then Healthy(now, host, i) && now[i].value.nodeId in candidates
      else Refused(log, from, startPort + i, candidates)
    }

    /** What a repair makes of the slots: nothing without candidates. */
    ghost predicate Repaired(candidates: Option<seq<string>>, was: Slots, wasHost: set<string>, now: Slots,
                             host: set<string>, log: seq<Attempt>, from: nat)
    {
      && |now| == |was| && from <= |log|
      && match candidates
         case None => now == was && host == wasHost && |log| == from
         case Some(cs) =>
           && Rebuilt(was, wasHost, now, |now|, Started(log, from)) && AllFrom(Started(log, from), cs)
           && forall i: nat :: i < |now| ==> RepairedAt(was, wasHost, now, host, log, from, cs, i)
    }

    /** The first n positions are repaired, the others as they were. */
    ghost predicate RepairedTo(was: Slots, wasHost: set<string>, now: Slots, host: set<string>, log: seq<Attempt>,
                               from: nat, n: nat, candidates: seq<string>)
    {
      && n <= |now| == |was| && from <= |log|
      && (forall i :: n <= i < |now| ==> now[i] == was[i])
      && (forall i :: n <= i ==> (Device(i) in host <==> Device(i) in wasHost))
      && Rebuilt(was, wasHost, now, n, Started(log, from)) && AllFrom(Started(log, from), candidates)
      && (forall i: nat :: i < n ==> RepairedAt(was, wasHost, now, host, log, from, candidates, i))
    }

    lemma HealthySkipped(was: Slots, wasHost: set<string>, now: Slots, host: set<string>, log: seq<Attempt>,
          from: nat, n: nat, candidates: seq<string>)
      requires Aligned() && slots == now && RepairedTo(was, wasHost, now, host, log, from, n, candidates)
      requires Healthy(now, host, n)
      ensures RepairedTo(was, wasHost, now, host, log, from, n + 1, candidates)
    {
      assert Healthy(was, wasHost, n);
    }

    /** Position n was repaired, the log grew from `log`. */
    lemma SlotRepaired(was: Slots, wasHost: set<string>, mid: Slots, midHost: set<string>, log: seq<Attempt>,
          from: nat, n: nat, candidates: seq<string>)
      requires RepairedTo(was, wasHost, mid, midHost, log, from, n, candidates) && log <= attempts && Aligned()
      requires n < |mid| == |slots| && !Healthy(was, wasHost, n)
      requires forall i :: 0 <= i < |slots| && i != n ==> slots[i] == mid[i]
      requires forall d :: d != Device(n) ==> (d in hostDevices <==> d in midHost)
      requires RepairedAt(slots[n := None], hostDevices, slots, hostDevices, attempts, |log|, candidates, n)
      requires Started(attempts, |log|) ==
        if slots[n].Some? then {Attempt(startPort + n, slots[n].value.nodeId, true)} else {}
      ensures RepairedTo(was, wasHost, slots, hostDevices, attempts, from, n + 1, candidates)
    {
      DevicesDistinct(n);
      RebuiltMore(was, wasHost, mid, log, from, n);
      StartedSplit(log, attempts, from);
      forall i: nat | i <= n ensures RepairedAt(was, wasHost, slots, hostDevices, attempts, from, candidates, i) {
        if i < n {
          assert RepairedAt(was, wasHost, mid, midHost, log, from, candidates, i);
          if Refused(log, from, startPort + i, candidates) {
            RefusalsStand(log, attempts, from, from, startPort + i, candidates);
          }
        } else if slots[n].None? {
          RefusalsStand(attempts, attempts, |log|, from, startPort + n, candidates);
        }
      }
    }

    lemma RebuiltMore(was: Slots, wasHost: set<string>, mid: Slots, log: seq<Attempt>, from: nat, n: nat)
      requires log <= attempts && from <= |log| && n < |mid| == |slots| && !Healthy(was, wasHost, n)
      requires Rebuilt(was, wasHost, mid, n, Started(log, from))
      requires forall i :: 0 <= i < |slots| && i != n ==> slots[i] == mid[i]
      requires Started(attempts, |log|) ==
        if slots[n].Some? then {Attempt(startPort + n, slots[n].value.nodeId, true)} else {}
      ensures Rebuilt(was, wasHost, slots, n + 1, Started(attempts, from))
    {
      OnEither(log, from);
      var last := Started(attempts, |log|);
      if slots[n].Some? { assert Attempt(startPort + n, slots[n].value.nodeId, true) in last; }
      forall i | 0 <= i < |slots|
        ensures Begun(Started(attempts, from), startPort, i) <==>
          i < n + 1 && !Healthy(was, wasHost, i) && slots[i].Some?
      {
        assert Begun(Started(log, from), startPort, i) <==> i < n && !Healthy(was, wasHost, i) && mid[i].Some?;
        assert Begun(last, startPort, i) <==> i == n && slots[i].Some?;
        assert Begun(Started(attempts, from), startPort, i) <==>
          Begun(Started(log, from), startPort, i) || Begun(last, startPort, i);
      }
    }

    /** Replaces one dead slot, or leaves a hole. */
    method RepairSlot(i: nat, candidates: seq<string>)
      requires Aligned() && i < |slots|
      modifies this`slots, this`hostDevices, this`attempts
      ensures Aligned() && |slots| == |old(slots)| && old(attempts) <= attempts
      ensures forall j :: 0 <= j < |slots| && j != i ==> slots[j] == old(slots)[j]
      ensures forall d :: d != Device(i) ==> (d in hostDevices <==> d in old(hostDevices))
      ensures slots[i].Some? ==> Healthy(slots, hostDevices, i) && slots[i].value.nodeId in candidates
      ensures slots[i].None? ==> Refused(attempts, |old(attempts)|, startPort + i, candidates)
      ensures Started(attempts, |old(attempts)|) ==
        if slots[i].Some? then {Attempt(startPort + i, slots[i].value.nodeId, true)} else {}
    {
      TeardownSlotAt(i);
      var s := TryFillPort(startPort + i, candidates);
      slots := slots[i := s];
    }

    /** Grows toward min(candidates, maxPorts), or shrinks to it from the tail. */
    method Balance(candidates: Option<seq<string>>)
      requires Aligned()
      modifies this`slots, this`hostDevices, this`attempts
      ensures Aligned() && old(attempts) <= attempts
      ensures Settled(candidates, old(slots), old(hostDevices), slots, hostDevices, attempts, |old(attempts)|)
      ensures candidates.Some? ==> Balanced(old(slots), old(hostDevices), |old(attempts)|, Usable(candidates.value))
      ensures candidates.Some? && LiveCount(old(slots)) < |Usable(candidates.value)| ==>
        FirstHoleTried(old(slots), slots, attempts, |old(attempts)|, Usable(candidates.value))
    {
      if candidates.None? { return; }
      var usable := if |candidates.value| > maxPorts then candidates.value[..maxPorts] else candidates.value;
      Grow(usable);
      ghost var grown, grownHost := slots, hostDevices;
      CutBack(|usable|);
      CutStays(old(slots), old(hostDevices), grown, grownHost, |old(attempts)|, usable);
    }

    /** Shrinks to the target; what is left is a prefix that ends in a slot. */
    method CutBack(target: nat)
      requires Aligned()
      modifies this`slots, this`hostDevices
      ensures Aligned() && CutFrom(old(slots), old(hostDevices), target)
    {
      ghost var cut := Shrink(target);
      TrimTrailingNils();
      assert |slots| <= cut;
    }

    ghost predicate CutFrom(was: Slots, wasHost: set<string>, target: nat)
      reads this
    {
      && slots <= was && (slots != [] ==> slots[|slots| - 1].Some?)
      && LiveCount(slots) == (if LiveCount(was) > target then target else LiveCount(was))
      && (LiveCount(was) <= target ==> forall i :: |slots| <= i < |was| ==> was[i].None?)
      && forall i :: 0 <= i < |slots| ==> (Device(i) in hostDevices <==> Device(i) in wasHost)
    }

    /** How far growth got. */
    ghost predicate GrewTo(was: Slots, wasHost: set<string>, now: Slots, host: set<string>, from: nat,
                           usable: seq<string>)
      reads this
    {
      if LiveCount(was) >= |usable| then now == was && host == wasHost
      else
        && FirstHoleTried(was, now, attempts, from, usable)
        && (LiveCount(now) == |usable|
            || (LiveCount(now) < |usable| && Refused(attempts, from, startPort + |now|, usable)))
    }

    /** What growth made of the slots is true of the prefix that is left. */
    lemma CutStays(was: Slots, wasHost: set<string>, grown: Slots, grownHost: set<string>, from: nat,
          usable: seq<string>)
      requires Aligned() && Grown(was, wasHost, grown, grownHost, attempts, from, usable)
      requires GrewTo(was, wasHost, grown, grownHost, from, usable) && CutFrom(grown, grownHost, |usable|)
      ensures Kept(was, wasHost, slots, hostDevices) && Filled(was, slots, Started(attempts, from))
      ensures Balanced(was, wasHost, from, usable)
      ensures LiveCount(was) < |usable| ==> FirstHoleTried(was, slots, attempts, from, usable)
    {
      KeptPrefix(was, wasHost, grown, grownHost);
      if LiveCount(was) <= |usable| && LiveCount(slots) < |usable| {
        assert Refused(attempts, from, startPort + |grown|, usable);
      }
    }

    lemma KeptPrefix(was: Slots, wasHost: set<string>, mid: Slots, midHost: set<string>)
      requires Aligned() && Kept(was, wasHost, mid, midHost) && slots <= mid
      requires forall i :: 0 <= i < |slots| ==> (Device(i) in hostDevices <==> Device(i) in midHost)
      ensures Kept(was, wasHost, slots, hostDevices)
    {
      forall i | 0 <= i < |slots| ensures Up(mid, midHost, i) ==> Up(slots, hostDevices, i) {
        assert slots[i] == mid[i];
      }
    }

    function Usable(candidates: seq<string>): (usable: seq<string>)
      ensures usable <= candidates && |usable| == if |candidates| < maxPorts then |candidates| else maxPorts
    {
      if |candidates| > maxPorts then candidates[..maxPorts] else candidates
    }

    /** Slots present before are unchanged and still up; slots that are new are healthy. */
    ghost predicate Kept(was: Slots, wasHost: set<string>, now: Slots, host: set<string>) {
      && (forall i :: 0 <= i < |now| && i < |was| && was[i].Some? ==>
            (now[i] == was[i] && (Up(was, wasHost, i) ==> Up(now, host, i))))
      && (forall i :: 0 <= i < |now| && now[i].Some? && (i >= |was| || was[i].None?) ==> Healthy(now, host, i))
      && (forall i :: 0 <= i < |now| && now[i].None? ==> i < |was| && was[i].None?)
    }

    /** A start succeeded on exactly the holes that were filled. */
    ghost predicate Filled(was: Slots, now: Slots, starts: set<Attempt>) {
      forall i :: 0 <= i < |was| && i < |now| && was[i].None? ==> (Begun(starts, startPort, i) <==> now[i].Some?)
    }

    lemma NoneStarted()
      ensures Started(attempts, |attempts|) == {} && forall i :: !Begun(Started(attempts, |attempts|), startPort, i)
    {}

    lemma OnEither(log: seq<Attempt>, from: nat)
      requires log <= attempts && from <= |log|
      ensures Started(attempts, from) == Started(log, from) + Started(attempts, |log|)
      ensures forall i :: Begun(Started(attempts, from), startPort, i) <==>
        Begun(Started(log, from), startPort, i) || Begun(Started(attempts, |log|), startPort, i)
    {
      StartedSplit(log, attempts, from);
    }

    /** What growth made of the slots since position `from` of the log. */
    ghost predicate Grown(was: Slots, wasHost: set<string>, now: Slots, host: set<string>, log: seq<Attempt>, from: nat,
                          usable: seq<string>)
    {
      && |was| <= |now| && from <= |log| && Kept(was, wasHost, now, host)
      && Filled(was, now, Started(log, from)) && AllFrom(Started(log, from), usable)
    }

    /** The first gap. */
    predicate FirstHole(slots: Slots, h: nat) {
      h < |slots| && slots[h].None? && forall i :: 0 <= i < h ==> slots[i].Some?
    }

    /** The first gap there was is filled, or every candidate was started on its port in vain. */
    ghost predicate FirstHoleTried(was: Slots, now: Slots, log: seq<Attempt>, from: nat, usable: seq<string>) {
      forall h: nat :: FirstHole(was, h) ==>
        (h < |now| && now[h].Some?) || Refused(log, from, startPort + h, usable)
    }

    lemma TriedStands(was: Slots, mid: Slots, host: set<string>, now: Slots, nowHost: set<string>, log: seq<Attempt>,
          from: nat, usable: seq<string>)
      requires log <= attempts && |mid| <= |now| && Kept(mid, host, now, nowHost)
      requires FirstHoleTried(was, mid, log, from, usable)
      ensures FirstHoleTried(was, now, attempts, from, usable)
    {
      forall h: nat | FirstHole(was, h)
        ensures (h < |now| && now[h].Some?) || Refused(attempts, from, startPort + h, usable)
      {
        if h < |mid| && mid[h].Some? {
          assert now[h] == mid[h];
        } else {
          RefusalsStand(log, attempts, from, from, startPort + h, usable);
        }
      }
    }

    lemma KeptTwice(was: Slots, wasHost: set<string>, mid: Slots, host: set<string>, now: Slots, nowHost: set<string>)
      requires |was| <= |mid| <= |now| && Kept(was, wasHost, mid, host) && Kept(mid, host, now, nowHost)
      ensures Kept(was, wasHost, now, nowHost)
    {
      forall i | 0 <= i < |now| && now[i].Some? && (i >= |was| || was[i].None?) ensures Healthy(now, nowHost, i) {
        if i < |mid| && mid[i].Some? { assert now[i] == mid[i] && Healthy(mid, host, i) && Up(now, nowHost, i); }
      }
    }

    /** One turn more, since the end of `log`. */
    lemma GrownMore(was: Slots, wasHost: set<string>, mid: Slots, host: set<string>, log: seq<Attempt>, from: nat,
          usable: seq<string>)
      requires log <= attempts && Grown(was, wasHost, mid, host, log, from, usable)
      requires Grown(mid, host, slots, hostDevices, attempts, |log|, usable)
      ensures Grown(was, wasHost, slots, hostDevices, attempts, from, usable)
    {
      KeptTwice(was, wasHost, mid, host, slots, hostDevices);
      OnEither(log, from);
      forall i | 0 <= i < |was| && was[i].None?
        ensures Begun(Started(attempts, from), startPort, i) <==> slots[i].Some?
      {
        if mid[i].Some? { assert slots[i] == mid[i]; }
      }
    }

    /** What a balance makes of each position that is left: nothing without candidates. */
    ghost predicate Settled(candidates: Option<seq<string>>, was: Slots, wasHost: set<string>, now: Slots,
                            host: set<string>, log: seq<Attempt>, from: nat)
    {
      && from <= |log| && Kept(was, wasHost, now, host) && Filled(was, now, Started(log, from))
      && match candidates
         case None => now == was && host == wasHost && |log| == from
         case Some(cs) => AllFrom(Started(log, from), Usable(cs))
    }

    /** The outcome of a balance pass: exactly the target, or growth met a port no candidate would start on. */
    ghost predicate Balanced(was: Slots, wasHost: set<string>, from: nat, usable: seq<string>)
      reads this
    {
      && (slots != [] ==> slots[|slots| - 1].Some?)
      && (LiveCount(slots) == |usable|
          || (LiveCount(slots) < |usable| && RefusedAbove(attempts, from, startPort + |slots|, usable)))
      && (LiveCount(was) <= |usable| ==> forall i :: 0 <= i < |was| && was[i].Some? ==> i < |slots|)
      // a shrink removes a suffix of the slots present and nothing else
      && (LiveCount(was) > |usable| ==> LiveCount(slots) == |usable| && slots <= was)
      && Kept(was, wasHost, slots, hostDevices)
    }

    method FillHole(hole: nat, usable: seq<string>) returns (filled: bool)
      requires Aligned() && hole < |slots| && slots[hole].None?
      modifies this`slots, this`hostDevices, this`attempts
      ensures Aligned() && old(attempts) <= attempts && |slots| == |old(slots)|
      ensures Kept(old(slots), old(hostDevices), slots, hostDevices)
      ensures LiveCount(slots) == LiveCount(old(slots)) + (if filled then 1 else 0)
      ensures filled <==> slots[hole].Some?
      ensures !filled ==> slots == old(slots) && hostDevices == old(hostDevices)
      ensures !filled ==> Refused(attempts, |old(attempts)|, startPort + hole, usable)
      ensures Filled(old(slots), slots, Started(attempts, |old(attempts)|))
      ensures AllFrom(Started(attempts, |old(attempts)|), usable)
    {
      var s := TryFillPort(startPort + hole, usable);
      filled := s.Some?;
      if filled {
        LiveUpdate(slots, hole, s);
        slots := slots[hole := s];
      }
    }

    /** One turn of the growth loop: the first hole, then one position more. */
    method GrowStep(usable: seq<string>) returns (grew: bool)
      requires Aligned()
      modifies this`slots, this`hostDevices, this`attempts
      ensures Aligned() && old(attempts) <= attempts
      ensures Grown(old(slots), old(hostDevices), slots, hostDevices, attempts, |old(attempts)|, usable)
      ensures grew ==> LiveCount(slots) == LiveCount(old(slots)) + 1
      ensures !grew ==> slots == old(slots) && Refused(attempts, |old(attempts)|, startPort + |slots|, usable)
      ensures FirstHoleTried(old(slots), slots, attempts, |old(attempts)|, usable)
      // a position is added only after the first hole refused every candidate
      ensures |slots| > |old(slots)| ==> forall h: nat :: FirstHole(old(slots), h) ==>
        Refused(attempts, |old(attempts)|, startPort + h, usable)
    {
      var hole := FindHole();
      if hole >= 0 {
        var filled := FillHole(hole, usable);
        if filled { return true; }
      }
      grew := AppendAfter(usable, hole, |old(attempts)|);
    }

    /** One position more, after nothing could be started on the port of the first hole since `from`. */
    method AppendAfter(usable: seq<string>, ghost hole: int, ghost from: nat) returns (grew: bool)
      requires Aligned() && from <= |attempts|
      requires if hole < 0 then forall h: nat :: !FirstHole(slots, h)
        else FirstHole(slots, hole) && Refused(attempts, from, startPort + hole, usable)
      requires Filled(slots, slots, Started(attempts, from)) && AllFrom(Started(attempts, from), usable)
      modifies this`slots, this`hostDevices, this`attempts
      ensures Aligned() && old(attempts) <= attempts
      ensures Grown(old(slots), old(hostDevices), slots, hostDevices, attempts, from, usable)
      ensures grew ==> LiveCount(slots) == LiveCount(old(slots)) + 1
      ensures !grew ==> slots == old(slots) && Refused(attempts, from, startPort + |slots|, usable)
      ensures forall h: nat :: FirstHole(old(slots), h) ==> Refused(attempts, from, startPort + h, usable)
    {
      ghost var log := attempts;
      grew := AppendSlot(usable);
      StartedSplit(log, attempts, from);
      if hole >= 0 { RefusalsStand(log, attempts, from, from, startPort + hole, usable); }
      if !grew { RefusalsStand(attempts, attempts, |log|, from, startPort + |slots|, usable); }
    }

    lemma AppendKeeps(was: Slots, wasHost: set<string>, host: set<string>, s: Slot)
      requires wasHost <= host && s.running && s.forwardOK && s.device in host
      ensures Kept(was, wasHost, was + [Some(s)], host)
    {
      var now := was + [Some(s)];
      assert now[|was|] == Some(s) && Healthy(now, host, |was|);
      forall i | 0 <= i < |was| ensures now[i] == was[i] && (Up(was, wasHost, i) ==> Up(now, host, i)) {}
    }

    method AppendSlot(usable: seq<string>) returns (grew: bool)
      requires Aligned()
      modifies this`slots, this`hostDevices, this`attempts
      ensures Aligned() && old(attempts) <= attempts && old(slots) <= slots
      ensures Kept(old(slots), old(hostDevices), slots, hostDevices)
      ensures grew ==> |slots| == |old(slots)| + 1 && LiveCount(slots) == LiveCount(old(slots)) + 1
      ensures !grew ==> slots == old(slots) && Refused(attempts, |old(attempts)|, startPort + |slots|, usable)
      ensures AllFrom(Started(attempts, |old(attempts)|), usable)
      ensures forall a <- Started(attempts, |old(attempts)|) :: a.port == startPort + |old(slots)|
    {
      var s := TryFillPort(startPort + |slots|, usable);
      grew := s.Some?;
      if grew {
        LiveAppend(slots, s);
        AppendKeeps(slots, old(hostDevices), hostDevices, s.value);
        slots := slots + [s];
      }
    }

    method Grow(usable: seq<string>)
      requires Aligned()
      modifies this`slots, this`hostDevices, this`attempts
      ensures Aligned() && old(attempts) <= attempts
      ensures Grown(old(slots), old(hostDevices), slots, hostDevices, attempts, |old(attempts)|, usable)
      ensures GrewTo(old(slots), old(hostDevices), slots, hostDevices, |old(attempts)|, usable)
    {
      ghost var from := |attempts|;
      NoneStarted();
      var live := CountLive();
      while live < |usable|
        invariant Aligned() && old(attempts) <= attempts
        invariant live == LiveCount(slots) && (live <= |usable| || slots == old(slots))
        invariant Growing(old(slots), old(hostDevices), from, usable)
        decreases |usable| - live
      {
        var grew := GrowTurn(old(slots), old(hostDevices), from, usable);
        if !grew { return; }
        live := CountLive();
      }
    }

    /** Growth under way since position `from` of the log. */
    ghost predicate Growing(was: Slots, wasHost: set<string>, from: nat, usable: seq<string>)
      reads this
    {
      && Grown(was, wasHost, slots, hostDevices, attempts, from, usable)
      && if LiveCount(slots) == LiveCount(was) then slots == was && hostDevices == wasHost && |attempts| == from
         else LiveCount(was) < |usable| && FirstHoleTried(was, slots, attempts, from, usable)
    }

    /** One turn more. */
    method GrowTurn(ghost was: Slots, ghost wasHost: set<string>, ghost from: nat, usable: seq<string>)
      returns (grew: bool)
      requires Aligned() && Growing(was, wasHost, from, usable) && LiveCount(slots) < |usable|
      requires LiveCount(was) <= LiveCount(slots)
      modifies this`slots, this`hostDevices, this`attempts
      ensures Aligned() && old(attempts) <= attempts
      ensures grew ==> Growing(was, wasHost, from, usable) && LiveCount(slots) == LiveCount(old(slots)) + 1
      ensures !grew ==> GrewTo(was, wasHost, slots, hostDevices, from, usable)
      ensures !grew ==> Grown(was, wasHost, slots, hostDevices, attempts, from, usable)
    {
      ghost var log, mid, host := attempts, slots, hostDevices;
      grew := GrowStep(usable);
      GrownMore(was, wasHost, mid, host, log, from, usable);
      if |log| > from { TriedStands(was, mid, host, slots, hostDevices, log, from, usable); }
      if !grew { RefusalsStand(attempts, attempts, |log|, from, startPort + |slots|, usable); }
    }

    /** Removes slots from the tail until the target is met; cut is where the remaining slots end. */
    method Shrink(target: nat) returns (ghost cut: nat)
      requires Aligned()
      modifies this`slots, this`hostDevices
      ensures Aligned() && |slots| == |old(slots)| && cut <= |slots|
      ensures LiveCount(old(slots)) <= target ==> slots == old(slots) && hostDevices == old(hostDevices)
      ensures LiveCount(old(slots)) > target ==> LiveCount(slots) == target
      ensures forall i :: 0 <= i < cut ==> slots[i] == old(slots)[i]
      ensures forall i :: 0 <= i < cut ==> (Device(i) in hostDevices <==> Device(i) in old(hostDevices))
      ensures forall i :: cut <= i < |slots| ==> slots[i].None?
    {
      cut := |slots|;
      var live := CountLive();
      while live > target
        invariant Aligned() && |slots| == |old(slots)| && cut <= |slots| && live == LiveCount(slots)
        invariant forall i :: 0 <= i < cut ==> slots[i] == old(slots)[i]
        invariant forall i :: 0 <= i < cut ==> (Device(i) in hostDevices <==> Device(i) in old(hostDevices))
        invariant forall i :: cut <= i < |slots| ==> slots[i].None?
        invariant LiveCount(old(slots)) <= target ==> slots == old(slots) && hostDevices == old(hostDevices)
        invariant LiveCount(old(slots)) > target ==> live >= target
        decreases cut
      {
        var last := LastLiveIndex();
        if last < 0 {
          NoneLive(slots);
          break;
        }
        RemoveSlot(last);
        cut := last;
        live := CountLive();
      }
    }

    method RemoveSlot(i: nat)
      requires Aligned() && i < |slots| && slots[i].Some?
      modifies this`slots, this`hostDevices
      ensures Aligned() && slots == old(slots)[i := None]
      ensures LiveCount(slots) == LiveCount(old(slots)) - (if Live(old(slots)[i]) then 1 else 0)
      ensures forall j :: j != i ==> (Device(j) in hostDevices <==> Device(j) in old(hostDevices))
    {
      DevicesDistinct(i);
      LiveUpdate(slots, i, None);
      TeardownSlotAt(i);
      slots := slots[i := None];
      assert slots == old(slots)[i := None];
    }

    /** repairDead, then balance, each over the candidates it fetched (none if its fetch failed), with no tunnel
        dying in between. */
    method Reconcile(repair: Option<seq<string>>, refill: Option<seq<string>>)
      returns (ghost mid: Slots, ghost host: set<string>, ghost log: seq<Attempt>)
      requires Aligned()
      modifies this`slots, this`hostDevices, this`attempts
      ensures Aligned()
      ensures refill.Some? && slots != [] ==> slots[|slots| - 1].Some?
      // every slot that is left runs on a present device and forwards
      ensures repair.Some? ==> forall i :: 0 <= i < |slots| && slots[i].Some? ==>
        slots[i].value.running && slots[i].value.device in hostDevices && slots[i].value.forwardOK
      // healthy slots keep their place and their node unless the pool shrank below them
      ensures forall i :: 0 <= i < |slots| && i < |old(slots)| && old(slots)[i].Some? ==>
        var s := old(slots)[i].value;
        s.running && s.device in old(hostDevices) && s.forwardOK ==> slots[i] == old(slots)[i]
      ensures forall i :: |slots| <= i < |old(slots)| && old(Healthy(slots, hostDevices, i)) ==>
        refill.Some? && LiveCount(slots) == |Usable(refill.value)|
      ensures refill.Some? ==> var n := if |refill.value| < maxPorts then |refill.value| else maxPorts;
        || LiveCount(slots) == n
        || (LiveCount(slots) < n && RefusedAbove(attempts, |old(attempts)|, startPort + |slots|, refill.value[..n]))
      // growth fills the first gap the repair left, unless every candidate refuses its port
      ensures Repaired(repair, old(slots), old(hostDevices), mid, host, log, |old(attempts)|)
      ensures log <= attempts
      ensures refill.Some? ==> var n := if |refill.value| < maxPorts then |refill.value| else maxPorts;
        LiveCount(mid) < n ==> FirstHoleTried(mid, slots, attempts, |log|, refill.value[..n])
      // a gap in the port block remains only where every candidate of the repair was tried and refused
      ensures repair.Some? ==> forall i :: 0 <= i < |slots| && slots[i].None? ==>
        Refused(attempts, |old(attempts)|, startPort + i, repair.value)
      // the gaps, exactly: a position this call had to fill and on whose port none of its starts succeeded
      ensures forall i :: 0 <= i < |slots| ==>
        (slots[i].None? <==>
          old(Vacant(repair, slots, hostDevices, i)) && !Begun(Started(attempts, |old(attempts)|), startPort, i))
      ensures forall a <- Started(attempts, |old(attempts)|) :: a.nodeId in repair.GetOr([]) + refill.GetOr([])
    {
      if refill.Some? { assert Usable(refill.value) == refill.value[..|Usable(refill.value)|]; }
      RepairDead(repair);
      log, mid, host := attempts, slots, hostDevices;
      Balance(refill);
      HealthyKept(repair, refill, old(slots), old(hostDevices), mid, host, log, |old(attempts)|);
      GapsTold(repair, refill, old(slots), old(hostDevices), mid, host, log, |old(attempts)|);
      if repair.Some? {
        GapsRefused(repair.value, refill, old(slots), old(hostDevices), mid, host, log, |old(attempts)|);
      }
      if refill.Some? { RefusedAboveStands(|log|, |old(attempts)|, startPort + |slots|, Usable(refill.value)); }
    }

    /** A repair and then a balance. */
    ghost predicate BothPasses(repair: Option<seq<string>>, refill: Option<seq<string>>, was: Slots,
                               wasHost: set<string>, mid: Slots, midHost: set<string>, log: seq<Attempt>, from: nat)
      reads this
    {
      && log <= attempts && Repaired(repair, was, wasHost, mid, midHost, log, from)
      && Settled(refill, mid, midHost, slots, hostDevices, attempts, |log|)
    }

    lemma HealthyKept(repair: Option<seq<string>>, refill: Option<seq<string>>, was: Slots, wasHost: set<string>,
          mid: Slots, midHost: set<string>, log: seq<Attempt>, from: nat)
      requires BothPasses(repair, refill, was, wasHost, mid, midHost, log, from)
      ensures forall i :: 0 <= i < |was| && Healthy(was, wasHost, i) ==> mid[i] == was[i] && Healthy(mid, midHost, i)
      ensures forall i :: 0 <= i < |slots| && Healthy(was, wasHost, i) ==> slots[i] == was[i]
      ensures repair.Some? ==> forall i :: 0 <= i < |slots| && slots[i].Some? ==> Healthy(slots, hostDevices, i)
    {
      forall i | 0 <= i < |was| && Healthy(was, wasHost, i) ensures mid[i] == was[i] && Healthy(mid, midHost, i) {
        if repair.Some? { assert RepairedAt(was, wasHost, mid, midHost, log, from, repair.value, i); }
      }
      if repair.Some? {
        forall i | 0 <= i < |slots| && slots[i].Some? ensures Healthy(slots, hostDevices, i) {
          if i < |mid| && mid[i].Some? { assert RepairedAt(was, wasHost, mid, midHost, log, from, repair.value, i); }
        }
      }
    }

    lemma GapsTold(repair: Option<seq<string>>, refill: Option<seq<string>>, was: Slots, wasHost: set<string>,
          mid: Slots, midHost: set<string>, log: seq<Attempt>, from: nat)
      requires BothPasses(repair, refill, was, wasHost, mid, midHost, log, from)
      ensures forall i :: 0 <= i < |slots| ==>
        (slots[i].None? <==> Vacant(repair, was, wasHost, i) && !Begun(Started(attempts, from), startPort, i))
      ensures forall a <- Started(attempts, from) :: a.nodeId in repair.GetOr([]) + refill.GetOr([])
    {
      OnEither(log, from);
      forall i | 0 <= i < |slots|
        ensures slots[i].None? <==> Vacant(repair, was, wasHost, i) && !Begun(Started(attempts, from), startPort, i)
      {
        if i < |mid| && repair.Some? {
          assert RepairedAt(was, wasHost, mid, midHost, log, from, repair.value, i);
        }
      }
    }

    lemma GapsRefused(candidates: seq<string>, refill: Option<seq<string>>, was: Slots, wasHost: set<string>,
          mid: Slots, midHost: set<string>, log: seq<Attempt>, from: nat)
      requires BothPasses(Some(candidates), refill, was, wasHost, mid, midHost, log, from)
      ensures forall i :: 0 <= i < |slots| && slots[i].None? ==> Refused(attempts, from, startPort + i, candidates)
    {
      forall i | 0 <= i < |slots| && slots[i].None? ensures Refused(attempts, from, startPort + i, candidates) {
        assert RepairedAt(was, wasHost, mid, midHost, log, from, candidates, i);
        RefusalsStand(log, attempts, from, from, startPort + i, candidates);
      }
    }

    /** Position i is there and the repair has to fill it; without a repair, it is a gap already. */
    ghost predicate Vacant(repair: Option<seq<string>>, was: Slots, wasHost: set<string>, i: nat) {
      i < |was| && if repair.Some? then !Healthy(was, wasHost, i) else was[i].None?
    }

    lemma NeverRefused(from: nat, port: int, candidates: seq<string>)
      requires Logged() && candidates != [] && forall k, p :: comesUp(k, p, candidates[0])
      ensures !RefusedAbove(attempts, from, port, candidates)
    {
      forall k | from <= k < |attempts| ensures attempts[k].nodeId == candidates[0] ==> attempts[k].started {
        assert Told(attempts[k], k);
      }
      forall p ensures !Refused(attempts, from, p, candidates) {
        assert !RefusedBy(attempts, from, p, candidates[0]);
      }
    }

    lemma NeverStarted(from: nat, candidates: seq<string>)
      requires Logged() && forall k, p, c :: c in candidates ==> !comesUp(k, p, c)
      requires forall a <- Started(attempts, from) :: a.nodeId in candidates
      ensures forall i :: !Begun(Started(attempts, from), startPort, i)
    {
      forall k | from <= k < |attempts| ensures !attempts[k].started {
        StartedHolds(attempts, from, k);
        assert Told(attempts[k], k);
      }
    }

    lemma RefusedAboveStands(from: nat, earlier: nat, port: int, candidates: seq<string>)
      requires earlier <= from
      ensures RefusedAbove(attempts, from, port, candidates) ==> RefusedAbove(attempts, earlier, port, candidates)
    {
      if RefusedAbove(attempts, from, port, candidates) {
        var p :| p >= port && Refused(attempts, from, p, candidates);
        RefusalsStand(attempts, attempts, from, earlier, p, candidates);
      }
    }

    // ---- probe tick ----------------------------------------------------------------------

    /** probeAll: probes every slot that is up and applies the verdicts in index order; answers(i) is the
        outcome of probing slot i. */
    method ProbeAll(answers: nat -> bool) returns (items: seq<nat>)
      requires Aligned()
      modifies this`slots
      ensures Aligned() && |slots| == |old(slots)|
      ensures Ascending(items) && forall i :: i in items <==> old(Up(slots, hostDevices, i))
      ensures Present(old(slots), items)
      ensures forall i :: 0 <= i < |slots| && i !in items ==> slots[i] == old(slots)[i]
      ensures forall k :: 0 <= k < |items| ==>
        slots[items[k]] == Some(old(slots)[items[k]].value.(
          forwardOK := Tick(Flags(old(slots), items), Outcomes(answers, items))[k]))
    {
      items := HealthySlotIndices();
      assert forall k :: 0 <= k < |items| ==> items[k] in items;
      ghost var was, ok := slots, Outcomes(answers, items);
      ghost var verdicts := Tick(Flags(was, items), ok);
      var anyOK := false;
      for k := 0 to |items|
        invariant |slots| == |was| && Aligned()
        invariant anyOK <==> EarlierSuccess(ok, k)
        invariant forall i :: 0 <= i < |slots| && i !in items ==> slots[i] == was[i]
        invariant forall j :: k <= j < |items| ==> slots[items[j]] == was[items[j]]
        invariant forall j :: 0 <= j < k ==> slots[items[j]] == Some(was[items[j]].value.(forwardOK := verdicts[j]))
      {
        var i := items[k];
        assert forall j :: 0 <= j < |items| && j != k ==> items[j] != i;
        Judge(i, answers(i), anyOK);
        anyOK := anyOK || answers(i);
        assert ok[k] == answers(i);
      }
    }

    /** The verdict on one slot, `anyOK` telling whether one before it forwarded. */
    method Judge(i: nat, ok: bool, anyOK: bool)
      requires Aligned() && i < |slots| && slots[i].Some?
      modifies this`slots
      ensures Aligned() && slots == old(slots)[i := Some(old(slots)[i].value.(
        forwardOK := ok || (old(slots)[i].value.forwardOK && !anyOK)))]
    {
      if ok {
        slots := slots[i := Some(slots[i].value.(forwardOK := true))];
      } else if anyOK {
        slots := slots[i := Some(slots[i].value.(forwardOK := false))];
      }
    }

    // ---- the rotating port -----------------------------------------------------------------

    method HealthySlotIndices() returns (healthy: seq<nat>)
      ensures Ascending(healthy)
      ensures forall i: nat :: i in healthy <==>
        i < |slots| && slots[i].Some? && slots[i].value.running && slots[i].value.device in hostDevices
      ensures forall i :: i in healthy <==> Up(slots, hostDevices, i)
    {
      healthy := [];
      for i := 0 to |slots|
        invariant Ascending(healthy) && forall k :: 0 <= k < |healthy| ==> healthy[k] < i
        invariant forall j :: j in healthy <==> j < i && Up(slots, hostDevices, j)
      {
        if Up(slots, hostDevices, i) { healthy := healthy + [i]; }
      }
    }

    method Unbound(healthy: seq<nat>, used: set<nat>) returns (free: seq<nat>)
      ensures free == Without(healthy, used)
    {
      free := [];
      for k := 0 to |healthy|
        invariant free == Without(healthy[..k], used)
      {
        assert healthy[..k + 1] == healthy[..k] + [healthy[k]];
        WithoutAppend(healthy[..k], healthy[k], used);
        if healthy[k] !in used { free := free + [healthy[k]]; }
      }
      assert healthy[..|healthy|] == healthy;
    }

    /** Binds the key to a slot, one no session holds when there is such a slot. */
    method AssignSlot(key: string, healthy: seq<nat>) returns (pick: nat)
      requires key != "" && healthy != [] && !Sticks(Rotor(rotateSessions, rotateRR), healthy, key)
      modifies this`rotateSessions, this`rotateRR
      ensures (Rotor(rotateSessions, rotateRR), Some(pick)) == Pick(old(Rotor(rotateSessions, rotateRR)), healthy, key)
    {
      var free := Unbound(healthy, rotateSessions.Values);
      if |free| > 0 {
        pick := free[rotateRR % |free|];
      } else {
        pick := healthy[rotateRR % |healthy|];
      }
      rotateRR := rotateRR + 1;
      rotateSessions := rotateSessions[key := pick];
    }

    /** Chooses the slot for one connection and returns its device; None when no slot is healthy. */
    method PickConnector(key: string) returns (device: Option<string>, ghost healthy: seq<nat>)
      requires Aligned()
      modifies this`rotateSessions, this`rotateRR
      ensures Ascending(healthy) && forall i :: i in healthy <==> Up(slots, hostDevices, i)
      ensures var (rotor, slot) := Pick(old(Rotor(rotateSessions, rotateRR)), healthy, key);
        && Rotor(rotateSessions, rotateRR) == rotor
        && device == if slot.Some? then Some(Device(slot.value)) else None
    {
      var up := HealthySlotIndices();
      healthy := up;
      if |up| == 0 { return None, healthy; }
      PickIsHealthy(Rotor(rotateSessions, rotateRR), up, key);
      if key != "" {
        if key in rotateSessions && Up(slots, hostDevices, rotateSessions[key]) {
          return Some(slots[rotateSessions[key]].value.device), healthy;
        }
        var pick := AssignSlot(key, up);
        return Some(slots[pick].value.device), healthy;
      }
      var pick := up[rotateRR % |up|];
      rotateRR := rotateRR + 1;
      return Some(slots[pick].value.device), healthy;
    }

    method RecycleSession(key: string)
      modifies this`rotateSessions
      ensures Rotor(rotateSessions, rotateRR) == Recycle(old(Rotor(rotateSessions, rotateRR)), key)
      ensures forall k :: k in rotateSessions <==> k in old(rotateSessions) && key != "" && k != key
      ensures forall k <- rotateSessions :: rotateSessions[k] == old(rotateSessions)[k]
    {
      if key == "" {
        rotateSessions := map[];
        return;
      }
      rotateSessions := rotateSessions - {key};
    }
  }

  lemma {:induction false} AllLive(slots: Slots)
    requires forall s <- slots :: Live(s)
    ensures LiveCount(slots) == |slots|
  {
    if slots != [] { AllLive(slots[..|slots| - 1]); }
  }

  /** A pool of two slots: two nodes that come up wherever they are started. */
  method TwoSlots(m: Manager)
    requires m.Aligned() && m.slots == [] && m.maxPorts >= 2
    requires forall k, port, node :: m.comesUp(k, port, node) <==> node == "a" || node == "b"
    modifies m
    ensures m.Aligned() && |m.slots| == 2 && forall i :: 0 <= i < 2 ==> Healthy(m.slots, m.hostDevices, i)
  {
    ghost var from, candidates := |m.attempts|, ["a", "b"];
    var _, _, _ := m.Reconcile(Some([]), Some(["a", "b"]));
    assert candidates[..2] == candidates;
    m.NeverRefused(from, m.startPort + |m.slots|, candidates);
    assert LiveCount(m.slots) == 2;
    forall i | 0 <= i < |m.slots| ensures Healthy(m.slots, m.hostDevices, i) { assert m.slots[i].Some?; }
    AllLive(m.slots);
  }

  /** A run that ends with a gap below a live slot: the first slot's tunnel dies, and the nodes listed by then do not
      come up. */
  method GapBelowLiveSlot() returns (m: Manager)
    ensures |m.slots| >= 2 && m.slots[0].None? && Healthy(m.slots, m.hostDevices, 1)
  {
    m := new Manager(40000, 10, 100, "tun", {}, (k, port, node) => node == "a" || node == "b");
    TwoSlots(m);
    assert Healthy(m.slots, m.hostDevices, 1);
    m.TunnelExits(0);
    assert Healthy(m.slots, m.hostDevices, 1);
    ghost var from, candidates := |m.attempts|, ["c", "d"];
    var _, _, _ := m.Reconcile(Some(["c", "d"]), Some(["c", "d"]));
    m.NeverStarted(from, candidates);
    assert candidates[..2] == candidates;
    assert |m.slots| >= 2;
  }
}
