/** Mutual exclusion of network operations (internal/services/operations.go), with any number of callers
    interleaving between the atomic sections of Begin and of the release closure it returns. */
module Coordination {
  import opened Text

  type Ticket = nat  // one call of Begin

  /** The sync.Once of a release closure: not called, its body between the two sections, body done. */
  datatype Once = Unused | Running | Done

  /** Where a call of Begin stands, and after Published its release closure. Passed calls and those told of a
      conflict get a closure that does nothing. */
  datatype Phase = Queued | Admitted | Entering | Published(once: Once) | Passed | Conflicted | Refused(shown: string) {
    predicate Holds() { Admitted? || Entering? || (Published? && !once.Done?) }
    predicate Counted() { Queued? || Admitted? }
    predicate Returned() { Published? || Passed? || Refused? }
  }

  datatype Operation = Operation(name: string, phase: Phase)

  /** `issued`: the tokens that contexts handed out so far carry. */
  datatype State = State(sem: bool, current: string, waiting: int, issued: set<string>, ops: map<Ticket, Operation>) {
    ghost predicate Holder(t: Ticket) { t in ops && ops[t].phase.Holds() }
    ghost predicate IsRunning(t: Ticket) { t in ops && ops[t].phase == Published(Unused) }
  }

  datatype Step =
    | Begin(token: Option<string>, name: string, wait: bool)  // up to its first blocking point
    | Acquire         // the semaphore send completes
    | Dequeue         // waiting--
    | ReadConflict    // the name the conflict error shows
    | Publish         // current = name; the context with its token and the closure are returned
    | Release         // a call of the closure, up to current = "" if it is the one the once lets in
    | Receive         // the semaphore receive in the closure's body

  /** A context carries no token, or one that was handed out - to whoever still has it. */
  predicate Enabled(s: State, t: Ticket, step: Step) {
    match step
    case Begin(token, _, _) => t !in s.ops && (token.None? || token.value in s.issued)
    case Acquire => t in s.ops && s.ops[t].phase.Queued? && !s.sem
    case Dequeue => t in s.ops && s.ops[t].phase.Admitted?
    case ReadConflict => t in s.ops && s.ops[t].phase.Conflicted?
    case Publish => t in s.ops && s.ops[t].phase.Entering?
    case Release => t in s.ops && s.ops[t].phase.Returned()
    case Receive => t in s.ops && s.ops[t].phase == Published(Running) && s.sem
  }

  function Move(s: State, t: Ticket, phase: Phase): State
    requires t in s.ops
  { s.(ops := s.ops[t := s.ops[t].(phase := phase)]) }

  function Add(s: State, t: Ticket, name: string, phase: Phase): State { s.(ops := s.ops[t := Operation(name, phase)]) }

  function Apply(s: State, t: Ticket, step: Step): State
    requires Enabled(s, t, step)
  {
    match step
    case Begin(token, name, wait) =>
      if token.Some? then Add(s, t, name, Passed)
      else if wait then Add(s, t, name, Queued).(waiting := s.waiting + 1)
      else if s.sem then Add(s, t, name, Conflicted)
      else Add(s, t, name, Entering).(sem := true)
    case Acquire => Move(s, t, Admitted).(sem := true)
    case Dequeue => Move(s, t, Entering).(waiting := s.waiting - 1)
    case ReadConflict => Move(s, t, Refused(s.current))
    case Publish => Move(s, t, Published(Unused)).(current := s.ops[t].name, issued := s.issued + {s.ops[t].name})
    case Release => if s.ops[t].phase == Published(Unused) then Move(s, t, Published(Running)).(current := "") else s
    case Receive => Move(s, t, Published(Done)).(sem := false)
  }

  const INITIAL := State(false, "", 0, {}, map[])

  ghost function Counted(ops: map<Ticket, Operation>): set<Ticket> { set t | t in ops && ops[t].phase.Counted() }

  ghost predicate Inv(s: State) {
    && (forall t, u :: s.Holder(t) && s.Holder(u) ==> t == u)
    && (s.sem <==> exists t :: s.Holder(t))
    && (forall t :: s.IsRunning(t) ==> s.current == s.ops[t].name)
    && ((forall t :: !s.IsRunning(t)) ==> s.current == "")
    && s.waiting == |Counted(s.ops)|
  }

  lemma SemaphoreSteps(s: State, t: Ticket, step: Step)
    requires Inv(s) && Enabled(s, t, step)
    ensures var n := Apply(s, t, step);
      && (forall a, b :: n.Holder(a) && n.Holder(b) ==> a == b)
      && (n.sem <==> exists a :: n.Holder(a))
  {
    var n := Apply(s, t, step);
    forall a | a != t ensures n.Holder(a) <==> s.Holder(a) {}
    if n.Holder(t) && !s.Holder(t) {
      assert !s.sem;
      assert forall a :: !s.Holder(a);
    } else if n.Holder(t) {
      assert s.Holder(t);
    } else if step.Receive? {
      assert s.Holder(t);
      assert forall a :: !n.Holder(a);
    } else if s.sem {
      var h :| s.Holder(h);
      assert n.Holder(h) && n.sem;
    } else {
      assert forall a :: !n.Holder(a);
    }
  }

  lemma CountedAfter(ops: map<Ticket, Operation>, t: Ticket, op: Operation)
    ensures |Counted(ops[t := op])| ==
      |Counted(ops)| + (if op.phase.Counted() then 1 else 0) - (if t in ops && ops[t].phase.Counted() then 1 else 0)
  {
    assert Counted(ops[t := op]) == if op.phase.Counted() then Counted(ops) + {t} else Counted(ops) - {t};
  }

  lemma WaitingSteps(s: State, t: Ticket, step: Step)
    requires s.waiting == |Counted(s.ops)| && Enabled(s, t, step)
    ensures var n := Apply(s, t, step); n.waiting == |Counted(n.ops)|
  {
    var n := Apply(s, t, step);
    assert n.ops == s.ops[t := n.ops[t]];
    CountedAfter(s.ops, t, n.ops[t]);
  }

  lemma CurrentSteps(s: State, t: Ticket, step: Step)
    requires Inv(s) && Enabled(s, t, step)
    ensures var n := Apply(s, t, step);
      && (forall a :: n.IsRunning(a) ==> n.current == n.ops[a].name)
      && ((forall a :: !n.IsRunning(a)) ==> n.current == "")
  {
    var n := Apply(s, t, step);
    forall a | a != t ensures n.IsRunning(a) <==> s.IsRunning(a) {}
    if step.Publish? || (step.Release? && s.IsRunning(t)) {
      forall a | n.IsRunning(a) ensures a == t {
        if a != t { assert s.Holder(a) && s.Holder(t); }
      }
    } else {
      assert n.current == s.current;
      assert n.IsRunning(t) <==> s.IsRunning(t);
    }
    if step.Publish? { assert n.IsRunning(t); }
  }

  lemma InvStep(s: State, t: Ticket, step: Step)
    requires Inv(s) && Enabled(s, t, step)
    ensures Inv(Apply(s, t, step))
  {
    SemaphoreSteps(s, t, step);
    WaitingSteps(s, t, step);
    CurrentSteps(s, t, step);
  }

  // ---- whole runs --------------------------------------------------------------------

  datatype Event = Event(ticket: Ticket, step: Step)

  /** A run: each event is enabled where it happens. */
  ghost predicate Possible(s: State, run: seq<Event>)
    decreases run
  {
    run == [] || (Enabled(s, run[0].ticket, run[0].step) && Possible(Apply(s, run[0].ticket, run[0].step), run[1..]))
  }

  ghost function After(s: State, run: seq<Event>): State
    requires Possible(s, run)
    decreases run
  { if run == [] then s else After(Apply(s, run[0].ticket, run[0].step), run[1..]) }

  lemma {:induction false} RunsKeepInv(s: State, run: seq<Event>)
    requires Inv(s) && Possible(s, run)
    ensures Inv(After(s, run))
    decreases run
  {
    if run != [] {
      InvStep(s, run[0].ticket, run[0].step);
      RunsKeepInv(Apply(s, run[0].ticket, run[0].step), run[1..]);
    }
  }

  lemma Reachable(run: seq<Event>)
    requires Possible(INITIAL, run)
    ensures Inv(After(INITIAL, run))
  {
    assert Counted(INITIAL.ops) == {};
    RunsKeepInv(INITIAL, run);
  }

  /** In every state any interleaving can reach: one holder at most; current is empty or names the holder's
      operation; waiting counts the callers between their increment and decrement; and the holder can go on,
      so the receive in a release never blocks. */
  lemma Exclusion(run: seq<Event>, t: Ticket, u: Ticket)
    requires Possible(INITIAL, run)
    ensures var s := After(INITIAL, run);
      && (s.Holder(t) && s.Holder(u) ==> t == u)
      && (s.current != "" ==> exists h :: s.IsRunning(h) && s.ops[h].name == s.current)
      && s.waiting == |Counted(s.ops)|
      && (s.Holder(t) ==> exists step :: Enabled(s, t, step) && Apply(s, t, step) != s)
  {
    Reachable(run);
    var s := After(INITIAL, run);
    if s.Holder(t) {
      var step := match s.ops[t].phase
        case Admitted => Dequeue
        case Entering => Publish
        case Published(Unused) => Release
        case _ => Receive;
      assert s.sem && Enabled(s, t, step) && Apply(s, t, step).ops[t] != s.ops[t];
    }
  }

  /** Nothing another caller does - queueing, failing, nesting, releasing once more or with a stale closure -
      takes the running operation's name or its semaphore away. */
  lemma OthersCannotDisturb(run: seq<Event>, holder: Ticket, other: Ticket, step: Step)
    requires Possible(INITIAL, run)
    requires var s := After(INITIAL, run); s.IsRunning(holder) && other != holder && Enabled(s, other, step)
    ensures var s := After(INITIAL, run); var n := Apply(s, other, step);
      && n.IsRunning(holder) && n.current == s.ops[holder].name && n.sem
      && (step.Begin? && step.token.None? && !step.wait ==> n.ops[other].phase.Conflicted?)
      && (step.ReadConflict? ==> n.ops[other].phase == Refused(s.ops[holder].name))
  {
    Reachable(run);
    var s := After(INITIAL, run);
    assert s.Holder(holder);
    InvStep(s, other, step);
    assert Apply(s, other, step).IsRunning(holder);
    assert Apply(s, other, step).Holder(holder);
  }

  /** A call with a token never touches the semaphore, the name or the counter, even if the operation that got
      the token is over; nor does any release of a call that is not the running operation. */
  lemma NestedAndRepeatedAreFree(run: seq<Event>, t: Ticket, step: Step)
    requires Possible(INITIAL, run) && Enabled(After(INITIAL, run), t, step)
    requires (step.Begin? && step.token.Some?) || (step.Release? && !After(INITIAL, run).IsRunning(t))
    ensures var s := After(INITIAL, run); var n := Apply(s, t, step);
      n.sem == s.sem && n.current == s.current && n.waiting == s.waiting && forall u :: n.Holder(u) <==> s.Holder(u)
  {
    var s := After(INITIAL, run);
    var n := Apply(s, t, step);
    forall u ensures n.Holder(u) <==> s.Holder(u) {}
  }

  /** What each step does, in every reachable state. A call without a token that does not wait gets in exactly when
      nobody is in; one that waits can get in exactly while nobody is; a call with a token just goes on. */
  lemma StepsMean(run: seq<Event>, t: Ticket, step: Step)
    requires Possible(INITIAL, run) && Enabled(After(INITIAL, run), t, step)
    ensures var s := After(INITIAL, run); var n := Apply(s, t, step); var free := forall h :: !s.Holder(h);
      match step
      case Begin(token, name, wait) =>
        && t in n.ops && n.ops[t].name == name
        && (token.Some? ==> n.ops[t].phase == Passed)
        && (token.None? && !wait ==> (n.Holder(t) <==> free) && (n.ops[t].phase == Conflicted <==> !free))
        && (token.None? && wait ==> !n.Holder(t) && (Enabled(n, t, Acquire) <==> free))
      case Acquire => free && n.Holder(t)
      case Dequeue => n.Holder(t) && n.waiting == s.waiting - 1
      case ReadConflict => n.ops[t].phase == Refused(s.current)
      case Publish => n.IsRunning(t) && n.current == s.ops[t].name && s.ops[t].name in n.issued
      case Release => !n.IsRunning(t) && (s.IsRunning(t) ==> n.Holder(t) && n.current == "")
      case Receive => s.Holder(t) && Released(n, t) && forall h :: !n.Holder(h)
  {
    Reachable(run);
    InvStep(After(INITIAL, run), t, step);
  }

  /** Why the closure needs its once: with the guard gone, any returned call of another operation could empty the
      name of the one that runs. */
  function UnguardedRelease(s: State): State { s.(current := "") }

  lemma OnceIsNeeded(run: seq<Event>, holder: Ticket, other: Ticket)
    requires Possible(INITIAL, run)
    requires var s := After(INITIAL, run);
      s.IsRunning(holder) && Released(s, other) && s.ops[holder].name != ""
    ensures !Inv(UnguardedRelease(After(INITIAL, run))) && Inv(Apply(After(INITIAL, run), other, Release))
  {
    Reachable(run);
    var s := After(INITIAL, run);
    InvStep(s, other, Release);
    assert UnguardedRelease(s).IsRunning(holder);
  }

  /** How often a call's closure received from the semaphore. */
  function Receives(run: seq<Event>, t: Ticket): nat {
    if run == [] then 0 else Receives(run[1..], t) + if run[0] == Event(t, Receive) then 1 else 0
  }

  /** The body of the call's closure is done. */
  ghost predicate Released(s: State, t: Ticket) { t in s.ops && s.ops[t].phase == Published(Done) }

  lemma {:induction false} ReceivesOnce(s: State, run: seq<Event>, t: Ticket)
    requires Possible(s, run)
    ensures Receives(run, t) == if !Released(s, t) && Released(After(s, run), t) then 1 else 0
    ensures Released(s, t) ==> Released(After(s, run), t)
    decreases run
  {
    if run != [] { ReceivesOnce(Apply(s, run[0].ticket, run[0].step), run[1..], t); }
  }

  /** However often, and by however many callers at once, a closure is called: it frees the semaphore at most
      once, and has done so exactly when its body is done. */
  lemma ReleasedOnce(run: seq<Event>, t: Ticket)
    requires Possible(INITIAL, run)
    ensures Receives(run, t) == if Released(After(INITIAL, run), t) then 1 else 0
  {
    ReceivesOnce(INITIAL, run, t);
  }

  /** A running operation stays the current one through any number of other callers' steps. */
  lemma {:induction false} StaysCurrent(before: seq<Event>, during: seq<Event>, holder: Ticket)
    requires Possible(INITIAL, before) && After(INITIAL, before).IsRunning(holder)
    requires Possible(After(INITIAL, before), during)
    requires forall i :: 0 <= i < |during| ==> during[i].ticket != holder
    ensures var n := After(After(INITIAL, before), during);
      n.IsRunning(holder) && n.current == After(INITIAL, before).ops[holder].name
    decreases |during|
  {
    if during == [] {
      Reachable(before);
    } else {
      var e := during[0];
      AfterAppend(INITIAL, before, e);
      OthersCannotDisturb(before, holder, e.ticket, e.step);
      StaysCurrent(before + [e], during[1..], holder);
    }
  }

  lemma {:induction false} AfterAppend(s: State, run: seq<Event>, e: Event)
    requires Possible(s, run) && Enabled(After(s, run), e.ticket, e.step)
    ensures Possible(s, run + [e]) && After(s, run + [e]) == Apply(After(s, run), e.ticket, e.step)
    decreases run
  {
    if run != [] {
      AfterAppend(Apply(s, run[0].ticket, run[0].step), run[1..], e);
      assert (run + [e])[1..] == run[1..] + [e];
    } else {
      assert (run + [e])[1..] == [];
    }
  }

  // ---- the object --------------------------------------------------------------------

  /** The closure Begin returns; `noop` for calls that took nothing. */
  datatype Closure = NoOp | Closure(ticket: Ticket)

  /** The coordinator's fields and the once of each closure; each method is one atomic section of the program. */
  class Coordinator {
    var sem: bool
    var current: string
    var waiting: int
    var onces: map<Ticket, Once>
    ghost var issued: set<string>
    ghost var ops: map<Ticket, Operation>

    ghost function Abstract(): State
      reads this
    { State(sem, current, waiting, issued, ops) }

    ghost predicate Valid()
      reads this
    {
      && Inv(Abstract())
      && (forall t :: t in onces <==> (t in ops && ops[t].phase.Published?))
      && forall t :: t in onces ==> ops[t].phase.once == onces[t]
    }

    constructor ()
      ensures Abstract() == INITIAL && Valid()
    {
      sem, current, waiting, onces, issued, ops := false, "", 0, map[], {}, map[];
      new;
      assert Counted(ops) == {};
    }

    /** Begin up to its first blocking point. */
    method BeginCall(ghost t: Ticket, token: Option<string>, name: string, wait: bool)
      returns (nested: bool, conflict: bool)
      requires Valid() && Enabled(Abstract(), t, Begin(token, name, wait))
      modifies this
      ensures Valid() && Abstract() == Apply(old(Abstract()), t, Begin(token, name, wait))
      ensures nested <==> token.Some?
      ensures conflict <==> token.None? && !wait && exists u :: old(Abstract()).Holder(u)
    {
      InvStep(Abstract(), t, Begin(token, name, wait));
      ghost var next := Apply(Abstract(), t, Begin(token, name, wait));
      nested, conflict := token.Some?, false;
      if !nested {
        if wait { waiting := waiting + 1; } else if sem { conflict := true; } else { sem := true; }
      }
      ops := next.ops;
    }

    /** The error names whatever operation is current by then. */
    method ConflictError(ghost t: Ticket) returns (shown: string)
      requires Valid() && Enabled(Abstract(), t, ReadConflict)
      modifies this`ops
      ensures Valid() && Abstract() == Apply(old(Abstract()), t, ReadConflict)
      ensures shown == current && ops[t].phase == Refused(shown)
      ensures shown != "" ==> exists u :: Abstract().IsRunning(u) && ops[u].name == shown
    {
      InvStep(Abstract(), t, ReadConflict);
      shown := current;
      ops := ops[t := ops[t].(phase := Refused(shown))];
    }

    method SemaphoreSend(ghost t: Ticket)
      requires Valid() && Enabled(Abstract(), t, Acquire)
      modifies this`sem, this`ops
      ensures Valid() && Abstract() == Apply(old(Abstract()), t, Acquire)
    {
      InvStep(Abstract(), t, Acquire);
      sem := true;
      ops := ops[t := ops[t].(phase := Admitted)];
    }

    method StopWaiting(ghost t: Ticket)
      requires Valid() && Enabled(Abstract(), t, Dequeue)
      modifies this`waiting, this`ops
      ensures Valid() && Abstract() == Apply(old(Abstract()), t, Dequeue)
    {
      InvStep(Abstract(), t, Dequeue);
      waiting := waiting - 1;
      ops := ops[t := ops[t].(phase := Entering)];
    }

    /** The rest of Begin: the context it returns carries the operation's name as token. */
    method SetCurrent(t: Ticket, name: string) returns (token: Option<string>, closure: Closure)
      requires Valid() && Enabled(Abstract(), t, Publish) && ops[t].name == name
      modifies this
      ensures Valid() && Abstract() == Apply(old(Abstract()), t, Publish)
      ensures token == Some(name) && name in issued && closure == Closure(t)
    {
      InvStep(Abstract(), t, Publish);
      current := name;
      onces := onces[t := Unused];
      issued, ops := issued + {name}, ops[t := ops[t].(phase := Published(Unused))];
      return Some(name), Closure(t);
    }

    /** Any call of the closure. `inside`: the once let this one in, and the receive is next. */
    method CallRelease(t: Ticket, closure: Closure) returns (inside: bool)
      requires Valid() && Enabled(Abstract(), t, Release)
      requires closure == if ops[t].phase.Published? then Closure(t) else NoOp
      modifies this`current, this`onces, this`ops
      ensures Valid() && Abstract() == Apply(old(Abstract()), t, Release)
      ensures inside <==> old(Abstract()).IsRunning(t)
    {
      InvStep(Abstract(), t, Release);
      inside := closure.Closure? && onces[t] == Unused;
      if inside {
        onces := onces[t := Running];
        current := "";
        ops := ops[t := ops[t].(phase := Published(Running))];
      }
    }

    method SemaphoreReceive(t: Ticket)
      requires Valid() && Enabled(Abstract(), t, Receive)
      modifies this`sem, this`onces, this`ops
      ensures Valid() && Abstract() == Apply(old(Abstract()), t, Receive)
    {
      InvStep(Abstract(), t, Receive);
      sem := false;
      onces := onces[t := Done];
      ops := ops[t := ops[t].(phase := Published(Done))];
    }
  }
}
