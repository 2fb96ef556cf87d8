/** Session assignment of the rotating port (internal/pool/pool.go, pickConnector and RecycleSession). */
module Rotation {
  import opened Arithmetic
  import opened Lists
  import opened Text

  /** Bindings from session key to slot index, and the round-robin counter. */
  datatype Rotor = Rotor(sessions: map<string, nat>, next: nat)

  /** Slot indices fit for traffic: ascending, so without repetition. */
  predicate Ascending(healthy: seq<nat>) { forall i, j :: 0 <= i < j < |healthy| ==> healthy[i] < healthy[j] }

  function Without(healthy: seq<nat>, used: set<nat>): (free: seq<nat>)
    ensures forall x :: x in free <==> x in healthy && x !in used
    ensures Ascending(healthy) ==> Ascending(free)
  {
    if healthy == [] then []
    else
      var rest := Without(healthy[1..], used);
      assert forall x :: x in healthy <==> x == healthy[0] || x in healthy[1..];
      assert forall i :: 0 <= i < |rest| ==> rest[i] in healthy[1..];
      if healthy[0] in used then rest else [healthy[0]] + rest
  }

  lemma {:induction false} WithoutAppend(healthy: seq<nat>, x: nat, used: set<nat>)
    ensures Without(healthy + [x], used) == Without(healthy, used) + (if x in used then [] else [x])
  {
    if healthy == [] {
      assert healthy + [x] == [x];
      assert Without([x][1..], used) == [];
    } else {
      WithoutAppend(healthy[1..], x, used);
      assert (healthy + [x])[1..] == healthy[1..] + [x] && (healthy + [x])[0] == healthy[0];
      var first, last := if healthy[0] in used then [] else [healthy[0]], if x in used then [] else [x];
      Regroup(first, Without(healthy[1..], used), last);
    }
  }

  lemma Regroup<T>(a: seq<T>, b: seq<T>, c: seq<T>)
    ensures a + (b + c) == (a + b) + c
  {}

  predicate Sticks(r: Rotor, healthy: seq<nat>, key: string) {
    key != "" && key in r.sessions && r.sessions[key] in healthy
  }

  /** One connection: the new rotor and the chosen slot, or None when no slot is healthy. */
  function Pick(r: Rotor, healthy: seq<nat>, key: string): (Rotor, Option<nat>) {
    if healthy == [] then (r, None)
    else if Sticks(r, healthy, key) then (r, Some(r.sessions[key]))
    else
      var free := Without(healthy, r.sessions.Values);
      var from := if key == "" || free == [] then healthy else free;
      var pick := from[r.next % |from|];
      (Rotor(if key == "" then r.sessions else r.sessions[key := pick], r.next + 1), Some(pick))
  }

  function Recycle(r: Rotor, key: string): Rotor {
    r.(sessions := if key == "" then map[] else r.sessions - {key})
  }

  /** A keyed pick that finds every healthy slot already bound to some session. */
  predicate Fallback(r: Rotor, healthy: seq<nat>, key: string) {
    key != "" && healthy != [] && !Sticks(r, healthy, key) && (forall x <- healthy :: x in r.sessions.Values)
  }

  ghost predicate Injective(sessions: map<string, nat>) {
    forall a, b :: a in sessions && b in sessions && sessions[a] == sessions[b] ==> a == b
  }

  /** The chosen slot is healthy, and outside a fallback no other session is bound to it. */
  lemma PickIsFresh(r: Rotor, healthy: seq<nat>, key: string)
    requires Injective(r.sessions)
    ensures var (n, slot) := Pick(r, healthy, key);
      && (slot.None? <==> healthy == [])
      && (slot.Some? ==> slot.value in healthy)
      && (slot.Some? && key != "" ==> key in n.sessions && n.sessions[key] == slot.value)
      && (!Fallback(r, healthy, key) ==> Injective(n.sessions))
      && (Fallback(r, healthy, key) ==> exists other <- r.sessions :: other != key && r.sessions[other] == slot.value)
  {
    var (n, slot) := Pick(r, healthy, key);
    if healthy != [] && !Sticks(r, healthy, key) && key != "" {
      var free := Without(healthy, r.sessions.Values);
      if free == [] {
        assert slot.value in healthy && slot.value !in free;
        assert slot.value in r.sessions.Values;
        var other :| other in r.sessions && r.sessions[other] == slot.value;
      } else {
        assert free[0] in healthy;
        assert slot.value in free;
      }
    }
  }

  // ---- runs ---------------------------------------------------------------------------

  /** What happens to the port: a connection while some slots are healthy, or a recycle request.
      The healthy set may differ from one connection to the next in any way. */
  datatype Event = Connect(key: string, healthy: seq<nat>) | Forget(key: string)

  function Step(r: Rotor, e: Event): Rotor {
    match e case Connect(key, healthy) => Pick(r, healthy, key).0 case Forget(key) => Recycle(r, key)
  }

  function After(r: Rotor, run: seq<Event>): Rotor
    decreases run
  { if run == [] then r else After(Step(r, run[0]), run[1..]) }

  /** No connection of the run finds all healthy slots bound. */
  predicate NoFallback(r: Rotor, run: seq<Event>)
    decreases run
  {
    run == []
    || ((run[0].Connect? ==> !Fallback(r, run[0].healthy, run[0].key)) && NoFallback(Step(r, run[0]), run[1..]))
  }

  /** The keys whose binding was last assigned by a fallback. */
  function Shared(r: Rotor, shared: set<string>, e: Event): set<string> {
    match e
    case Connect(key, healthy) =>
      if Fallback(r, healthy, key) then shared + {key}
      else if key == "" || healthy == [] || Sticks(r, healthy, key) then shared
      else shared - {key}
    case Forget(_) => shared
  }

  function SharedAfter(r: Rotor, shared: set<string>, run: seq<Event>): set<string>
    decreases run
  { if run == [] then shared else SharedAfter(Step(r, run[0]), Shared(r, shared, run[0]), run[1..]) }

  /** The bindings of all other keys are pairwise distinct. */
  ghost predicate DistinctExcept(sessions: map<string, nat>, shared: set<string>) {
    forall a, b :: a in sessions && b in sessions && a !in shared && b !in shared && a != b ==>
      sessions[a] != sessions[b]
  }

  lemma PickKeepsDistinct(r: Rotor, shared: set<string>, e: Event)
    requires DistinctExcept(r.sessions, shared)
    ensures DistinctExcept(Step(r, e).sessions, Shared(r, shared, e))
  {
    if e.Connect? && e.healthy != [] && !Sticks(r, e.healthy, e.key) && e.key != "" && !Fallback(r, e.healthy, e.key) {
      var free := Without(e.healthy, r.sessions.Values);
      var x :| x in e.healthy && x !in r.sessions.Values;
      assert x in free;
      assert free[r.next % |free|] in free;
    }
  }

  /** Over every run: two keys are bound to one slot only if one of them got its binding from a fallback. So
      without a fallback all bindings stay pairwise distinct. */
  lemma {:induction false} BindingsStayDistinct(r: Rotor, shared: set<string>, run: seq<Event>)
    requires DistinctExcept(r.sessions, shared)
    ensures DistinctExcept(After(r, run).sessions, SharedAfter(r, shared, run))
    ensures NoFallback(r, run) ==> SharedAfter(r, shared, run) <= shared
    decreases run
  {
    if run != [] {
      PickKeepsDistinct(r, shared, run[0]);
      BindingsStayDistinct(Step(r, run[0]), Shared(r, shared, run[0]), run[1..]);
    }
  }

  function Keys(run: seq<Event>): set<string> {
    set i | 0 <= i < |run| && run[i].Connect? && run[i].key != "" :: run[i].key
  }

  predicate Steady(run: seq<Event>, healthy: seq<nat>) {
    forall i :: 0 <= i < |run| && run[i].Connect? ==> run[i].healthy == healthy
  }

  ghost function Elements(s: seq<nat>): set<nat> { set x | x in s }

  lemma {:induction false} AscendingSize(s: seq<nat>)
    requires Ascending(s)
    ensures |Elements(s)| == |s|
  {
    if s != [] {
      AscendingSize(s[1..]);
      assert Elements(s) == {s[0]} + Elements(s[1..]);
    }
  }

  lemma {:induction false} ValuesAtMostKeys(m: map<string, nat>)
    ensures |m.Values| <= |m.Keys|
    decreases |m.Keys|
  {
    if m.Keys != {} {
      var k :| k in m.Keys;
      var rest := m - {k};
      ValuesAtMostKeys(rest);
      assert m.Values <= rest.Values + {m[k]} by {
        forall v | v in m.Values ensures v in rest.Values + {m[k]} {
          var j :| j in m && m[j] == v;
          if j != k { assert j in rest && rest[j] == v; }
        }
      }
      assert rest.Keys == m.Keys - {k};
      SubsetSize(m.Values, rest.Values + {m[k]});
    }
  }

  /** A fallback needs at least as many other bound sessions as there are healthy slots. */
  lemma FallbackNeedsFullPool(r: Rotor, healthy: seq<nat>, key: string)
    requires Ascending(healthy) && Fallback(r, healthy, key)
    ensures |r.sessions - {key}| >= |healthy|
  {
    var others := r.sessions - {key};
    forall x | x in healthy ensures x in others.Values {
      var k :| k in r.sessions && r.sessions[k] == x;
      assert k in others && others[k] == x;
    }
    AscendingSize(healthy);
    SubsetSize(Elements(healthy), others.Values);
    ValuesAtMostKeys(others);
    assert |others.Keys| == |others|;
  }

  lemma {:induction false} FewKeysNoFallback(r: Rotor, run: seq<Event>, healthy: seq<nat>, keys: set<string>)
    requires Ascending(healthy) && Steady(run, healthy) && Keys(run) <= keys && |keys| <= |healthy|
    requires r.sessions.Keys <= keys
    ensures NoFallback(r, run)
    decreases run
  {
    if run != [] {
      var e := run[0];
      if e.Connect? && Fallback(r, e.healthy, e.key) {
        assert e.key in Keys(run);
        FallbackNeedsFullPool(r, healthy, e.key);
        assert (r.sessions - {e.key}).Keys <= keys - {e.key};
        SubsetSize((r.sessions - {e.key}).Keys, keys - {e.key});
        assert false;
      }
      forall k | k in Keys(run[1..]) ensures k in Keys(run) {
        var i :| 0 <= i < |run[1..]| && run[1..][i].Connect? && run[1..][i].key == k;
        assert run[i + 1].key == k;
      }
      assert e.Connect? && e.key != "" ==> e.key in Keys(run);
      assert forall i :: 0 <= i < |run[1..]| ==> run[1..][i] == run[i + 1];
      FewKeysNoFallback(Step(r, e), run[1..], healthy, keys);
    }
  }

  /** Pigeonhole: on a fixed healthy set of n slots, a run that uses at most n session keys never falls back,
      however the connections, repeats, keyless connections and recycles are ordered - so all bound sessions
      hold different slots. */
  lemma FirstSessionsGetDistinctSlots(run: seq<Event>, healthy: seq<nat>, next: nat)
    requires Ascending(healthy) && Steady(run, healthy) && |Keys(run)| <= |healthy|
    ensures NoFallback(Rotor(map[], next), run) && Injective(After(Rotor(map[], next), run).sessions)
  {
    FewKeysNoFallback(Rotor(map[], next), run, healthy, Keys(run));
    BindingsStayDistinct(Rotor(map[], next), {}, run);
  }

  /** A session keeps its slot through any run in which the slot stays healthy and the session is not recycled. */
  lemma {:induction false} SessionKeepsSlot(r: Rotor, run: seq<Event>, key: string, slot: nat)
    requires key != "" && key in r.sessions && r.sessions[key] == slot
    requires forall i :: 0 <= i < |run| ==>
      if run[i].Connect? then slot in run[i].healthy else run[i].key != "" && run[i].key != key
    ensures var n := After(r, run);
      && key in n.sessions && n.sessions[key] == slot
      && forall healthy :: slot in healthy ==> Pick(n, healthy, key) == (n, Some(slot))
    decreases run
  {
    if run != [] {
      SessionKeepsSlot(Step(r, run[0]), run[1..], key, slot);
    }
  }

  lemma PickIsHealthy(r: Rotor, healthy: seq<nat>, key: string)
    requires healthy != []
    ensures Pick(r, healthy, key).1.Some? && Pick(r, healthy, key).1.value in healthy
  {
    var free := Without(healthy, r.sessions.Values);
    assert free != [] ==> free[r.next % |free|] in free;
  }

  /** The choices that are smaller. */
  ghost function Below(choice: set<nat>, slot: nat): set<nat> { set x | x in choice && x < slot }

  lemma RankInList(s: seq<nat>, i: nat)
    requires Ascending(s) && i < |s|
    ensures |Below(Elements(s), s[i])| == i
  {
    AscendingSize(s[..i]);
    assert Below(Elements(s), s[i]) == Elements(s[..i]);
  }

  /** The slots a session without one chooses from: those no session holds; all of them if there is none, or for the
      empty key. */
  ghost function Choice(sessions: map<string, nat>, healthy: seq<nat>, key: string): set<nat> {
    if key == "" || Unheld(sessions, healthy) == {} then Elements(healthy) else Unheld(sessions, healthy)
  }

  ghost function Unheld(sessions: map<string, nat>, healthy: seq<nat>): set<nat> {
    set x | x in healthy && forall k :: k in sessions ==> sessions[k] != x
  }

  lemma TurnOf(from: seq<nat>, next: nat)
    requires Ascending(from) && from != []
    ensures var slot := from[next % |from|];
      slot in Elements(from) && |Below(Elements(from), slot)| == next % |Elements(from)|
  {
    AscendingSize(from);
    RankInList(from, next % |from|);
  }

  lemma FreeIsUnheld(sessions: map<string, nat>, healthy: seq<nat>, key: string)
    ensures var free := Without(healthy, sessions.Values);
      Elements(if key == "" || free == [] then healthy else free) == Choice(sessions, healthy, key)
  {
    var free := Without(healthy, sessions.Values);
    assert Elements(free) == Unheld(sessions, healthy);
    if free != [] { assert free[0] in Elements(free); }
  }

  lemma AssignedPick(r: Rotor, healthy: seq<nat>, key: string)
    requires healthy != [] && !Sticks(r, healthy, key)
    ensures var free := Without(healthy, r.sessions.Values); var (n, slot) := Pick(r, healthy, key);
      var from := if key == "" || free == [] then healthy else free;
      && slot == Some(from[r.next % |from|]) && n.next == r.next + 1
      && n.sessions == if key == "" then r.sessions else r.sessions[key := slot.value]
  {}

  /** It takes the one whose turn it is: exactly next mod n of its n choices are smaller. The counter moves on by one,
      and no other binding changes. */
  lemma PickTakesTurns(r: Rotor, healthy: seq<nat>, key: string)
    requires Ascending(healthy) && healthy != []
    requires key == "" || key !in r.sessions || r.sessions[key] !in healthy
    ensures var (n, slot) := Pick(r, healthy, key); var choice := Choice(r.sessions, healthy, key);
      && slot.Some? && slot.value in choice && |Below(choice, slot.value)| == r.next % |choice|
      && n.next == r.next + 1 && n.sessions == if key == "" then r.sessions else r.sessions[key := slot.value]
  {
    var free := Without(healthy, r.sessions.Values);
    var from := if key == "" || free == [] then healthy else free;
    AssignedPick(r, healthy, key);
    FreeIsUnheld(r.sessions, healthy, key);
    TurnOf(from, r.next);
  }

  // ---- the selector and the forwarding probe -------------------------------------------

  /** The slot documentation promises that a slot which failed the forwarding probe is never picked, but the
      selector does not look at the probe's verdict. Whatever the bindings, the counter and the key, the pick
      forwards exactly when every healthy slot does. */
  lemma PickForwardsExactlyWhenAllDo(healthy: seq<nat>, forwards: set<nat>)
    requires healthy != []
    ensures (forall r: Rotor, key :: PickForwards(r, healthy, key, forwards)) <==> forall x <- healthy :: x in forwards
  {
    if forall x <- healthy :: x in forwards {
      forall r: Rotor, key ensures PickForwards(r, healthy, key, forwards) { PickIsHealthy(r, healthy, key); }
    } else {
      var i :| 0 <= i < |healthy| && healthy[i] !in forwards;
      KeylessPick(healthy, i);
      assert !PickForwards(Rotor(map[], i), healthy, "", forwards);
    }
  }

  lemma KeylessPick(healthy: seq<nat>, i: nat)
    requires i < |healthy|
    ensures Pick(Rotor(map[], i), healthy, "").1 == Some(healthy[i])
  {
    assert i % |healthy| == i;
  }

  predicate PickForwards(r: Rotor, healthy: seq<nat>, key: string, forwards: set<nat>) {
    var slot := Pick(r, healthy, key).1;
    slot.Some? && slot.value in forwards
  }

  // ---- round robin ---------------------------------------------------------------------

  /** The slots k keyless connections get. */
  function Picks(r: Rotor, healthy: seq<nat>, k: nat): (p: seq<nat>)
    requires healthy != []
    ensures |p| == k
    decreases k
  {
    if k == 0 then [] else
      var (n, slot) := Pick(r, healthy, "");
      [slot.value] + Picks(n, healthy, k - 1)
  }

  lemma {:induction false} PicksAt(r: Rotor, healthy: seq<nat>, k: nat, j: nat)
    requires healthy != [] && j < k
    ensures Picks(r, healthy, k)[j] == healthy[(r.next + j) % |healthy|]
    decreases k
  {
    if j > 0 { PicksAt(Pick(r, healthy, "").0, healthy, k - 1, j - 1); }
  }

  predicate NoRepeat(s: seq<nat>) { forall i, j :: 0 <= i < j < |s| ==> s[i] != s[j] }

  lemma ShortRunNoRepeat(r: Rotor, healthy: seq<nat>, k: nat)
    requires Ascending(healthy) && 0 < k <= |healthy|
    ensures NoRepeat(Picks(r, healthy, k))
  {
    forall i, j | 0 <= i < j < k ensures Picks(r, healthy, k)[i] != Picks(r, healthy, k)[j] {
      PicksAt(r, healthy, k, i);
      PicksAt(r, healthy, k, j);
      ResiduesDistinct(r.next, i, j, |healthy|);
      var x, y := (r.next + i) % |healthy|, (r.next + j) % |healthy|;
      assert healthy[if x < y then x else y] < healthy[if x < y then y else x];
    }
  }

  lemma {:induction false} NoRepeatCount(s: seq<nat>, x: nat)
    requires NoRepeat(s)
    ensures multiset(s)[x] == if x in s then 1 else 0
  {
    if s != [] {
      NoRepeatCount(s[1..], x);
      assert s == [s[0]] + s[1..];
    }
  }

  /** Any n consecutive keyless connections visit each of the n slots exactly once. */
  lemma FullTurnVisitsEachOnce(r: Rotor, healthy: seq<nat>, x: nat)
    requires Ascending(healthy) && x in healthy
    ensures multiset(Picks(r, healthy, |healthy|))[x] == 1
  {
    var n := |healthy|;
    var t :| 0 <= t < n && healthy[t] == x;
    var j := (t - r.next) % n;
    Wraps(r.next, t, n);
    PicksAt(r, healthy, n, j);
    assert Picks(r, healthy, n)[j] == x;
    ShortRunNoRepeat(r, healthy, n);
    NoRepeatCount(Picks(r, healthy, n), x);
  }

  lemma {:induction false} PicksSplit(r: Rotor, healthy: seq<nat>, a: nat, b: nat)
    requires healthy != []
    ensures Picks(r, healthy, a + b) == Picks(r, healthy, a) + Picks(r.(next := r.next + a), healthy, b)
    decreases a
  {
    if a > 0 {
      PicksSplit(Pick(r, healthy, "").0, healthy, a - 1, b);
    }
  }

  /** How often k keyless connections choose slot x. */
  function Visits(r: Rotor, healthy: seq<nat>, k: nat, x: nat): nat
    requires healthy != []
  { multiset(Picks(r, healthy, k))[x] }

  lemma VisitsOneTurn(r: Rotor, healthy: seq<nat>, x: nat)
    requires Ascending(healthy) && x in healthy
    ensures Visits(r, healthy, |healthy|, x) == 1
  {
    FullTurnVisitsEachOnce(r, healthy, x);
  }

  lemma VisitsFullTurn(r: Rotor, healthy: seq<nat>, k: nat, x: nat)
    requires Ascending(healthy) && x in healthy && k >= |healthy|
    ensures Visits(r, healthy, k, x) == 1 + Visits(r.(next := r.next + |healthy|), healthy, k - |healthy|, x)
  {
    VisitsSplit(r, healthy, |healthy|, k - |healthy|, x);
    VisitsOneTurn(r, healthy, x);
  }

  lemma VisitsSplit(r: Rotor, healthy: seq<nat>, a: nat, b: nat, x: nat)
    requires healthy != []
    ensures Visits(r, healthy, a + b, x) == Visits(r, healthy, a, x) + Visits(r.(next := r.next + a), healthy, b, x)
  {
    PicksSplit(r, healthy, a, b);
    CountInConcat(Picks(r, healthy, a), Picks(r.(next := r.next + a), healthy, b), x);
  }

  lemma CountInConcat(a: seq<nat>, b: seq<nat>, x: nat)
    ensures multiset(a + b)[x] == multiset(a)[x] + multiset(b)[x]
  {}

  lemma VisitsShort(r: Rotor, healthy: seq<nat>, k: nat, x: nat)
    requires Ascending(healthy) && healthy != [] && k < |healthy|
    ensures Visits(r, healthy, k, x) <= 1
  {
    if k > 0 {
      ShortRunNoRepeat(r, healthy, k);
      NoRepeatCount(Picks(r, healthy, k), x);
    }
  }

  /** Over any number of keyless connections, from any counter, each of the n slots is used k/n times or once more. */
  lemma {:induction false} RoundRobinIsFair(r: Rotor, healthy: seq<nat>, k: nat, x: nat)
    requires Ascending(healthy) && x in healthy
    ensures k / |healthy| <= Visits(r, healthy, k, x) <= k / |healthy| + 1
    decreases k
  {
    var n := |healthy|;
    if k < n {
      VisitsShort(r, healthy, k, x);
      DivModUnique(k, n, 0, k);
    } else {
      VisitsFullTurn(r, healthy, k, x);
      RoundRobinIsFair(r.(next := r.next + n), healthy, k - n, x);
      QuotientStep(k, n);
    }
  }
}
