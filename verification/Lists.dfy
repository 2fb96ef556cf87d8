/** Filtering, counting and removing in sequences. */
module Lists {

  function Filter<T(!new)>(s: seq<T>, p: T -> bool): (r: seq<T>)
    ensures forall x :: x in r <==> x in s && p(x)
  {
    if s == [] then [] else
      var rest := Filter(s[1..], p);
      assert forall x :: x in s <==> x == s[0] || x in s[1..];
      if p(s[0]) then [s[0]] + rest else rest
  }

  function Count<T(!new)>(s: seq<T>, p: T -> bool): nat {
    if s == [] then 0 else (if p(s[0]) then 1 else 0) + Count(s[1..], p)
  }

  function RemoveFirst<T(!new)>(s: seq<T>, p: T -> bool): (r: seq<T>)
    ensures forall x <- r :: x in s
  {
    if s == [] then [] else if p(s[0]) then s[1..] else [s[0]] + RemoveFirst(s[1..], p)
  }

  lemma {:induction false} FilterAppend<T(!new)>(s: seq<T>, t: seq<T>, p: T -> bool)
    ensures Filter(s + t, p) == Filter(s, p) + Filter(t, p)
  {
    if s == [] {
      assert s + t == t;
    } else {
      var head := if p(s[0]) then [s[0]] else [];
      FilterAppend(s[1..], t, p);
      assert (s + t)[1..] == s[1..] + t;
      assert head + (Filter(s[1..], p) + Filter(t, p)) == (head + Filter(s[1..], p)) + Filter(t, p);
    }
  }

  /** One step of a loop that collects what passes. */
  lemma FilterStep<T(!new)>(s: seq<T>, k: nat, p: T -> bool)
    requires k < |s|
    ensures Filter(s[..k + 1], p) == Filter(s[..k], p) + if p(s[k]) then [s[k]] else []
  {
    assert s[..k + 1] == s[..k] + [s[k]];
    FilterAppend(s[..k], [s[k]], p);
  }

  lemma {:induction false} FilterAll<T(!new)>(s: seq<T>, p: T -> bool)
    requires forall x <- s :: p(x)
    ensures Filter(s, p) == s
  {
    if s != [] { FilterAll(s[1..], p); }
  }

  lemma {:induction false} FilterNone<T(!new)>(s: seq<T>, p: T -> bool)
    requires forall x <- s :: !p(x)
    ensures Filter(s, p) == []
  {
    if s != [] { FilterNone(s[1..], p); }
  }

  lemma {:induction false} FilterSame<T(!new)>(s: seq<T>, p: T -> bool, q: T -> bool)
    requires forall x <- s :: p(x) == q(x)
    ensures Filter(s, p) == Filter(s, q)
  {
    if s != [] { FilterSame(s[1..], p, q); }
  }

  /** Filtering twice, the second time more strictly, keeps the same or fewer; fewer when it drops something. */
  lemma {:induction false} FilterShrinks<T(!new)>(s: seq<T>, p: T -> bool, q: T -> bool)
    ensures |Filter(Filter(s, p), q)| <= |Filter(s, q)|
    ensures (exists x <- s :: q(x) && !p(x)) ==> |Filter(Filter(s, p), q)| < |Filter(s, q)|
  {
    if s != [] {
      FilterShrinks(s[1..], p, q);
      var rest := Filter(s[1..], p);
      if p(s[0]) { assert ([s[0]] + rest)[1..] == rest; }
      assert forall x :: x in s <==> x == s[0] || x in s[1..];
    }
  }

  /** Removing an element outside the filter is invisible to the filter. */
  lemma {:induction false} RemoveOutsideFilter<T(!new)>(s: seq<T>, p: T -> bool, q: T -> bool)
    requires forall x <- s :: p(x) ==> !q(x)
    ensures Filter(RemoveFirst(s, p), q) == Filter(s, q)
  {
    if s != [] && !p(s[0]) {
      RemoveOutsideFilter(s[1..], p, q);
      assert ([s[0]] + RemoveFirst(s[1..], p))[1..] == RemoveFirst(s[1..], p);
    }
  }

  lemma {:induction false} RemoveCountsDown<T(!new)>(s: seq<T>, p: T -> bool)
    ensures Count(RemoveFirst(s, p), p) == if Count(s, p) > 0 then Count(s, p) - 1 else 0
  {
    if s != [] && !p(s[0]) {
      RemoveCountsDown(s[1..], p);
      assert ([s[0]] + RemoveFirst(s[1..], p))[1..] == RemoveFirst(s[1..], p);
    }
  }

  lemma {:induction false} RemoveElsewhere<T(!new)>(s: seq<T>, p: T -> bool, q: T -> bool)
    requires forall x <- s :: !(p(x) && q(x))
    ensures Count(RemoveFirst(s, p), q) == Count(s, q)
  {
    if s != [] && !p(s[0]) {
      RemoveElsewhere(s[1..], p, q);
      assert ([s[0]] + RemoveFirst(s[1..], p))[1..] == RemoveFirst(s[1..], p);
    }
  }

  lemma {:induction false} NoneCounted<T(!new)>(s: seq<T>, q: T -> bool)
    ensures Count(s, q) == 0 <==> forall x <- s :: !q(x)
  {
    if s != [] {
      NoneCounted(s[1..], q);
      assert forall x :: x in s <==> x == s[0] || x in s[1..];
    }
  }

  // ---- sizes ------------------------------------------------------------------------------

  lemma SubsetSize<T>(a: set<T>, b: set<T>)
    requires a <= b
    ensures |a| <= |b|
  {
    assert b == a + (b - a);
  }

  // ---- folding from the left -----------------------------------------------------------------

  function Fold<A, B>(f: (A, B) -> A, r: A, s: seq<B>): A {
    if s == [] then r else f(Fold(f, r, s[..|s| - 1]), s[|s| - 1])
  }

  /** x leaves every accumulator alone. */
  ghost predicate Neutral<A(!new), B>(f: (A, B) -> A, x: B) { forall a :: f(a, x) == a }

  lemma FoldLast<A, B>(f: (A, B) -> A, r: A, s: seq<B>, x: B)
    ensures Fold(f, r, s + [x]) == f(Fold(f, r, s), x)
  {
    assert (s + [x])[..|s|] == s;
  }

  /** Dropping neutral elements changes nothing. */
  lemma {:induction false} FoldFilter<A(!new), B(!new)>(f: (A, B) -> A, r: A, s: seq<B>, p: B -> bool)
    requires forall x <- s :: p(x) || Neutral(f, x)
    ensures Fold(f, r, Filter(s, p)) == Fold(f, r, s)
  {
    if s != [] {
      var front, last := s[..|s| - 1], s[|s| - 1];
      FoldFilter(f, r, front, p);
      FilterAppend(front, [last], p);
      assert s == front + [last];
      if p(last) {
        FoldLast(f, r, Filter(front, p), last);
      } else {
        assert Neutral(f, last) && Filter(front, p) + [] == Filter(front, p);
      }
    }
  }

  lemma {:induction false} FoldNeutral<A(!new), B>(f: (A, B) -> A, r: A, s: seq<B>, t: seq<B>)
    requires forall x <- t :: Neutral(f, x)
    ensures Fold(f, r, s + t) == Fold(f, r, s)
  {
    if t == [] {
      assert s + t == s;
    } else {
      var front, last := t[..|t| - 1], t[|t| - 1];
      FoldNeutral(f, r, s, front);
      assert s + t == (s + front) + [last];
      FoldLast(f, r, s + front, last);
      assert Neutral(f, last);
    }
  }

  /** What element i makes true stays true when no later element undoes it. */
  lemma {:induction false} FoldEstablishes<A(!new), B>(f: (A, B) -> A, r: A, s: seq<B>, i: nat, q: A -> bool)
    requires i < |s| && forall a :: q(f(a, s[i]))
    requires forall j, a :: i < j < |s| && q(a) ==> q(f(a, s[j]))
    ensures q(Fold(f, r, s))
  {
    if i < |s| - 1 { FoldEstablishes(f, r, s[..|s| - 1], i, q); }
  }

  lemma {:induction false} FoldKeeps<A(!new), B>(f: (A, B) -> A, r: A, s: seq<B>, q: A -> bool)
    requires q(r) && forall j, a :: 0 <= j < |s| && q(a) ==> q(f(a, s[j]))
    ensures q(Fold(f, r, s))
  {
    if s != [] { FoldKeeps(f, r, s[..|s| - 1], q); }
  }

  function FlatMap<S, T>(s: seq<S>, f: S -> seq<T>): seq<T> {
    if s == [] then [] else FlatMap(s[..|s| - 1], f) + f(s[|s| - 1])
  }

  lemma FlatMapStep<S, T>(s: seq<S>, k: nat, f: S -> seq<T>)
    requires k < |s|
    ensures FlatMap(s[..k + 1], f) == FlatMap(s[..k], f) + f(s[k])
  {
    assert s[..k + 1][..k] == s[..k];
  }

  lemma {:induction false} FlatMapSingles<S, T>(s: seq<S>, f: S -> seq<T>, r: seq<T>)
    requires |s| == |r| && forall i :: 0 <= i < |s| ==> f(s[i]) == [r[i]]
    ensures FlatMap(s, f) == r
  {
    if s != [] {
      var n := |s| - 1;
      FlatMapSingles(s[..n], f, r[..n]);
      assert r == r[..n] + [r[n]];
    }
  }
}
