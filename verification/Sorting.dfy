/** Stable sorting in place, as sort.SliceStable does it on short slices: insertion by swaps. The result
    is the only ordered arrangement that keeps equals in their given order. */
module Sorting {
  import opened Lists

  type Less<!T> = (T, T) -> bool

  /** What sort.SliceStable needs of its comparison. */
  ghost predicate StrictWeakOrder<T(!new)>(less: Less<T>) {
    && (forall x, y :: less(x, y) ==> !less(y, x))
    && (forall x, y, z :: less(x, z) ==> less(x, y) || less(y, z))
  }

  ghost predicate Ordered<T(!new)>(less: Less<T>, s: seq<T>) {
    forall i, j :: 0 <= i < j < |s| ==> !less(s[j], s[i])
  }

  function Equals<T(!new)>(less: Less<T>, z: T): T -> bool { (x: T) => !less(x, z) && !less(z, x) }

  /** Ordered, and every class of equals appears as it did. */
  ghost predicate StableSortOf<T(!new)>(less: Less<T>, s: seq<T>, r: seq<T>) {
    Ordered(less, r) && forall z :: Filter(r, Equals(less, z)) == Filter(s, Equals(less, z))
  }

  /** x goes behind the last element it is not less than. */
  function Insert<T(!new)>(less: Less<T>, s: seq<T>, x: T): seq<T> {
    if s == [] || !less(x, s[|s| - 1]) then s + [x]
    else Insert(less, s[..|s| - 1], x) + [s[|s| - 1]]
  }

  function Sorted<T(!new)>(less: Less<T>, s: seq<T>): seq<T> {
    if s == [] then [] else Insert(less, Sorted(less, s[..|s| - 1]), s[|s| - 1])
  }

  // ---- the result -------------------------------------------------------------------------

  lemma {:induction false} InsertKeepsElements<T(!new)>(less: Less<T>, s: seq<T>, x: T)
    ensures multiset(Insert(less, s, x)) == multiset(s) + multiset{x}
    ensures |Insert(less, s, x)| == |s| + 1
  {
    if s != [] && less(x, s[|s| - 1]) {
      InsertKeepsElements(less, s[..|s| - 1], x);
      assert s == s[..|s| - 1] + [s[|s| - 1]];
    }
  }

  lemma {:induction false} SortedKeepsElements<T(!new)>(less: Less<T>, s: seq<T>)
    ensures multiset(Sorted(less, s)) == multiset(s) && |Sorted(less, s)| == |s|
  {
    if s != [] {
      SortedKeepsElements(less, s[..|s| - 1]);
      InsertKeepsElements(less, Sorted(less, s[..|s| - 1]), s[|s| - 1]);
      assert s == s[..|s| - 1] + [s[|s| - 1]];
    }
  }

  lemma SortedOfOne<T(!new)>(less: Less<T>, s: seq<T>)
    requires |s| == 1
    ensures Sorted(less, s) == s
  {
    assert s[..0] == [] && Sorted(less, s[..0]) == [];
    assert Sorted(less, s) == Insert(less, [], s[0]);
  }

  lemma SameElements<T(!new)>(s: seq<T>, t: seq<T>)
    requires multiset(s) == multiset(t)
    ensures |s| == |t| && forall x :: x in s <==> x in t
  {
    assert |s| == |multiset(s)| == |t|;
    forall x ensures x in s <==> x in t { assert x in s <==> x in multiset(s); assert x in t <==> x in multiset(t); }
  }

  lemma {:induction false} InsertOrdered<T(!new)>(less: Less<T>, s: seq<T>, x: T)
    requires StrictWeakOrder(less) && Ordered(less, s)
    ensures Ordered(less, Insert(less, s, x))
  {
    if s == [] {
    } else {
      var n := |s| - 1;
      if less(x, s[n]) {
        InsertOrdered(less, s[..n], x);
        InsertKeepsElements(less, s[..n], x);
        var front := Insert(less, s[..n], x);
        forall y | y in front ensures !less(s[n], y) {
          assert y in multiset(front);
          assert y in s[..n] || y == x;
        }
      } else {
        forall i | 0 <= i < |s| ensures !less(x, s[i]) { assert i < n ==> !less(s[n], s[i]); }
      }
    }
  }

  lemma {:induction false} InsertStable<T(!new)>(less: Less<T>, s: seq<T>, x: T, z: T)
    requires StrictWeakOrder(less)
    ensures Filter(Insert(less, s, x), Equals(less, z)) == Filter(s, Equals(less, z)) + Filter([x], Equals(less, z))
  {
    var p := Equals(less, z);
    if s == [] || !less(x, s[|s| - 1]) {
      FilterAppend(s, [x], p);
    } else {
      var front, last := s[..|s| - 1], s[|s| - 1];
      InsertStable(less, front, x, z);
      FilterAppend(Insert(less, front, x), [last], p);
      FilterAppend(front, [last], p);
      assert s == front + [last];
      assert !(p(x) && p(last));
    }
  }

  lemma {:induction false} SortedIsStable<T(!new)>(less: Less<T>, s: seq<T>)
    requires StrictWeakOrder(less)
    ensures StableSortOf(less, s, Sorted(less, s))
  {
    if s != [] {
      var front, last := s[..|s| - 1], s[|s| - 1];
      SortedIsStable(less, front);
      InsertOrdered(less, Sorted(less, front), last);
      forall z ensures Filter(Sorted(less, s), Equals(less, z)) == Filter(s, Equals(less, z)) {
        InsertStable(less, Sorted(less, front), last, z);
        FilterAppend(front, [last], Equals(less, z));
        assert s == front + [last];
      }
    }
  }

  /** So whatever algorithm a library uses, a stable sort gives this sequence. */
  lemma {:induction false} StableSortUnique<T(!new)>(less: Less<T>, a: seq<T>, b: seq<T>)
    requires StrictWeakOrder(less) && Ordered(less, a) && Ordered(less, b)
    requires forall z :: Filter(a, Equals(less, z)) == Filter(b, Equals(less, z))
    ensures a == b
  {
    assert b == [] || b[0] in Filter(b, Equals(less, b[0]));
    if a != [] {
      var p := Equals(less, a[0]);
      assert a[0] in Filter(b, p);
      assert b[0] in Filter(a, Equals(less, b[0]));
      HeadIsLeast(less, a, b[0]);
      HeadIsLeast(less, b, a[0]);
      assert Filter(a, p)[0] == a[0] && Filter(b, p)[0] == b[0];
      forall z ensures Filter(a[1..], Equals(less, z)) == Filter(b[1..], Equals(less, z)) {
        assert Filter(a, Equals(less, z)) == Filter(b, Equals(less, z));
        if Equals(less, z)(a[0]) { assert Filter(a, Equals(less, z))[1..] == Filter(a[1..], Equals(less, z)); }
      }
      StableSortUnique(less, a[1..], b[1..]);
      assert a == [a[0]] + a[1..] && b == [b[0]] + b[1..];
    }
  }

  lemma HeadIsLeast<T(!new)>(less: Less<T>, s: seq<T>, x: T)
    requires StrictWeakOrder(less) && Ordered(less, s) && x in s
    ensures !less(x, s[0])
  {
    var i :| 0 <= i < |s| && s[i] == x;
    assert i > 0 ==> !less(s[i], s[0]);
  }

  // ---- orders in which no two elements are equal --------------------------------------------

  ghost predicate Separates<T(!new)>(less: Less<T>, s: seq<T>) {
    forall x, y :: x in s && y in s && x != y ==> less(x, y) || less(y, x)
  }

  lemma {:induction false} OrderedUnique<T(!new)>(less: Less<T>, a: seq<T>, b: seq<T>)
    requires StrictWeakOrder(less) && Ordered(less, a) && Ordered(less, b)
    requires multiset(a) == multiset(b) && Separates(less, a)
    ensures a == b
  {
    SameElements(a, b);
    if a != [] {
      SameHead(less, a, b);
      OrderedUnique(less, a[1..], b[1..]);
      assert a == [a[0]] + a[1..] && b == [b[0]] + b[1..];
    }
  }

  lemma SameHead<T(!new)>(less: Less<T>, a: seq<T>, b: seq<T>)
    requires StrictWeakOrder(less) && Ordered(less, a) && Ordered(less, b)
    requires multiset(a) == multiset(b) && Separates(less, a) && |a| == |b| > 0
    ensures a[0] == b[0] && multiset(a[1..]) == multiset(b[1..])
  {
    SameElements(a, b);
    assert a[0] in b && b[0] in a;
    HeadIsLeast(less, a, b[0]);
    HeadIsLeast(less, b, a[0]);
    assert a == [a[0]] + a[1..] && b == [b[0]] + b[1..];
    assert multiset(a[1..]) == multiset(a) - multiset{a[0]};
  }

  /** Then the given order does not matter. */
  lemma SortedIgnoresInputOrder<T(!new)>(less: Less<T>, s: seq<T>, t: seq<T>)
    requires StrictWeakOrder(less) && multiset(s) == multiset(t) && Separates(less, s)
    ensures Sorted(less, s) == Sorted(less, t)
  {
    SortedIsStable(less, s);
    SortedIsStable(less, t);
    SortedKeepsElements(less, s);
    SortedKeepsElements(less, t);
    SameElements(s, Sorted(less, s));
    OrderedUnique(less, Sorted(less, s), Sorted(less, t));
  }

  // ---- in place -----------------------------------------------------------------------------

  method SliceStable<T(!new)>(a: array<T>, less: Less<T>)
    modifies a
    ensures a[..] == Sorted(less, old(a[..]))
  {
    for i := 0 to a.Length
      invariant a[..i] == Sorted(less, old(a[..i])) && a[i..] == old(a[i..])
    {
      assert old(a[..i + 1])[..i] == old(a[..i]);
      SortedKeepsElements(less, old(a[..i]));
      Sink(a, i, less);
    }
    assert old(a[..a.Length]) == old(a[..]);
  }

  /** Swaps a[i] down to its place among the i before it. */
  method Sink<T(!new)>(a: array<T>, i: nat, less: Less<T>)
    requires i < a.Length
    modifies a
    ensures a[..i + 1] == Insert(less, old(a[..i]), old(a[i])) && a[i + 1..] == old(a[i + 1..])
  {
    var j := i;
    ghost var x, front := a[i], a[..i];
    assert front[..i] == front && front[i..] == [];
    while j > 0 && less(a[j], a[j - 1])
      invariant 0 <= j <= i && a[i + 1..] == old(a[i + 1..])
      invariant a[..i + 1] == front[..j] + [x] + front[j..]
      invariant Insert(less, front, x) == Insert(less, front[..j], x) + front[j..]
    {
      ghost var was := a[..i + 1];
      assert a[j] == was[j] && a[j - 1] == was[j - 1];
      a[j], a[j - 1] := a[j - 1], a[j];
      assert a[..i + 1] == was[j := was[j - 1]][j - 1 := was[j]];
      SwapDown(front, j, x);
      InsertUnfolds(less, front, j, x);
      j := j - 1;
    }
    assert a[j] == a[..i + 1][j];
    if j > 0 { assert a[j - 1] == a[..i + 1][j - 1]; }
  }

  lemma SwapDown<T>(s: seq<T>, j: nat, x: T)
    requires 0 < j <= |s|
    ensures (s[..j] + [x] + s[j..])[j := s[j - 1]][j - 1 := x] == s[..j - 1] + [x] + s[j - 1..]
  {}

  lemma InsertUnfolds<T(!new)>(less: Less<T>, s: seq<T>, j: nat, x: T)
    requires 0 < j <= |s| && less(x, s[j - 1])
    ensures Insert(less, s[..j], x) + s[j..] == Insert(less, s[..j - 1], x) + s[j - 1..]
  {
    assert s[..j][..j - 1] == s[..j - 1];
    assert [s[j - 1]] + s[j..] == s[j - 1..];
  }
}
