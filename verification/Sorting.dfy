/** Go's sort.Slice and sort.SliceStable: what callers may rely on, and one algorithm that meets it. */
module Sorting {

  /** `less` is a strict weak order on the elements of `s`: all sorting needs, ties allowed. */
  ghost predicate WeakOrder<T>(s: seq<T>, less: (T, T) -> bool)
  {
    && (forall i, j {:trigger Chain(i, j, i)} :: 0 <= i < |s| && 0 <= j < |s| && less(s[i], s[j]) ==> !less(s[j], s[i]))
    && (forall i, j, k {:trigger Chain(i, j, k)} ::
          0 <= i < |s| && 0 <= j < |s| && 0 <= k < |s| && !less(s[i], s[j]) && !less(s[j], s[k]) ==> !less(s[i], s[k]))
  }

  /** Names a chain of comparisons, so that transitivity is used only where a proof asks for it. */
  predicate Chain(i: int, j: int, k: int) { true }

  ghost predicate Sorted<T>(s: seq<T>, less: (T, T) -> bool)
  {
    forall i, j :: 0 <= i < j < |s| ==> !less(s[j], s[i])
  }

  /** `order` lists every index of `s` once, ascending by `less` and, among equals, by position. */
  ghost predicate StableOrder<T>(s: seq<T>, less: (T, T) -> bool, order: seq<nat>)
  {
    && (forall a :: 0 <= a < |order| ==> order[a] < |s|)
    && (forall a, b :: 0 <= a < b < |order| ==> InOrder(s, less, order[a], order[b]))
  }

  /** Element `x` may stand before element `y`; of two equals the earlier one does. */
  predicate InOrder<T>(s: seq<T>, less: (T, T) -> bool, x: nat, y: nat)
    requires x < |s| && y < |s|
  {
    !less(s[y], s[x]) && (less(s[x], s[y]) || x < y)
  }

  ghost predicate Selects<T>(s: seq<T>, order: seq<nat>, r: seq<T>)
  {
    |order| == |r| && forall a :: 0 <= a < |r| ==> order[a] < |s| && r[a] == s[order[a]]
  }

  /** Every one of the first n numbers once. */
  ghost predicate Lists(order: seq<nat>, n: nat)
  {
    && |order| == n && (forall a, b :: 0 <= a < b < n ==> order[a] != order[b])
    && (forall a :: 0 <= a < n ==> order[a] < n) && forall i: nat :: i < n ==> i in order
  }

  lemma {:induction false} AllOfThem(order: seq<nat>, n: nat)
    requires |order| == n && (forall a, b :: 0 <= a < b < n ==> order[a] != order[b]) && forall a :: 0 <= a < n ==> order[a] < n
    ensures forall i: nat :: i < n ==> i in order
  {
    var some := set a | 0 <= a < n :: order[a];
    DistinctCount(order);
    if i: nat :| i < n && i !in order {
      assert some <= FirstNumbers(n) - {i};
      Fewer(some, FirstNumbers(n) - {i});
    }
  }

  lemma Fewer(a: set<nat>, b: set<nat>)
    requires a <= b
    ensures |a| <= |b|
  {
    assert b == a + (b - a);
  }

  lemma {:induction false} DistinctCount(order: seq<nat>)
    requires forall a, b :: 0 <= a < b < |order| ==> order[a] != order[b]
    ensures |set a | 0 <= a < |order| :: order[a]| == |order|
  {
    if order != [] {
      var n := |order| - 1;
      DistinctCount(order[..n]);
      assert (set a | 0 <= a < |order| :: order[a]) == (set a | 0 <= a < n :: order[..n][a]) + {order[n]};
    }
  }

  function FirstNumbers(n: nat): (r: set<nat>)
    ensures |r| == n && forall i: nat :: i in r <==> i < n
  {
    if n == 0 then {} else FirstNumbers(n - 1) + {n - 1}
  }

  lemma StableOrderLists<T>(s: seq<T>, less: (T, T) -> bool, order: seq<nat>)
    requires WeakOrder(s, less) && StableOrder(s, less, order) && |order| == |s|
    ensures Lists(order, |s|)
  {
    forall a, b | 0 <= a < b < |order| ensures order[a] != order[b] {
      assert InOrder(s, less, order[a], order[b]);
      assert Chain(order[a], order[b], order[a]);
    }
    AllOfThem(order, |s|);
  }

  lemma InsertKeepsOrder<T>(s: seq<T>, less: (T, T) -> bool, order: seq<nat>, i: nat, p: nat)
    requires WeakOrder(s, less) && StableOrder(s, less, order)
    requires i < |s| && p <= |order| && forall a :: 0 <= a < |order| ==> order[a] < i
    requires forall q :: p <= q < |order| ==> less(s[i], s[order[q]])
    requires p > 0 ==> !less(s[i], s[order[p - 1]])
    ensures StableOrder(s, less, order[..p] + [i] + order[p..])
  {
    var longer := order[..p] + [i] + order[p..];
    forall q | 0 <= q < p ensures !less(s[i], s[order[q]]) {
      if q < p - 1 {
        assert Chain(i, order[p - 1], order[q]);
      }
    }
    forall q | p <= q < |order| ensures !less(s[order[q]], s[i]) {
      assert Chain(i, order[q], i);
    }
    forall a, b | 0 <= a < b < |longer|
      ensures InOrder(s, less, longer[a], longer[b])
    {
      if b < p {
        assert InOrder(s, less, order[a], order[b]);
      } else if a > p {
        assert InOrder(s, less, order[a - 1], order[b - 1]);
      } else if a < p < b {
        assert InOrder(s, less, order[a], order[b - 1]);
      }
    }
  }

  lemma InsertKeepsSelection<T>(s: seq<T>, order: seq<nat>, r: seq<T>, i: nat, p: nat)
    requires Selects(s, order, r) && i < |s| && |r| == i && p <= i && multiset(r) == multiset(s[..i])
    requires forall a :: 0 <= a < i ==> order[a] < i
    ensures forall a :: 0 <= a <= i ==> (order[..p] + [i] + order[p..])[a] <= i
    ensures Selects(s, order[..p] + [i] + order[p..], r[..p] + [s[i]] + r[p..])
    ensures multiset(r[..p] + [s[i]] + r[p..]) == multiset(s[..i + 1])
  {
    assert r == r[..p] + r[p..];
    assert s[..i + 1] == s[..i] + [s[i]];
  }

  lemma OrderSorts<T>(s: seq<T>, less: (T, T) -> bool, order: seq<nat>, r: seq<T>)
    requires Selects(s, order, r) && StableOrder(s, less, order)
    ensures Sorted(r, less)
  {
  }

  /** Where element `i` goes: after every earlier element it is not less than. */
  method Position<T>(s: seq<T>, less: (T, T) -> bool, ghost order: seq<nat>, r: seq<T>, i: nat) returns (p: nat)
    requires i < |s| && Selects(s, order, r)
    ensures p <= |r| && (p > 0 ==> !less(s[i], r[p - 1]))
    ensures forall q :: p <= q < |r| ==> less(s[i], s[order[q]])
  {
    p := |r|;
    while p > 0 && less(s[i], r[p - 1])
      invariant p <= |r|
      invariant forall q :: p <= q < |r| ==> less(s[i], s[order[q]])
    {
      p := p - 1;
    }
  }

  /** The first i elements, in order. */
  ghost predicate SortedUpTo<T>(s: seq<T>, less: (T, T) -> bool, order: seq<nat>, r: seq<T>, i: nat)
    requires i <= |s|
  {
    && |r| == i && multiset(r) == multiset(s[..i])
    && Selects(s, order, r) && StableOrder(s, less, order)
    && forall a :: 0 <= a < i ==> order[a] < i
  }

  method Insert<T>(s: seq<T>, less: (T, T) -> bool, ghost order: seq<nat>, r: seq<T>, i: nat) returns (r': seq<T>, ghost order': seq<nat>)
    requires WeakOrder(s, less) && i < |s| && SortedUpTo(s, less, order, r, i)
    ensures SortedUpTo(s, less, order', r', i + 1)
  {
    var p := Position(s, less, order, r, i);
    InsertKeepsOrder(s, less, order, i, p);
    InsertKeepsSelection(s, order, r, i, p);
    r' := r[..p] + [s[i]] + r[p..];
    order' := order[..p] + [i] + order[p..];
  }

  method SliceStable<T>(s: seq<T>, less: (T, T) -> bool) returns (r: seq<T>, ghost order: seq<nat>)
    requires WeakOrder(s, less)
    ensures |r| == |s| && multiset(r) == multiset(s)
    ensures Selects(s, order, r) && StableOrder(s, less, order)
    ensures Sorted(r, less)
  {
    r, order := [], [];
    for i := 0 to |s|
      invariant SortedUpTo(s, less, order, r, i)
    {
      r, order := Insert(s, less, order, r, i);
    }
    assert s[..|s|] == s;
    OrderSorts(s, less, order, r);
  }

  method Slice<T>(s: seq<T>, less: (T, T) -> bool) returns (r: seq<T>)
    requires WeakOrder(s, less)
    ensures |r| == |s| && multiset(r) == multiset(s) && Sorted(r, less)
  {
    ghost var order;
    r, order := SliceStable(s, less);
  }
}
