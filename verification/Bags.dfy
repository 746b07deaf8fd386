/** Filtering and flat-mapping finite multisets: what a query or a join returns when the order of
    rows is left to the store. */
module Bags {

  // ---------------------------------------------------------------------------
  // Filtering
  // ---------------------------------------------------------------------------

  ghost predicate IsFilter<T(!new)>(m: multiset<T>, p: T -> bool, r: multiset<T>)
  {
    forall x :: r[x] == if p(x) then m[x] else 0
  }

  lemma FilterExists<T(!new)>(m: multiset<T>, p: T -> bool)
    ensures exists r :: IsFilter(m, p, r)
    decreases |m|
  {
    if m == multiset{} {
      assert IsFilter(m, p, multiset{});
    } else {
      var x :| x in m;
      FilterExists(m - multiset{x}, p);
      var r :| IsFilter(m - multiset{x}, p, r);
      assert IsFilter(m, p, if p(x) then r + multiset{x} else r);
    }
  }

  ghost function Filter<T(!new)>(m: multiset<T>, p: T -> bool): (r: multiset<T>)
    ensures IsFilter(m, p, r)
  {
    FilterExists(m, p);
    var r :| IsFilter(m, p, r);
    r
  }

  lemma FilterUnion<T(!new)>(m: multiset<T>, n: multiset<T>, p: T -> bool)
    ensures Filter(m + n, p) == Filter(m, p) + Filter(n, p)
  {
  }

  lemma FilterAdd<T(!new)>(m: multiset<T>, x: T, p: T -> bool)
    ensures Filter(m + multiset{x}, p) == if p(x) then Filter(m, p) + multiset{x} else Filter(m, p)
  {
  }

  lemma FilterSmall<T(!new)>(x: T, p: T -> bool)
    ensures Filter(multiset{x}, p) == if p(x) then multiset{x} else multiset{}
    ensures Filter(multiset{}, p) == multiset{}
  {
  }

  // ---------------------------------------------------------------------------
  // Flat-mapping
  // ---------------------------------------------------------------------------

  ghost function Sum<S(!new), T>(s: seq<S>, f: S -> multiset<T>): multiset<T>
  {
    if s == [] then multiset{} else Sum(s[..|s| - 1], f) + f(s[|s| - 1])
  }

  lemma {:induction false} SumConcat<S(!new), T>(s: seq<S>, t: seq<S>, f: S -> multiset<T>)
    ensures Sum(s + t, f) == Sum(s, f) + Sum(t, f)
  {
    if t == [] {
      assert s + t == s;
    } else {
      var front, last := t[..|t| - 1], t[|t| - 1];
      assert (s + t)[..|s + t| - 1] == s + front;
      SumConcat(s, front, f);
    }
  }

  lemma TakenApart<S>(s: seq<S>, i: nat)
    requires i < |s|
    ensures s == (s[..i] + [s[i]]) + s[i + 1..]
  {
  }

  lemma RemoveOne<S>(s: seq<S>, i: nat)
    requires i < |s|
    ensures multiset(s) == multiset(s[..i] + s[i + 1..]) + multiset{s[i]}
  {
    assert s == s[..i] + [s[i]] + s[i + 1..];
  }

  lemma Cancel<S(!new)>(m: multiset<S>, n: multiset<S>, x: S)
    requires m + multiset{x} == n + multiset{x}
    ensures m == n
  {
    assert m == (m + multiset{x}) - multiset{x};
    assert n == (n + multiset{x}) - multiset{x};
  }

  lemma SumSnoc<S(!new), T>(s: seq<S>, x: S, f: S -> multiset<T>)
    ensures Sum(s + [x], f) == Sum(s, f) + f(x)
  {
    assert (s + [x])[..|s|] == s;
  }

  lemma SumWithout<S(!new), T>(s: seq<S>, i: nat, f: S -> multiset<T>)
    requires i < |s|
    ensures Sum(s, f) == Sum(s[..i] + s[i + 1..], f) + f(s[i])
  {
    TakenApart(s, i);
    SumAround(s[..i], s[i], s[i + 1..], f);
  }

  lemma SumAround<S(!new), T>(a: seq<S>, x: S, b: seq<S>, f: S -> multiset<T>)
    ensures Sum((a + [x]) + b, f) == Sum(a + b, f) + f(x)
  {
    SumConcat(a + [x], b, f);
    SumConcat(a, b, f);
    SumSnoc(a, x, f);
  }

  lemma {:induction false} SumOfPermutation<S(!new), T>(s: seq<S>, t: seq<S>, f: S -> multiset<T>)
    requires multiset(s) == multiset(t)
    ensures Sum(s, f) == Sum(t, f)
  {
    if s == [] {
    } else {
      var front, x := s[..|s| - 1], s[|s| - 1];
      assert x in multiset(s);
      var i :| 0 <= i < |t| && t[i] == x;
      assert front + s[|s|..] == front;
      RemoveOne(s, |s| - 1);
      RemoveOne(t, i);
      Cancel(multiset(front), multiset(t[..i] + t[i + 1..]), x);
      SumOfPermutation(front, t[..i] + t[i + 1..], f);
      SumWithout(t, i, f);
    }
  }

  ghost predicate Lists<S>(s: seq<S>, m: multiset<S>) { multiset(s) == m }

  lemma ListingExists<S(!new)>(m: multiset<S>)
    ensures exists s: seq<S> :: Lists(s, m)
    decreases |m|
  {
    if m == multiset{} {
      var none: seq<S> := [];
      assert Lists(none, m);
    } else {
      var x :| x in m;
      ListingExists(m - multiset{x});
      var s: seq<S> :| Lists(s, m - multiset{x});
      assert Lists(s + [x], m);
    }
  }

  ghost function Listing<S(!new)>(m: multiset<S>): (s: seq<S>)
    ensures multiset(s) == m
  {
    ListingExists(m);
    var s: seq<S> :| Lists(s, m);
    s
  }

  ghost function FlatMap<S(!new), T>(m: multiset<S>, f: S -> multiset<T>): multiset<T> { Sum(Listing(m), f) }

  lemma FlatMapNone<S(!new), T>(f: S -> multiset<T>)
    ensures FlatMap(multiset{}, f) == multiset{}
  {
    SumOfPermutation(Listing(multiset{}), [], f);
  }

  lemma FlatMapAdd<S(!new), T>(m: multiset<S>, x: S, f: S -> multiset<T>)
    ensures FlatMap(m + multiset{x}, f) == FlatMap(m, f) + f(x)
  {
    var s := Listing(m);
    SumOfPermutation(Listing(m + multiset{x}), s + [x], f);
    assert (s + [x])[..|s|] == s;
  }

  lemma FlatMapOne<S(!new), T>(x: S, f: S -> multiset<T>)
    ensures FlatMap(multiset{x}, f) == f(x)
  {
    FlatMapNone(f);
    FlatMapAdd(multiset{}, x, f);
    assert multiset{} + multiset{x} == multiset{x};
  }

  lemma FlatMapPair<S(!new), T>(x: S, y: S, f: S -> multiset<T>)
    ensures FlatMap(multiset{x, y}, f) == f(x) + f(y)
  {
    FlatMapOne(x, f);
    FlatMapAdd(multiset{x}, y, f);
    assert multiset{x} + multiset{y} == multiset{x, y};
  }

  lemma FlatMapUnion<S(!new), T>(m: multiset<S>, n: multiset<S>, f: S -> multiset<T>)
    ensures FlatMap(m + n, f) == FlatMap(m, f) + FlatMap(n, f)
  {
    SumOfPermutation(Listing(m + n), Listing(m) + Listing(n), f);
    SumConcat(Listing(m), Listing(n), f);
  }

  lemma {:induction false} FlatMapAgree<S(!new), T>(m: multiset<S>, f: S -> multiset<T>, g: S -> multiset<T>)
    requires forall x :: x in m ==> f(x) == g(x)
    ensures FlatMap(m, f) == FlatMap(m, g)
  {
    SumAgree(Listing(m), f, g);
  }

  lemma {:induction false} SumAgree<S(!new), T>(s: seq<S>, f: S -> multiset<T>, g: S -> multiset<T>)
    requires forall x :: x in multiset(s) ==> f(x) == g(x)
    ensures Sum(s, f) == Sum(s, g)
  {
    if s != [] {
      var front, x := s[..|s| - 1], s[|s| - 1];
      assert s == front + [x];
      assert x in multiset(s);
      SumAgree(front, f, g);
    }
  }

  /** An element of a flat-map comes from some element of the source. */
  lemma {:induction false} FlatMapMember<S(!new), T>(m: multiset<S>, f: S -> multiset<T>, y: T) returns (x: S)
    requires y in FlatMap(m, f)
    ensures x in m && y in f(x)
  {
    var s := Listing(m);
    var i := SumMember(s, f, y);
    x := s[i];
    assert x in multiset(s);
  }

  lemma {:induction false} SumMember<S(!new), T>(s: seq<S>, f: S -> multiset<T>, y: T) returns (i: nat)
    requires y in Sum(s, f)
    ensures i < |s| && y in f(s[i])
  {
    if y in f(s[|s| - 1]) {
      i := |s| - 1;
    } else {
      i := SumMember(s[..|s| - 1], f, y);
    }
  }

  lemma FlatMapHolds<S(!new), T>(m: multiset<S>, f: S -> multiset<T>, x: S, y: T)
    requires x in m && y in f(x)
    ensures y in FlatMap(m, f)
  {
    assert m == (m - multiset{x}) + multiset{x};
    FlatMapAdd(m - multiset{x}, x, f);
  }

  /** Filtering a flat-map is flat-mapping the filtered images. */
  lemma {:induction false} FilterFlatMap<S(!new), T(!new)>(m: multiset<S>, f: S -> multiset<T>, g: S -> multiset<T>, p: T -> bool)
    requires forall x :: x in m ==> g(x) == Filter(f(x), p)
    ensures Filter(FlatMap(m, f), p) == FlatMap(m, g)
    decreases |m|
  {
    if m == multiset{} {
      FlatMapNone(f);
      FlatMapNone(g);
      assert Filter(multiset{}, p) == multiset{};
    } else {
      var x :| x in m;
      var rest := m - multiset{x};
      assert m == rest + multiset{x};
      FilterFlatMap(rest, f, g, p);
      FlatMapAdd(rest, x, f);
      FlatMapAdd(rest, x, g);
      FilterUnion(FlatMap(rest, f), f(x), p);
    }
  }

  /** Elements whose image is empty may be filtered out first. */
  lemma {:induction false} FlatMapFiltered<S(!new), T>(m: multiset<S>, f: S -> multiset<T>, keep: S -> bool)
    requires forall x :: x in m && !keep(x) ==> f(x) == multiset{}
    ensures FlatMap(Filter(m, keep), f) == FlatMap(m, f)
    decreases |m|
  {
    if m == multiset{} {
      assert Filter(m, keep) == multiset{};
    } else {
      var x :| x in m;
      var rest := m - multiset{x};
      assert m == rest + multiset{x};
      FlatMapFiltered(rest, f, keep);
      FlatMapAdd(rest, x, f);
      FilterAdd(rest, x, keep);
      if keep(x) {
        FlatMapAdd(Filter(rest, keep), x, f);
      } else {
        assert FlatMap(rest, f) + multiset{} == FlatMap(rest, f);
      }
    }
  }

  /** Lists every element of a multiset once, in some order. */
  method ToSeq<T(==)>(m: multiset<T>) returns (s: seq<T>)
    ensures multiset(s) == m
  {
    s := [];
    var rest := m;
    while rest != multiset{}
      invariant multiset(s) + rest == m
      decreases |rest|
    {
      var x :| x in rest;
      rest := rest - multiset{x};
      s := s + [x];
    }
  }

  /** An element that only itself maps to, and once, keeps its count. */
  lemma {:induction false} FlatMapKeepsCount<S(!new)>(m: multiset<S>, f: S -> multiset<S>, x: S)
    requires forall y :: y in m ==> f(y)[x] == if y == x then 1 else 0
    ensures FlatMap(m, f)[x] == m[x]
    decreases |m|
  {
    if m == multiset{} {
      FlatMapNone(f);
    } else {
      var y :| y in m;
      var rest := m - multiset{y};
      assert m == rest + multiset{y};
      FlatMapKeepsCount(rest, f, x);
      FlatMapAdd(rest, y, f);
    }
  }
}
