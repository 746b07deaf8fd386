/** Which definitions a receiver expression owns: the memoised, bucketed lookup of the local linker
    against the plain test on each candidate. */
module Receivers {
  import opened Strings
  import opened Units

  /** A unit's qualified name minus its own name: (*UserRepo).Save -> [user, repo]. */
  function OwnerPath(u: Unit): seq<string>
  {
    var qual := WordComponents(u.qualified);
    var own := |WordComponents(u.name)|;
    if own < |qual| then qual[..|qual| - own] else []
  }

  predicate ReceiverMatches(u: Unit, recv: string)
  {
    var rc := WordComponents(recv);
    var qual := WordComponents(u.qualified);
    var own := |WordComponents(u.name)|;
    rc != [] && own < |qual| && HasComponentSuffix(qual[..|qual| - own], rc)
  }

  /** A receiver owns a unit if its words stand right before those of the unit's own name, in the words of the
      qualified name. */
  lemma ReceiverStandsBefore(u: Unit, recv: string)
    ensures ReceiverMatches(u, recv) <==>
              WordComponents(recv) != [] && exists pre: seq<string>, own: seq<string> ::
                WordComponents(u.qualified) == pre + WordComponents(recv) + own && |own| == |WordComponents(u.name)|
  {
    var rc, qual, n := WordComponents(recv), WordComponents(u.qualified), |WordComponents(u.name)|;
    if ReceiverMatches(u, recv) {
      var front := qual[..|qual| - n];
      var pre, own := front[..|front| - |rc|], qual[|qual| - n..];
      assert front == pre + rc;
      assert qual == pre + rc + own;
    }
    if pre: seq<string>, own: seq<string> :| rc != [] && qual == pre + rc + own && |own| == n {
      assert qual[..|qual| - n] == pre + rc;
    }
  }

  predicate OwnedUnder(u: Unit, w: string) { OwnerPath(u) != [] && Last(OwnerPath(u)) == w }

  /** The candidates owned under a word, and those a receiver owns, in their given order. */
  function UnderWord(cands: seq<Unit>, w: string): seq<Unit> { Filter(cands, u => OwnedUnder(u, w)) }

  function Owned(cands: seq<Unit>, recv: string): seq<Unit> { Filter(cands, u => ReceiverMatches(u, recv)) }

  function WithSuffix(cands: seq<Unit>, rc: seq<string>): seq<Unit> { Filter(cands, u => HasComponentSuffix(OwnerPath(u), rc)) }

  /** Filtering the bucket of the receiver's last word is filtering all the candidates. */
  lemma {:induction false} BucketHoldsOwned(cands: seq<Unit>, recv: string)
    requires WordComponents(recv) != []
    ensures WithSuffix(UnderWord(cands, Last(WordComponents(recv))), WordComponents(recv)) == Owned(cands, recv)
  {
    var rc := WordComponents(recv);
    if cands != [] {
      var front, u := cands[..|cands| - 1], Last(cands);
      BucketHoldsOwned(front, recv);
      var kept := UnderWord(front, Last(rc));
      assert (kept + [u])[..|kept|] == kept;
      if HasComponentSuffix(OwnerPath(u), rc) {
        SuffixSharesLast(OwnerPath(u), rc);
      }
    }
  }

  class UnitComponents {
    /** The candidates of each name, and the units by id; a run asks about no others. */
    ghost const byName: map<string, seq<Unit>>
    ghost const byId: map<string, Unit>
    var qualified: map<string, seq<string>>
    var byTail: map<string, map<string, seq<Unit>>>

    ghost predicate Known(u: Unit) { u.id in byId && byId[u.id] == u }

    ghost predicate Valid()
      reads this
    {
      && (forall name, i :: name in byName && 0 <= i < |byName[name]| ==> Known(byName[name][i]))
      && (forall id :: id in qualified && id in byId ==> qualified[id] == OwnerPath(byId[id]))
      && (forall name :: name in byTail ==> name in byName && IsTailIndex(byTail[name], byName[name]))
    }

    static ghost predicate IsTailIndex(idx: map<string, seq<Unit>>, cands: seq<Unit>)
    {
      forall w: string :: Bucket(idx, w) == UnderWord(cands, w)
    }

    constructor (ghost candidates: map<string, seq<Unit>>, ghost units: map<string, Unit>)
      requires forall name, i :: name in candidates && 0 <= i < |candidates[name]| ==>
                 candidates[name][i].id in units && units[candidates[name][i].id] == candidates[name][i]
      ensures Valid() && byName == candidates && byId == units
    {
      byName := candidates;
      byId := units;
      qualified := map[];
      byTail := map[];
    }

    method Owner(u: Unit) returns (path: seq<string>)
      requires Valid() && Known(u)
      modifies this`qualified
      ensures Valid() && path == OwnerPath(u)
    {
      if u.id in qualified {
        return qualified[u.id];
      }
      path := OwnerPath(u);
      qualified := qualified[u.id := path];
    }

    method OwnedBy(name: string, cands: seq<Unit>, recv: string) returns (owned: seq<Unit>)
      requires Valid() && name in byName && byName[name] == cands
      modifies this
      ensures Valid()
      ensures owned == Owned(cands, recv)
    {
      var rc := WordComponents(recv);
      if rc == [] {
        NothingMatchesNothing(cands, recv);
        return [];
      }
      if name !in byTail {
        var idx := BuildTailIndex(name, cands);
        byTail := byTail[name := idx];
      }
      var bucket := Bucket(byTail[name], Last(rc));
      assert bucket == UnderWord(cands, Last(rc));
      owned := Narrow(bucket, rc);
      BucketHoldsOwned(cands, recv);
    }

    method Narrow(bucket: seq<Unit>, rc: seq<string>) returns (owned: seq<Unit>)
      requires Valid() && forall i :: 0 <= i < |bucket| ==> Known(bucket[i])
      modifies this`qualified
      ensures Valid() && owned == WithSuffix(bucket, rc)
    {
      owned := [];
      for i := 0 to |bucket|
        invariant Valid()
        invariant owned == WithSuffix(bucket[..i], rc)
      {
        assert bucket[..i + 1][..i] == bucket[..i];
        var path := Owner(bucket[i]);
        if HasComponentSuffix(path, rc) {
          owned := owned + [bucket[i]];
        }
      }
      assert bucket[..|bucket|] == bucket;
    }

    method BuildTailIndex(name: string, cands: seq<Unit>) returns (idx: map<string, seq<Unit>>)
      requires Valid() && name in byName && byName[name] == cands
      modifies this`qualified
      ensures Valid() && IsTailIndex(idx, cands)
    {
      idx := map[];
      for i := 0 to |cands|
        invariant Valid()
        invariant IsTailIndex(idx, cands[..i])
      {
        assert cands[..i + 1][..i] == cands[..i];
        ghost var before := idx;
        var path := Owner(cands[i]);
        if path != [] {
          idx := idx[Last(path) := Bucket(idx, Last(path)) + [cands[i]]];
        }
        forall w: string ensures Bucket(idx, w) == UnderWord(cands[..i + 1], w) {
          assert Bucket(before, w) == UnderWord(cands[..i], w);
        }
      }
      assert cands[..|cands|] == cands;
    }
  }

  lemma {:induction false} NothingMatchesNothing(cands: seq<Unit>, recv: string)
    requires WordComponents(recv) == []
    ensures Owned(cands, recv) == []
  {
    if cands != [] {
      NothingMatchesNothing(cands[..|cands| - 1], recv);
    }
  }
}
