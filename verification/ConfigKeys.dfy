/** Config references ("topic:${ORDERS_TOPIC}") matched against config_key units: the bucketed
    lookup of the linker and the full scan it must agree with. */
module ConfigKeys {
  import opened Strings
  import opened Units

  const MIN_LEAF_COMPONENTS := 2

  /** A config_key unit with its path and leaf split into words once. */
  datatype IndexedKey = IndexedKey(unit: Unit, path: seq<string>, leaf: seq<string>)

  function IndexKey(u: Unit): IndexedKey
  {
    IndexedKey(u, WordComponents(TrimPrefix(u.qualified, "config:")), WordComponents(u.name))
  }

  function IndexKeys(units: seq<Unit>): (r: seq<IndexedKey>)
    ensures |r| == |units| && forall i :: 0 <= i < |units| ==> r[i] == IndexKey(units[i])
  {
    seq(|units|, i requires 0 <= i < |units| => IndexKey(units[i]))
  }

  /** Match tiers: 2 for the key's whole path, 1 for its leaf alone, 0 for none. */
  function Tier(k: IndexedKey, ref: seq<string>): nat
  {
    if HasComponentSuffix(k.path, ref) then 2
    else if |k.leaf| >= MIN_LEAF_COMPONENTS && HasComponentSuffix(ref, k.leaf) then 1
    else 0
  }

  function Score(k: IndexedKey, ref: seq<string>, repo: string): nat
  {
    if Tier(k, ref) == 0 then 0 else Tier(k, ref) * 2 + if k.unit.repo == repo then 1 else 0
  }

  // ---------------------------------------------------------------------------
  // The full scan
  // ---------------------------------------------------------------------------

  datatype Best = NoKey | Best(unit: Unit, score: nat)

  function Consider(best: Best, k: IndexedKey, ref: seq<string>, repo: string): Best
  {
    var score := Score(k, ref, repo);
    if score == 0 then best
    else if best.NoKey? || score > best.score || (score == best.score && Less(k.unit.qualified, best.unit.qualified))
    then Best(k.unit, score)
    else best
  }

  /** Every key considered in load order. */
  function BestOf(keys: seq<IndexedKey>, ref: seq<string>, repo: string): Best
  {
    if keys == [] then NoKey else Consider(BestOf(keys[..|keys| - 1], ref, repo), Last(keys), ref, repo)
  }

  function ConfigValue(units: seq<Unit>, ref: string, repo: string): string
  {
    var words := WordComponents(ref);
    if words == [] then ""
    else match BestOf(IndexKeys(units), words, repo)
      case NoKey => ""
      case Best(u, _) => u.signature
  }

  /** What the scan picks: a matching key that no other key beats. */
  ghost predicate IsBest(keys: seq<IndexedKey>, ref: seq<string>, repo: string, best: Best)
  {
    match best
    case NoKey => forall i :: 0 <= i < |keys| ==> Score(keys[i], ref, repo) == 0
    case Best(u, score) =>
      && score > 0
      && (exists i :: 0 <= i < |keys| && keys[i].unit == u && Score(keys[i], ref, repo) == score)
      && (forall i :: 0 <= i < |keys| ==>
            Score(keys[i], ref, repo) < score
            || (Score(keys[i], ref, repo) == score && !Less(keys[i].unit.qualified, u.qualified)))
  }

  lemma {:induction false} ScanFindsBest(keys: seq<IndexedKey>, ref: seq<string>, repo: string)
    ensures IsBest(keys, ref, repo, BestOf(keys, ref, repo))
  {
    if keys != [] {
      var front, k := keys[..|keys| - 1], Last(keys);
      ScanFindsBest(front, ref, repo);
      var old_, new_ := BestOf(front, ref, repo), BestOf(keys, ref, repo);
      forall i | 0 <= i < |keys| && new_.Best?
        ensures Score(keys[i], ref, repo) < new_.score
             || (Score(keys[i], ref, repo) == new_.score && !Less(keys[i].unit.qualified, new_.unit.qualified))
      {
        LessIsStrict(k.unit.qualified, k.unit.qualified);
        if i < |front| && old_.Best? {
          assert keys[i] == front[i];
          LessTotal(keys[i].unit.qualified, old_.unit.qualified);
          LessIsStrict(k.unit.qualified, old_.unit.qualified);
          if Less(keys[i].unit.qualified, k.unit.qualified) && Less(k.unit.qualified, old_.unit.qualified) {
            LessTransitive(keys[i].unit.qualified, k.unit.qualified, old_.unit.qualified);
          }
        }
      }
      if old_.Best? {
        var j :| 0 <= j < |front| && front[j].unit == old_.unit && Score(front[j], ref, repo) == old_.score;
        assert keys[j] == front[j];
      }
    }
  }

  /** Key `i` matches, and no other key is of a higher score or, at the same score, of a smaller
      qualified name. */
  ghost predicate Unbeaten(keys: seq<IndexedKey>, i: nat, ref: seq<string>, repo: string)
    requires i < |keys|
  {
    && Score(keys[i], ref, repo) > 0
    && forall j :: 0 <= j < |keys| ==>
         Score(keys[j], ref, repo) < Score(keys[i], ref, repo)
         || (Score(keys[j], ref, repo) == Score(keys[i], ref, repo) && !Less(keys[j].unit.qualified, keys[i].unit.qualified))
  }

  /** Keys that tie in everything the ranking looks at hold the same value. */
  ghost predicate TiesAgree(units: seq<Unit>, ref: seq<string>, repo: string)
  {
    forall i, j :: 0 <= i < |units| && 0 <= j < |units|
      && Unbeaten(IndexKeys(units), i, ref, repo) && Unbeaten(IndexKeys(units), j, ref, repo)
      ==> units[i].signature == units[j].signature
  }

  ghost predicate LoadOrderIndependent(units: seq<Unit>, ref: string, repo: string)
  {
    forall reloaded: seq<Unit> :: multiset(reloaded) == multiset(units) ==> ConfigValue(reloaded, ref, repo) == ConfigValue(units, ref, repo)
  }

  lemma WinnerIsUnbeaten(units: seq<Unit>, ref: seq<string>, repo: string) returns (i: nat)
    requires BestOf(IndexKeys(units), ref, repo).Best?
    ensures i < |units| && units[i] == BestOf(IndexKeys(units), ref, repo).unit && Unbeaten(IndexKeys(units), i, ref, repo)
  {
    var keys, best := IndexKeys(units), BestOf(IndexKeys(units), ref, repo);
    ScanFindsBest(keys, ref, repo);
    i :| 0 <= i < |keys| && keys[i].unit == best.unit && Score(keys[i], ref, repo) == best.score;
  }

  lemma {:induction false} FirstUnbeatenWins(keys: seq<IndexedKey>, ref: seq<string>, repo: string)
    requires keys != [] && Unbeaten(keys, 0, ref, repo)
    ensures BestOf(keys, ref, repo) == Best(keys[0].unit, Score(keys[0], ref, repo))
  {
    var front := keys[..|keys| - 1];
    if front != [] {
      assert Unbeaten(front, 0, ref, repo);
      FirstUnbeatenWins(front, ref, repo);
    }
  }

  lemma MovedToFront(units: seq<Unit>, i: nat, ref: seq<string>, repo: string) returns (reloaded: seq<Unit>)
    requires i < |units| && Unbeaten(IndexKeys(units), i, ref, repo)
    ensures multiset(reloaded) == multiset(units)
    ensures BestOf(IndexKeys(reloaded), ref, repo) == Best(units[i], Score(IndexKey(units[i]), ref, repo))
  {
    reloaded := [units[i]] + (units[..i] + units[i + 1..]);
    assert units == units[..i] + [units[i]] + units[i + 1..];
    FrontedKeys(units, i, reloaded);
    UnbeatenAmongFewer(IndexKeys(units), i, IndexKeys(reloaded), ref, repo);
    FirstUnbeatenWins(IndexKeys(reloaded), ref, repo);
  }

  lemma FrontedKeys(units: seq<Unit>, i: nat, reloaded: seq<Unit>)
    requires i < |units| && reloaded == [units[i]] + (units[..i] + units[i + 1..])
    ensures forall j :: 0 <= j < |reloaded| ==> IndexKeys(reloaded)[j] in IndexKeys(units)
  {
    forall j | 0 <= j < |reloaded| ensures IndexKeys(reloaded)[j] in IndexKeys(units) {
      var k := if j == 0 then i else if j <= i then j - 1 else j;
      assert reloaded[j] == units[k];
      assert IndexKeys(reloaded)[j] == IndexKeys(units)[k];
    }
  }

  lemma UnbeatenAmongFewer(keys: seq<IndexedKey>, i: nat, some: seq<IndexedKey>, ref: seq<string>, repo: string)
    requires i < |keys| && Unbeaten(keys, i, ref, repo)
    requires some != [] && some[0] == keys[i] && forall j :: 0 <= j < |some| ==> some[j] in keys
    ensures Unbeaten(some, 0, ref, repo)
  {
    forall j | 0 <= j < |some|
      ensures Score(some[j], ref, repo) < Score(some[0], ref, repo)
           || (Score(some[j], ref, repo) == Score(some[0], ref, repo) && !Less(some[j].unit.qualified, some[0].unit.qualified))
    {
      var k :| 0 <= k < |keys| && keys[k] == some[j];
    }
  }

  /** The value does not depend on the order the keys were loaded in exactly when tied winners agree;
      qualified names that are unique among equally scored keys are one way to ensure it. */
  lemma LoadOrderMattersOnlyOnTies(units: seq<Unit>, ref: string, repo: string)
    requires WordComponents(ref) != []
    ensures LoadOrderIndependent(units, ref, repo) <==> TiesAgree(units, WordComponents(ref), repo)
  {
    var words := WordComponents(ref);
    if LoadOrderIndependent(units, ref, repo) {
      forall i, j | 0 <= i < |units| && 0 <= j < |units|
        && Unbeaten(IndexKeys(units), i, words, repo) && Unbeaten(IndexKeys(units), j, words, repo)
        ensures units[i].signature == units[j].signature
      {
        var a := MovedToFront(units, i, words, repo);
        var b := MovedToFront(units, j, words, repo);
        assert ConfigValue(a, ref, repo) == ConfigValue(units, ref, repo) == ConfigValue(b, ref, repo);
      }
    }
    if TiesAgree(units, words, repo) {
      forall reloaded: seq<Unit> | multiset(reloaded) == multiset(units)
        ensures ConfigValue(reloaded, ref, repo) == ConfigValue(units, ref, repo)
      {
        AgreeingTiesSettleValue(units, reloaded, ref, repo);
      }
    }
  }

  lemma SameElements(units: seq<Unit>, reloaded: seq<Unit>, i: nat) returns (j: nat)
    requires multiset(units) == multiset(reloaded) && i < |units|
    ensures j < |reloaded| && reloaded[j] == units[i] && IndexKeys(reloaded)[j] == IndexKeys(units)[i]
  {
    assert units[i] in multiset(reloaded);
    j :| 0 <= j < |reloaded| && reloaded[j] == units[i];
  }

  lemma AgreeingTiesSettleValue(units: seq<Unit>, reloaded: seq<Unit>, ref: string, repo: string)
    requires multiset(units) == multiset(reloaded) && TiesAgree(units, WordComponents(ref), repo)
    ensures ConfigValue(units, ref, repo) == ConfigValue(reloaded, ref, repo)
  {
    var words := WordComponents(ref);
    var ks, ls := IndexKeys(units), IndexKeys(reloaded);
    var a, b := BestOf(ks, words, repo), BestOf(ls, words, repo);
    ScanFindsBest(ks, words, repo);
    ScanFindsBest(ls, words, repo);
    if a.Best? {
      var i := WinnerIsUnbeaten(units, words, repo);
      var j := SameElements(units, reloaded, i);
    }
    if b.Best? {
      var j := WinnerIsUnbeaten(reloaded, words, repo);
      var i := SameElements(reloaded, units, j);
      forall k | 0 <= k < |ks|
        ensures Score(ks[k], words, repo) < Score(ks[i], words, repo)
             || (Score(ks[k], words, repo) == Score(ks[i], words, repo) && !Less(ks[k].unit.qualified, ks[i].unit.qualified))
      {
        var l := SameElements(units, reloaded, k);
      }
      assert Unbeaten(ks, i, words, repo);
      if a.Best? {
        var w := WinnerIsUnbeaten(units, words, repo);
      }
    }
  }

  // ---------------------------------------------------------------------------
  // Which key answers
  // ---------------------------------------------------------------------------

  /** The key's path ends in the words of the reference. */
  predicate PathNames(u: Unit, words: seq<string>) { HasComponentSuffix(WordComponents(TrimPrefix(u.qualified, "config:")), words) }

  /** The reference ends in the words of the key's own name, of which there are two at least. */
  predicate LeafNames(u: Unit, words: seq<string>) { |WordComponents(u.name)| >= 2 && HasComponentSuffix(words, WordComponents(u.name)) }

  /** Key a answers rather than b: named by its path, then of the asking repository, then of the smaller
      qualified name. */
  predicate Precedes(a: Unit, b: Unit, words: seq<string>, repo: string)
  {
    if PathNames(a, words) != PathNames(b, words) then PathNames(a, words)
    else if (a.repo == repo) != (b.repo == repo) then a.repo == repo
    else Less(a.qualified, b.qualified)
  }

  ghost predicate Answers(units: seq<Unit>, i: nat, words: seq<string>, repo: string)
  {
    && i < |units| && (PathNames(units[i], words) || LeafNames(units[i], words))
    && forall j :: 0 <= j < |units| && (PathNames(units[j], words) || LeafNames(units[j], words)) ==> !Precedes(units[j], units[i], words, repo)
  }

  lemma PrecedesByScore(a: Unit, b: Unit, words: seq<string>, repo: string)
    requires PathNames(a, words) || LeafNames(a, words)
    requires PathNames(b, words) || LeafNames(b, words)
    ensures var x, y := Score(IndexKey(a), words, repo), Score(IndexKey(b), words, repo);
            Precedes(a, b, words, repo) <==> x > y || (x == y && Less(a.qualified, b.qualified))
  {
  }

  /** The value of a reference is that of a matching key that no other matching key precedes, and is empty
      exactly without one or where that key's is. */
  lemma ValueIsOfAnsweringKey(units: seq<Unit>, ref: string, repo: string)
    ensures var words := WordComponents(ref);
            if exists i :: 0 <= i < |units| && (PathNames(units[i], words) || LeafNames(units[i], words))
            then exists i: nat :: Answers(units, i, words, repo) && ConfigValue(units, ref, repo) == units[i].signature
            else ConfigValue(units, ref, repo) == ""
  {
    var words := WordComponents(ref);
    var keys, best := IndexKeys(units), BestOf(IndexKeys(units), words, repo);
    ScanFindsBest(keys, words, repo);
    if i :| 0 <= i < |units| && (PathNames(units[i], words) || LeafNames(units[i], words)) {
      assert Score(keys[i], words, repo) > 0;
      var w := WinnerIsUnbeaten(units, words, repo);
      forall j | 0 <= j < |units| && (PathNames(units[j], words) || LeafNames(units[j], words))
        ensures !Precedes(units[j], units[w], words, repo)
      {
        PrecedesByScore(units[j], units[w], words, repo);
      }
      assert Answers(units, w, words, repo);
    } else if words != [] && best.Best? {
      var w := WinnerIsUnbeaten(units, words, repo);
      assert false;
    }
  }

  // ---------------------------------------------------------------------------
  // The index
  // ---------------------------------------------------------------------------

  /** A key is filed under the last word of its path and, when that is long enough to answer on its
      own, of its leaf. */
  predicate FiledUnder(k: IndexedKey, w: string)
  {
    || (k.path != [] && Last(k.path) == w)
    || (|k.leaf| >= MIN_LEAF_COMPONENTS && Last(k.leaf) == w)
  }

  /** Each bucket lists, in load order, exactly the keys filed under its word. */
  ghost predicate IsIndexOf(byLast: map<string, seq<IndexedKey>>, keys: seq<IndexedKey>)
  {
    forall w: string :: Bucket(byLast, w) == Filter(keys, k => FiledUnder(k, w))
  }

  /** Files one key under its one or two words. */
  method FileKey(before: map<string, seq<IndexedKey>>, k: IndexedKey) returns (byLast: map<string, seq<IndexedKey>>)
    requires "" !in k.leaf
    ensures forall w: string :: Bucket(byLast, w) == if FiledUnder(k, w) then Bucket(before, w) + [k] else Bucket(before, w)
  {
    byLast := before;
    var pathLast := "";
    if k.path != [] {
      pathLast := Last(k.path);
      byLast := byLast[pathLast := Bucket(byLast, pathLast) + [k]];
    }
    if |k.leaf| >= MIN_LEAF_COMPONENTS {
      var leafLast := Last(k.leaf);
      assert leafLast in k.leaf && leafLast != "";
      if leafLast != pathLast {
        byLast := byLast[leafLast := Bucket(byLast, leafLast) + [k]];
      }
    }
  }

  lemma IndexGrows(before: map<string, seq<IndexedKey>>, after: map<string, seq<IndexedKey>>, keys: seq<IndexedKey>, k: IndexedKey)
    requires IsIndexOf(before, keys)
    requires forall w: string :: Bucket(after, w) == if FiledUnder(k, w) then Bucket(before, w) + [k] else Bucket(before, w)
    ensures IsIndexOf(after, keys + [k])
  {
    forall w: string ensures Bucket(after, w) == Filter(keys + [k], k => FiledUnder(k, w)) {
      assert (keys + [k])[..|keys|] == keys && Last(keys + [k]) == k;
      assert Bucket(before, w) == Filter(keys, k => FiledUnder(k, w));
    }
  }

  method BuildConfigIndex(units: seq<Unit>) returns (byLast: map<string, seq<IndexedKey>>)
    ensures IsIndexOf(byLast, IndexKeys(units))
  {
    byLast := map[];
    ghost var keys := IndexKeys(units);
    for i := 0 to |units|
      invariant IsIndexOf(byLast, keys[..i])
    {
      var k := IndexKey(units[i]);
      ghost var before := byLast;
      byLast := FileKey(byLast, k);
      assert keys[..i + 1] == keys[..i] + [k];
      IndexGrows(before, byLast, keys[..i], k);
    }
    assert keys[..|units|] == keys;
  }

  /** A reference can only match inside the bucket of its last word. */
  lemma MatchesShareLastWord(k: IndexedKey, ref: seq<string>, repo: string)
    requires ref != [] && Score(k, ref, repo) > 0
    ensures FiledUnder(k, Last(ref))
  {
    if HasComponentSuffix(k.path, ref) {
      SuffixSharesLast(k.path, ref);
    } else {
      SuffixSharesLast(ref, k.leaf);
    }
  }

  /** Scanning one bucket is scanning every key. */
  lemma {:induction false} BucketScanIsFullScan(keys: seq<IndexedKey>, ref: seq<string>, repo: string)
    requires ref != []
    ensures BestOf(Filter(keys, k => FiledUnder(k, Last(ref))), ref, repo) == BestOf(keys, ref, repo)
  {
    if keys != [] {
      BucketScanIsFullScan(keys[..|keys| - 1], ref, repo);
      var rest := Filter(keys[..|keys| - 1], k => FiledUnder(k, Last(ref)));
      assert (rest + [Last(keys)])[..|rest|] == rest;
      if Score(Last(keys), ref, repo) > 0 {
        MatchesShareLastWord(Last(keys), ref, repo);
      }
    }
  }

  method ScanBucket(bucket: seq<IndexedKey>, words: seq<string>, repo: string) returns (best: Best)
    ensures best == BestOf(bucket, words, repo)
  {
    best := NoKey;
    for i := 0 to |bucket|
      invariant best == BestOf(bucket[..i], words, repo)
    {
      assert bucket[..i + 1][..i] == bucket[..i];
      var k := bucket[i];
      var tier := Tier(k, words);
      if tier == 0 {
        continue;
      }
      var score := tier * 2;
      if k.unit.repo == repo {
        score := score + 1;
      }
      if best.NoKey? || score > best.score || (score == best.score && Less(k.unit.qualified, best.unit.qualified)) {
        best := Best(k.unit, score);
      }
    }
    assert bucket[..|bucket|] == bucket;
  }

  method MatchConfigKeyIndexed(byLast: map<string, seq<IndexedKey>>, ghost units: seq<Unit>, ref: string, repo: string)
    returns (value: string)
    requires IsIndexOf(byLast, IndexKeys(units))
    ensures value == ConfigValue(units, ref, repo)
  {
    var words := WordComponents(ref);
    if words == [] {
      return "";
    }
    var bucket := Bucket(byLast, Last(words));
    var best := ScanBucket(bucket, words, repo);
    BucketScanIsFullScan(IndexKeys(units), words, repo);
    value := if best.NoKey? then "" else best.unit.signature;
  }
}
