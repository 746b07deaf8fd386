/** Fusing the lists of several searchers: hits covering the same code become one cluster, scores are
    added, and under reciprocal rank fusion the weights decide what can outrank what. */
module Fusion {
  import opened Wrappers
  import opened Hits
  import opened Strings
  import Sorting

  type Source = string

  /** One candidate: the searcher, its rank there (from zero) and the hit. */
  datatype Entry = Entry(source: Source, rank: nat, hit: Hit)

  type Contribution = Entry -> real

  /** The reason one searcher gave for one hit. */
  datatype Found = Found(reason: string, source: Source)

  /** `key` is the key of the hit that opened the cluster. */
  datatype Cluster = Cluster(key: SpanKey, hit: Hit, score: real, bestRank: nat, sources: set<Source>, found: seq<Found>)

  // ---------------------------------------------------------------------------
  // Reasons
  // ---------------------------------------------------------------------------

  function AddReasons(reasons: seq<string>, parts: seq<string>): seq<string>
  {
    if parts == [] then reasons
    else
      var before, part := AddReasons(reasons, parts[..|parts| - 1]), parts[|parts| - 1];
      if part == "" || part in before then before else before + [part]
  }

  const BLANKS: set<char> := {' ', '\t', '\n', '\r'}

  function Trimmed(parts: seq<string>): seq<string>
  {
    seq(|parts|, i requires 0 <= i < |parts| => Trim(parts[i], BLANKS))
  }

  function AppendReason(reasons: seq<string>, reason: string, source: Source): seq<string>
  {
    AddReasons(reasons, Trimmed(Split(if reason == "" then source else reason, '+')))
  }

  /** The reasons of a cluster, hit after hit. */
  function Reasons(found: seq<Found>): seq<string>
  {
    if found == [] then []
    else AppendReason(Reasons(found[..|found| - 1]), found[|found| - 1].reason, found[|found| - 1].source)
  }

  ghost predicate Unique(s: seq<string>) { forall i, j :: 0 <= i < j < |s| ==> s[i] != s[j] }

  /** First-seen order, nothing twice, nothing lost. */
  lemma {:induction false} ReasonsStayUnique(reasons: seq<string>, parts: seq<string>)
    requires Unique(reasons)
    ensures Unique(AddReasons(reasons, parts)) && reasons <= AddReasons(reasons, parts)
    ensures forall p :: p in AddReasons(reasons, parts) <==> p in reasons || (p in parts && p != "")
  {
    if parts != [] {
      var n := |parts| - 1;
      ReasonsStayUnique(reasons, parts[..n]);
      assert parts == parts[..n] + [parts[n]];
    }
  }

  // ---------------------------------------------------------------------------
  // Clustering
  // ---------------------------------------------------------------------------

  /** The first cluster opened under `key`, or |cs|. */
  function WithKey(cs: seq<Cluster>, key: SpanKey): (i: nat)
    ensures i <= |cs|
  {
    if cs == [] then 0
    else
      var i := WithKey(cs[..|cs| - 1], key);
      if i < |cs| - 1 || cs[|cs| - 1].key == key then i else |cs|
  }

  /** A cluster may take an overlapping hit of a searcher it has nothing from yet. */
  predicate Free(c: Cluster, e: Entry) { e.source !in c.sources && Overlaps(c.hit, e.hit) }

  /** The first cluster free for e, or |cs|. */
  function FirstFree(cs: seq<Cluster>, e: Entry): (i: nat)
    ensures i <= |cs|
  {
    if cs == [] then 0
    else
      var i := FirstFree(cs[..|cs| - 1], e);
      if i < |cs| - 1 || Free(cs[|cs| - 1], e) then i else |cs|
  }

  /** The cluster e goes to, or |cs| for a new one. */
  function Target(cs: seq<Cluster>, e: Entry): (i: nat)
    ensures i <= |cs|
  {
    var i := WithKey(cs, Key(e.hit));
    if i < |cs| then i else FirstFree(cs, e)
  }

  lemma {:induction false} WithKeyIs(cs: seq<Cluster>, key: SpanKey, i: nat)
    ensures i == WithKey(cs, key) <==>
              && i <= |cs| && (i < |cs| ==> cs[i].key == key)
              && forall j :: 0 <= j < i ==> cs[j].key != key
  {
    if cs != [] {
      var n := |cs| - 1;
      WithKeyIs(cs[..n], key, WithKey(cs[..n], key));
      WithKeyIs(cs[..n], key, i);
    }
  }

  lemma {:induction false} FirstFreeIs(cs: seq<Cluster>, e: Entry, i: nat)
    ensures i == FirstFree(cs, e) <==>
              && i <= |cs| && (i < |cs| ==> Free(cs[i], e))
              && forall j :: 0 <= j < i ==> !Free(cs[j], e)
  {
    if cs != [] {
      var n := |cs| - 1;
      FirstFreeIs(cs[..n], e, FirstFree(cs[..n], e));
      FirstFreeIs(cs[..n], e, i);
    }
  }

  lemma TargetMatches(cs: seq<Cluster>, e: Entry)
    ensures var i := Target(cs, e); i < |cs| ==> cs[i].key == Key(e.hit) || Free(cs[i], e)
  {
    WithKeyIs(cs, Key(e.hit), WithKey(cs, Key(e.hit)));
    FirstFreeIs(cs, e, FirstFree(cs, e));
  }

  function Opened(e: Entry, w: real): Cluster
  {
    Cluster(Key(e.hit), e.hit, w, e.rank, {e.source}, [Found(e.hit.reason, e.source)])
  }

  function Joined(c: Cluster, e: Entry, w: real): Cluster
  {
    Cluster(c.key, if e.rank < c.bestRank then e.hit else c.hit, c.score + w,
            if e.rank < c.bestRank then e.rank else c.bestRank,
            c.sources + {e.source}, c.found + [Found(e.hit.reason, e.source)])
  }

  function FuseStep(cs: seq<Cluster>, e: Entry, w: real): seq<Cluster>
  {
    var i := Target(cs, e);
    if i < |cs| then cs[i := Joined(cs[i], e, w)] else cs + [Opened(e, w)]
  }

  function FuseAll(es: seq<Entry>, f: Contribution): seq<Cluster>
  {
    if es == [] then [] else FuseStep(FuseAll(es[..|es| - 1], f), es[|es| - 1], f(es[|es| - 1]))
  }

  /** The cluster each entry went to. */
  function Homes(es: seq<Entry>, f: Contribution): (hs: seq<nat>)
    ensures |hs| == |es|
  {
    if es == [] then []
    else Homes(es[..|es| - 1], f) + [Target(FuseAll(es[..|es| - 1], f), es[|es| - 1])]
  }

  lemma {:induction false} HomesPrefix(es: seq<Entry>, f: Contribution, n: nat)
    requires n <= |es|
    ensures Homes(es, f)[..n] == Homes(es[..n], f)
    decreases |es|
  {
    if n < |es| {
      var front := es[..|es| - 1];
      HomesPrefix(front, f, n);
      HomesSnoc(es, f);
      assert front[..n] == es[..n];
    } else {
      assert es[..n] == es;
    }
  }

  lemma HomesSnoc(es: seq<Entry>, f: Contribution)
    requires es != []
    ensures var n := |es| - 1; Homes(es, f) == Homes(es[..n], f) + [Target(FuseAll(es[..n], f), es[n])]
  {
  }

  lemma Unfused(es: seq<Entry>, f: Contribution)
    requires es != []
    ensures var n := |es| - 1; FuseAll(es, f) == FuseStep(FuseAll(es[..n], f), es[n], f(es[n]))
  {
  }

  // ---------------------------------------------------------------------------
  // What a cluster is
  // ---------------------------------------------------------------------------

  /** What the entries with home i contribute. */
  function Collected(es: seq<Entry>, hs: seq<nat>, i: nat, f: Contribution): real
    requires |hs| == |es|
  {
    if es == [] then 0.0
    else
      var n := |es| - 1;
      Collected(es[..n], hs[..n], i, f) + if hs[n] == i then f(es[n]) else 0.0
  }

  function Total(es: seq<Entry>, f: Contribution): real
  {
    if es == [] then 0.0 else Total(es[..|es| - 1], f) + f(es[|es| - 1])
  }

  function Scores(cs: seq<Cluster>): real
  {
    if cs == [] then 0.0 else Scores(cs[..|cs| - 1]) + cs[|cs| - 1].score
  }

  /** Entry j is the best ranked of cluster i, the first such. */
  ghost predicate BestOf(es: seq<Entry>, hs: seq<nat>, i: nat, j: nat)
    requires |hs| == |es|
  {
    && j < |es| && hs[j] == i
    && forall x :: 0 <= x < |es| && hs[x] == i ==> es[j].rank < es[x].rank || (es[j].rank == es[x].rank && j <= x)
  }

  /** Entry j opened cluster i. */
  ghost predicate OpenerOf(es: seq<Entry>, hs: seq<nat>, i: nat, j: nat)
    requires |hs| == |es|
  {
    j < |es| && hs[j] == i && forall x :: 0 <= x < j ==> hs[x] != i
  }

  ghost predicate Represented(es: seq<Entry>, hs: seq<nat>, i: nat, c: Cluster)
    requires |hs| == |es|
  {
    exists j: nat :: BestOf(es, hs, i, j) && c.hit == es[j].hit && c.bestRank == es[j].rank
  }

  ghost predicate OpenedBy(es: seq<Entry>, hs: seq<nat>, i: nat, c: Cluster)
    requires |hs| == |es|
  {
    exists j: nat :: OpenerOf(es, hs, i, j) && c.key == Key(es[j].hit)
  }

  ghost predicate HasSource(es: seq<Entry>, hs: seq<nat>, i: nat, s: Source)
    requires |hs| == |es|
  {
    exists j :: 0 <= j < |es| && hs[j] == i && es[j].source == s
  }

  ghost predicate SourcesMatch(es: seq<Entry>, hs: seq<nat>, i: nat, c: Cluster)
    requires |hs| == |es|
  {
    forall s :: s in c.sources <==> HasSource(es, hs, i, s)
  }

  predicate SameFile(a: Hit, b: Hit) { a.repo == b.repo && a.path == b.path }

  ghost predicate InOneFile(es: seq<Entry>, hs: seq<nat>, i: nat, c: Cluster)
    requires |hs| == |es|
  {
    forall j :: 0 <= j < |es| && hs[j] == i ==> SameFile(es[j].hit, c.hit)
  }

  ghost predicate Describes(es: seq<Entry>, hs: seq<nat>, i: nat, c: Cluster, f: Contribution)
    requires |hs| == |es|
  {
    && c.score == Collected(es, hs, i, f)
    && Represented(es, hs, i, c) && OpenedBy(es, hs, i, c) && SourcesMatch(es, hs, i, c) && InOneFile(es, hs, i, c)
  }

  lemma {:induction false} HomesExist(es: seq<Entry>, f: Contribution)
    ensures forall j :: 0 <= j < |es| ==> Homes(es, f)[j] < |FuseAll(es, f)|
  {
    if es != [] {
      HomesExist(es[..|es| - 1], f);
      HomesSnoc(es, f);
      Unfused(es, f);
    }
  }

  /** Cluster i once entry e has gone to cluster h. */
  function Next(c: Cluster, i: nat, e: Entry, h: nat, w: real): Cluster { if h == i then Joined(c, e, w) else c }

  lemma RepresentedNext(es: seq<Entry>, hs: seq<nat>, i: nat, c: Cluster, e: Entry, h: nat, w: real)
    requires |hs| == |es| && Represented(es, hs, i, c)
    ensures Represented(es + [e], hs + [h], i, Next(c, i, e, h, w))
  {
    var j: nat :| BestOf(es, hs, i, j) && c.hit == es[j].hit && c.bestRank == es[j].rank;
    assert BestOf(es + [e], hs + [h], i, if h == i && e.rank < es[j].rank then |es| else j);
  }

  lemma OpenedByNext(es: seq<Entry>, hs: seq<nat>, i: nat, c: Cluster, e: Entry, h: nat, w: real)
    requires |hs| == |es| && OpenedBy(es, hs, i, c)
    ensures OpenedBy(es + [e], hs + [h], i, Next(c, i, e, h, w))
  {
    var j: nat :| OpenerOf(es, hs, i, j) && c.key == Key(es[j].hit);
    assert OpenerOf(es + [e], hs + [h], i, j);
  }

  lemma CollectedNext(es: seq<Entry>, hs: seq<nat>, i: nat, e: Entry, h: nat, f: Contribution)
    requires |hs| == |es|
    ensures Collected(es + [e], hs + [h], i, f) == Collected(es, hs, i, f) + if h == i then f(e) else 0.0
  {
    assert (es + [e])[..|es|] == es && (hs + [h])[..|es|] == hs;
  }

  lemma HasSourceNext(es: seq<Entry>, hs: seq<nat>, i: nat, e: Entry, h: nat, s: Source)
    requires |hs| == |es|
    ensures HasSource(es + [e], hs + [h], i, s) <==> HasSource(es, hs, i, s) || (h == i && e.source == s)
  {
    assert (hs + [h])[|es|] == h && (es + [e])[|es|] == e;
    if HasSource(es, hs, i, s) {
      var j :| 0 <= j < |es| && hs[j] == i && es[j].source == s;
      assert (hs + [h])[j] == i && (es + [e])[j] == es[j];
    }
  }

  lemma DescribesNext(es: seq<Entry>, hs: seq<nat>, i: nat, c: Cluster, f: Contribution, e: Entry, h: nat)
    requires |hs| == |es| && Describes(es, hs, i, c, f)
    requires h == i ==> SameFile(e.hit, c.hit)
    ensures Describes(es + [e], hs + [h], i, Next(c, i, e, h, f(e)), f)
  {
    CollectedNext(es, hs, i, e, h, f);
    RepresentedNext(es, hs, i, c, e, h, f(e));
    OpenedByNext(es, hs, i, c, e, h, f(e));
    forall s ensures HasSource(es + [e], hs + [h], i, s) <==> HasSource(es, hs, i, s) || (h == i && e.source == s) {
      HasSourceNext(es, hs, i, e, h, s);
    }
  }

  lemma {:induction false} NothingCollected(es: seq<Entry>, hs: seq<nat>, i: nat, f: Contribution)
    requires |hs| == |es| && forall j :: 0 <= j < |es| ==> hs[j] != i
    ensures Collected(es, hs, i, f) == 0.0
  {
    if es != [] {
      NothingCollected(es[..|es| - 1], hs[..|es| - 1], i, f);
    }
  }

  lemma DescribesOpened(es: seq<Entry>, hs: seq<nat>, i: nat, f: Contribution, e: Entry)
    requires |hs| == |es| && forall j :: 0 <= j < |es| ==> hs[j] < i
    ensures Describes(es + [e], hs + [i], i, Opened(e, f(e)), f)
  {
    CollectedNext(es, hs, i, e, i, f);
    NothingCollected(es, hs, i, f);
    assert BestOf(es + [e], hs + [i], i, |es|) && OpenerOf(es + [e], hs + [i], i, |es|);
    forall s ensures HasSource(es + [e], hs + [i], i, s) <==> e.source == s {
      HasSourceNext(es, hs, i, e, i, s);
    }
  }

  /** A cluster that e may join lies in e's file. */
  lemma TargetIsSameFile(es: seq<Entry>, hs: seq<nat>, cs: seq<Cluster>, e: Entry, f: Contribution)
    requires |hs| == |es|
    requires Target(cs, e) < |cs| && Describes(es, hs, Target(cs, e), cs[Target(cs, e)], f)
    ensures SameFile(e.hit, cs[Target(cs, e)].hit)
  {
    var t := Target(cs, e);
    TargetMatches(cs, e);
    if !Overlaps(cs[t].hit, e.hit) {
      var o: nat :| OpenerOf(es, hs, t, o) && cs[t].key == Key(es[o].hit);
      assert (es + [e])[o] == es[o] && (es + [e])[|es|] == e;
      assert SameFile(es[o].hit, cs[t].hit);
    }
  }

  ghost predicate AllDescribed(es: seq<Entry>, hs: seq<nat>, cs: seq<Cluster>, f: Contribution)
    requires |hs| == |es|
  {
    forall i :: 0 <= i < |cs| ==> Describes(es, hs, i, cs[i], f)
  }

  lemma StepKeepsDescribed(es: seq<Entry>, hs: seq<nat>, cs: seq<Cluster>, e: Entry, f: Contribution)
    requires |hs| == |es| && AllDescribed(es, hs, cs, f)
    requires forall j :: 0 <= j < |hs| ==> hs[j] < |cs|
    ensures AllDescribed(es + [e], hs + [Target(cs, e)], FuseStep(cs, e, f(e)), f)
  {
    var t := Target(cs, e);
    forall i | 0 <= i < |FuseStep(cs, e, f(e))|
      ensures Describes(es + [e], hs + [t], i, FuseStep(cs, e, f(e))[i], f)
    {
      if i < |cs| {
        if i == t {
          TargetIsSameFile(es, hs, cs, e, f);
        }
        DescribesNext(es, hs, i, cs[i], f, e, t);
      } else {
        DescribesOpened(es, hs, i, f, e);
      }
    }
  }

  /** Every hit is in exactly one cluster, which is described by its members: the sum of what they
      contribute, represented by the best ranked of them. */
  lemma {:induction false} ClustersAreDescribed(es: seq<Entry>, f: Contribution)
    ensures AllDescribed(es, Homes(es, f), FuseAll(es, f), f)
  {
    if es != [] {
      var n := |es| - 1;
      assert es == es[..n] + [es[n]];
      ClustersAreDescribed(es[..n], f);
      HomesExist(es[..n], f);
      StepKeepsDescribed(es[..n], Homes(es[..n], f), FuseAll(es[..n], f), es[n], f);
      HomesSnoc(es, f);
      Unfused(es, f);
    }
  }

  lemma {:induction false} ScoresWith(cs: seq<Cluster>, i: nat, c: Cluster)
    requires i < |cs|
    ensures Scores(cs[i := c]) == Scores(cs) - cs[i].score + c.score
  {
    var n := |cs| - 1;
    if i == n {
      assert cs[i := c][..n] == cs[..n];
    } else {
      ScoresWith(cs[..n], i, c);
      assert cs[i := c][..n] == cs[..n][i := c];
    }
  }

  lemma StepAddsScore(cs: seq<Cluster>, e: Entry, w: real)
    ensures Scores(FuseStep(cs, e, w)) == Scores(cs) + w
  {
    var i := Target(cs, e);
    if i < |cs| {
      ScoresWith(cs, i, Joined(cs[i], e, w));
    } else {
      assert (cs + [Opened(e, w)])[..|cs|] == cs;
    }
  }

  /** Fusion conserves score: nothing contributed is lost or counted twice. */
  lemma {:induction false} FusionConservesScore(es: seq<Entry>, f: Contribution)
    ensures Scores(FuseAll(es, f)) == Total(es, f)
  {
    if es != [] {
      var n := |es| - 1;
      FusionConservesScore(es[..n], f);
      StepAddsScore(FuseAll(es[..n], f), es[n], f(es[n]));
      Unfused(es, f);
    }
  }

  // ---------------------------------------------------------------------------
  // Which hits share a cluster
  // ---------------------------------------------------------------------------

  lemma {:induction false} KeysStay(es: seq<Entry>, f: Contribution, n: nat)
    requires n <= |es|
    ensures |FuseAll(es[..n], f)| <= |FuseAll(es, f)|
    ensures forall i :: 0 <= i < |FuseAll(es[..n], f)| ==> FuseAll(es[..n], f)[i].key == FuseAll(es, f)[i].key
    decreases |es|
  {
    if n < |es| {
      var front := es[..|es| - 1];
      KeysStay(front, f, n);
      assert front[..n] == es[..n];
      StepKeepsKeys(FuseAll(front, f), es[|es| - 1], f(es[|es| - 1]));
      Unfused(es, f);
    } else {
      assert es[..n] == es;
    }
  }

  lemma StepKeepsKeys(cs: seq<Cluster>, e: Entry, w: real)
    ensures |cs| <= |FuseStep(cs, e, w)| && forall i :: 0 <= i < |cs| ==> FuseStep(cs, e, w)[i].key == cs[i].key
  {
  }

  lemma JoinNeedsKey(es: seq<Entry>, hs: seq<nat>, cs: seq<Cluster>, e: Entry, f: Contribution, i: nat)
    requires |hs| == |es| && i < |es| && hs[i] == Target(cs, e) < |cs| && es[i].source == e.source
    requires Describes(es, hs, hs[i], cs[hs[i]], f)
    ensures cs[hs[i]].key == Key(e.hit)
  {
    TargetMatches(cs, e);
    assert HasSource(es, hs, hs[i], e.source);
  }

  lemma SharedNeedsKey(es: seq<Entry>, f: Contribution, i: nat, j: nat)
    requires i < j < |es|
    requires Homes(es, f)[i] == Homes(es, f)[j] && es[i].source == es[j].source
    ensures Homes(es, f)[i] < |FuseAll(es, f)| && Key(es[j].hit) == FuseAll(es, f)[Homes(es, f)[i]].key
  {
    HomeIs(es, f, j);
    HomesPrefix(es, f, j);
    HomesExist(es[..j], f);
    ClustersAreDescribed(es[..j], f);
    assert Homes(es[..j], f)[i] == Homes(es, f)[j];
    JoinNeedsKey(es[..j], Homes(es[..j], f), FuseAll(es[..j], f), es[j], f, i);
    KeysStay(es, f, j);
  }

  /** A cluster is opened only under a key no other was opened under. */
  ghost predicate DistinctOpeners(cs: seq<Cluster>) { forall i, j :: 0 <= i < j < |cs| ==> cs[i].key != cs[j].key }

  lemma StepKeepsOpeners(cs: seq<Cluster>, e: Entry, w: real)
    requires DistinctOpeners(cs)
    ensures DistinctOpeners(FuseStep(cs, e, w))
  {
    WithKeyIs(cs, Key(e.hit), WithKey(cs, Key(e.hit)));
  }

  lemma {:induction false} OpenersAreDistinct(es: seq<Entry>, f: Contribution)
    ensures DistinctOpeners(FuseAll(es, f))
  {
    if es != [] {
      var n := |es| - 1;
      OpenersAreDistinct(es[..n], f);
      StepKeepsOpeners(FuseAll(es[..n], f), es[n], f(es[n]));
      Unfused(es, f);
    }
  }

  lemma KeyFindsCluster(cs: seq<Cluster>, e: Entry, h: nat)
    requires DistinctOpeners(cs) && h < |cs| && cs[h].key == Key(e.hit)
    ensures Target(cs, e) == h
  {
    WithKeyIs(cs, Key(e.hit), h);
  }

  lemma KeyJoins(es: seq<Entry>, f: Contribution, i: nat, j: nat)
    requires i < j < |es| && Homes(es, f)[i] < |FuseAll(es, f)|
    requires Key(es[j].hit) == FuseAll(es, f)[Homes(es, f)[i]].key
    ensures Homes(es, f)[i] == Homes(es, f)[j]
  {
    var h := Homes(es, f)[i];
    HomeIs(es, f, j);
    HomesPrefix(es, f, j);
    HomesExist(es[..j], f);
    assert Homes(es[..j], f)[i] == h;
    KeysStay(es, f, j);
    OpenersAreDistinct(es[..j], f);
    KeyFindsCluster(FuseAll(es[..j], f), es[j], h);
  }

  /** Two hits of one searcher share a cluster exactly when the later has the key of the hit that opened
      it; overlap alone never joins them. */
  lemma SameSourceSharesIffKey(es: seq<Entry>, f: Contribution, i: nat, j: nat)
    requires i < j < |es| && es[i].source == es[j].source
    ensures Homes(es, f)[i] < |FuseAll(es, f)|
    ensures Homes(es, f)[i] == Homes(es, f)[j] <==> Key(es[j].hit) == FuseAll(es, f)[Homes(es, f)[i]].key
  {
    HomesExist(es, f);
    if Homes(es, f)[i] == Homes(es, f)[j] {
      SharedNeedsKey(es, f, i, j);
    } else if Key(es[j].hit) == FuseAll(es, f)[Homes(es, f)[i]].key {
      KeyJoins(es, f, i, j);
    }
  }

  /** What every fusion keeps: each entry has one home, each cluster is described by its members, and
      two hits of one searcher meet exactly under the opener's key. */
  ghost predicate Clustering(es: seq<Entry>, hs: seq<nat>, cs: seq<Cluster>, f: Contribution)
  {
    && |hs| == |es|
    && (forall j :: 0 <= j < |es| ==> hs[j] < |cs|)
    && AllDescribed(es, hs, cs, f)
    && (forall i, j :: 0 <= i < j < |es| && es[i].source == es[j].source ==> (hs[i] == hs[j] <==> Key(es[j].hit) == cs[hs[i]].key))
  }

  lemma FusionIsClustering(es: seq<Entry>, f: Contribution)
    ensures Clustering(es, Homes(es, f), FuseAll(es, f), f)
  {
    HomesExist(es, f);
    ClustersAreDescribed(es, f);
    var hs, cs := Homes(es, f), FuseAll(es, f);
    forall i, j | 0 <= i < j < |es| && es[i].source == es[j].source ensures hs[i] == hs[j] <==> Key(es[j].hit) == cs[hs[i]].key {
      SameSourceSharesIffKey(es, f, i, j);
    }
  }

  lemma HomeIs(es: seq<Entry>, f: Contribution, j: nat)
    requires j < |es|
    ensures Homes(es, f)[j] == Target(FuseAll(es[..j], f), es[j])
  {
    HomesPrefix(es, f, j + 1);
    HomesSnoc(es[..j + 1], f);
    assert es[..j + 1][..j] == es[..j];
    assert Homes(es, f)[j] == Homes(es, f)[..j + 1][j];
  }

  lemma FuseSnoc(es: seq<Entry>, e: Entry, f: Contribution)
    ensures FuseAll(es + [e], f) == FuseStep(FuseAll(es, f), e, f(e))
    ensures Homes(es + [e], f) == Homes(es, f) + [Target(FuseAll(es, f), e)]
  {
    assert (es + [e])[..|es|] == es;
  }

  // ---------------------------------------------------------------------------
  // Reciprocal rank fusion
  // ---------------------------------------------------------------------------

  const DEFAULT_K := 60.0

  function EffectiveK(k: real): real { if k == 0.0 then DEFAULT_K else k }

  function Weight(weights: map<Source, real>, s: Source): real { if s in weights then weights[s] else 1.0 }

  function RRF(k: real, weights: map<Source, real>, e: Entry): real
  {
    AtRank(k, Weight(weights, e.source), e.rank)
  }

  function RRFBy(k: real, weights: map<Source, real>): Contribution
  {
    (e: Entry) => RRF(k, weights, e)
  }

  lemma Ratio(x: real, y: real, v: real, w: real)
    requires x > 0.0 && y > 0.0
    ensures 1.0 / x * v < 1.0 / y * w <==> v * y < w * x
  {
    var p, q := 1.0 / x, 1.0 / y;
    assert p * x == 1.0 && q * y == 1.0;
    var l, r := p * v, q * w;
    assert l * (x * y) == v * y by {
      assert l * (x * y) == (p * x) * (v * y);
    }
    assert r * (x * y) == w * x by {
      assert r * (x * y) == (q * y) * (w * x);
    }
    Scale(l, r, x * y);
  }

  lemma Scale(l: real, r: real, z: real)
    requires z > 0.0
    ensures l < r <==> l * z < r * z
  {
    assert r * z - l * z == (r - l) * z;
    if l < r {
      assert (r - l) * z > 0.0;
    } else {
      assert (l - r) * z >= 0.0;
      assert (l - r) * z == l * z - r * z;
    }
  }

  lemma ReciprocalFalls(x: real, y: real, w: real)
    requires 0.0 < x <= y && w >= 0.0
    ensures 0.0 <= 1.0 / y * w <= 1.0 / x * w
  {
    var p, q := 1.0 / x, 1.0 / y;
    assert p * x == 1.0 && q * y == 1.0;
    assert q > 0.0;
    Scale(p, q, y);
    assert p * y - p * x == p * (y - x) >= 0.0;
    assert q <= p;
    assert (p - q) * w >= 0.0;
    assert (p - q) * w == p * w - q * w;
  }

  /** What a rank is worth; a rank whose reciprocal does not exist is worth nothing. */
  function AtRank(k: real, w: real, rank: nat): real
  {
    if k + (rank + 1) as real == 0.0 then 0.0 else 1.0 / (k + (rank + 1) as real) * w
  }

  lemma AtRankFalls(k: real, w: real, a: nat, b: nat)
    requires k > -1.0 && w >= 0.0 && a <= b
    ensures 0.0 <= AtRank(k, w, b) <= AtRank(k, w, a)
  {
    ReciprocalFalls(k + (a + 1) as real, k + (b + 1) as real, w);
  }

  lemma EndsSeparate(k: real, wA: real, wB: real, n: nat)
    requires k > -1.0 && n >= 1
    ensures AtRank(k, wB, 0) < AtRank(k, wA, n - 1) <==> WeightsApart(k, wA, wB, n)
  {
    Ratio(k + 1.0, k + n as real, wB, wA);
  }

  lemma RanksSeparate(k: real, wA: real, wB: real, n: nat, a: nat, b: nat)
    requires k > -1.0 && wA >= 0.0 && wB >= 0.0 && a < n && b < n
    requires AtRank(k, wB, 0) < AtRank(k, wA, n - 1)
    ensures AtRank(k, wB, b) < AtRank(k, wA, a)
  {
    AtRankFalls(k, wB, 0, b);
    AtRankFalls(k, wA, a, n - 1);
  }

  /** Every one of the first n ranks at weight v is worth less than every one at weight w. */
  ghost predicate RanksApart(k: real, w: real, v: real, n: nat)
  {
    forall a: nat, b: nat :: a < n && b < n ==> AtRank(k, v, b) < AtRank(k, w, a)
  }

  /** Weight w is so far above v that even the last of n ranks makes up for it. */
  predicate WeightsApart(k: real, w: real, v: real, n: nat) { v * (k + n as real) < w * (k + 1.0) }

  /** That is so exactly when the weights are this far apart. */
  lemma RanksSeparateIff(k: real, wA: real, wB: real, n: nat)
    requires k > -1.0 && wA >= 0.0 && wB >= 0.0 && n >= 1
    ensures RanksApart(k, wA, wB, n) <==> WeightsApart(k, wA, wB, n)
  {
    EndsSeparate(k, wA, wB, n);
    if AtRank(k, wB, 0) < AtRank(k, wA, n - 1) {
      forall a: nat, b: nat | a < n && b < n ensures AtRank(k, wB, b) < AtRank(k, wA, a) {
        RanksSeparate(k, wA, wB, n, a, b);
      }
    }
  }

  ghost predicate Within(es: seq<Entry>, n: nat) { forall j :: 0 <= j < |es| ==> es[j].rank < n }

  ghost predicate NonNegative(weights: map<Source, real>) { forall s :: s in weights ==> weights[s] >= 0.0 }

  lemma {:induction false} CollectedAtLeast(es: seq<Entry>, hs: seq<nat>, i: nat, f: Contribution, j: nat)
    requires |hs| == |es| && j < |es| && hs[j] == i
    requires forall x :: 0 <= x < |es| ==> f(es[x]) >= 0.0
    ensures Collected(es, hs, i, f) >= f(es[j])
  {
    var n := |es| - 1;
    CollectedNotNegative(es[..n], hs[..n], i, f);
    if j < n {
      CollectedAtLeast(es[..n], hs[..n], i, f, j);
    }
  }

  lemma {:induction false} CollectedNotNegative(es: seq<Entry>, hs: seq<nat>, i: nat, f: Contribution)
    requires |hs| == |es| && forall x :: 0 <= x < |es| ==> f(es[x]) >= 0.0
    ensures Collected(es, hs, i, f) >= 0.0
  {
    if es != [] {
      var n := |es| - 1;
      CollectedNotNegative(es[..n], hs[..n], i, f);
    }
  }

  /** How many entries cluster h took in. */
  function Members(hs: seq<nat>, h: nat): nat
  {
    if hs == [] then 0 else Members(hs[..|hs| - 1], h) + if hs[|hs| - 1] == h then 1 else 0
  }

  function Times(m: nat, w: real): real { if m == 0 then 0.0 else Times(m - 1, w) + w }

  lemma {:induction false} TimesIsProduct(m: nat, w: real)
    ensures Times(m, w) == m as real * w
  {
    if m > 0 {
      TimesIsProduct(m - 1, w);
    }
  }

  /** m hits of B against one of A, in the weights. */
  lemma RepeatsSeparateIff(k: real, wA: real, wB: real, m: nat, n: nat)
    requires k > -1.0 && wA >= 0.0 && wB >= 0.0 && n >= 1
    ensures RanksApart(k, wA, Times(m, wB), n) <==> WeightsApart(k, wA, m as real * wB, n)
  {
    TimesIsProduct(m, wB);
    NotNegativeTimes(m, wB);
    RanksSeparateIff(k, wA, Times(m, wB), n);
  }

  lemma {:induction false} NotNegativeTimes(m: nat, w: real)
    requires w >= 0.0
    ensures Times(m, w) >= 0.0
  {
    if m > 0 {
      NotNegativeTimes(m - 1, w);
    }
  }

  lemma {:induction false} RankOfTimes(k: real, m: nat, w: real)
    requires k > -1.0
    ensures AtRank(k, Times(m, w), 0) == Times(m, AtRank(k, w, 0))
  {
    var x := 1.0 / (k + 1.0);
    if m == 0 {
      assert x * 0.0 == 0.0;
    } else {
      RankOfTimes(k, m - 1, w);
      assert x * (Times(m - 1, w) + w) == x * Times(m - 1, w) + x * w;
    }
  }

  lemma {:induction false} CollectedAtMost(es: seq<Entry>, hs: seq<nat>, i: nat, f: Contribution, top: real)
    requires |hs| == |es| && forall x :: 0 <= x < |es| && hs[x] == i ==> f(es[x]) <= top
    ensures Collected(es, hs, i, f) <= Times(Members(hs, i), top)
  {
    if es != [] {
      var n := |es| - 1;
      CollectedAtMost(es[..n], hs[..n], i, f, top);
    }
  }

  /** Every hit of cluster h came from searcher s. */
  ghost predicate Unshared(es: seq<Entry>, hs: seq<nat>, h: nat, s: Source)
    requires |hs| == |es|
  {
    forall x :: 0 <= x < |es| && hs[x] == h ==> es[x].source == s
  }

  ghost predicate DistinctKeys(es: seq<Entry>, s: Source)
  {
    forall i, j :: 0 <= i < j < |es| && es[i].source == s && es[j].source == s ==> Key(es[i].hit) != Key(es[j].hit)
  }

  lemma {:induction false} OneMember(hs: seq<nat>, h: nat, j: nat)
    requires j < |hs| && forall x :: 0 <= x < |hs| ==> (hs[x] == h <==> x == j)
    ensures Members(hs, h) == 1
  {
    if j < |hs| - 1 {
      OneMember(hs[..|hs| - 1], h, j);
    } else {
      NoMember(hs[..|hs| - 1], h);
    }
  }

  lemma {:induction false} NoMember(hs: seq<nat>, h: nat)
    requires forall x :: 0 <= x < |hs| ==> hs[x] != h
    ensures Members(hs, h) == 0
  {
    if hs != [] {
      NoMember(hs[..|hs| - 1], h);
    }
  }

  /** A searcher that repeats no key has one hit in a cluster it shares with no other. */
  lemma UnsharedIsSingle(es: seq<Entry>, hs: seq<nat>, cs: seq<Cluster>, f: Contribution, s: Source, j: nat)
    requires Clustering(es, hs, cs, f) && DistinctKeys(es, s) && j < |es| && Unshared(es, hs, hs[j], s)
    ensures Members(hs, hs[j]) == 1
  {
    var i := hs[j];
    assert Describes(es, hs, i, cs[i], f);
    var o: nat :| OpenerOf(es, hs, i, o) && cs[i].key == Key(es[o].hit);
    forall x: nat | x < |es| && hs[x] == i ensures x == o {
      assert es[x].source == es[o].source;
    }
    OneMember(hs, i, j);
  }

  lemma ScoreIs(es: seq<Entry>, hs: seq<nat>, cs: seq<Cluster>, f: Contribution, i: nat)
    requires |hs| == |es| && AllDescribed(es, hs, cs, f) && i < |cs|
    ensures cs[i].score == Collected(es, hs, i, f)
  {
    assert Describes(es, hs, i, cs[i], f);
  }

  /** When m hits at B's weight are worth less, at any rank, than one at A's, every cluster of m hits that
      only searcher B found scores below every cluster searcher A has a hit in: B can confirm results,
      never contribute one. */
  lemma WeakSourceNeverContributes(es: seq<Entry>, hs: seq<nat>, cs: seq<Cluster>, k: real, weights: map<Source, real>, n: nat, a: Source, b: Source, ja: nat, jb: nat)
    requires k > -1.0 && NonNegative(weights) && Within(es, n) && Clustering(es, hs, cs, RRFBy(k, weights))
    requires ja < |es| && es[ja].source == a && jb < |es| && Unshared(es, hs, hs[jb], b)
    requires RanksApart(k, Weight(weights, a), Times(Members(hs, hs[jb]), Weight(weights, b)), n)
    ensures cs[hs[jb]].score < cs[hs[ja]].score
  {
    WeakCollectsLess(es, hs, k, weights, n, a, b, ja, jb);
    ScoreIs(es, hs, cs, RRFBy(k, weights), hs[ja]);
    ScoreIs(es, hs, cs, RRFBy(k, weights), hs[jb]);
  }

  lemma WeakCollectsLess(es: seq<Entry>, hs: seq<nat>, k: real, weights: map<Source, real>, n: nat, a: Source, b: Source, ja: nat, jb: nat)
    requires k > -1.0 && NonNegative(weights) && Within(es, n) && |hs| == |es|
    requires ja < |es| && es[ja].source == a && jb < |es| && Unshared(es, hs, hs[jb], b)
    requires RanksApart(k, Weight(weights, a), Times(Members(hs, hs[jb]), Weight(weights, b)), n)
    ensures Collected(es, hs, hs[jb], RRFBy(k, weights)) < Collected(es, hs, hs[ja], RRFBy(k, weights))
  {
    var f, m := RRFBy(k, weights), Members(hs, hs[jb]);
    RRFNotNegative(es, k, weights);
    BelowTopRank(es, hs, hs[jb], k, weights, b);
    CollectedAtMost(es, hs, hs[jb], f, AtRank(k, Weight(weights, b), 0));
    RankOfTimes(k, m, Weight(weights, b));
    CollectedAtLeast(es, hs, hs[ja], f, ja);
    assert AtRank(k, Times(m, Weight(weights, b)), 0) < AtRank(k, Weight(weights, a), es[ja].rank);
  }

  /** In particular, while B repeats no key, one weight against the other. */
  lemma WeakUnrepeatedSource(es: seq<Entry>, hs: seq<nat>, cs: seq<Cluster>, k: real, weights: map<Source, real>, n: nat, a: Source, b: Source, ja: nat, jb: nat)
    requires k > -1.0 && NonNegative(weights) && Within(es, n) && Clustering(es, hs, cs, RRFBy(k, weights)) && DistinctKeys(es, b)
    requires ja < |es| && es[ja].source == a && jb < |es| && Unshared(es, hs, hs[jb], b)
    requires RanksApart(k, Weight(weights, a), Weight(weights, b), n)
    ensures cs[hs[jb]].score < cs[hs[ja]].score
  {
    UnsharedIsSingle(es, hs, cs, RRFBy(k, weights), b, jb);
    TimesOne(Weight(weights, b));
    WeakSourceNeverContributes(es, hs, cs, k, weights, n, a, b, ja, jb);
  }

  lemma TimesOne(w: real)
    ensures Times(1, w) == w
  {
  }

  lemma BelowTopRank(es: seq<Entry>, hs: seq<nat>, h: nat, k: real, weights: map<Source, real>, b: Source)
    requires k > -1.0 && NonNegative(weights) && |hs| == |es| && Unshared(es, hs, h, b)
    ensures forall x :: 0 <= x < |es| && hs[x] == h ==> RRFBy(k, weights)(es[x]) <= AtRank(k, Weight(weights, b), 0)
  {
    forall x | 0 <= x < |es| && hs[x] == h ensures RRFBy(k, weights)(es[x]) <= AtRank(k, Weight(weights, b), 0) {
      AtRankFalls(k, Weight(weights, b), 0, es[x].rank);
    }
  }

  lemma RRFNotNegative(es: seq<Entry>, k: real, weights: map<Source, real>)
    requires k > -1.0 && NonNegative(weights)
    ensures forall x :: 0 <= x < |es| ==> RRFBy(k, weights)(es[x]) >= 0.0
  {
    forall x | 0 <= x < |es| ensures RRFBy(k, weights)(es[x]) >= 0.0 {
      AtRankFalls(k, Weight(weights, es[x].source), es[x].rank, es[x].rank);
    }
  }

  // ---------------------------------------------------------------------------
  // Convex fusion
  // ---------------------------------------------------------------------------

  datatype Bounds = Bounds(min: real, max: real)

  function Floor(b: Bounds): real { if b.min < 0.0 then b.min else 0.0 }

  function Normalised(b: Bounds, score: real): real
  {
    if b.max > Floor(b) then (score - Floor(b)) / (b.max - Floor(b)) else 1.0
  }

  ghost predicate Spans(b: Bounds, hits: seq<Option<Hit>>)
  {
    forall i :: 0 <= i < |hits| && hits[i].Some? ==> b.min <= hits[i].value.score <= b.max
  }

  /** The observed bounds of one leg; both are attained unless the leg has no hit. */
  method LegBounds(hits: seq<Option<Hit>>) returns (b: Bounds)
    ensures Spans(b, hits)
    ensures NonNil(hits) == 0 ==> b == Bounds(0.0, 0.0)
    ensures NonNil(hits) > 0 ==>
              && (exists i :: 0 <= i < |hits| && hits[i].Some? && hits[i].value.score == b.min)
              && (exists i :: 0 <= i < |hits| && hits[i].Some? && hits[i].value.score == b.max)
  {
    b := Bounds(0.0, 0.0);
    var first := true;
    ghost var lo, hi := 0, 0;
    for i := 0 to |hits|
      invariant first <==> NonNil(hits[..i]) == 0
      invariant first ==> b == Bounds(0.0, 0.0) && forall x :: 0 <= x < i ==> hits[x].None?
      invariant !first ==>
                  && 0 <= lo < i && hits[lo].Some? && hits[lo].value.score == b.min
                  && 0 <= hi < i && hits[hi].Some? && hits[hi].value.score == b.max
      invariant forall x :: 0 <= x < i && hits[x].Some? ==> b.min <= hits[x].value.score <= b.max
    {
      assert hits[..i + 1][..i] == hits[..i];
      if hits[i].None? {
        continue;
      }
      var score := hits[i].value.score;
      if first {
        b, first, lo, hi := Bounds(score, score), false, i, i;
        continue;
      }
      if score < b.min {
        b, lo := b.(min := score), i;
      }
      if score > b.max {
        b, hi := b.(max := score), i;
      }
    }
    assert hits[..|hits|] == hits;
  }

  lemma DividedBack(x: real, d: real)
    requires d > 0.0
    ensures x / d * d == x
  {
  }

  lemma Quotient(x: real, y: real, d: real)
    requires d > 0.0
    ensures x <= y <==> x / d <= y / d
  {
    DividedBack(x, d);
    DividedBack(y, d);
    Scale(y / d, x / d, d);
  }

  lemma Fraction(x: real, d: real)
    requires d > 0.0 && 0.0 <= x <= d
    ensures 0.0 <= x / d <= 1.0 && d / d == 1.0
  {
    Quotient(0.0, x, d);
    Quotient(x, d, d);
    assert 0.0 / d == 0.0 && d / d == 1.0;
  }

  /** Inside its leg a hit is worth between nothing and the full weight, the best one the full weight,
      in the order of the leg's own scores; all of a leg that ties get the full weight. */
  lemma NormalisedScale(b: Bounds, x: real, y: real)
    requires b.min <= x <= b.max && b.min <= y <= b.max
    ensures 0.0 <= Normalised(b, x) <= 1.0 && Normalised(b, b.max) == 1.0
    ensures b.max > Floor(b) ==> (x <= y <==> Normalised(b, x) <= Normalised(b, y))
    ensures b.min == b.max <= 0.0 ==> Normalised(b, x) == 1.0
  {
    if b.max > Floor(b) {
      var d := b.max - Floor(b);
      Quotient(x - Floor(b), y - Floor(b), d);
      Fraction(x - Floor(b), d);
    }
  }

  // ---------------------------------------------------------------------------
  // Ordering the fused hits
  // ---------------------------------------------------------------------------

  /** Score descending, then repository, path and line. */
  predicate HitBefore(a: Hit, b: Hit)
  {
    if a.score != b.score then a.score > b.score
    else if a.repo != b.repo then Less(a.repo, b.repo)
    else if a.path != b.path then Less(a.path, b.path)
    else a.line < b.line
  }

  lemma HitBeforeAsymmetric(a: Hit, b: Hit)
    requires HitBefore(a, b)
    ensures !HitBefore(b, a)
  {
    LessIsStrict(a.repo, b.repo);
    LessIsStrict(a.path, b.path);
  }

  /** Not-after is transitive on strings: the order is total. */
  lemma NotLessChain(a: string, b: string, c: string)
    requires !Less(a, b) && !Less(b, c)
    ensures !Less(a, c) && (a == c ==> a == b == c)
  {
    LessTotal(a, b);
    LessTotal(b, c);
    LessIsStrict(a, c);
    if Less(b, a) && Less(c, b) {
      LessTransitive(c, b, a);
      LessIsStrict(a, b);
    }
  }

  lemma NotBeforeChain(a: Hit, b: Hit, c: Hit)
    requires !HitBefore(a, b) && !HitBefore(b, c)
    ensures !HitBefore(a, c)
  {
    if a.score == b.score == c.score {
      LessIsStrict(a.repo, b.repo);
      LessIsStrict(b.repo, c.repo);
      NotLessChain(a.repo, b.repo, c.repo);
      if a.repo == c.repo {
        LessIsStrict(a.path, b.path);
        LessIsStrict(b.path, c.path);
        NotLessChain(a.path, b.path, c.path);
      }
    }
  }

  method SortHits(hits: seq<Hit>) returns (out: seq<Hit>, ghost order: seq<nat>)
    ensures multiset(out) == multiset(hits) && Sorting.Sorted(out, HitBefore)
    ensures Sorting.Selects(hits, order, out) && Sorting.Lists(order, |hits|)
  {
    forall i, j | 0 <= i < |hits| && 0 <= j < |hits| && HitBefore(hits[i], hits[j]) ensures !HitBefore(hits[j], hits[i]) {
      HitBeforeAsymmetric(hits[i], hits[j]);
    }
    forall i, j, k | 0 <= i < |hits| && 0 <= j < |hits| && 0 <= k < |hits| && !HitBefore(hits[i], hits[j]) && !HitBefore(hits[j], hits[k])
      ensures !HitBefore(hits[i], hits[k])
    {
      NotBeforeChain(hits[i], hits[j], hits[k]);
    }
    out, order := Sorting.SliceStable(hits, HitBefore);
    Sorting.StableOrderLists(hits, HitBefore, order);
  }

  // ---------------------------------------------------------------------------
  // The fusion
  // ---------------------------------------------------------------------------

  datatype Leg = Leg(source: Source, hits: seq<Option<Hit>>)

  function LegEntries(source: Source, hits: seq<Option<Hit>>): seq<Entry>
  {
    if hits == [] then []
    else
      var n := |hits| - 1;
      LegEntries(source, hits[..n]) + if hits[n].Some? then [Entry(source, n, hits[n].value)] else []
  }

  function Entries(legs: seq<Leg>): seq<Entry>
  {
    if legs == [] then [] else Entries(legs[..|legs| - 1]) + LegEntries(legs[|legs| - 1].source, legs[|legs| - 1].hits)
  }

  function Answer(c: Cluster): Hit { c.hit.(score := c.score, reason := Join(Reasons(c.found), '+')) }

  function Answers(cs: seq<Cluster>): (r: seq<Hit>)
    ensures |r| == |cs| && forall i :: 0 <= i < |cs| ==> r[i] == Answer(cs[i])
  {
    seq(|cs|, i requires 0 <= i < |cs| => Answer(cs[i]))
  }

  function Files(cs: seq<Cluster>): (r: seq<FileKey>)
    ensures |r| == |cs| && forall i :: 0 <= i < |cs| ==> r[i] == FileOf(cs[i].hit)
  {
    seq(|cs|, i requires 0 <= i < |cs| => FileOf(cs[i].hit))
  }

  ghost predicate IndexesKeys(byKey: map<SpanKey, nat>, cs: seq<Cluster>)
  {
    && (forall key :: key in byKey ==> byKey[key] == WithKey(cs, key) < |cs|)
    && forall i :: 0 <= i < |cs| ==> cs[i].key in byKey
  }

  method FindFree(candidates: seq<nat>, cs: seq<Cluster>, e: Entry) returns (i: nat)
    requires ListsFile(candidates, Files(cs), FileOf(e.hit))
    ensures i == FirstFree(cs, e)
  {
    for a := 0 to |candidates|
      invariant forall b :: 0 <= b < a ==> !Free(cs[candidates[b]], e)
    {
      i := candidates[a];
      if Free(cs[i], e) {
        forall j: nat | j < i ensures !Free(cs[j], e) {
          if FileOf(cs[j].hit) == FileOf(e.hit) {
            var b :| 0 <= b < |candidates| && candidates[b] == j;
            assert b < a;
          }
        }
        FirstFreeIs(cs, e, i);
        return i;
      }
    }
    forall j: nat | j < |cs| ensures !Free(cs[j], e) {
      if FileOf(cs[j].hit) == FileOf(e.hit) {
        assert j in candidates;
      }
    }
    FirstFreeIs(cs, e, |cs|);
    return |cs|;
  }

  lemma KeysGrow(byKey: map<SpanKey, nat>, cs: seq<Cluster>, c: Cluster)
    requires IndexesKeys(byKey, cs) && c.key !in byKey
    ensures IndexesKeys(byKey[c.key := |cs|], cs + [c])
  {
    var longer := cs + [c];
    forall key | key in byKey ensures byKey[key] == WithKey(longer, key) {
      WithKeyIs(cs, key, byKey[key]);
      WithKeyIs(longer, key, byKey[key]);
    }
    WithKeyIs(longer, c.key, |cs|);
  }

  lemma KeysStayIndexed(byKey: map<SpanKey, nat>, cs: seq<Cluster>, i: nat, c: Cluster)
    requires IndexesKeys(byKey, cs) && i < |cs| && c.key == cs[i].key
    ensures IndexesKeys(byKey, cs[i := c])
  {
    forall key | key in byKey ensures byKey[key] == WithKey(cs[i := c], key) {
      WithKeyIs(cs, key, byKey[key]);
      WithKeyIs(cs[i := c], key, byKey[key]);
    }
  }

  /** One hit finds or opens its cluster. */
  method Place(cs: seq<Cluster>, byKey: map<SpanKey, nat>, byFile: FileIndex, e: Entry, f: Contribution)
    returns (cs': seq<Cluster>, byKey': map<SpanKey, nat>, byFile': FileIndex)
    requires IndexesKeys(byKey, cs) && IndexesFiles(byFile, Files(cs))
    requires Target(cs, e) < |cs| ==> FileOf(cs[Target(cs, e)].hit) == FileOf(e.hit)
    ensures cs' == FuseStep(cs, e, f(e)) && IndexesKeys(byKey', cs') && IndexesFiles(byFile', Files(cs'))
  {
    cs', byKey', byFile' := cs, byKey, byFile;
    var key, w := Key(e.hit), f(e);
    var i := |cs|;
    if key in byKey {
      i := byKey[key];
    } else {
      NoSuchKey(byKey, cs, key);
      assert ListsFile(InFile(byFile, FileOf(e.hit)), Files(cs), FileOf(e.hit));
      i := FindFree(InFile(byFile, FileOf(e.hit)), cs, e);
    }
    assert i == Target(cs, e);
    if i == |cs| {
      var c := Opened(e, w);
      KeysGrow(byKey, cs, c);
      IndexGrows(byFile, Files(cs), FileOf(e.hit));
      assert Files(cs + [c]) == Files(cs) + [FileOf(e.hit)];
      cs', byKey' := cs + [c], byKey[key := i];
      byFile' := byFile[FileOf(e.hit) := InFile(byFile, FileOf(e.hit)) + [i]];
    } else {
      var c := Joined(cs[i], e, w);
      KeysStayIndexed(byKey, cs, i, c);
      assert Files(cs[i := c]) == Files(cs);
      cs' := cs[i := c];
    }
  }

  lemma NoSuchKey(byKey: map<SpanKey, nat>, cs: seq<Cluster>, key: SpanKey)
    requires IndexesKeys(byKey, cs) && key !in byKey
    ensures WithKey(cs, key) == |cs|
  {
    WithKeyIs(cs, key, |cs|);
  }

  lemma EntriesSnoc(legs: seq<Leg>, l: nat)
    requires l < |legs|
    ensures Entries(legs[..l + 1]) == Entries(legs[..l]) + LegEntries(legs[l].source, legs[l].hits)
  {
    assert legs[..l + 1][..l] == legs[..l];
  }

  /** What the step of one more hit needs to know about its file. */
  lemma TargetInFile(so: seq<Entry>, e: Entry, f: Contribution)
    ensures var cs := FuseAll(so, f); Target(cs, e) < |cs| ==> FileOf(cs[Target(cs, e)].hit) == FileOf(e.hit)
  {
    ClustersAreDescribed(so, f);
    if Target(FuseAll(so, f), e) < |FuseAll(so, f)| {
      TargetIsSameFile(so, Homes(so, f), FuseAll(so, f), e, f);
    }
  }

  lemma LegEntriesSnoc(before: seq<Entry>, source: Source, hits: seq<Option<Hit>>, rank: nat)
    requires rank < |hits|
    ensures before + LegEntries(source, hits[..rank + 1]) ==
              before + LegEntries(source, hits[..rank]) + if hits[rank].Some? then [Entry(source, rank, hits[rank].value)] else []
  {
    assert hits[..rank + 1][..rank] == hits[..rank];
  }

  lemma LegStep(so: seq<Entry>, e: Entry, f: Contribution)
    ensures FuseAll(so + [e], f) == FuseStep(FuseAll(so, f), e, f(e))
    ensures var cs := FuseAll(so, f); Target(cs, e) < |cs| ==> FileOf(cs[Target(cs, e)].hit) == FileOf(e.hit)
  {
    FuseSnoc(so, e, f);
    TargetInFile(so, e, f);
  }

  ghost predicate Indexed(cs: seq<Cluster>, byKey: map<SpanKey, nat>, byFile: FileIndex)
  {
    IndexesKeys(byKey, cs) && IndexesFiles(byFile, Files(cs))
  }

  /** The hits of one leg, in rank order. */
  method FuseLeg(leg: Leg, cs: seq<Cluster>, byKey: map<SpanKey, nat>, byFile: FileIndex, f: Contribution, ghost before: seq<Entry>)
    returns (cs': seq<Cluster>, byKey': map<SpanKey, nat>, byFile': FileIndex)
    requires Indexed(cs, byKey, byFile) && cs == FuseAll(before, f)
    ensures Indexed(cs', byKey', byFile') && cs' == FuseAll(before + LegEntries(leg.source, leg.hits), f)
  {
    cs', byKey', byFile' := cs, byKey, byFile;
    ghost var so := before;
    for rank := 0 to |leg.hits|
      invariant so == before + LegEntries(leg.source, leg.hits[..rank])
      invariant cs' == FuseAll(so, f)
      invariant Indexed(cs', byKey', byFile')
    {
      LegEntriesSnoc(before, leg.source, leg.hits, rank);
      if leg.hits[rank].None? {
        continue;
      }
      var e := Entry(leg.source, rank, leg.hits[rank].value);
      LegStep(so, e, f);
      cs', byKey', byFile' := Place(cs', byKey', byFile', e, f);
      so := so + [e];
    }
    assert leg.hits[..|leg.hits|] == leg.hits;
  }

  /** fuseBy. */
  method FuseBy(legs: seq<Leg>, f: Contribution) returns (out: seq<Hit>, ghost order: seq<nat>)
    ensures var answers := Answers(FuseAll(Entries(legs), f));
            multiset(out) == multiset(answers) && Sorting.Selects(answers, order, out) && Sorting.Lists(order, |answers|)
    ensures Sorting.Sorted(out, HitBefore)
  {
    var cs: seq<Cluster>, byKey: map<SpanKey, nat>, byFile: FileIndex := [], map[], map[];
    for l := 0 to |legs|
      invariant cs == FuseAll(Entries(legs[..l]), f) && Indexed(cs, byKey, byFile)
    {
      EntriesSnoc(legs, l);
      cs, byKey, byFile := FuseLeg(legs[l], cs, byKey, byFile, f, Entries(legs[..l]));
    }
    assert legs[..|legs|] == legs;
    out, order := SortHits(Answers(cs));
  }

  /** In the answer a lower score means a later place. */
  lemma PlacesFollowScores(answers: seq<Hit>, order: seq<nat>, out: seq<Hit>, p: nat, q: nat)
    requires Sorting.Selects(answers, order, out) && Sorting.Sorted(out, HitBefore) && p < |out| && q < |out|
    requires answers[order[p]].score < answers[order[q]].score
    ensures q < p
  {
    assert out[p].score < out[q].score;
    assert HitBefore(out[q], out[p]);
  }

  // ---------------------------------------------------------------------------
  // Reciprocal rank fusion
  // ---------------------------------------------------------------------------

  /** No hit has a rank without a reciprocal. */
  ghost predicate HasReciprocals(es: seq<Entry>, k: real) { forall j :: 0 <= j < |es| ==> k + (es[j].rank + 1) as real != 0.0 }

  ghost predicate HasHitOf(es: seq<Entry>, hs: seq<nat>, h: nat, s: Source)
    requires |hs| == |es|
  {
    exists j :: 0 <= j < |es| && es[j].source == s && hs[j] == h
  }

  /** The cluster of some hits of s alone. */
  ghost predicate OnlyHitsOf(es: seq<Entry>, hs: seq<nat>, h: nat, s: Source)
    requires |hs| == |es|
  {
    HasHitOf(es, hs, h, s) && Unshared(es, hs, h, s)
  }

  /** Among lists of at most n hits, m hits of B weigh less than one of A, and no cluster of B alone has
      more of them. */
  ghost predicate Outweighed(es: seq<Entry>, hs: seq<nat>, k: real, weights: map<Source, real>, n: nat, m: nat, a: Source, b: Source)
    requires |hs| == |es|
  {
    && k > -1.0 && NonNegative(weights) && Within(es, n)
    && (forall h: nat :: OnlyHitsOf(es, hs, h, b) ==> Members(hs, h) <= m)
    && WeightsApart(k, Weight(weights, a), m as real * Weight(weights, b), n)
  }

  /** The same, rank by rank. */
  ghost predicate OutweighedAtRanks(es: seq<Entry>, hs: seq<nat>, k: real, weights: map<Source, real>, n: nat, m: nat, a: Source, b: Source)
    requires |hs| == |es|
  {
    && k > -1.0 && NonNegative(weights) && Within(es, n)
    && (forall h: nat :: OnlyHitsOf(es, hs, h, b) ==> Members(hs, h) <= m)
    && RanksApart(k, Weight(weights, a), Times(m, Weight(weights, b)), n)
  }

  lemma OutweighedRankByRank(es: seq<Entry>, hs: seq<nat>, k: real, weights: map<Source, real>, n: nat, m: nat, a: Source, b: Source)
    requires |hs| == |es| && Outweighed(es, hs, k, weights, n, m, a, b)
    ensures OutweighedAtRanks(es, hs, k, weights, n, m, a, b)
  {
    WeighLessApart(k, Weight(weights, a), Weight(weights, b), m, n);
  }

  lemma WeighLessApart(k: real, wA: real, wB: real, m: nat, n: nat)
    requires k > -1.0 && wA >= 0.0 && wB >= 0.0 && WeightsApart(k, wA, m as real * wB, n)
    ensures RanksApart(k, wA, Times(m, wB), n)
  {
    if n > 0 {
      RepeatsSeparateIff(k, wA, wB, m, n);
    }
  }

  /** What only B found stands behind everything A found. */
  ghost predicate StandsBehind(es: seq<Entry>, hs: seq<nat>, order: seq<nat>, a: Source, b: Source)
    requires |hs| == |es|
  {
    forall p, q :: 0 <= p < |order| && 0 <= q < |order| && HasHitOf(es, hs, order[p], a) && OnlyHitsOf(es, hs, order[q], b) ==> p < q
  }

  lemma {:induction false} MoreHitsWeighMore(few: nat, many: nat, w: real)
    requires few <= many && w >= 0.0
    ensures 0.0 <= Times(few, w) <= Times(many, w)
    decreases many
  {
    if few < many {
      MoreHitsWeighMore(few, many - 1, w);
    } else {
      NotNegativeTimes(few, w);
    }
  }

  lemma AtRankGrows(k: real, v: real, w: real, rank: nat)
    requires k > -1.0 && v <= w
    ensures AtRank(k, v, rank) <= AtRank(k, w, rank)
  {
    var x := 1.0 / (k + (rank + 1) as real);
    assert x * w - x * v == x * (w - v) >= 0.0;
  }

  lemma FewerHitsApart(k: real, wA: real, wB: real, few: nat, m: nat, n: nat)
    requires k > -1.0 && wB >= 0.0 && few <= m && RanksApart(k, wA, Times(m, wB), n)
    ensures RanksApart(k, wA, Times(few, wB), n)
  {
    MoreHitsWeighMore(few, m, wB);
    forall a: nat, b: nat | a < n && b < n ensures AtRank(k, Times(few, wB), b) < AtRank(k, wA, a) {
      AtRankGrows(k, Times(few, wB), Times(m, wB), b);
    }
  }

  lemma OutweighedScoresLess(es: seq<Entry>, hs: seq<nat>, cs: seq<Cluster>, k: real, weights: map<Source, real>, n: nat, m: nat, a: Source, b: Source, g: nat, h: nat)
    requires Clustering(es, hs, cs, RRFBy(k, weights)) && OutweighedAtRanks(es, hs, k, weights, n, m, a, b)
    requires g < |cs| && h < |cs| && HasHitOf(es, hs, g, a) && OnlyHitsOf(es, hs, h, b)
    ensures cs[h].score < cs[g].score
  {
    var ja: nat :| ja < |es| && es[ja].source == a && hs[ja] == g;
    var jb: nat :| jb < |es| && es[jb].source == b && hs[jb] == h;
    FewerHitsApart(k, Weight(weights, a), Weight(weights, b), Members(hs, h), m, n);
    WeakSourceNeverContributes(es, hs, cs, k, weights, n, a, b, ja, jb);
  }

  /** An outweighed searcher's own finds come after every find of the other. */
  lemma OutweighedStandsBehind(es: seq<Entry>, hs: seq<nat>, cs: seq<Cluster>, k: real, weights: map<Source, real>, n: nat, m: nat, a: Source, b: Source, order: seq<nat>, out: seq<Hit>)
    requires Clustering(es, hs, cs, RRFBy(k, weights)) && OutweighedAtRanks(es, hs, k, weights, n, m, a, b)
    requires Sorting.Selects(Answers(cs), order, out) && Sorting.Sorted(out, HitBefore)
    ensures StandsBehind(es, hs, order, a, b)
  {
    forall p, q | 0 <= p < |order| && 0 <= q < |order| && HasHitOf(es, hs, order[p], a) && OnlyHitsOf(es, hs, order[q], b) ensures p < q {
      OutweighedScoresLess(es, hs, cs, k, weights, n, m, a, b, order[p], order[q]);
      PlacesFollowScores(Answers(cs), order, out, q, p);
    }
  }

  /** fuseRRF: a rank constant of zero means the default. */
  method FuseRRF(legs: seq<Leg>, k: real, weights: map<Source, real>) returns (out: seq<Hit>, ghost order: seq<nat>)
    requires HasReciprocals(Entries(legs), EffectiveK(k))
    ensures var f := RRFBy(EffectiveK(k), weights);
            var answers := Answers(FuseAll(Entries(legs), f));
            multiset(out) == multiset(answers) && Sorting.Selects(answers, order, out) && Sorting.Lists(order, |answers|)
    ensures Sorting.Sorted(out, HitBefore)
    ensures var es, hs := Entries(legs), Homes(Entries(legs), RRFBy(EffectiveK(k), weights));
            forall n: nat, m: nat, a, b :: Outweighed(es, hs, EffectiveK(k), weights, n, m, a, b) ==> StandsBehind(es, hs, order, a, b)
  {
    out, order := FuseBy(legs, RRFBy(EffectiveK(k), weights));
    ghost var es, f := Entries(legs), RRFBy(EffectiveK(k), weights);
    ghost var hs, cs := Homes(es, f), FuseAll(es, f);
    FusionIsClustering(es, f);
    forall n: nat, m: nat, a, b | Outweighed(es, hs, EffectiveK(k), weights, n, m, a, b) ensures StandsBehind(es, hs, order, a, b) {
      OutweighedRankByRank(es, hs, EffectiveK(k), weights, n, m, a, b);
      OutweighedStandsBehind(es, hs, cs, EffectiveK(k), weights, n, m, a, b, order, out);
    }
  }
}
