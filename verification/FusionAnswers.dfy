/** What fusion returns, told on the hits that went in: where each hit goes, what it is worth under either
    fusion function, and how the answer is ordered. */
module FusionAnswers {
  import opened Wrappers
  import opened Hits
  import opened Strings
  import opened Fusion
  import Sorting

  // ---------------------------------------------------------------------------
  // Where a hit goes
  // ---------------------------------------------------------------------------

  /** Two hits overlap when they share a line of a file. */
  lemma OverlapsIsSharedLine(a: Hit, b: Hit)
    ensures Overlaps(a, b) <==> exists l :: HasLine(a, a.repo, a.path, l) && HasLine(b, a.repo, a.path, l)
  {
    if Overlaps(a, b) {
      var l := if a.line < b.line then b.line else a.line;
      assert HasLine(a, a.repo, a.path, l) && HasLine(b, a.repo, a.path, l);
    }
  }

  ghost predicate SharesLine(a: Hit, b: Hit) { exists l :: HasLine(a, a.repo, a.path, l) && HasLine(b, a.repo, a.path, l) }

  ghost predicate SameSpan(c: Cluster, h: Hit) { c.key == SpanKey(h.repo, h.path, h.line, h.endLine) }

  ghost predicate MayJoin(c: Cluster, e: Entry) { e.source !in c.sources && SharesLine(c.hit, e.hit) }

  /** A hit goes to the first cluster opened on its very span, otherwise to the first that shares a line with
      it and has nothing of its searcher, and otherwise opens one. */
  lemma HomeDecided(cs: seq<Cluster>, e: Entry)
    ensures var h := Target(cs, e);
            if exists i :: 0 <= i < |cs| && SameSpan(cs[i], e.hit) then
              h < |cs| && SameSpan(cs[h], e.hit) && forall i :: 0 <= i < h ==> !SameSpan(cs[i], e.hit)
            else if exists i :: 0 <= i < |cs| && MayJoin(cs[i], e) then
              h < |cs| && MayJoin(cs[h], e) && forall i :: 0 <= i < h ==> !MayJoin(cs[i], e)
            else h == |cs|
  {
    WithKeyIs(cs, Key(e.hit), WithKey(cs, Key(e.hit)));
    FirstFreeIs(cs, e, FirstFree(cs, e));
    forall i | 0 <= i < |cs| ensures Free(cs[i], e) <==> MayJoin(cs[i], e) {
      OverlapsIsSharedLine(cs[i].hit, e.hit);
    }
  }

  // ---------------------------------------------------------------------------
  // What the answer says of a cluster
  // ---------------------------------------------------------------------------

  /** A cluster is answered with its best ranked hit, at the sum of what its hits are worth. */
  lemma AnswerIsBestHit(es: seq<Entry>, f: Contribution, i: nat) returns (j: nat)
    requires i < |FuseAll(es, f)|
    ensures j < |es| && Homes(es, f)[j] == i
    ensures forall x :: 0 <= x < |es| && Homes(es, f)[x] == i ==> es[j].rank < es[x].rank || (es[j].rank == es[x].rank && j <= x)
    ensures var a := Answers(FuseAll(es, f))[i];
            && a.repo == es[j].hit.repo && a.path == es[j].hit.path && a.line == es[j].hit.line && a.endLine == es[j].hit.endLine
            && a.symbol == es[j].hit.symbol && a.score == Collected(es, Homes(es, f), i, f)
  {
    ClustersAreDescribed(es, f);
    var c := FuseAll(es, f)[i];
    assert Describes(es, Homes(es, f), i, c, f);
    j :| BestOf(es, Homes(es, f), i, j) && c.hit == es[j].hit && c.bestRank == es[j].rank;
  }

  /** What the hits of cluster i were found by, in their order. */
  function FoundBy(es: seq<Entry>, hs: seq<nat>, i: nat): seq<Found>
    requires |hs| == |es|
  {
    if es == [] then []
    else
      var n := |es| - 1;
      FoundBy(es[..n], hs[..n], i) + if hs[n] == i then [Found(es[n].hit.reason, es[n].source)] else []
  }

  lemma FoundByNext(es: seq<Entry>, hs: seq<nat>, i: nat, e: Entry, h: nat)
    requires |hs| == |es|
    ensures FoundBy(es + [e], hs + [h], i) == FoundBy(es, hs, i) + if h == i then [Found(e.hit.reason, e.source)] else []
  {
    assert (es + [e])[..|es|] == es && (hs + [h])[..|hs|] == hs;
  }

  lemma {:induction false} NothingFound(es: seq<Entry>, hs: seq<nat>, i: nat)
    requires |hs| == |es| && forall x :: 0 <= x < |hs| ==> hs[x] != i
    ensures FoundBy(es, hs, i) == []
  {
    if es != [] {
      NothingFound(es[..|es| - 1], hs[..|es| - 1], i);
    }
  }

  ghost predicate AllFound(es: seq<Entry>, hs: seq<nat>, cs: seq<Cluster>)
    requires |hs| == |es|
  {
    forall i :: 0 <= i < |cs| ==> cs[i].found == FoundBy(es, hs, i)
  }

  lemma FoundStep(es: seq<Entry>, hs: seq<nat>, cs: seq<Cluster>, e: Entry, w: real)
    requires |hs| == |es| && AllFound(es, hs, cs) && forall x :: 0 <= x < |hs| ==> hs[x] < |cs|
    ensures AllFound(es + [e], hs + [Target(cs, e)], FuseStep(cs, e, w))
  {
    var h, after := Target(cs, e), FuseStep(cs, e, w);
    forall i | 0 <= i < |after| ensures after[i].found == FoundBy(es + [e], hs + [h], i) {
      FoundByNext(es, hs, i, e, h);
      if i == |cs| {
        NothingFound(es, hs, i);
      }
    }
  }

  lemma {:induction false} FoundAre(es: seq<Entry>, f: Contribution)
    ensures AllFound(es, Homes(es, f), FuseAll(es, f))
  {
    if es != [] {
      var n := |es| - 1;
      FoundAre(es[..n], f);
      HomesExist(es[..n], f);
      FoundStep(es[..n], Homes(es[..n], f), FuseAll(es[..n], f), es[n], f(es[n]));
      HomesSnoc(es, f);
      Unfused(es, f);
      assert es[..n] + [es[n]] == es;
    }
  }

  /** The parts of a hit's reason between plus signs, or of its searcher's name if it has none. */
  function Pieces(found: Found): seq<string> { Split(if found.reason == "" then found.source else found.reason, '+') }

  /** What is left of such a part without the blanks around it is a reason. */
  ghost predicate GivesReason(found: Found, part: string)
  {
    part != "" && exists k :: 0 <= k < |Pieces(found)| && part == Trim(Pieces(found)[k], BLANKS)
  }

  lemma GivenIsTrimmed(found: Found, part: string)
    ensures GivesReason(found, part) <==> part != "" && part in Trimmed(Pieces(found))
  {
    var parts := Pieces(found);
    if part in Trimmed(parts) {
      var k :| 0 <= k < |Trimmed(parts)| && Trimmed(parts)[k] == part;
      assert part == Trim(parts[k], BLANKS);
    }
    if k :| 0 <= k < |parts| && part == Trim(parts[k], BLANKS) {
      assert Trimmed(parts)[k] == part;
    }
  }

  /** The reasons of a cluster are all that its hits give, each once. */
  lemma {:induction false} ReasonsAreGiven(found: seq<Found>)
    ensures Unique(Reasons(found))
    ensures forall part :: part in Reasons(found) <==> exists i :: 0 <= i < |found| && GivesReason(found[i], part)
  {
    if found != [] {
      var n := |found| - 1;
      ReasonsAreGiven(found[..n]);
      ReasonsStayUnique(Reasons(found[..n]), Trimmed(Pieces(found[n])));
      forall part ensures part in Reasons(found) <==> exists i :: 0 <= i < |found| && GivesReason(found[i], part) {
        GivenIsTrimmed(found[n], part);
        if i :| 0 <= i < n && GivesReason(found[..n][i], part) {
          assert GivesReason(found[i], part);
        }
        if i :| 0 <= i < |found| && GivesReason(found[i], part) && i < n {
          assert GivesReason(found[..n][i], part);
        }
      }
    }
  }

  /** They are what the answer's reason says between its plus signs. */
  lemma AnswerSaysReasons(c: Cluster)
    requires Reasons(c.found) != []
    ensures Split(Answer(c).reason, '+') == Reasons(c.found)
  {
    ReasonsAreGiven(c.found);
    forall i | 0 <= i < |Reasons(c.found)| ensures '+' !in Reasons(c.found)[i] {
      var part := Reasons(c.found)[i];
      assert part in Reasons(c.found);
      var k :| 0 <= k < |c.found| && GivesReason(c.found[k], part);
      GivenHasNoPlus(c.found[k], part);
    }
    SplitOfJoin(Reasons(c.found), '+');
  }

  lemma GivenHasNoPlus(found: Found, part: string)
    requires GivesReason(found, part)
    ensures '+' !in part
  {
    var k :| 0 <= k < |Pieces(found)| && part == Trim(Pieces(found)[k], BLANKS);
    TrimKeepsChars(Pieces(found)[k], BLANKS);
    TrimKeepsChars(TrimLeft(Pieces(found)[k], BLANKS), BLANKS);
  }

  /** The hits that are fused are those of the lists, each with its searcher and its place. */
  lemma {:induction false} LegEntriesAre(source: Source, hits: seq<Option<Hit>>, e: Entry)
    ensures e in LegEntries(source, hits) <==> e.rank < |hits| && hits[e.rank] == Some(e.hit) && e.source == source
  {
    if hits != [] {
      LegEntriesAre(source, hits[..|hits| - 1], e);
    }
  }

  lemma {:induction false} EntriesAre(legs: seq<Leg>, e: Entry)
    ensures e in Entries(legs) <==>
              exists l :: 0 <= l < |legs| && legs[l].source == e.source && e.rank < |legs[l].hits| && legs[l].hits[e.rank] == Some(e.hit)
  {
    if legs != [] {
      var n := |legs| - 1;
      EntriesAre(legs[..n], e);
      LegEntriesAre(legs[n].source, legs[n].hits, e);
      if l :| 0 <= l < |legs| && legs[l].source == e.source && e.rank < |legs[l].hits| && legs[l].hits[e.rank] == Some(e.hit) {
        assert l < n ==> legs[..n][l] == legs[l];
      }
      if l :| 0 <= l < n && legs[..n][l].source == e.source && e.rank < |legs[..n][l].hits| && legs[..n][l].hits[e.rank] == Some(e.hit) {
        assert legs[l] == legs[..n][l];
      }
    }
  }

  /** Score descending, then repository, path and line ascending. */
  ghost predicate InAnswerOrder(out: seq<Hit>)
  {
    forall i, j :: 0 <= i < j < |out| ==>
      || out[i].score > out[j].score
      || (out[i].score == out[j].score &&
           (|| Less(out[i].repo, out[j].repo)
            || (out[i].repo == out[j].repo && (Less(out[i].path, out[j].path) || (out[i].path == out[j].path && out[i].line <= out[j].line)))))
  }

  lemma SortedIsInOrder(out: seq<Hit>)
    requires Sorting.Sorted(out, HitBefore)
    ensures InAnswerOrder(out)
  {
    forall i, j | 0 <= i < j < |out|
      ensures || out[i].score > out[j].score
              || (out[i].score == out[j].score &&
                   (|| Less(out[i].repo, out[j].repo)
                    || (out[i].repo == out[j].repo && (Less(out[i].path, out[j].path) || (out[i].path == out[j].path && out[i].line <= out[j].line)))))
    {
      assert !HitBefore(out[j], out[i]);
      LessTotal(out[i].repo, out[j].repo);
      LessTotal(out[i].path, out[j].path);
    }
  }

  // ---------------------------------------------------------------------------
  // Reciprocal ranks
  // ---------------------------------------------------------------------------

  /** The weight of a searcher over the rank constant plus the hit's place, counted from one. */
  lemma RankWorth(k: real, weights: map<Source, real>, e: Entry)
    requires (if k == 0.0 then 60.0 else k) + (e.rank + 1) as real != 0.0
    ensures var w := if e.source in weights then weights[e.source] else 1.0;
            RRFBy(EffectiveK(k), weights)(e) == 1.0 / ((if k == 0.0 then 60.0 else k) + (e.rank + 1) as real) * w
  {
  }

  // ---------------------------------------------------------------------------
  // Scores
  // ---------------------------------------------------------------------------

  /** The bounds of a leg's scores, both attained, or zeros for a leg without hits. */
  ghost predicate IsBounds(b: Bounds, hits: seq<Option<Hit>>)
  {
    if NonNil(hits) == 0 then b == Bounds(0.0, 0.0)
    else
      && Spans(b, hits)
      && (exists i :: 0 <= i < |hits| && hits[i].Some? && hits[i].value.score == b.min)
      && (exists i :: 0 <= i < |hits| && hits[i].Some? && hits[i].value.score == b.max)
  }

  /** The bounds of each leg under its searcher, a later leg's in place of an earlier one's. */
  function Spanned(legs: seq<Leg>, bounds: seq<Bounds>): map<Source, Bounds>
    requires |legs| == |bounds|
  {
    if legs == [] then map[] else Spanned(legs[..|legs| - 1], bounds[..|legs| - 1])[legs[|legs| - 1].source := bounds[|legs| - 1]]
  }

  ghost predicate AllBounds(bounds: seq<Bounds>, legs: seq<Leg>)
  {
    |bounds| == |legs| && forall l :: 0 <= l < |legs| ==> IsBounds(bounds[l], legs[l].hits)
  }

  /** A searcher has the bounds of its last leg. */
  lemma {:induction false} LastLegCounts(legs: seq<Leg>, bounds: seq<Bounds>, l: nat)
    requires |legs| == |bounds| && l < |legs| && forall m :: l < m < |legs| ==> legs[m].source != legs[l].source
    ensures legs[l].source in Spanned(legs, bounds) && Spanned(legs, bounds)[legs[l].source] == bounds[l]
  {
    if l < |legs| - 1 {
      LastLegCounts(legs[..|legs| - 1], bounds[..|legs| - 1], l);
    }
  }

  /** A hit's place between the floor and the best score of its leg, times the searcher's weight. */
  function ConvexBy(spans: map<Source, Bounds>, weights: map<Source, real>): Contribution
  {
    (e: Entry) => Weighted(if e.source in spans then spans[e.source] else Bounds(0.0, 0.0), e.hit.score, Weight(weights, e.source))
  }

  function Weighted(b: Bounds, score: real, w: real): real { Normalised(b, score) * w }

  /** The floor is zero unless a score was negative; a leg that does not rise above it gets the full weight. */
  lemma ConvexWorth(spans: map<Source, Bounds>, weights: map<Source, real>, e: Entry)
    requires e.source in spans
    ensures var b := spans[e.source];
            var floor := if b.min < 0.0 then b.min else 0.0;
            var w := if e.source in weights then weights[e.source] else 1.0;
            ConvexBy(spans, weights)(e) == if b.max > floor then (e.hit.score - floor) / (b.max - floor) * w else w
  {
  }

  method BoundsOf(hits: seq<Option<Hit>>) returns (b: Bounds)
    ensures IsBounds(b, hits)
  {
    b := LegBounds(hits);
  }

  method FindSpans(legs: seq<Leg>) returns (spans: map<Source, Bounds>, ghost bounds: seq<Bounds>)
    ensures AllBounds(bounds, legs) && spans == Spanned(legs, bounds)
  {
    spans, bounds := map[], [];
    for l := 0 to |legs|
      invariant AllBounds(bounds, legs[..l]) && spans == Spanned(legs[..l], bounds)
    {
      var b := BoundsOf(legs[l].hits);
      SpannedNext(legs, bounds, l, b);
      spans := spans[legs[l].source := b];
      bounds := bounds + [b];
    }
    assert legs[..|legs|] == legs;
  }

  lemma SpannedNext(legs: seq<Leg>, bounds: seq<Bounds>, l: nat, b: Bounds)
    requires l < |legs| && AllBounds(bounds, legs[..l]) && IsBounds(b, legs[l].hits)
    ensures AllBounds(bounds + [b], legs[..l + 1])
    ensures Spanned(legs[..l + 1], bounds + [b]) == Spanned(legs[..l], bounds)[legs[l].source := b]
  {
    assert legs[..l + 1][..l] == legs[..l] && (bounds + [b])[..l] == bounds;
  }

  /** fuseConvex. */
  method FuseConvex(legs: seq<Leg>, weights: map<Source, real>) returns (out: seq<Hit>, ghost order: seq<nat>, ghost bounds: seq<Bounds>)
    ensures AllBounds(bounds, legs)
    ensures var answers := Answers(FuseAll(Entries(legs), ConvexBy(Spanned(legs, bounds), weights)));
            multiset(out) == multiset(answers) && Sorting.Selects(answers, order, out) && Sorting.Lists(order, |answers|)
    ensures InAnswerOrder(out)
  {
    var spans;
    spans, bounds := FindSpans(legs);
    out, order := FuseBy(legs, ConvexBy(spans, weights));
    SortedIsInOrder(out);
  }

  /** Where the bounds are those of a hit's leg and its searcher's weight is not negative, the hit is worth
      between nothing and that weight, and of two hits of the leg the better scored one is worth no less. */
  lemma ConvexKeepsLegOrder(hits: seq<Option<Hit>>, spans: map<Source, Bounds>, weights: map<Source, real>, a: Entry, b: Entry)
    requires a.source == b.source && a.source in spans && IsBounds(spans[a.source], hits) && Weight(weights, a.source) >= 0.0
    requires Some(a.hit) in hits && Some(b.hit) in hits
    ensures 0.0 <= ConvexBy(spans, weights)(a) <= Weight(weights, a.source)
    ensures a.hit.score <= b.hit.score ==> ConvexBy(spans, weights)(a) <= ConvexBy(spans, weights)(b)
  {
    var s, w := spans[a.source], Weight(weights, a.source);
    HasHits(hits, a.hit);
    InBounds(s, hits, a.hit);
    InBounds(s, hits, b.hit);
    WorthIs(spans, weights, a);
    WorthIs(spans, weights, b);
    WeightedScale(s, a.hit.score, b.hit.score, w);
  }

  lemma WorthIs(spans: map<Source, Bounds>, weights: map<Source, real>, e: Entry)
    requires e.source in spans
    ensures ConvexBy(spans, weights)(e) == Weighted(spans[e.source], e.hit.score, Weight(weights, e.source))
  {
  }

  lemma InBounds(b: Bounds, hits: seq<Option<Hit>>, h: Hit)
    requires Spans(b, hits) && Some(h) in hits
    ensures b.min <= h.score <= b.max
  {
  }

  lemma WeightedScale(b: Bounds, x: real, y: real, w: real)
    requires b.min <= x <= b.max && b.min <= y <= b.max && w >= 0.0
    ensures 0.0 <= Weighted(b, x, w) <= w
    ensures x <= y ==> Weighted(b, x, w) <= Weighted(b, y, w)
  {
    var u, v := Normalised(b, x), Normalised(b, y);
    NormalisedScale(b, x, y);
    UnitTimes(u, w);
    assert Weighted(b, x, w) == u * w && Weighted(b, y, w) == v * w;
    if x <= y {
      assert u <= v;
      TimesGrows(u, v, w);
    }
  }

  lemma UnitTimes(x: real, w: real)
    requires 0.0 <= x <= 1.0 && w >= 0.0
    ensures 0.0 <= x * w <= w
  {
  }

  lemma TimesGrows(x: real, y: real, w: real)
    requires x <= y && w >= 0.0
    ensures x * w <= y * w
  {
  }

  lemma {:induction false} HasHits(hits: seq<Option<Hit>>, h: Hit)
    requires Some(h) in hits
    ensures NonNil(hits) > 0
  {
    var n := |hits| - 1;
    if hits[n] != Some(h) {
      assert hits == hits[..n] + [hits[n]];
      HasHits(hits[..n], h);
    }
  }
}
