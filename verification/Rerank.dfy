/** Putting a cross-encoder's scores on the fusion scale: the head is reordered by them, the tail is
    left alone, and the order served can be read back from the scores. */
module Rerank {
  import opened Wrappers
  import opened Hits
  import Sorting

  // ---------------------------------------------------------------------------
  // Extremes
  // ---------------------------------------------------------------------------

  function Min(a: real, b: real): real { if b < a then b else a }

  function Max(a: real, b: real): real { if b > a then b else a }

  function MinOf(s: seq<real>): real
    requires s != []
  {
    if |s| == 1 then s[0] else Min(MinOf(s[..|s| - 1]), s[|s| - 1])
  }

  function MaxOf(s: seq<real>): real
    requires s != []
  {
    if |s| == 1 then s[0] else Max(MaxOf(s[..|s| - 1]), s[|s| - 1])
  }

  /** The largest of lo and the elements of s. */
  function LiftOver(lo: real, s: seq<real>): real
  {
    if s == [] then lo else Max(LiftOver(lo, s[..|s| - 1]), s[|s| - 1])
  }

  lemma {:induction false} Extremes(s: seq<real>)
    requires s != []
    ensures forall i :: 0 <= i < |s| ==> MinOf(s) <= s[i] <= MaxOf(s)
    ensures MinOf(s) in s && MaxOf(s) in s
  {
    if |s| > 1 {
      var front, last := s[..|s| - 1], s[|s| - 1];
      Extremes(front);
      forall i | 0 <= i < |s| ensures MinOf(s) <= s[i] <= MaxOf(s) {
        assert i < |front| ==> front[i] == s[i];
      }
      assert MinOf(s) == last || MinOf(s) in front;
      assert MaxOf(s) == last || MaxOf(s) in front;
    }
  }

  lemma {:induction false} Lifts(lo: real, s: seq<real>)
    ensures lo <= LiftOver(lo, s) && forall i :: 0 <= i < |s| ==> s[i] <= LiftOver(lo, s)
    ensures LiftOver(lo, s) == lo || LiftOver(lo, s) in s
  {
    if s != [] {
      Lifts(lo, s[..|s| - 1]);
    }
  }

  method Bounds(s: seq<real>) returns (lo: real, hi: real)
    requires s != []
    ensures lo == MinOf(s) && hi == MaxOf(s)
  {
    lo, hi := s[0], s[0];
    for i := 1 to |s|
      invariant lo == MinOf(s[..i]) && hi == MaxOf(s[..i])
    {
      assert s[..i + 1][..i] == s[..i];
      if s[i] > hi {
        hi := s[i];
      }
      if s[i] < lo {
        lo := s[i];
      }
    }
    assert s[..|s|] == s;
  }

  // ---------------------------------------------------------------------------
  // Blending
  // ---------------------------------------------------------------------------

  datatype Range = Range(lo: real, hi: real)

  /** The head's own score range, lifted over the tail and spread out when it has no width. */
  function TargetRange(head: seq<real>, tail: seq<real>): Range
    requires head != []
  {
    var lo := LiftOver(MinOf(head), tail);
    var hi := Max(MaxOf(head), lo);
    if hi == lo then Range(lo, lo + (if hi > 0.0 then hi * 0.001 else 0.000001) * |head| as real) else Range(lo, hi)
  }

  lemma RangeHasWidth(head: seq<real>, tail: seq<real>)
    requires head != []
    ensures var r := TargetRange(head, tail); r.lo < r.hi && forall i :: 0 <= i < |tail| ==> tail[i] <= r.lo
  {
    Lifts(MinOf(head), tail);
    Extremes(head);
    var step := if Max(MaxOf(head), LiftOver(MinOf(head), tail)) > 0.0 then Max(MaxOf(head), LiftOver(MinOf(head), tail)) * 0.001 else 0.000001;
    Product(step, |head| as real);
  }

  lemma Product(x: real, y: real)
    requires x > 0.0 && y > 0.0
    ensures x * y > 0.0
  {
  }

  function BlendAt(r: Range, min: real, max: real, score: real): real
    requires min < max
  {
    r.lo + (score - min) / (max - min) * (r.hi - r.lo)
  }

  lemma Quotient(x: real, d: real)
    requires d > 0.0
    ensures x / d * d == x
  {
  }

  lemma Scale(x: real, y: real, z: real)
    requires z > 0.0
    ensures x < y <==> x * z < y * z
  {
    assert y * z - x * z == (y - x) * z;
    if x < y {
      Product(y - x, z);
    } else if y < x {
      Product(x - y, z);
      assert (x - y) * z == x * z - y * z;
    }
  }

  /** Strictly monotone in the rerank score, onto the ends of the range. */
  lemma BlendIsMonotone(r: Range, min: real, max: real, a: real, b: real)
    requires min < max && r.lo < r.hi
    ensures a < b <==> BlendAt(r, min, max, a) < BlendAt(r, min, max, b)
  {
    var d, w := max - min, r.hi - r.lo;
    var p, q := (a - min) / d, (b - min) / d;
    Quotient(a - min, d);
    Quotient(b - min, d);
    Scale(p, q, d);
    Scale(p, q, w);
  }

  lemma BlendEnds(r: Range, min: real, max: real)
    requires min < max
    ensures BlendAt(r, min, max, min) == r.lo && BlendAt(r, min, max, max) == r.hi
  {
    assert (max - min) / (max - min) == 1.0;
    assert 0.0 / (max - min) == 0.0;
  }

  predicate AllTied(scores: seq<real>)
    requires scores != []
  {
    MaxOf(scores) == MinOf(scores)
  }

  function Blended(head: seq<real>, tail: seq<real>, scores: seq<real>): (r: seq<real>)
    requires head != [] && |scores| == |head|
    ensures |r| == |head|
  {
    if AllTied(scores) then head
    else
      assert MinOf(scores) < MaxOf(scores) by { Extremes(scores); }
      seq(|head|, i requires 0 <= i < |head| => BlendAt(TargetRange(head, tail), MinOf(scores), MaxOf(scores), scores[i]))
  }

  /** Unless the reranker says nothing, the blended scores rank the head exactly as it did, and none
      of them is below a tail score. */
  lemma BlendingRanksAsReranker(head: seq<real>, tail: seq<real>, scores: seq<real>)
    requires head != [] && |scores| == |head| && !AllTied(scores)
    ensures var out := Blended(head, tail, scores);
            && (forall i, j :: 0 <= i < |head| && 0 <= j < |head| ==> (out[i] < out[j] <==> scores[i] < scores[j]))
            && (forall i, j :: 0 <= i < |head| && 0 <= j < |tail| ==> tail[j] <= out[i])
            && (forall i :: 0 <= i < |head| ==> TargetRange(head, tail).lo <= out[i] <= TargetRange(head, tail).hi)
  {
    var out, r := Blended(head, tail, scores), TargetRange(head, tail);
    var min, max := MinOf(scores), MaxOf(scores);
    Extremes(scores);
    RangeHasWidth(head, tail);
    BlendEnds(r, min, max);
    forall i, j | 0 <= i < |head| && 0 <= j < |head| ensures out[i] < out[j] <==> scores[i] < scores[j] {
      BlendIsMonotone(r, min, max, scores[i], scores[j]);
    }
    forall i | 0 <= i < |head| ensures r.lo <= out[i] <= r.hi {
      BlendIsMonotone(r, min, max, scores[i], min);
      BlendIsMonotone(r, min, max, max, scores[i]);
    }
  }

  /** The range the head is blended onto starts at the worst head score or the best tail score, whichever is
      higher. */
  lemma RangeStarts(head: seq<real>, tail: seq<real>)
    requires head != []
    ensures var lo := TargetRange(head, tail).lo;
            && (forall j :: 0 <= j < |tail| ==> tail[j] <= lo) && (exists i :: 0 <= i < |head| && head[i] <= lo)
            && ((lo in head && forall i :: 0 <= i < |head| ==> lo <= head[i]) || lo in tail)
  {
    Extremes(head);
    Lifts(MinOf(head), tail);
    var i :| 0 <= i < |head| && head[i] == MinOf(head);
  }

  /** It ends at the best head score; where that leaves no room it ends a thousandth of it, or a millionth of a
      point, above for each document. */
  lemma RangeEnds(head: seq<real>, tail: seq<real>)
    requires head != []
    ensures var r := TargetRange(head, tail);
            if exists i :: 0 <= i < |head| && head[i] > r.lo then r.hi in head && forall i :: 0 <= i < |head| ==> head[i] <= r.hi
            else r.hi == r.lo + (if r.lo > 0.0 then r.lo * 0.001 else 0.000001) * |head| as real
  {
    Extremes(head);
    var lo := LiftOver(MinOf(head), tail);
    if k :| 0 <= k < |head| && head[k] > lo {
      assert MaxOf(head) >= head[k];
    } else {
      assert MaxOf(head) <= lo;
    }
  }

  /** The reranker's favourite is blended onto the end of the range and its last onto the start. */
  lemma BlendedEnds(head: seq<real>, tail: seq<real>, scores: seq<real>, i: nat)
    requires head != [] && |scores| == |head| && !AllTied(scores) && i < |head|
    ensures (forall j :: 0 <= j < |scores| ==> scores[j] <= scores[i]) ==> Blended(head, tail, scores)[i] == TargetRange(head, tail).hi
    ensures (forall j :: 0 <= j < |scores| ==> scores[i] <= scores[j]) ==> Blended(head, tail, scores)[i] == TargetRange(head, tail).lo
  {
    Extremes(scores);
    BlendEnds(TargetRange(head, tail), MinOf(scores), MaxOf(scores));
  }

  /** A tied reranker is one that gives every document the same score. */
  lemma TiedMeansAlike(scores: seq<real>)
    requires scores != []
    ensures AllTied(scores) <==> forall i, j :: 0 <= i < |scores| && 0 <= j < |scores| ==> scores[i] == scores[j]
  {
    Extremes(scores);
    if forall i, j :: 0 <= i < |scores| && 0 <= j < |scores| ==> scores[i] == scores[j] {
      var a :| 0 <= a < |scores| && scores[a] == MinOf(scores);
      var b :| 0 <= b < |scores| && scores[b] == MaxOf(scores);
    }
  }

  method FindRange(head: seq<real>, tail: seq<real>) returns (lo: real, hi: real)
    requires head != []
    ensures lo == LiftOver(MinOf(head), tail) && hi == Max(MaxOf(head), lo)
  {
    lo, hi := Bounds(head);
    for i := 0 to |tail|
      invariant lo == LiftOver(MinOf(head), tail[..i])
    {
      assert tail[..i + 1][..i] == tail[..i];
      if tail[i] > lo {
        lo := tail[i];
      }
    }
    assert tail[..|tail|] == tail;
    if hi < lo {
      hi := lo;
    }
  }

  method Spread(scores: seq<real>, r: Range, min: real, max: real) returns (out: seq<real>)
    requires min < max
    ensures |out| == |scores| && forall x :: 0 <= x < |scores| ==> out[x] == BlendAt(r, min, max, scores[x])
  {
    var span := r.hi - r.lo;
    out := [];
    for i := 0 to |scores|
      invariant |out| == i && forall x :: 0 <= x < i ==> out[x] == BlendAt(r, min, max, scores[x])
    {
      var t := (scores[i] - min) / (max - min);
      out := out + [r.lo + t * span];
    }
  }

  method BlendRerankScores(head: seq<real>, tail: seq<real>, scores: seq<real>) returns (out: seq<real>)
    requires head != [] && |scores| == |head|
    ensures out == Blended(head, tail, scores)
  {
    var lo, hi := FindRange(head, tail);
    var min, max := Bounds(scores);
    if max == min {
      return head;
    }
    if hi == lo {
      var step := 0.000001;
      if hi > 0.0 {
        step := hi * 0.001;
      }
      hi := lo + step * |head| as real;
    }
    assert Range(lo, hi) == TargetRange(head, tail);
    Extremes(scores);
    out := Spread(scores, TargetRange(head, tail), min, max);
  }

  // ---------------------------------------------------------------------------
  // Reordering the head
  // ---------------------------------------------------------------------------

  const DEFAULT_TOP_N := 50

  function TopN(configured: int): nat { if configured <= 0 then DEFAULT_TOP_N else configured }

  function ScoresOf(hits: seq<Hit>): (r: seq<real>)
    ensures |r| == |hits| && forall i :: 0 <= i < |hits| ==> r[i] == hits[i].score
  {
    seq(|hits|, i requires 0 <= i < |hits| => hits[i].score)
  }

  function Marked(h: Hit, score: real): Hit
  {
    h.(score := score, reason := if h.reason != "" then h.reason + "+rerank" else "rerank")
  }

  function MarkedHead(hits: seq<Hit>, n: nat, scores: seq<real>): (r: seq<Hit>)
    requires 0 < n <= |hits| && |scores| == n
    ensures |r| == n
    ensures forall i :: 0 <= i < n ==> r[i] == Marked(hits[i], Blended(ScoresOf(hits[..n]), ScoresOf(hits[n..]), scores)[i])
  {
    var blended := Blended(ScoresOf(hits[..n]), ScoresOf(hits[n..]), scores);
    seq(n, i requires 0 <= i < n => Marked(hits[i], blended[i]))
  }

  predicate Higher(a: Hit, b: Hit) { a.score > b.score }

  ghost predicate Descending(hits: seq<Hit>) { forall i, j :: 0 <= i < j < |hits| ==> hits[i].score >= hits[j].score }

  /** `out` is the marked head, stably sorted by score in `order`, and the tail as it was. */
  ghost predicate Reranked(hits: seq<Hit>, n: nat, scores: seq<real>, order: seq<nat>, out: seq<Hit>)
    requires 0 < n <= |hits| && |scores| == n
  {
    && |out| == |hits| && |order| == n && out[n..] == hits[n..]
    && Sorting.Selects(MarkedHead(hits, n, scores), order, out[..n])
    && Sorting.StableOrder(MarkedHead(hits, n, scores), Higher, order)
    && multiset(out[..n]) == multiset(MarkedHead(hits, n, scores))
  }

  /** Each hit of the head is one of the head's, with its blended score and the mark. */
  lemma RerankedHitIs(hits: seq<Hit>, n: nat, scores: seq<real>, order: seq<nat>, out: seq<Hit>, a: nat)
    requires 0 < n <= |hits| && |scores| == n && Reranked(hits, n, scores, order, out) && a < n
    ensures order[a] < n
    ensures var from := hits[order[a]];
            out[a] == from.(score := Blended(ScoresOf(hits[..n]), ScoresOf(hits[n..]), scores)[order[a]],
                            reason := if from.reason == "" then "rerank" else from.reason + "+rerank")
  {
    assert out[..n][a] == MarkedHead(hits, n, scores)[order[a]];
  }

  /** The head comes in the reranker's order, ties by their fusion rank. */
  lemma HeadFollowsReranker(hits: seq<Hit>, n: nat, scores: seq<real>, order: seq<nat>, out: seq<Hit>, a: nat, b: nat)
    requires 0 < n <= |hits| && |scores| == n && Reranked(hits, n, scores, order, out)
    requires !AllTied(scores) && a < b < n
    ensures order[a] < n && order[b] < n
    ensures scores[order[a]] > scores[order[b]] || (scores[order[a]] == scores[order[b]] && order[a] < order[b])
  {
    var marked := MarkedHead(hits, n, scores);
    BlendingRanksAsReranker(ScoresOf(hits[..n]), ScoresOf(hits[n..]), scores);
    assert Sorting.InOrder(marked, Higher, order[a], order[b]);
  }

  /** A reranker that scores everything alike leaves a descending head in place. */
  lemma TiedRerankKeepsOrder(hits: seq<Hit>, n: nat, scores: seq<real>, order: seq<nat>, out: seq<Hit>)
    requires 0 < n <= |hits| && |scores| == n && Reranked(hits, n, scores, order, out)
    requires AllTied(scores) && Descending(hits)
    ensures forall a :: 0 <= a < n ==> order[a] == a && out[a].score == hits[a].score
  {
    var marked := MarkedHead(hits, n, scores);
    forall a, b | 0 <= a < b < n ensures order[a] < order[b] {
      assert Sorting.InOrder(marked, Higher, order[a], order[b]);
      assert marked[order[a]].score == hits[order[a]].score && marked[order[b]].score == hits[order[b]].score;
    }
    IncreasingIsIdentity(order, n);
    forall a | 0 <= a < n ensures out[a].score == hits[a].score {
      assert out[..n][a] == marked[order[a]];
    }
  }

  lemma {:induction false} IncreasingIsIdentity(order: seq<nat>, n: nat)
    requires |order| == n && (forall a :: 0 <= a < n ==> order[a] < n) && forall a, b :: 0 <= a < b < n ==> order[a] < order[b]
    ensures forall a :: 0 <= a < n ==> order[a] == a
  {
    if n > 0 {
      LastIsLarge(order, n);
      assert forall a :: 0 <= a < n - 1 ==> order[a] < order[n - 1];
      IncreasingIsIdentity(order[..n - 1], n - 1);
      forall a | 0 <= a < n - 1 ensures order[a] == a {
        assert order[..n - 1][a] == order[a];
      }
    }
  }

  lemma {:induction false} LastIsLarge(order: seq<nat>, n: nat)
    requires n > 0 && |order| == n && forall a, b :: 0 <= a < b < n ==> order[a] < order[b]
    ensures order[n - 1] >= n - 1
  {
    if n > 1 {
      LastIsLarge(order[..n - 1], n - 1);
      assert order[n - 2] < order[n - 1];
    }
  }

  lemma HeadDescends(hits: seq<Hit>, n: nat, scores: seq<real>, order: seq<nat>, out: seq<Hit>)
    requires 0 < n <= |hits| && |scores| == n && Reranked(hits, n, scores, order, out)
    ensures forall i, j :: 0 <= i < j < n ==> out[i].score >= out[j].score
  {
    forall i, j | 0 <= i < j < n ensures out[i].score >= out[j].score {
      assert Sorting.InOrder(MarkedHead(hits, n, scores), Higher, order[i], order[j]);
      assert out[..n][i] == out[i] && out[..n][j] == out[j];
    }
  }

  ghost predicate HeadAboveTail(hits: seq<Hit>, n: nat)
    requires n <= |hits|
  {
    forall i, j :: 0 <= i < n <= j < |hits| ==> hits[i].score >= hits[j].score
  }

  lemma AboveTail(hits: seq<Hit>, n: nat, scores: seq<real>, order: seq<nat>, out: seq<Hit>)
    requires 0 < n <= |hits| && |scores| == n && Reranked(hits, n, scores, order, out) && !AllTied(scores)
    ensures HeadAboveTail(out, n)
  {
    BlendingRanksAsReranker(ScoresOf(hits[..n]), ScoresOf(hits[n..]), scores);
    var marked := MarkedHead(hits, n, scores);
    forall i, j | 0 <= i < n <= j < |out| ensures out[i].score >= out[j].score {
      assert out[..n][i] == marked[order[i]];
      assert out[n..][j - n] == hits[n..][j - n];
      assert ScoresOf(hits[n..])[j - n] == out[j].score;
    }
  }

  lemma TiedAboveTail(hits: seq<Hit>, n: nat, scores: seq<real>, order: seq<nat>, out: seq<Hit>)
    requires 0 < n <= |hits| && |scores| == n && Reranked(hits, n, scores, order, out) && AllTied(scores)
    ensures HeadAboveTail(out, n) <==> HeadAboveTail(hits, n)
  {
    var marked := MarkedHead(hits, n, scores);
    forall j | n <= j < |out| ensures out[j] == hits[j] {
      assert out[n..][j - n] == hits[n..][j - n];
    }
    forall i | 0 <= i < n ensures out[i].score == hits[order[i]].score {
      assert out[..n][i] == marked[order[i]];
    }
    if HeadAboveTail(out, n) {
      forall i, j | 0 <= i < n <= j < |hits| ensures hits[i].score >= hits[j].score {
        assert marked[i] in multiset(marked);
        assert marked[i] in out[..n];
        var a :| 0 <= a < n && out[..n][a] == marked[i];
        assert out[a].score >= out[j].score;
      }
    }
  }

  /** The served order can be read back from the scores exactly when the tail was in order and either
      the reranker told its documents apart or the head was already above the tail. */
  lemma RerankedDescendsIff(hits: seq<Hit>, n: nat, scores: seq<real>, order: seq<nat>, out: seq<Hit>)
    requires 0 < n <= |hits| && |scores| == n && Reranked(hits, n, scores, order, out)
    ensures Descending(out) <==> Descending(hits[n..]) && (AllTied(scores) ==> HeadAboveTail(hits, n))
  {
    HeadDescends(hits, n, scores, order, out);
    if AllTied(scores) {
      TiedAboveTail(hits, n, scores, order, out);
    } else {
      AboveTail(hits, n, scores, order, out);
    }
    DescendsByParts(out, n);
  }

  /** A list that was not in order, a head of two below its tail: a reranker that scores both alike leaves
      the tail's hit the best. */
  lemma TiedRerankStaysBelowTail(h: Hit, order: seq<nat>, out: seq<Hit>)
    requires Reranked([h.(score := 1.0), h.(score := 1.0), h.(score := 2.0)], 2, [0.5, 0.5], order, out)
    ensures out[0].score < out[2].score && !Descending(out)
  {
    var hits := [h.(score := 1.0), h.(score := 1.0), h.(score := 2.0)];
    var scores := [0.5, 0.5];
    var marked := MarkedHead(hits, 2, scores);
    assert scores[..1] == [0.5] && AllTied(scores);
    assert out[..2][0] == marked[order[0]];
    assert out[2..][0] == hits[2..][0];
  }

  lemma DescendsByParts(out: seq<Hit>, n: nat)
    requires n <= |out| && forall i, j :: 0 <= i < j < n ==> out[i].score >= out[j].score
    ensures Descending(out) <==> Descending(out[n..]) && HeadAboveTail(out, n)
  {
    if Descending(out[n..]) && HeadAboveTail(out, n) {
      forall i, j | 0 <= i < j < |out| ensures out[i].score >= out[j].score {
        if i >= n {
          assert out[n..][i - n].score >= out[n..][j - n].score;
        }
      }
    }
    if Descending(out) {
      forall i, j | 0 <= i < j < |out| - n ensures out[n..][i].score >= out[n..][j].score {
        assert out[n + i].score >= out[n + j].score;
      }
    }
  }

  /** A descending list stays descending, whatever the reranker says. */
  lemma RerankKeepsDescending(hits: seq<Hit>, n: nat, scores: seq<real>, order: seq<nat>, out: seq<Hit>)
    requires 0 < n <= |hits| && |scores| == n && Reranked(hits, n, scores, order, out) && Descending(hits)
    ensures Descending(out)
  {
    RerankedDescendsIff(hits, n, scores, order, out);
    forall i, j | 0 <= i < j < |hits| - n ensures hits[n..][i].score >= hits[n..][j].score {
      assert hits[n + i].score >= hits[n + j].score;
    }
  }

  method MarkHead(hits: seq<Hit>, n: nat, scores: seq<real>) returns (head: seq<Hit>)
    requires 0 < n <= |hits| && |scores| == n
    ensures head == MarkedHead(hits, n, scores)
  {
    var blended := BlendRerankScores(ScoresOf(hits[..n]), ScoresOf(hits[n..]), scores);
    head := [];
    for i := 0 to n
      invariant |head| == i && forall x :: 0 <= x < i ==> head[x] == Marked(hits[x], blended[x])
    {
      head := head + [Marked(hits[i], blended[i])];
    }
  }

  lemma HigherIsWeakOrder(hits: seq<Hit>)
    ensures Sorting.WeakOrder(hits, Higher)
  {
    forall i, j | 0 <= i < |hits| && 0 <= j < |hits| && Higher(hits[i], hits[j]) ensures !Higher(hits[j], hits[i]) {
    }
    forall i, j, k | 0 <= i < |hits| && 0 <= j < |hits| && 0 <= k < |hits| && !Higher(hits[i], hits[j]) && !Higher(hits[j], hits[k])
      ensures !Higher(hits[i], hits[k])
    {
    }
  }

  method SortHead(hits: seq<Hit>, n: nat, scores: seq<real>) returns (out: seq<Hit>, ghost order: seq<nat>)
    requires 0 < n <= |hits| && |scores| == n
    ensures Reranked(hits, n, scores, order, out)
  {
    var head := MarkHead(hits, n, scores);
    HigherIsWeakOrder(head);
    var sorted;
    sorted, order := Sorting.SliceStable(head, Higher);
    out := sorted + hits[n..];
    assert out[..n] == sorted && out[n..] == hits[n..];
  }

  /** applyRerank.  The answer is what the reranker returned: scores of any number, or a failure. */
  method ApplyRerank(hits: seq<Hit>, enabled: bool, topN: int, answer: Option<seq<real>>) returns (out: seq<Hit>)
    ensures var top := if topN > 0 then topN else 50;
            var n := if top > |hits| then |hits| else top;
            if !enabled || |hits| <= 1 || answer.None? || |answer.value| != n then out == hits
            else exists order :: Reranked(hits, n, answer.value, order, out)
  {
    if !enabled || |hits| <= 1 {
      return hits;
    }
    var n := TopN(topN);
    if n > |hits| {
      n := |hits|;
    }
    if answer.None? || |answer.value| != n {
      return hits;
    }
    ghost var order;
    out, order := SortHead(hits, n, answer.value);
  }
}
