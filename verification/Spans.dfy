/** Collapsing hits that cover the same lines of one file: which lines the answer still covers, which
    hits it stands for, and in which order. */
module Spans {
  import opened Wrappers
  import opened Hits
  import opened Strings

  // ---------------------------------------------------------------------------
  // One hit
  // ---------------------------------------------------------------------------

  const MERGE_REASON := "merged"

  function MergedReason(reason: string): string
  {
    if Contains(reason, MERGE_REASON) then reason
    else if reason == "" then MERGE_REASON
    else reason + "+" + MERGE_REASON
  }

  lemma MergedReasonSaysSo(reason: string)
    ensures Contains(MergedReason(reason), MERGE_REASON)
  {
    if !Contains(reason, MERGE_REASON) {
      if reason == "" {
        assert MERGE_REASON <= MERGE_REASON[0..];
      } else {
        var r := MergedReason(reason);
        assert r[|reason| + 1..] == MERGE_REASON;
        assert MERGE_REASON <= r[|reason| + 1..];
      }
    }
  }

  /** `into` after absorbing `hit`. */
  function Widen(into: Hit, hit: Hit): Hit
  {
    into.(line := if hit.line < into.line then hit.line else into.line,
          endLine := if End(hit) > End(into) then End(hit) else into.endLine,
          reason := MergedReason(into.reason))
  }

  /** A kept hit that knows only its start, moved up by one that ends exactly at that start: its end
      stays unset, so it now covers only lines above it. */
  predicate Forgets(into: Hit, hit: Hit) { into.endLine < into.line && hit.line < into.line && End(hit) == into.line }

  /** The widened hit covers exactly the lines of both, except in that one case. */
  lemma WidenKeepsLinesIff(into: Hit, hit: Hit)
    requires Overlaps(into, hit)
    ensures (forall l :: HasLine(Widen(into, hit), into.repo, into.path, l) <==>
                           HasLine(into, into.repo, into.path, l) || HasLine(hit, into.repo, into.path, l))
            <==> !Forgets(into, hit)
  {
    if Forgets(into, hit) {
      assert HasLine(into, into.repo, into.path, into.line);
      assert !HasLine(Widen(into, hit), into.repo, into.path, into.line);
    }
  }

  /** What that case loses: the lines from the widened hit's end up to the start it moved away from. */
  predicate LosesLine(into: Hit, hit: Hit, repo: string, path: string, l: int)
  {
    into.repo == repo && into.path == path && Forgets(into, hit) && End(Widen(into, hit)) < l <= into.line
  }

  lemma WidenCovers(into: Hit, hit: Hit, repo: string, path: string, l: int)
    requires Overlaps(into, hit)
    ensures HasLine(into, repo, path, l) || HasLine(hit, repo, path, l) <==>
              HasLine(Widen(into, hit), repo, path, l) || LosesLine(into, hit, repo, path, l)
    ensures !(HasLine(Widen(into, hit), repo, path, l) && LosesLine(into, hit, repo, path, l))
  {
  }

  // ---------------------------------------------------------------------------
  // The list
  // ---------------------------------------------------------------------------

  /** The first kept hit that overlaps, or |kept|. */
  function FirstOverlap(kept: seq<Hit>, hit: Hit): (i: nat)
    ensures i <= |kept| && (i < |kept| ==> Overlaps(kept[i], hit))
    ensures forall j :: 0 <= j < i ==> !Overlaps(kept[j], hit)
  {
    if kept == [] then 0
    else
      var i := FirstOverlap(kept[..|kept| - 1], hit);
      if i < |kept| - 1 || Overlaps(kept[|kept| - 1], hit) then i else |kept|
  }

  function MergeStep(kept: seq<Hit>, hit: Hit): seq<Hit>
  {
    var i := FirstOverlap(kept, hit);
    if i < |kept| then kept[i := Widen(kept[i], hit)] else kept + [hit]
  }

  function MergeAll(hits: seq<Option<Hit>>): seq<Hit>
  {
    if hits == [] then []
    else
      var before := MergeAll(hits[..|hits| - 1]);
      match hits[|hits| - 1]
      case None => before
      case Some(hit) => MergeStep(before, hit)
  }

  /** Beside each kept hit, the places of the input hits it stands for; the first is its representative. */
  function Parts(hits: seq<Option<Hit>>): (ps: seq<seq<nat>>)
    ensures |ps| == |MergeAll(hits)|
  {
    if hits == [] then []
    else
      var n := |hits| - 1;
      var before := Parts(hits[..n]);
      match hits[n]
      case None => before
      case Some(hit) =>
        var i := FirstOverlap(MergeAll(hits[..n]), hit);
        if i < |before| then before[i := before[i] + [n]] else before + [[n]]
  }

  // ---------------------------------------------------------------------------
  // Covered lines
  // ---------------------------------------------------------------------------

  ghost predicate Covers(kept: seq<Hit>, repo: string, path: string, l: int)
  {
    exists i :: 0 <= i < |kept| && HasLine(kept[i], repo, path, l)
  }

  ghost predicate CoversSome(hits: seq<Option<Hit>>, repo: string, path: string, l: int)
  {
    exists i :: 0 <= i < |hits| && hits[i].Some? && HasLine(hits[i].value, repo, path, l)
  }

  /** Some step of the pass loses the line: it moves a kept hit that knows only its start. */
  ghost predicate Forgotten(hits: seq<Option<Hit>>, repo: string, path: string, l: int)
  {
    hits != [] &&
    (var n := |hits| - 1;
     || Forgotten(hits[..n], repo, path, l)
     || (hits[n].Some? && StepLoses(MergeAll(hits[..n]), hits[n].value, repo, path, l)))
  }

  predicate StepLoses(kept: seq<Hit>, hit: Hit, repo: string, path: string, l: int)
  {
    var i := FirstOverlap(kept, hit);
    i < |kept| && LosesLine(kept[i], hit, repo, path, l)
  }

  lemma StepCovers(kept: seq<Hit>, hit: Hit, repo: string, path: string, l: int)
    ensures Covers(kept, repo, path, l) || HasLine(hit, repo, path, l) <==>
              Covers(MergeStep(kept, hit), repo, path, l) || StepLoses(kept, hit, repo, path, l)
  {
    var i, after := FirstOverlap(kept, hit), MergeStep(kept, hit);
    if i < |kept| {
      WidenCovers(kept[i], hit, repo, path, l);
      assert after[i] == Widen(kept[i], hit) && forall j :: 0 <= j < |kept| && j != i ==> after[j] == kept[j];
    } else {
      assert after[|kept|] == hit && forall j :: 0 <= j < |kept| ==> after[j] == kept[j];
    }
  }

  lemma SomeStep(hits: seq<Option<Hit>>, repo: string, path: string, l: int)
    requires hits != []
    ensures CoversSome(hits, repo, path, l) <==>
              CoversSome(hits[..|hits| - 1], repo, path, l) || (hits[|hits| - 1].Some? && HasLine(hits[|hits| - 1].value, repo, path, l))
  {
    var front := hits[..|hits| - 1];
    assert forall i :: 0 <= i < |front| ==> front[i] == hits[i];
  }

  /** The lines of the input are those of the answer and those some step lost: merging invents none. */
  lemma {:induction false} MergingKeepsLines(hits: seq<Option<Hit>>, repo: string, path: string, l: int)
    ensures CoversSome(hits, repo, path, l) <==> Covers(MergeAll(hits), repo, path, l) || Forgotten(hits, repo, path, l)
  {
    if hits != [] {
      var n := |hits| - 1;
      MergingKeepsLines(hits[..n], repo, path, l);
      SomeStep(hits, repo, path, l);
      if hits[n].Some? {
        StepCovers(MergeAll(hits[..n]), hits[n].value, repo, path, l);
      }
    }
  }

  ghost predicate SameLines(hits: seq<Option<Hit>>, kept: seq<Hit>, repo: string, path: string)
  {
    forall l :: CoversSome(hits, repo, path, l) <==> Covers(kept, repo, path, l)
  }

  /** Every line a start-only hit was moved away from is covered by some hit in the end. */
  ghost predicate ForgottenEndCovered(hits: seq<Option<Hit>>, kept: seq<Hit>, repo: string, path: string)
  {
    forall l :: !Covers(kept, repo, path, l) ==> !Forgotten(hits, repo, path, l)
  }

  /** A file keeps exactly its covered lines when every line lost on the way is covered in the end. */
  lemma MergingKeepsLinesIff(hits: seq<Option<Hit>>, repo: string, path: string)
    ensures SameLines(hits, MergeAll(hits), repo, path) <==> ForgottenEndCovered(hits, MergeAll(hits), repo, path)
  {
    var kept := MergeAll(hits);
    forall l ensures CoversSome(hits, repo, path, l) <==> Covers(kept, repo, path, l) || Forgotten(hits, repo, path, l) {
      MergingKeepsLines(hits, repo, path, l);
    }
    if ForgottenEndCovered(hits, kept, repo, path) {
      forall l ensures CoversSome(hits, repo, path, l) <==> Covers(kept, repo, path, l) {
        assert !Covers(kept, repo, path, l) ==> !Forgotten(hits, repo, path, l);
      }
    }
  }

  /** The hit at i knows only its start, and the later hit at j of the same file ends exactly there. */
  predicate EndsOnStart(hits: seq<Option<Hit>>, i: nat, j: nat)
  {
    && i < j < |hits| && hits[i].Some? && hits[j].Some?
    && var a, b := hits[i].value, hits[j].value;
       a.repo == b.repo && a.path == b.path && a.endLine < a.line && b.line < a.line == End(b)
  }

  ghost predicate StartsAreSafe(hits: seq<Option<Hit>>) { forall i: nat, j: nat :: !EndsOnStart(hits, i, j) }

  /** A kept hit that knows only its start still starts where the input hit at i does. */
  ghost predicate StartsAt(hits: seq<Option<Hit>>, k: Hit, i: nat)
  {
    && i < |hits| && hits[i].Some? && hits[i].value.repo == k.repo && hits[i].value.path == k.path
    && hits[i].value.endLine < hits[i].value.line == k.line
  }

  ghost predicate StartIsInput(hits: seq<Option<Hit>>, k: Hit) { k.endLine < k.line ==> exists i: nat :: StartsAt(hits, k, i) }

  ghost predicate StartsAreInputs(hits: seq<Option<Hit>>, kept: seq<Hit>)
  {
    forall x :: 0 <= x < |kept| ==> StartIsInput(hits, kept[x])
  }

  lemma SafePrefix(front: seq<Option<Hit>>, next: Option<Hit>)
    requires StartsAreSafe(front + [next])
    ensures StartsAreSafe(front)
  {
    forall i: nat, j: nat ensures !EndsOnStart(front, i, j) {
      assert !EndsOnStart(front + [next], i, j);
    }
  }

  /** Where starts are safe no step forgets, and a kept hit that knows only its start keeps it. */
  lemma SafeStep(front: seq<Option<Hit>>, k: Hit, hit: Hit)
    requires StartsAreSafe(front + [Some(hit)]) && StartIsInput(front, k) && Overlaps(k, hit)
    ensures !Forgets(k, hit)
    ensures Widen(k, hit).endLine < Widen(k, hit).line ==> Widen(k, hit).line == k.line && k.endLine < k.line
  {
    if k.endLine < k.line {
      var i: nat :| StartsAt(front, k, i);
      assert !EndsOnStart(front + [Some(hit)], i, |front|);
    }
  }

  lemma {:induction false} SafeStartsForgetNothing(hits: seq<Option<Hit>>, repo: string, path: string, l: int)
    requires StartsAreSafe(hits)
    ensures !Forgotten(hits, repo, path, l) && StartsAreInputs(hits, MergeAll(hits))
  {
    if hits != [] {
      var n := |hits| - 1;
      var front, kept := hits[..n], MergeAll(hits[..n]);
      assert hits == front + [hits[n]];
      SafePrefix(front, hits[n]);
      SafeStartsForgetNothing(front, repo, path, l);
      if hits[n].Some? && FirstOverlap(kept, hits[n].value) < |kept| {
        SafeStep(front, kept[FirstOverlap(kept, hits[n].value)], hits[n].value);
      }
      StartsStayInputs(front, hits[n], kept);
    }
  }

  lemma StartsStayInputs(front: seq<Option<Hit>>, next: Option<Hit>, kept: seq<Hit>)
    requires StartsAreInputs(front, kept) && StartsAreSafe(front + [next])
    ensures StartsAreInputs(front + [next], if next.Some? then MergeStep(kept, next.value) else kept)
  {
    var hits := front + [next];
    var after := if next.Some? then MergeStep(kept, next.value) else kept;
    forall x | 0 <= x < |after| && after[x].endLine < after[x].line ensures StartIsInput(hits, after[x]) {
      if x == |kept| {
        assert StartsAt(hits, after[x], |front|);
      } else {
        assert StartIsInput(front, kept[x]);
        if after[x] != kept[x] {
          SafeStep(front, kept[x], next.value);
        }
        var i: nat :| StartsAt(front, kept[x], i);
        assert StartsAt(hits, after[x], i);
      }
    }
  }

  /** No line is lost, whatever overlaps, unless a hit ends exactly where an earlier start-only hit of its
      file starts. */
  lemma SafeStartsKeepLines(hits: seq<Option<Hit>>, repo: string, path: string, l: int)
    requires StartsAreSafe(hits)
    ensures Covers(MergeAll(hits), repo, path, l) <==> CoversSome(hits, repo, path, l)
  {
    SafeStartsForgetNothing(hits, repo, path, l);
    MergingKeepsLines(hits, repo, path, l);
  }

  /** In particular hits with a real end keep every covered line, whatever order they come in. */
  lemma ProperHitsKeepLines(hits: seq<Option<Hit>>, repo: string, path: string, l: int)
    requires forall i :: 0 <= i < |hits| && hits[i].Some? ==> hits[i].value.endLine >= hits[i].value.line
    ensures Covers(MergeAll(hits), repo, path, l) <==> CoversSome(hits, repo, path, l)
  {
    SafeStartsKeepLines(hits, repo, path, l);
  }

  lemma TwoMerged(a: Hit, b: Hit)
    requires Overlaps(a, b)
    ensures MergeAll([Some(a), Some(b)]) == [Widen(a, b)]
  {
    var hits := [Some(a), Some(b)];
    assert hits[..1] == [Some(a)] && hits[..1][..0] == [];
    assert MergeAll(hits[..1]) == [a];
    assert [a][..0] == [] && FirstOverlap([a], b) == 0;
  }

  /** A start-only hit at line 5 followed by the span 3-5 leaves line 5 uncovered. */
  lemma StartOnlyLosesLine(h: Hit)
    ensures var hits := [Some(h.(line := 5, endLine := 0)), Some(h.(line := 3, endLine := 5))];
            && CoversSome(hits, h.repo, h.path, 5) && !Covers(MergeAll(hits), h.repo, h.path, 5)
  {
    var a, b := h.(line := 5, endLine := 0), h.(line := 3, endLine := 5);
    var hits := [Some(a), Some(b)];
    assert HasLine(hits[0].value, h.repo, h.path, 5);
    TwoMerged(a, b);
  }

  /** One pass is not a closure: widening can make two kept hits overlap. */
  lemma KeptHitsMayOverlap(h: Hit)
    ensures var hits := [Some(h.(line := 1, endLine := 2)), Some(h.(line := 5, endLine := 6)), Some(h.(line := 2, endLine := 5))];
            && |MergeAll(hits)| == 2 && Overlaps(MergeAll(hits)[0], MergeAll(hits)[1])
  {
    var a, b, c := h.(line := 1, endLine := 2), h.(line := 5, endLine := 6), h.(line := 2, endLine := 5);
    var hits := [Some(a), Some(b), Some(c)];
    assert hits[..2] == [Some(a), Some(b)] && hits[..2][..1] == [Some(a)] && hits[..1][..0] == [];
    assert MergeAll([Some(a)]) == [a] by { assert [Some(a)][..0] == []; }
    assert [a][..0] == [] && FirstOverlap([a], b) == 1;
    assert MergeAll(hits[..2]) == [a, b];
    assert [a, b][..1] == [a] && FirstOverlap([a], c) == 0 && FirstOverlap([a, b], c) == 0;
  }

  // ---------------------------------------------------------------------------
  // What the kept hits stand for
  // ---------------------------------------------------------------------------

  predicate HitOfFile(hits: seq<Option<Hit>>, x: nat, k: Hit)
  {
    x < |hits| && hits[x].Some? && hits[x].value.repo == k.repo && hits[x].value.path == k.path
  }

  /** Kept hit k stands for the input hits at `part`. */
  ghost predicate StandsFor(hits: seq<Option<Hit>>, k: Hit, part: seq<nat>)
  {
    && part != [] && Increasing(part)
    && (forall a :: 0 <= a < |part| ==> HitOfFile(hits, part[a], k))
    && var rep := hits[part[0]].value;
       if |part| == 1 then k == rep
       else k == rep.(line := k.line, endLine := k.endLine, reason := k.reason) && Contains(k.reason, MERGE_REASON)
  }

  ghost predicate Apart(a: seq<nat>, b: seq<nat>) { forall x :: x in a ==> x !in b }

  predicate InSome(ps: seq<seq<nat>>, x: nat) { exists i :: 0 <= i < |ps| && x in ps[i] }

  /** Parts of the places below n: disjoint, with increasing heads. */
  ghost predicate Separate(ps: seq<seq<nat>>, n: nat)
  {
    && (forall i :: 0 <= i < |ps| ==> ps[i] != [] && forall x :: x in ps[i] ==> x < n)
    && (forall i, j :: 0 <= i < j < |ps| ==> ps[i][0] < ps[j][0])
    && (forall i, j :: 0 <= i < j < |ps| ==> Apart(ps[i], ps[j]))
  }

  ghost predicate Exhaustive(hits: seq<Option<Hit>>, ps: seq<seq<nat>>)
  {
    forall x: nat :: x < |hits| && hits[x].Some? ==> InSome(ps, x)
  }

  lemma StandsForLonger(hits: seq<Option<Hit>>, next: Option<Hit>, k: Hit, part: seq<nat>)
    requires StandsFor(hits, k, part)
    ensures StandsFor(hits + [next], k, part)
  {
  }

  lemma Absorbs(hits: seq<Option<Hit>>, hit: Hit, k: Hit, part: seq<nat>)
    requires StandsFor(hits, k, part) && Overlaps(k, hit)
    ensures StandsFor(hits + [Some(hit)], Widen(k, hit), part + [|hits|])
  {
    MergedReasonSaysSo(k.reason);
    StandsForLonger(hits, Some(hit), k, part);
  }

  lemma JoinedStaySeparate(ps: seq<seq<nat>>, i: nat, n: nat)
    requires Separate(ps, n) && i < |ps|
    ensures Separate(ps[i := ps[i] + [n]], n + 1)
  {
    var qs := ps[i := ps[i] + [n]];
    forall a, b | 0 <= a < b < |qs| ensures Apart(qs[a], qs[b]) && qs[a][0] < qs[b][0] {
      assert Apart(ps[a], ps[b]) && ps[a][0] < ps[b][0];
    }
  }

  lemma AddedStaySeparate(ps: seq<seq<nat>>, n: nat)
    requires Separate(ps, n)
    ensures Separate(ps + [[n]], n + 1)
  {
    var qs := ps + [[n]];
    forall a, b | 0 <= a < b < |qs| ensures Apart(qs[a], qs[b]) && qs[a][0] < qs[b][0] {
      if b < |ps| {
        assert Apart(ps[a], ps[b]) && ps[a][0] < ps[b][0];
      } else {
        assert ps[a][0] in ps[a];
      }
    }
  }

  lemma {:induction false} PartsAreSeparate(hits: seq<Option<Hit>>)
    ensures Separate(Parts(hits), |hits|)
  {
    if hits != [] {
      var n := |hits| - 1;
      var ps := Parts(hits[..n]);
      PartsAreSeparate(hits[..n]);
      if hits[n].Some? {
        var i := FirstOverlap(MergeAll(hits[..n]), hits[n].value);
        if i < |ps| {
          JoinedStaySeparate(ps, i, n);
        } else {
          AddedStaySeparate(ps, n);
        }
      }
    }
  }

  lemma {:induction false} PartsExhaust(hits: seq<Option<Hit>>)
    ensures Exhaustive(hits, Parts(hits))
  {
    if hits != [] {
      var n := |hits| - 1;
      var ps, qs := Parts(hits[..n]), Parts(hits);
      PartsExhaust(hits[..n]);
      forall x: nat | x < |hits| && hits[x].Some? ensures InSome(qs, x) {
        if x < n {
          assert hits[..n][x].Some? && InSome(ps, x);
          var j :| 0 <= j < |ps| && x in ps[j];
          assert x in qs[j];
        } else {
          var i := FirstOverlap(MergeAll(hits[..n]), hits[n].value);
          assert x in qs[i];
        }
      }
    }
  }

  /** The kept hits are their representatives, changed only by widening over their parts. */
  lemma {:induction false} KeptStandForParts(hits: seq<Option<Hit>>)
    ensures forall i :: 0 <= i < |MergeAll(hits)| ==> StandsFor(hits, MergeAll(hits)[i], Parts(hits)[i])
  {
    if hits != [] {
      var n := |hits| - 1;
      var front, kept, ps := hits[..n], MergeAll(hits[..n]), Parts(hits[..n]);
      assert hits == front + [hits[n]];
      KeptStandForParts(front);
      forall i | 0 <= i < |MergeAll(hits)| ensures StandsFor(hits, MergeAll(hits)[i], Parts(hits)[i]) {
        if i < |kept| {
          StandsForLonger(front, hits[n], kept[i], ps[i]);
          if hits[n].Some? && FirstOverlap(kept, hits[n].value) == i {
            Absorbs(front, hits[n].value, kept[i], ps[i]);
          }
        }
      }
    }
  }

  /** Every non-nil hit is in exactly one kept hit, and the kept hits come in the order of their
      representatives. */
  lemma MergePartitions(hits: seq<Option<Hit>>)
    ensures Separate(Parts(hits), |hits|) && Exhaustive(hits, Parts(hits))
    ensures forall i :: 0 <= i < |MergeAll(hits)| ==> StandsFor(hits, MergeAll(hits)[i], Parts(hits)[i])
  {
    PartsAreSeparate(hits);
    PartsExhaust(hits);
    KeptStandForParts(hits);
  }

  /** Scores that descended along the input still descend along the answer. */
  lemma MergeKeepsScoreOrder(hits: seq<Option<Hit>>)
    requires forall i, j :: 0 <= i < j < |hits| && hits[i].Some? && hits[j].Some? ==> hits[i].value.score >= hits[j].value.score
    ensures forall i, j :: 0 <= i < j < |MergeAll(hits)| ==> MergeAll(hits)[i].score >= MergeAll(hits)[j].score
  {
    MergePartitions(hits);
    var kept, ps := MergeAll(hits), Parts(hits);
    forall i, j | 0 <= i < j < |kept| ensures kept[i].score >= kept[j].score {
      assert StandsFor(hits, kept[i], ps[i]) && StandsFor(hits, kept[j], ps[j]);
      assert ps[i][0] < ps[j][0];
      assert kept[i].score == hits[ps[i][0]].value.score && kept[j].score == hits[ps[j][0]].value.score;
    }
  }

  // ---------------------------------------------------------------------------
  // The pass
  // ---------------------------------------------------------------------------

  function Wrap(kept: seq<Hit>): (r: seq<Option<Hit>>)
    ensures |r| == |kept| && forall i :: 0 <= i < |kept| ==> r[i] == Some(kept[i])
  {
    seq(|kept|, i requires 0 <= i < |kept| => Some(kept[i]))
  }

  function Files(kept: seq<Hit>): (r: seq<FileKey>)
    ensures |r| == |kept| && forall i :: 0 <= i < |kept| ==> r[i] == FileOf(kept[i])
  {
    seq(|kept|, i requires 0 <= i < |kept| => FileOf(kept[i]))
  }

  /** The first overlap within the file's own hits is the first overlap of all. */
  method FindInto(candidates: seq<nat>, kept: seq<Hit>, hit: Hit) returns (into: Option<nat>)
    requires ListsFile(candidates, Files(kept), FileOf(hit))
    ensures into == if FirstOverlap(kept, hit) < |kept| then Some(FirstOverlap(kept, hit)) else None
  {
    for a := 0 to |candidates|
      invariant forall b :: 0 <= b < a ==> !Overlaps(kept[candidates[b]], hit)
    {
      var i := candidates[a];
      if Overlaps(kept[i], hit) {
        forall j: nat | j < i ensures !Overlaps(kept[j], hit) {
          if FileOf(kept[j]) == FileOf(hit) {
            var b :| 0 <= b < |candidates| && candidates[b] == j;
            assert b < a;
          }
        }
        return Some(i);
      }
    }
    forall j: nat | j < |kept| ensures !Overlaps(kept[j], hit) {
      if FileOf(kept[j]) == FileOf(hit) {
        assert j in candidates;
      }
    }
    return None;
  }

  lemma FilesOfNext(kept: seq<Hit>, hit: Hit)
    ensures Files(kept + [hit]) == Files(kept) + [FileOf(hit)]
  {
  }

  lemma FilesOfWidened(kept: seq<Hit>, i: nat, hit: Hit)
    requires i < |kept|
    ensures Files(kept[i := Widen(kept[i], hit)]) == Files(kept)
  {
  }

  lemma NextMerged(hits: seq<Option<Hit>>, n: nat)
    requires n < |hits|
    ensures MergeAll(hits[..n + 1]) == if hits[n].Some? then MergeStep(MergeAll(hits[..n]), hits[n].value) else MergeAll(hits[..n])
    ensures NonNil(hits[..n + 1]) == NonNil(hits[..n]) + if hits[n].Some? then 1 else 0
  {
    assert hits[..n + 1][..n] == hits[..n];
  }

  /** One hit into the kept ones: it joins the first it overlaps, or is kept itself. */
  method MergeHit(byFile: FileIndex, kept: seq<Hit>, hit: Hit) returns (byFile': FileIndex, kept': seq<Hit>, joined: bool)
    requires IndexesFiles(byFile, Files(kept))
    ensures kept' == MergeStep(kept, hit) && |kept'| == |kept| + (if joined then 0 else 1)
    ensures IndexesFiles(byFile', Files(kept'))
  {
    assert ListsFile(InFile(byFile, FileOf(hit)), Files(kept), FileOf(hit));
    var into := FindInto(InFile(byFile, FileOf(hit)), kept, hit);
    match into {
      case None =>
        IndexGrows(byFile, Files(kept), FileOf(hit));
        FilesOfNext(kept, hit);
        return byFile[FileOf(hit) := InFile(byFile, FileOf(hit)) + [|kept|]], kept + [hit], false;
      case Some(i) =>
        FilesOfWidened(kept, i, hit);
        return byFile, kept[i := Widen(kept[i], hit)], true;
    }
  }

  method MergeKept(hits: seq<Option<Hit>>) returns (kept: seq<Hit>, merged: nat)
    ensures kept == MergeAll(hits) && |kept| + merged == NonNil(hits)
  {
    var byFile: FileIndex := map[];
    kept, merged := [], 0;
    for n := 0 to |hits|
      invariant kept == MergeAll(hits[..n]) && |kept| + merged == NonNil(hits[..n])
      invariant IndexesFiles(byFile, Files(kept))
    {
      NextMerged(hits, n);
      if hits[n].None? {
        continue;
      }
      var joined;
      byFile, kept, joined := MergeHit(byFile, kept, hits[n].value);
      if joined {
        merged := merged + 1;
      }
    }
    assert hits[..|hits|] == hits;
  }

  /** mergeSpans.  Fewer than two hits are handed back as they are, nil or not. */
  method MergeSpans(hits: seq<Option<Hit>>) returns (out: seq<Option<Hit>>, merged: nat)
    ensures |hits| < 2 ==> out == hits && merged == 0
    ensures |hits| >= 2 ==> out == Wrap(MergeAll(hits)) && |out| + merged == NonNil(hits)
  {
    if |hits| < 2 {
      return hits, 0;
    }
    var kept;
    kept, merged := MergeKept(hits);
    out := Wrap(kept);
  }
}
