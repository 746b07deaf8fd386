/** A checkout's own ignore rules, loaded and remembered as paths are asked about.  Paths are the
    sequences of their components. */
module Gitignore {
  import opened Wrappers

  type Path = seq<string>

  datatype Pattern = Pattern(glob: string, dirOnly: bool, negate: bool)

  /** What is on disk: the patterns of each directory's .gitignore (none where there is no file), those
      of info/exclude, the listing of the git index if git can be run, and the glob matcher. */
  datatype Checkout = Checkout(
    patterns: Path -> seq<Pattern>, exclude: seq<Pattern>, index: Option<seq<Path>>, glob: (string, Path) -> bool)

  // ---------------------------------------------------------------------------
  // What git means
  // ---------------------------------------------------------------------------

  /** A pattern line and the path as its file sees it. */
  datatype Line = Line(pattern: Pattern, subject: Path)

  function Lines(pats: seq<Pattern>, subject: Path): (r: seq<Line>)
    ensures |r| == |pats| && forall i :: 0 <= i < |pats| ==> r[i] == Line(pats[i], subject)
  {
    seq(|pats|, i requires 0 <= i < |pats| => Line(pats[i], subject))
  }

  /** The lines of the .gitignore files in the first n directories above rel, root first. */
  function TreeLines(co: Checkout, rel: Path, n: nat): seq<Line>
    requires n <= |rel|
  {
    if n == 0 then [] else TreeLines(co, rel, n - 1) + Lines(co.patterns(rel[..n - 1]), rel[n - 1..])
  }

  /** Every line that speaks about rel, in rising precedence: info/exclude, then each .gitignore from
      the root to rel's own directory. */
  function LinesAbout(co: Checkout, rel: Path): seq<Line> { Lines(co.exclude, rel) + TreeLines(co, rel, |rel|) }

  predicate Matches(co: Checkout, line: Line, isDir: bool)
  {
    (line.pattern.dirOnly ==> isDir) && co.glob(line.pattern.glob, line.subject)
  }

  /** The verdict of the last matching line. */
  function LastWord(co: Checkout, lines: seq<Line>, isDir: bool): Option<bool>
  {
    if lines == [] then None
    else if Matches(co, lines[|lines| - 1], isDir) then Some(!lines[|lines| - 1].pattern.negate)
    else LastWord(co, lines[..|lines| - 1], isDir)
  }

  predicate OwnMatch(co: Checkout, rel: Path, isDir: bool) { LastWord(co, LinesAbout(co, rel), isDir) == Some(true) }

  /** rel or a directory it lies in is listed in the index. */
  ghost predicate Tracked(co: Checkout, rel: Path)
  {
    rel != [] && co.index.Some? && Covered(co.index.value, rel)
  }

  ghost predicate BelowExcluded(co: Checkout, rel: Path) { exists k: nat :: 0 < k < |rel| && OwnMatch(co, rel[..k], true) }

  predicate InTree(rel: Path) { rel != [] && rel[0] != ".." && rel != ["."] }

  /** Untracked, and excluded by its own last matching line or by that of a directory above it. */
  ghost predicate Ignored(co: Checkout, rel: Path, isDir: bool)
  {
    InTree(rel) && !Tracked(co, rel) && (OwnMatch(co, rel, isDir) || BelowExcluded(co, rel))
  }

  lemma {:induction false} LastWordOfConcat(co: Checkout, a: seq<Line>, b: seq<Line>, isDir: bool)
    ensures LastWord(co, a + b, isDir) == if LastWord(co, b, isDir).Some? then LastWord(co, b, isDir) else LastWord(co, a, isDir)
  {
    if b == [] {
      assert a + b == a;
    } else {
      assert (a + b)[..|a + b| - 1] == a + b[..|b| - 1];
      LastWordOfConcat(co, a, b[..|b| - 1], isDir);
    }
  }

  /** The word is the verdict of a matching line after which none matches. */
  lemma {:induction false} LastWordIsLast(co: Checkout, lines: seq<Line>, isDir: bool)
    ensures LastWord(co, lines, isDir).None? <==> forall i :: 0 <= i < |lines| ==> !Matches(co, lines[i], isDir)
    ensures LastWord(co, lines, isDir).Some? ==>
              exists i :: 0 <= i < |lines| && Matches(co, lines[i], isDir)
                && LastWord(co, lines, isDir).value == !lines[i].pattern.negate
                && forall j :: i < j < |lines| ==> !Matches(co, lines[j], isDir)
  {
    if lines != [] && !Matches(co, lines[|lines| - 1], isDir) {
      var front := lines[..|lines| - 1];
      LastWordIsLast(co, front, isDir);
      if LastWord(co, front, isDir).Some? {
        var i :| 0 <= i < |front| && Matches(co, front[i], isDir)
          && LastWord(co, front, isDir).value == !front[i].pattern.negate
          && forall j :: i < j < |front| ==> !Matches(co, front[j], isDir);
        assert lines[i] == front[i];
        forall j | i < j < |lines| ensures !Matches(co, lines[j], isDir) {
          if j < |front| {
            assert front[j] == lines[j];
          }
        }
      }
    }
  }

  // ---------------------------------------------------------------------------
  // Level by level
  // ---------------------------------------------------------------------------

  /** A pattern for directories matches no file. */
  predicate Speaks(co: Checkout, p: Pattern, subject: Path, isDir: bool) { co.glob(p.glob, subject) && (isDir || !p.dirOnly) }

  ghost predicate SomeSpeaks(co: Checkout, pats: seq<Pattern>, subject: Path, isDir: bool)
  {
    exists i :: 0 <= i < |pats| && Speaks(co, pats[i], subject, isDir)
  }

  /** The last pattern of one file that speaks excludes. */
  ghost predicate LastExcludes(co: Checkout, pats: seq<Pattern>, subject: Path, isDir: bool)
  {
    exists i :: 0 <= i < |pats| && Speaks(co, pats[i], subject, isDir) && !pats[i].negate
             && forall j :: i < j < |pats| ==> !Speaks(co, pats[j], subject, isDir)
  }

  lemma WordOfFile(co: Checkout, pats: seq<Pattern>, subject: Path, isDir: bool)
    ensures LastWord(co, Lines(pats, subject), isDir).Some? <==> SomeSpeaks(co, pats, subject, isDir)
    ensures LastWord(co, Lines(pats, subject), isDir) == Some(true) <==> LastExcludes(co, pats, subject, isDir)
  {
    var lines := Lines(pats, subject);
    LastWordIsLast(co, lines, isDir);
    forall i | 0 <= i < |pats| ensures Matches(co, lines[i], isDir) <==> Speaks(co, pats[i], subject, isDir) {
    }
  }

  ghost predicate LevelSpeaks(co: Checkout, rel: Path, k: nat, isDir: bool)
    requires k < |rel|
  {
    SomeSpeaks(co, co.patterns(rel[..k]), rel[k..], isDir)
  }

  ghost predicate LevelExcludes(co: Checkout, rel: Path, k: nat, isDir: bool)
    requires k < |rel|
  {
    LastExcludes(co, co.patterns(rel[..k]), rel[k..], isDir)
  }

  lemma WordOfLevel(co: Checkout, rel: Path, k: nat, isDir: bool)
    requires k < |rel|
    ensures LastWord(co, Lines(co.patterns(rel[..k]), rel[k..]), isDir).Some? <==> LevelSpeaks(co, rel, k, isDir)
    ensures LastWord(co, Lines(co.patterns(rel[..k]), rel[k..]), isDir) == Some(true) <==> LevelExcludes(co, rel, k, isDir)
  {
    WordOfFile(co, co.patterns(rel[..k]), rel[k..], isDir);
  }

  ghost predicate TreeSpeaks(co: Checkout, rel: Path, n: nat, isDir: bool)
    requires n <= |rel|
  {
    exists k: nat :: k < n && LevelSpeaks(co, rel, k, isDir)
  }

  /** The deepest of the first n levels that speaks excludes. */
  ghost predicate TreeExcludes(co: Checkout, rel: Path, n: nat, isDir: bool)
    requires n <= |rel|
  {
    exists k: nat :: k < n && LevelExcludes(co, rel, k, isDir) && forall m: nat :: k < m < n ==> !LevelSpeaks(co, rel, m, isDir)
  }

  lemma NextLevel(co: Checkout, rel: Path, n: nat, isDir: bool)
    requires n < |rel|
    ensures TreeSpeaks(co, rel, n + 1, isDir) <==> LevelSpeaks(co, rel, n, isDir) || TreeSpeaks(co, rel, n, isDir)
    ensures TreeExcludes(co, rel, n + 1, isDir) <==>
              if LevelSpeaks(co, rel, n, isDir) then LevelExcludes(co, rel, n, isDir) else TreeExcludes(co, rel, n, isDir)
  {
    assert LevelExcludes(co, rel, n, isDir) ==> LevelSpeaks(co, rel, n, isDir);
  }

  /** From the deepest of the first n levels up, the first that speaks decides. */
  ghost predicate DeepestExcludes(co: Checkout, rel: Path, n: nat, isDir: bool)
    requires n <= |rel|
  {
    n > 0 && if LevelSpeaks(co, rel, n - 1, isDir) then LevelExcludes(co, rel, n - 1, isDir) else DeepestExcludes(co, rel, n - 1, isDir)
  }

  ghost predicate AnySpeaks(co: Checkout, rel: Path, n: nat, isDir: bool)
    requires n <= |rel|
  {
    n > 0 && (LevelSpeaks(co, rel, n - 1, isDir) || AnySpeaks(co, rel, n - 1, isDir))
  }

  lemma {:induction false} DeepestIs(co: Checkout, rel: Path, n: nat, isDir: bool)
    requires n <= |rel|
    ensures AnySpeaks(co, rel, n, isDir) <==> TreeSpeaks(co, rel, n, isDir)
    ensures DeepestExcludes(co, rel, n, isDir) <==> TreeExcludes(co, rel, n, isDir)
  {
    if n > 0 {
      DeepestIs(co, rel, n - 1, isDir);
      NextLevel(co, rel, n - 1, isDir);
    }
  }

  lemma {:induction false} WordOfTree(co: Checkout, rel: Path, n: nat, isDir: bool)
    requires n <= |rel|
    ensures LastWord(co, TreeLines(co, rel, n), isDir).Some? <==> AnySpeaks(co, rel, n, isDir)
    ensures LastWord(co, TreeLines(co, rel, n), isDir) == Some(true) <==> DeepestExcludes(co, rel, n, isDir)
  {
    if n > 0 {
      WordOfTree(co, rel, n - 1, isDir);
      WordOfLevel(co, rel, n - 1, isDir);
      LastWordOfConcat(co, TreeLines(co, rel, n - 1), Lines(co.patterns(rel[..n - 1]), rel[n - 1..]), isDir);
    }
  }

  /** The deepest .gitignore that says anything about a path decides, by its last line that does; where none
      does, info/exclude. */
  ghost predicate Excluded(co: Checkout, rel: Path, isDir: bool)
  {
    if TreeSpeaks(co, rel, |rel|, isDir) then TreeExcludes(co, rel, |rel|, isDir) else LastExcludes(co, co.exclude, rel, isDir)
  }

  lemma OwnMatchIs(co: Checkout, rel: Path, isDir: bool)
    ensures OwnMatch(co, rel, isDir) <==> Excluded(co, rel, isDir)
  {
    WordOfTree(co, rel, |rel|, isDir);
    DeepestIs(co, rel, |rel|, isDir);
    WordOfFile(co, co.exclude, rel, isDir);
    LastWordOfConcat(co, Lines(co.exclude, rel), TreeLines(co, rel, |rel|), isDir);
  }

  /** A path is ignored if it lies in the tree, is not in the index nor above anything there, and it or a
      directory above it is excluded; the root and what lies outside never are. */
  lemma IgnoredIs(co: Checkout, rel: Path, isDir: bool)
    ensures Ignored(co, rel, isDir) <==>
              && rel != [] && rel[0] != ".." && rel != ["."]
              && !(co.index.Some? && exists name :: name in co.index.value && rel <= name)
              && (Excluded(co, rel, isDir) || exists k: nat :: 0 < k < |rel| && Excluded(co, rel[..k], true))
  {
    OwnMatchIs(co, rel, isDir);
    forall k: nat | 0 < k < |rel| ensures OwnMatch(co, rel[..k], true) <==> Excluded(co, rel[..k], true) {
      OwnMatchIs(co, rel[..k], true);
    }
    if k: nat :| 0 < k < |rel| && Excluded(co, rel[..k], true) {
      assert OwnMatch(co, rel[..k], true);
    }
  }

  lemma TrackedParent(co: Checkout, rel: Path, k: nat)
    requires 0 < k <= |rel|
    ensures Tracked(co, rel) ==> Tracked(co, rel[..k])
  {
    if Tracked(co, rel) {
      var name :| name in co.index.value && rel <= name;
      assert rel[..k] <= name;
    }
  }

  lemma BelowParent(co: Checkout, rel: Path, k: nat)
    requires 0 < k < |rel|
    ensures OwnMatch(co, rel[..k], true) || BelowExcluded(co, rel[..k]) ==> BelowExcluded(co, rel)
  {
    if BelowExcluded(co, rel[..k]) {
      var j: nat :| 0 < j < |rel[..k]| && OwnMatch(co, rel[..k][..j], true);
      assert rel[..k][..j] == rel[..j];
    }
  }

  /** Pruning an ignored directory never loses a file that is not ignored itself, and everything below
      one is ignored unless the index has it. */
  lemma PruningLosesNothing(co: Checkout, rel: Path, isDir: bool, k: nat)
    requires 0 < k < |rel| && InTree(rel)
    ensures Ignored(co, rel[..k], true) ==> Ignored(co, rel, isDir)
  {
    TrackedParent(co, rel, k);
    BelowParent(co, rel, k);
  }

  // ---------------------------------------------------------------------------
  // The index listing
  // ---------------------------------------------------------------------------

  ghost predicate Covered(names: seq<Path>, p: Path) { exists name :: name in names && p <= name }

  /** The listed paths and all directories above them. */
  ghost predicate IsClosure(names: seq<Path>, s: set<Path>)
  {
    forall p: Path :: p in s <==> p != [] && Covered(names, p)
  }

  ghost predicate HoldsParents(s: set<Path>) { forall p: Path, k: nat :: p in s && 0 < k < |p| ==> p[..k] in s }

  /** The directories above p, stopping at the first already there: everything above that one is too. */
  lemma PrefixesOf(p: Path)
    ensures forall q: Path :: q <= p ==> q == p[..|q|]
  {
  }

  method AddWithParents(s: set<Path>, p: Path) returns (r: set<Path>)
    requires HoldsParents(s) && p != []
    ensures HoldsParents(r) && forall q: Path :: q in r <==> q in s || (q != [] && q <= p)
  {
    PrefixesOf(p);
    r := s + {p};
    var n := |p| - 1;
    while n > 0
      invariant 0 <= n <= |p| - 1
      invariant forall q: Path :: q in r <==> q in s || (n < |q| && q <= p)
      invariant p in r
    {
      if p[..n] in r {
        ParentsThere(s, p, n, r);
        return;
      }
      r := r + {p[..n]};
      n := n - 1;
    }
    AllParents(s, p, r);
  }

  lemma ParentsThere(s: set<Path>, p: Path, n: nat, r: set<Path>)
    requires HoldsParents(s) && 0 < n < |p| && p[..n] in r
    requires forall q: Path :: q in r <==> q in s || (n < |q| && q <= p)
    ensures HoldsParents(r) && forall q: Path :: q in r <==> q in s || (q != [] && q <= p)
  {
    forall q: Path | q != [] && q <= p ensures q in r {
      if |q| < n {
        assert p[..n][..|q|] == q;
      } else if |q| == n {
        assert q == p[..n];
      }
    }
    AllParents(s, p, r);
  }

  lemma AllParents(s: set<Path>, p: Path, r: set<Path>)
    requires HoldsParents(s) && forall q: Path :: q in r <==> q in s || (q != [] && q <= p)
    ensures HoldsParents(r)
  {
    forall q: Path, k: nat | q in r && 0 < k < |q| ensures q[..k] in r {
      assert q <= p ==> q[..k] <= p;
    }
  }

  /** loadTracked's loop: exactly the parent closure of the listed names. */
  method Closure(names: seq<Path>) returns (tracked: set<Path>)
    ensures IsClosure(names, tracked)
  {
    tracked := {};
    for i := 0 to |names|
      invariant HoldsParents(tracked) && IsClosure(names[..i], tracked)
    {
      ghost var before := tracked;
      if names[i] == [] {
        ClosureNext(names, i, before, before);
        continue;
      }
      tracked := AddWithParents(tracked, names[i]);
      ClosureNext(names, i, before, tracked);
    }
    assert names[..|names|] == names;
  }

  lemma CoveredNext(names: seq<Path>, i: nat, p: Path)
    requires i < |names|
    ensures Covered(names[..i + 1], p) <==> Covered(names[..i], p) || p <= names[i]
  {
    assert names[..i + 1] == names[..i] + [names[i]];
    if Covered(names[..i], p) {
      var name :| name in names[..i] && p <= name;
      assert name in names[..i + 1];
    }
    if p <= names[i] {
      assert names[i] in names[..i + 1];
    }
  }

  lemma ClosureNext(names: seq<Path>, i: nat, before: set<Path>, after: set<Path>)
    requires i < |names| && IsClosure(names[..i], before)
    requires forall q: Path :: q in after <==> q in before || (q != [] && q <= names[i])
    ensures IsClosure(names[..i + 1], after)
  {
    forall p: Path ensures Covered(names[..i + 1], p) <==> Covered(names[..i], p) || p <= names[i] {
      CoveredNext(names, i, p);
    }
  }

  // ---------------------------------------------------------------------------
  // The rules, with everything remembered
  // ---------------------------------------------------------------------------

  class Rules {
    const co: Checkout
    var dirs: map<Path, seq<Pattern>>
    var verdicts: map<Path, bool>
    var exclude: seq<Pattern>
    var excludeLoaded: bool
    var tracked: Option<set<Path>>
    var trackedLoaded: bool

    ghost predicate Valid()
      reads this
    {
      && (forall d :: d in dirs ==> dirs[d] == co.patterns(d))
      && (forall d :: d in verdicts ==> d != [] && verdicts[d] == (OwnMatch(co, d, true) || BelowExcluded(co, d)))
      && (excludeLoaded ==> exclude == co.exclude)
      && (trackedLoaded ==>
            if co.index.None? then tracked.None? else tracked.Some? && IsClosure(co.index.value, tracked.value))
    }

    constructor (checkout: Checkout)
      ensures Valid() && co == checkout
    {
      co := checkout;
      dirs, verdicts, exclude, excludeLoaded, tracked, trackedLoaded := map[], map[], [], false, None, false;
    }

    method PatternsFor(dir: Path) returns (pats: seq<Pattern>)
      requires Valid()
      modifies this`dirs
      ensures Valid() && pats == co.patterns(dir)
    {
      if dir in dirs {
        return dirs[dir];
      }
      pats := co.patterns(dir);
      dirs := dirs[dir := pats];
    }

    method InfoExclude() returns (pats: seq<Pattern>)
      requires Valid()
      modifies this`exclude, this`excludeLoaded
      ensures Valid() && pats == co.exclude
    {
      if !excludeLoaded {
        excludeLoaded := true;
        exclude := co.exclude;
      }
      pats := exclude;
    }

    /** The last matching pattern of one file, scanning from its end. */
    method MatchIn(pats: seq<Pattern>, rel: Path, isDir: bool) returns (v: Option<bool>)
      ensures v == LastWord(co, Lines(pats, rel), isDir)
    {
      var i := |pats|;
      assert Lines(pats, rel)[..i] == Lines(pats, rel);
      while i > 0
        invariant 0 <= i <= |pats|
        invariant LastWord(co, Lines(pats, rel), isDir) == LastWord(co, Lines(pats, rel)[..i], isDir)
      {
        i := i - 1;
        var p := pats[i];
        ghost var upTo := Lines(pats, rel)[..i + 1];
        assert upTo[..i] == Lines(pats, rel)[..i] && upTo[i] == Line(p, rel);
        if p.dirOnly && !isDir {
          continue;
        }
        if co.glob(p.glob, rel) {
          return Some(!p.negate);
        }
      }
      return None;
    }

    /** From the path's own directory up to the root, then info/exclude: the first word found wins. */
    method Match(rel: Path, isDir: bool) returns (v: bool)
      requires Valid() && rel != []
      modifies this`dirs, this`exclude, this`excludeLoaded
      ensures Valid() && v == OwnMatch(co, rel, isDir)
    {
      var n := |rel|;
      while n > 0
        invariant 0 <= n <= |rel| && Valid()
        invariant LastWord(co, TreeLines(co, rel, |rel|), isDir) == LastWord(co, TreeLines(co, rel, n), isDir)
      {
        var pats := PatternsFor(rel[..n - 1]);
        var word := MatchIn(pats, rel[n - 1..], isDir);
        LastWordOfConcat(co, TreeLines(co, rel, n - 1), Lines(pats, rel[n - 1..]), isDir);
        if word.Some? {
          LastWordOfConcat(co, Lines(co.exclude, rel), TreeLines(co, rel, |rel|), isDir);
          return word.value;
        }
        n := n - 1;
      }
      LastWordOfConcat(co, Lines(co.exclude, rel), TreeLines(co, rel, |rel|), isDir);
      var pats := InfoExclude();
      var word := MatchIn(pats, rel, isDir);
      v := word.Some? && word.value;
    }

    method DirExcluded(dir: Path) returns (v: bool)
      requires Valid() && dir != []
      modifies this`dirs, this`exclude, this`excludeLoaded, this`verdicts
      ensures Valid() && v == (OwnMatch(co, dir, true) || BelowExcluded(co, dir))
      decreases |dir|
    {
      if dir in verdicts {
        return verdicts[dir];
      }
      v := false;
      var parent := dir[..|dir| - 1];
      if parent != [] {
        v := DirExcluded(parent);
        ParentDecides(co, dir);
      }
      if !v {
        v := Match(dir, true);
      }
      Remember(dir, v);
    }

    method Remember(dir: Path, v: bool)
      requires Valid() && dir != [] && v == (OwnMatch(co, dir, true) || BelowExcluded(co, dir))
      modifies this`verdicts
      ensures Valid()
    {
      verdicts := verdicts[dir := v];
    }

    method LoadTracked()
      requires Valid()
      modifies this`tracked, this`trackedLoaded
      ensures Valid() && trackedLoaded
    {
      if trackedLoaded {
        return;
      }
      trackedLoaded := true;
      tracked := None;
      if co.index.None? {
        return;
      }
      var closure := Closure(co.index.value);
      tracked := Some(closure);
    }

    method IsTracked(rel: Path) returns (v: bool)
      requires Valid() && rel != []
      modifies this`tracked, this`trackedLoaded
      ensures Valid() && v == Tracked(co, rel)
    {
      LoadTracked();
      v := tracked.Some? && rel in tracked.value;
    }

    /** Ignored: whatever was asked before, the answer is the checkout's. */
    method IsIgnored(rel: Path, isDir: bool) returns (v: bool)
      requires Valid()
      modifies this
      ensures Valid() && v == Ignored(co, rel, isDir)
    {
      if rel == [] || rel == ["."] || rel[0] == ".." {
        return false;
      }
      var parent := rel[..|rel| - 1];
      if parent != [] {
        var below := DirExcluded(parent);
        ParentDecides(co, rel);
        if below {
          var kept := IsTracked(rel);
          return !kept;
        }
      }
      var own := Match(rel, isDir);
      if !own {
        return false;
      }
      var kept := IsTracked(rel);
      v := !kept;
    }
  }

  /** What excludes the parent is what lies above the path. */
  lemma ParentDecides(co: Checkout, rel: Path)
    requires |rel| > 1
    ensures var parent := rel[..|rel| - 1]; BelowExcluded(co, rel) <==> OwnMatch(co, parent, true) || BelowExcluded(co, parent)
  {
    var parent := rel[..|rel| - 1];
    forall k: nat | 0 < k < |parent| ensures parent[..k] == rel[..k] {
    }
    if BelowExcluded(co, parent) {
      var k: nat :| 0 < k < |parent| && OwnMatch(co, parent[..k], true);
      assert OwnMatch(co, rel[..k], true);
    }
  }
}
