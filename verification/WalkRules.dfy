/** The rules a repository is indexed under, as one configured matcher gives them to the walk and to a
    push: the walk prunes directories, the push asks about each file alone. */
module WalkRules {
  import opened Strings
  import opened Failures
  import opened IndexPass
  import opened CommitPlan
  import G = Gitignore
  import I = IgnorePatterns

  datatype Matcher = Matcher(glob: I.Glob, patterns: seq<string>, gitignore: bool, checkout: G.Checkout)

  ghost predicate Ignores(m: Matcher, rel: string, isDir: bool) { I.Verdict(m.glob, m.patterns, m.gitignore, m.checkout, rel, isDir) }

  // ---------------------------------------------------------------------------
  // The walk
  // ---------------------------------------------------------------------------

  function Components(p: string): (r: seq<string>)
    ensures |r| >= 1
  {
    Split(p, '/')
  }

  function Base(p: string): string { Components(p)[|Components(p)| - 1] }

  /** The directory of p's first k components. */
  function Above(p: string, k: nat): string
    requires k <= |Components(p)|
  {
    Join(Components(p)[..k], '/')
  }

  lemma AboveIsPrefix(p: string, k: nat)
    requires 0 < k <= |Components(p)|
    ensures Components(Above(p, k)) == Components(p)[..k]
  {
    SplitOfJoin(Components(p)[..k], '/');
  }

  const GIT_DIR := ".git"

  /** SkipDir, of a directory that is not the root. */
  ghost predicate SkipsDir(m: Matcher, dir: string) { Base(dir) == GIT_DIR || Ignores(m, dir, true) }

  /** The walk never reaches p. */
  ghost predicate Pruned(m: Matcher, p: string)
  {
    exists k :: 0 < k < |Components(p)| && SkipsDir(m, Above(p, k))
  }

  /** WalkFiles hands p out if its language is known. */
  ghost predicate WalkHandsOut(m: Matcher, p: string) { !Pruned(m, p) && Base(p) != GIT_DIR && !Ignores(m, p, false) }

  /** The world of a configured matcher. */
  ghost function WorldOf(m: Matcher, lang: string -> string, hash: string -> string): World
  {
    World(p => Ignores(m, p, false), p => WalkHandsOut(m, p), lang, hash)
  }

  lemma ConfiguredWalkAsks(m: Matcher, lang: string -> string, hash: string -> string)
    ensures WalkAsks(WorldOf(m, lang, hash))
  {
  }

  // ---------------------------------------------------------------------------
  // Where the walk and the push part
  // ---------------------------------------------------------------------------

  /** A directory above p is excluded by the operator's own list. */
  ghost predicate BelowConfigured(m: Matcher, p: string)
  {
    exists k :: 0 < k < |Components(p)| && I.Configured(m.glob, m.patterns, Above(p, k))
  }

  /** A file that is kept on its own is handed out by the walk unless a component of its path is .git or
      a configured pattern excludes a directory above it; the checkout's rules never part the two. */
  lemma HandedOutIff(m: Matcher, p: string)
    requires !Ignores(m, p, false)
    ensures WalkHandsOut(m, p) <==> GIT_DIR !in Components(p) && !BelowConfigured(m, p)
  {
    forall k | 0 < k < |Components(p)|
      ensures SkipsDir(m, Above(p, k)) <==> Components(p)[k - 1] == GIT_DIR || I.Configured(m.glob, m.patterns, Above(p, k))
    {
      AboveIsPrefix(p, k);
      I.OnlyPatternsPrune(m.glob, m.patterns, m.gitignore, m.checkout, p, Above(p, k), k);
    }
    if GIT_DIR in Components(p) && Base(p) != GIT_DIR {
      var i :| 0 <= i < |Components(p)| && Components(p)[i] == GIT_DIR;
      assert SkipsDir(m, Above(p, i + 1));
    }
    if BelowConfigured(m, p) {
      var k :| 0 < k < |Components(p)| && I.Configured(m.glob, m.patterns, Above(p, k));
      assert SkipsDir(m, Above(p, k));
    }
  }

  /** Every file a push takes in is one the walk would reach. */
  ghost predicate PushStaysInWalk(m: Matcher, w: World, plan: Plan)
  {
    forall p: string :: TakesIn(w, plan, p) ==> GIT_DIR !in Components(p) && !BelowConfigured(m, p)
  }

  lemma ConfiguredWalkAgreesIff(m: Matcher, lang: string -> string, hash: string -> string, plan: Plan)
    ensures WalkAgrees(WorldOf(m, lang, hash), plan) <==> PushStaysInWalk(m, WorldOf(m, lang, hash), plan)
  {
    var w := WorldOf(m, lang, hash);
    forall p: string | TakesIn(w, plan, p)
      ensures w.walkKeeps(p) <==> GIT_DIR !in Components(p) && !BelowConfigured(m, p)
    {
      HandedOutIff(m, p);
    }
  }

  /** A push leaves the index of the pushed tree exactly when no file it takes in lies in a .git or below
      a directory that a configured pattern excludes. */
  lemma ConfiguredPushIndexesIff(m: Matcher, lang: string -> string, hash: string -> string, tree: Tree, disk: Disk, changes: seq<Change>, s: State, t: State)
    requires IndexesApart(WorldOf(m, lang, hash), s, tree, Merge(changes))
    requires CleanApply(WorldOf(m, lang, hash), Merge(changes), disk, s, t)
    ensures Indexes(WorldOf(m, lang, hash), t, Replay(tree, disk, changes)) <==> PushStaysInWalk(m, WorldOf(m, lang, hash), Merge(changes))
  {
    ConfiguredWalkAsks(m, lang, hash);
    ConfiguredWalkAgreesIff(m, lang, hash, Merge(changes));
    IncrementalIndexesIff(WorldOf(m, lang, hash), tree, disk, changes, s, t);
  }

  ghost predicate AvoidsGitDir(w: World, plan: Plan) { forall p: string :: TakesIn(w, plan, p) ==> GIT_DIR !in Components(p) }

  /** The walk and a push part on no plan that stays out of .git directories. */
  ghost predicate NeverPart(w: World)
  {
    forall plan: Plan :: AvoidsGitDir(w, plan) ==> WalkAgrees(w, plan)
  }

  /** A pattern that excludes a directory excludes the files below it, where the checkout does not. */
  ghost predicate PatternsReachFiles(m: Matcher, w: World)
  {
    forall p: string :: w.lang(p) != "" && GIT_DIR !in Components(p) && BelowConfigured(m, p) ==> Ignores(m, p, false)
  }

  /** Which configurations keep the promise that a push and a full pass leave the same index. */
  lemma NeverPartIff(m: Matcher, lang: string -> string, hash: string -> string)
    ensures NeverPart(WorldOf(m, lang, hash)) <==> PatternsReachFiles(m, WorldOf(m, lang, hash))
    ensures m.patterns == [] ==> NeverPart(WorldOf(m, lang, hash))
  {
    var w := WorldOf(m, lang, hash);
    if NeverPart(w) {
      forall p: string | lang(p) != "" && GIT_DIR !in Components(p) && BelowConfigured(m, p) ensures Ignores(m, p, false) {
        var plan := map[p := Upsert("")];
        assert AvoidsGitDir(w, plan);
        if !Ignores(m, p, false) {
          assert TakesIn(w, plan, p);
          HandedOutIff(m, p);
        }
      }
    }
    if PatternsReachFiles(m, w) {
      forall plan: Plan | AvoidsGitDir(w, plan) ensures WalkAgrees(w, plan) {
        ConfiguredWalkAgreesIff(m, lang, hash, plan);
      }
    }
  }

  /** The pattern that names a directory and none of its files: the push takes one in, the walk does not. */
  lemma NamedDirParts(co: G.Checkout, lang: string -> string, hash: string -> string)
    requires lang("vendor/x") != ""
    ensures var m := Matcher(I.Same, ["vendor"], false, co);
            !WalkAgrees(WorldOf(m, lang, hash), map["vendor/x" := Upsert("c")])
  {
    I.PatternPrunesMore(co);
    var m := Matcher(I.Same, ["vendor"], false, co);
    var p, plan := "vendor/x", map["vendor/x" := Upsert("c")];
    VendorAbove();
    assert I.Configured(m.glob, m.patterns, Above(p, 1));
    assert TakesIn(WorldOf(m, lang, hash), plan, p);
    ConfiguredWalkAgreesIff(m, lang, hash, plan);
  }

  lemma VendorAbove()
    ensures |Components("vendor/x")| == 2 && Above("vendor/x", 1) == "vendor"
  {
    var dir, rest := "vendor", "x";
    assert "vendor/x" == dir + ['/'] + rest;
    assert Join([dir, rest], '/') == "vendor/x" by {
      assert [dir, rest][1..] == [rest];
    }
    SplitOfJoin([dir, rest], '/');
    assert [dir, rest][..1] == [dir];
  }
}
