/** Configured patterns and checkout rules composed, with one verdict cache for files and one for
    directories of each repository. */
module IgnorePatterns {
  import opened Wrappers
  import opened Strings
  import G = Gitignore

  type Glob = (string, string) -> bool

  // ---------------------------------------------------------------------------
  // Configured patterns
  // ---------------------------------------------------------------------------

  ghost predicate SomePartMatches(glob: Glob, pattern: string, path: string)
  {
    exists i :: 0 <= i < |Split(path, '/')| && glob(pattern, Split(path, '/')[i])
  }

  /** A leading double star asks for one component, a trailing one for a prefix. */
  ghost predicate PatternMatches(glob: Glob, pattern: string, path: string)
  {
    if HasPrefix(pattern, "**/") then SomePartMatches(glob, pattern[3..], path)
    else if HasSuffix(pattern, "/**") then HasPrefix(path, pattern[..|pattern| - 3])
    else pattern == "**" || pattern == "*.*" || glob(pattern, path)
  }

  // A leading double star and a slash ask for a component that matches the rest, a trailing one for a path
  // that begins with what stands before it, a double star alone and "*.*" match everything, and any other
  // glob is asked about the whole path.
  lemma PatternMeans(glob: Glob, pattern: string, rest: string, path: string)
    ensures pattern == "**/" + rest ==>
              (PatternMatches(glob, pattern, path) <==> exists i :: 0 <= i < |Split(path, '/')| && glob(rest, Split(path, '/')[i]))
    ensures pattern == rest + "/**" && !HasPrefix(pattern, "**/") ==> (PatternMatches(glob, pattern, path) <==> rest <= path)
    ensures !HasPrefix(pattern, "**/") && !HasSuffix(pattern, "/**") ==>
              (PatternMatches(glob, pattern, path) <==> pattern == "**" || pattern == "*.*" || glob(pattern, path))
  {
    if pattern == "**/" + rest {
      assert HasPrefix(pattern, "**/") && pattern[3..] == rest;
      assert PatternMatches(glob, pattern, path) <==> SomePartMatches(glob, rest, path);
    }
    if pattern == rest + "/**" {
      assert HasSuffix(pattern, "/**") && pattern[..|pattern| - 3] == rest;
    }
  }

  method MatchPattern(glob: Glob, pattern: string, path: string) returns (v: bool)
    ensures v == PatternMatches(glob, pattern, path)
  {
    if HasPrefix(pattern, "**/") {
      var parts := Split(path, '/');
      for i := 0 to |parts|
        invariant forall j :: 0 <= j < i ==> !glob(pattern[3..], parts[j])
      {
        if glob(pattern[3..], parts[i]) {
          return true;
        }
      }
      return false;
    }
    if HasSuffix(pattern, "/**") {
      return HasPrefix(path, pattern[..|pattern| - 3]);
    }
    if pattern == "**" || pattern == "*.*" {
      return true;
    }
    v := glob(pattern, path);
  }

  ghost predicate Configured(glob: Glob, patterns: seq<string>, path: string)
  {
    exists i :: 0 <= i < |patterns| && PatternMatches(glob, patterns[i], path)
  }

  /** One pattern excludes what it matches, none excludes nothing, and more exclude what any of them does. */
  lemma PatternsAddUp(glob: Glob, a: seq<string>, b: seq<string>, pattern: string, path: string)
    ensures Configured(glob, a + b, path) <==> Configured(glob, a, path) || Configured(glob, b, path)
    ensures Configured(glob, [pattern], path) <==> PatternMatches(glob, pattern, path)
    ensures !Configured(glob, [], path)
  {
    if i :| 0 <= i < |a| && PatternMatches(glob, a[i], path) {
      assert (a + b)[i] == a[i];
    }
    if i :| 0 <= i < |b| && PatternMatches(glob, b[i], path) {
      assert (a + b)[|a| + i] == b[i];
    }
    if PatternMatches(glob, pattern, path) {
      assert PatternMatches(glob, [pattern][0], path);
    }
  }

  /** The uncached verdict.  The operator's list comes first and is final: the checkout's rules can
      only ever exclude more. */
  ghost predicate Verdict(glob: Glob, patterns: seq<string>, gitignore: bool, co: G.Checkout, rel: string, isDir: bool)
  {
    Configured(glob, patterns, rel) || (gitignore && G.Ignored(co, Split(rel, '/'), isDir))
  }

  /** Above a file kept on its own, a walk that prunes excluded directories stops only at one that a
      configured pattern excludes: the checkout's rules exclude none. */
  lemma OnlyPatternsPrune(glob: Glob, patterns: seq<string>, gitignore: bool, co: G.Checkout, rel: string, dir: string, k: nat)
    requires 0 < k < |Split(rel, '/')| && Split(dir, '/') == Split(rel, '/')[..k]
    requires !Verdict(glob, patterns, gitignore, co, rel, false)
    ensures Verdict(glob, patterns, gitignore, co, dir, true) <==> Configured(glob, patterns, dir)
  {
    if gitignore && G.InTree(Split(rel, '/')) {
      G.PruningLosesNothing(co, Split(rel, '/'), false, k);
    }
  }

  function Same(pattern: string, path: string): bool { pattern == path }

  /** A configured pattern can name a directory and none of the files in it: a walk prunes them, the
      question about one of them alone keeps it. */
  lemma PatternPrunesMore(co: G.Checkout)
    ensures Verdict(Same, ["vendor"], false, co, "vendor", true) && !Verdict(Same, ["vendor"], false, co, "vendor/x", false)
  {
    assert "vendor"[0] == 'v' && "vendor"[|"vendor"| - 1] == 'r' && "**/"[0] == '*' && "/**"[2] == '*';
    assert PatternMatches(Same, ["vendor"][0], "vendor");
    assert "vendor" != "vendor/x" && "vendor" != "**" && "vendor" != "*.*" by {
      assert |"vendor"| == 6 && |"vendor/x"| == 8;
    }
  }

  // ---------------------------------------------------------------------------
  // The matcher
  // ---------------------------------------------------------------------------

  type Verdicts = map<string, map<string, bool>>

  class IgnorePatterns {
    const glob: Glob
    const checkout: string -> G.Checkout
    const patterns: seq<string>
    const gitignore: bool
    var files: Verdicts
    var dirs: Verdicts
    var rules: map<string, G.Rules>

    ghost predicate Right(cache: Verdicts, isDir: bool)
    {
      forall repo, rel :: repo in cache && rel in cache[repo] ==>
        cache[repo][rel] == Verdict(glob, patterns, gitignore, checkout(repo), rel, isDir)
    }

    ghost function Loaded(): set<object>
      reads this
    {
      set repo | repo in rules :: rules[repo]
    }

    ghost predicate Valid()
      reads this, Loaded()
    {
      && Right(files, false) && Right(dirs, true)
      && forall repo :: repo in rules ==> rules[repo].co == checkout(repo) && rules[repo].Valid()
    }

    constructor (g: Glob, disk: string -> G.Checkout, configured: seq<string>, useGitignore: bool)
      ensures Valid() && fresh(Loaded())
      ensures glob == g && checkout == disk && patterns == configured && gitignore == useGitignore
    {
      glob, checkout, patterns, gitignore := g, disk, configured, useGitignore;
      files, dirs, rules := map[], map[], map[];
    }

    method MatchesConfigured(rel: string) returns (v: bool)
      ensures v == Configured(glob, patterns, rel)
    {
      for i := 0 to |patterns|
        invariant forall j :: 0 <= j < i ==> !PatternMatches(glob, patterns[j], rel)
      {
        var matched := MatchPattern(glob, patterns[i], rel);
        if matched {
          return true;
        }
      }
      return false;
    }

    method RulesFor(repo: string) returns (r: G.Rules)
      requires Valid()
      modifies this`rules
      ensures Valid() && fresh(Loaded() - old(Loaded()))
      ensures r in Loaded() && r.co == checkout(repo) && r.Valid()
    {
      if repo in rules {
        assert rules[repo] in Loaded();
        return rules[repo];
      }
      r := new G.Rules(checkout(repo));
      rules := rules[repo := r];
      assert rules[repo] == r;
    }

    method Remember(repo: string, rel: string, isDir: bool, v: bool)
      requires Valid() && v == Verdict(glob, patterns, gitignore, checkout(repo), rel, isDir)
      modifies this`files, this`dirs
      ensures Valid()
    {
      var cache := if isDir then dirs else files;
      var repoCache := if repo in cache then cache[repo] else map[];
      cache := cache[repo := repoCache[rel := v]];
      if isDir {
        dirs := cache;
      } else {
        files := cache;
      }
    }

    /** shouldIgnore: whatever was asked before and of which kind, the answer is the uncached verdict.
        None is a path outside the repository. */
    method ShouldIgnore(repo: string, path: Option<string>, isDir: bool) returns (v: bool)
      requires Valid()
      modifies this, Loaded()
      ensures Valid() && fresh(Loaded() - old(Loaded()))
      ensures v == (path.Some? && Verdict(glob, patterns, gitignore, checkout(repo), path.value, isDir))
    {
      if |patterns| == 0 && !gitignore {
        return false;
      }
      if path.None? {
        return false;
      }
      var rel := path.value;
      var cache := if isDir then dirs else files;
      if repo in cache && rel in cache[repo] {
        return cache[repo][rel];
      }
      v := MatchesConfigured(rel);
      if !v && gitignore {
        var r := RulesFor(repo);
        v := r.IsIgnored(Split(rel, '/'), isDir);
      }
      Remember(repo, rel, isDir, v);
    }
  }
}
