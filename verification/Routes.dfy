/** HTTP calls matched against route templates: the match score, its behaviour under key reduction,
    and the segment-count bucket against a scan of every route. */
module Routes {
  import opened Wrappers
  import opened Strings
  import opened ContractKeys
  import opened Units
  import Sorting

  const CONF_EXACT := 0.95
  const METHOD_ANY_FACTOR := 0.8
  const PATH_PARAM_FACTOR := 0.95

  function SplitPath(path: string): seq<string>
  {
    var p := Trim(path, {'/'});
    if p == "" then [] else Split(p, '/')
  }

  // ---------------------------------------------------------------------------
  // The score
  // ---------------------------------------------------------------------------

  function MethodScore(call: string, route: string): real
  {
    if call == route then 1.0
    else if call == "ANY" || route == "ANY" then METHOD_ANY_FACTOR
    else 0.0
  }

  function SegmentScore(call: string, route: string): real
  {
    if EqualFold(call, route) then 1.0
    else if IsPathParam(route) || IsPathParam(call) then PATH_PARAM_FACTOR
    else 0.0
  }

  function PathScore(call: seq<string>, route: seq<string>): real
    requires |call| == |route|
  {
    if call == [] then 1.0 else PathScore(call[..|call| - 1], route[..|route| - 1]) * SegmentScore(Last(call), Last(route))
  }

  function RouteScore(callMethod: string, call: seq<string>, routeMethod: string, route: seq<string>): real
  {
    if |call| != |route| then 0.0
    else CONF_EXACT * MethodScore(callMethod, routeMethod) * PathScore(call, route)
  }

  lemma {:induction false} PathScoreOfPrefix(call: seq<string>, route: seq<string>, n: nat)
    requires |call| == |route| && n <= |call|
    ensures 0.0 <= PathScore(call, route) <= PathScore(call[..n], route[..n]) <= 1.0
    decreases |call|
  {
    if n < |call| {
      PathScoreOfPrefix(call[..|call| - 1], route[..|route| - 1], n);
      assert call[..|call| - 1][..n] == call[..n] && route[..|route| - 1][..n] == route[..n];
      ScaleDown(PathScore(call[..|call| - 1], route[..|route| - 1]), SegmentScore(Last(call), Last(route)));
    } else {
      assert call[..n] == call && route[..n] == route;
      if n > 0 {
        PathScoreOfPrefix(call[..n - 1], route[..n - 1], n - 1);
        ScaleDown(PathScore(call[..n - 1], route[..n - 1]), SegmentScore(Last(call), Last(route)));
      }
    }
  }

  lemma ScaleDown(a: real, f: real)
    requires 0.0 <= a && 0.0 <= f <= 1.0
    ensures 0.0 <= a * f <= a
  {
  }

  lemma MismatchScoresZero(call: seq<string>, route: seq<string>, i: nat)
    requires |call| == |route| && i < |call| && SegmentScore(call[i], route[i]) == 0.0
    ensures PathScore(call, route) == 0.0
  {
    assert call[..i + 1][..i] == call[..i] && route[..i + 1][..i] == route[..i];
    PathScoreOfPrefix(call, route, i + 1);
  }

  method RouteMatchScoreSegs(callMethod: string, call: seq<string>, routeMethod: string, route: seq<string>) returns (score: real)
    ensures score == RouteScore(callMethod, call, routeMethod, route)
  {
    var methodScore := 0.0;
    if callMethod == routeMethod {
      methodScore := 1.0;
    } else if callMethod == "ANY" || routeMethod == "ANY" {
      methodScore := METHOD_ANY_FACTOR;
    } else {
      return 0.0;
    }
    if |call| != |route| {
      return 0.0;
    }
    var pathScore := 1.0;
    for i := 0 to |call|
      invariant pathScore == PathScore(call[..i], route[..i])
    {
      assert call[..i + 1][..i] == call[..i] && route[..i + 1][..i] == route[..i];
      if EqualFold(call[i], route[i]) {
        continue;
      }
      if IsPathParam(route[i]) || IsPathParam(call[i]) {
        pathScore := pathScore * PATH_PARAM_FACTOR;
        continue;
      }
      MismatchScoresZero(call, route, i);
      return 0.0;
    }
    assert call[..|call|] == call && route[..|route|] == route;
    score := CONF_EXACT * methodScore * pathScore;
  }

  // ---------------------------------------------------------------------------
  // Reduction never loses a match
  // ---------------------------------------------------------------------------

  lemma SpecialCharsFold(c: char, d: char)
    requires LowerChar(c) == LowerChar(d)
    ensures c in "{}:<[*" ==> c == d
  {
  }

  lemma FoldTail(a: string, b: string)
    requires EqualFold(a, b) && a != ""
    ensures b != "" && LowerChar(a[0]) == LowerChar(b[0]) && EqualFold(a[1..], b[1..])
  {
    assert Lower(a)[0] == Lower(b)[0];
    assert Lower(a)[1..] == Lower(a[1..]) && Lower(b)[1..] == Lower(b[1..]);
  }

  lemma FoldConcat(a: string, b: string, c: string, d: string)
    requires EqualFold(a, b) && EqualFold(c, d)
    ensures EqualFold(a + c, b + d)
  {
    assert Lower(a + c) == Lower(a) + Lower(c) && Lower(b + d) == Lower(b) + Lower(d);
  }

  lemma {:induction false} ScanFolds(a: string, b: string, depth: nat)
    requires EqualFold(a, b)
    ensures EqualFold(Scan(a, depth), Scan(b, depth))
  {
    if a != "" {
      FoldTail(a, b);
      SpecialCharsFold(a[0], b[0]);
      SpecialCharsFold(b[0], a[0]);
      if a[0] == '{' {
        ScanFolds(a[1..], b[1..], depth + 1);
        if depth == 0 {
          FoldConcat("{}", "{}", Scan(a[1..], depth + 1), Scan(b[1..], depth + 1));
        }
      } else if a[0] == '}' {
        ScanFolds(a[1..], b[1..], if depth > 0 then depth - 1 else 0);
      } else {
        ScanFolds(a[1..], b[1..], depth);
        assert Lower([a[0]]) == Lower([b[0]]);
        if depth == 0 {
          FoldConcat([a[0]], [b[0]], Scan(a[1..], depth), Scan(b[1..], depth));
        }
      }
    } else {
      assert |Lower(b)| == 0;
    }
  }

  lemma {:induction false} BraceFolds(a: string, b: string)
    requires EqualFold(a, b)
    ensures '{' in a <==> '{' in b
  {
    forall i | 0 <= i < |a| && |Lower(a)| == |Lower(b)| ensures a[i] == '{' <==> b[i] == '{' {
      assert Lower(a)[i] == Lower(b)[i];
      SpecialCharsFold(a[i], b[i]);
      SpecialCharsFold(b[i], a[i]);
    }
  }

  lemma StarsFold(a: string, b: string)
    requires EqualFold(a, b)
    ensures a == "*" <==> b == "*"
    ensures a == "**" <==> b == "**"
  {
    assert |Lower(a)| == |Lower(b)|;
    forall i | 0 <= i < |a| ensures a[i] == '*' <==> b[i] == '*' {
      assert Lower(a)[i] == Lower(b)[i];
      SpecialCharsFold(a[i], b[i]);
      SpecialCharsFold(b[i], a[i]);
    }
  }

  lemma ReducedFolds(a: string, b: string)
    requires EqualFold(a, b)
    ensures EqualFold(Reduced(a), Reduced(b))
  {
    if a != "" {
      FoldTail(a, b);
      SpecialCharsFold(a[0], b[0]);
      SpecialCharsFold(b[0], a[0]);
      BraceFolds(a, b);
      StarsFold(a, b);
      ScanFolds(a, b, 0);
    } else {
      assert |Lower(b)| == 0;
    }
  }

  lemma ReducedKeepsParam(seg: string)
    requires IsPathParam(seg)
    ensures IsPathParam(Reduced(seg))
  {
    if seg[0] == '{' {
      assert Scan(seg, 0)[0] == '{';
    }
  }

  lemma SegmentScoreGrows(a: string, b: string)
    ensures SegmentScore(Reduced(a), Reduced(b)) >= SegmentScore(a, b) >= 0.0
  {
    if EqualFold(a, b) {
      ReducedFolds(a, b);
    } else if IsPathParam(a) {
      ReducedKeepsParam(a);
    } else if IsPathParam(b) {
      ReducedKeepsParam(b);
    }
  }

  lemma ProductGrows(a: real, b: real, c: real, d: real)
    requires 0.0 <= a <= b && 0.0 <= c <= d
    ensures 0.0 <= a * c <= b * d
  {
    assert b * d - a * c == b * (d - c) + (b - a) * c;
  }

  function Product(xs: seq<real>): real { if xs == [] then 1.0 else Product(xs[..|xs| - 1]) * xs[|xs| - 1] }

  lemma {:induction false} ProductsGrow(xs: seq<real>, ys: seq<real>)
    requires |xs| == |ys| && forall i :: 0 <= i < |xs| ==> 0.0 <= xs[i] <= ys[i]
    ensures 0.0 <= Product(xs) <= Product(ys)
  {
    if xs != [] {
      var n := |xs| - 1;
      ProductsGrow(xs[..n], ys[..n]);
      ProductGrows(Product(xs[..n]), Product(ys[..n]), xs[n], ys[n]);
    }
  }

  function SegmentScores(call: seq<string>, route: seq<string>): (r: seq<real>)
    requires |call| == |route|
    ensures |r| == |call| && forall i :: 0 <= i < |call| ==> r[i] == SegmentScore(call[i], route[i])
  {
    seq(|call|, i requires 0 <= i < |call| => SegmentScore(call[i], route[i]))
  }

  lemma {:induction false} PathScoreIsProduct(call: seq<string>, route: seq<string>)
    requires |call| == |route|
    ensures PathScore(call, route) == Product(SegmentScores(call, route))
  {
    if call != [] {
      var n := |call| - 1;
      PathScoreIsProduct(call[..n], route[..n]);
      assert SegmentScores(call, route)[..n] == SegmentScores(call[..n], route[..n]);
    }
  }

  lemma PathScoreGrows(a: seq<string>, b: seq<string>)
    requires |a| == |b|
    ensures PathScore(ReducedAll(a), ReducedAll(b)) >= PathScore(a, b) >= 0.0
  {
    PathScoreIsProduct(a, b);
    PathScoreIsProduct(ReducedAll(a), ReducedAll(b));
    var xs, ys := SegmentScores(a, b), SegmentScores(ReducedAll(a), ReducedAll(b));
    forall i | 0 <= i < |xs| ensures 0.0 <= xs[i] <= ys[i] {
      SegmentScoreGrows(a[i], b[i]);
    }
    ProductsGrow(xs, ys);
  }

  lemma {:induction false} ReducedCommutesWithTrim(segs: seq<string>)
    ensures ReducedAll(DropLead(segs)) == DropLead(ReducedAll(segs))
    ensures ReducedAll(DropTrail(segs)) == DropTrail(ReducedAll(segs))
    decreases |segs|
  {
    forall i | 0 <= i < |segs| ensures Reduced(segs[i]) == "" <==> segs[i] == "" {
      ReducedKeepsEmptiness(segs[i]);
    }
    if |segs| > 1 {
      ReducedCommutesWithTrim(segs[1..]);
      ReducedCommutesWithTrim(segs[..|segs| - 1]);
      assert ReducedAll(segs)[1..] == ReducedAll(segs[1..]);
      assert ReducedAll(segs)[..|segs| - 1] == ReducedAll(segs[..|segs| - 1]);
    }
  }

  lemma {:induction false} ReducedKeepsEmptiness(seg: string)
    ensures Reduced(seg) == "" <==> seg == ""
  {
    if seg != "" && '{' in seg {
      ScanKeepsBrace(seg);
    }
  }

  lemma {:induction false} ReducedHasNoSlash(seg: string)
    requires '/' !in seg
    ensures '/' !in Reduced(seg)
  {
    ScanKeepsFree(seg, 0, {'/'});
  }

  /** Reducing the path reduces each of its segments: none appears, none vanishes. */
  lemma SplitOfReducedPath(path: string)
    ensures SplitPath(ReducedPath(path)) == ReducedAll(SplitPath(path))
  {
    var segs := Split(path, '/');
    forall i | 0 <= i < |segs| ensures '/' !in Reduced(segs[i]) {
      ReducedHasNoSlash(segs[i]);
    }
    SplitOfJoin(ReducedAll(segs), '/');
    TrimIsDrop(path);
    TrimIsDrop(ReducedPath(path));
    ReducedCommutesWithTrim(segs);
    ReducedCommutesWithTrim(DropLead(segs));
    var trimmed := DropTrail(DropLead(segs));
    ReducedKeepsEmptiness(trimmed[0]);
  }

  lemma {:induction false} DropKeepsOne(parts: seq<string>)
    requires parts != []
    ensures DropLead(parts) != [] && DropTrail(parts) != []
    decreases |parts|
  {
    if |parts| > 1 {
      DropKeepsOne(parts[1..]);
      DropKeepsOne(parts[..|parts| - 1]);
    }
  }

  /** SplitPath in terms of the untrimmed split. */
  lemma TrimIsDrop(path: string)
    ensures var d := DropTrail(DropLead(Split(path, '/')));
            d != [] && SplitPath(path) == if d == [""] then [] else d
  {
    SplitTrimLeft(path, '/');
    SplitTrimRight(TrimLeft(path, {'/'}), '/');
    DropKeepsOne(Split(path, '/'));
    DropKeepsOne(DropLead(Split(path, '/')));
    var p := Trim(path, {'/'});
    JoinOfSplit(p, '/');
  }

  lemma ReductionKeepsMatches(callMethod: string, call: string, routeMethod: string, route: string)
    ensures |SplitPath(ReducedPath(call))| == |SplitPath(call)|
    ensures RouteScore(callMethod, SplitPath(ReducedPath(call)), routeMethod, SplitPath(ReducedPath(route)))
         >= RouteScore(callMethod, SplitPath(call), routeMethod, SplitPath(route)) >= 0.0
  {
    SplitOfReducedPath(call);
    SplitOfReducedPath(route);
    var a, b := SplitPath(call), SplitPath(route);
    if |a| == |b| {
      PathScoreGrows(a, b);
      var m := CONF_EXACT * MethodScore(callMethod, routeMethod);
      ProductGrows(m, m, PathScore(a, b), PathScore(ReducedAll(a), ReducedAll(b)));
    }
  }

  // ---------------------------------------------------------------------------
  // The segment-count bucket
  // ---------------------------------------------------------------------------

  datatype IndexedRoute = IndexedRoute(unit: Unit, verb: string, segs: seq<string>)

  function ParsedRoute(u: Unit): Option<IndexedRoute>
  {
    match ParseHTTP(u.qualified)
    case None => None
    case Some(r) => Some(IndexedRoute(u, r.verb, SplitPath(r.path)))
  }

  /** Every unit whose qualified name is a route key, in load order. */
  function ParsedRoutes(units: seq<Unit>): seq<IndexedRoute>
  {
    if units == [] then []
    else
      var rest := ParsedRoutes(units[..|units| - 1]);
      match ParsedRoute(Last(units))
      case None => rest
      case Some(r) => rest + [r]
  }

  datatype ScoredRoute = ScoredRoute(unit: Unit, score: real, sameRepo: bool)

  function Scored(r: IndexedRoute, call: Route, srcRepo: string): ScoredRoute
  {
    ScoredRoute(r.unit, RouteScore(call.verb, SplitPath(call.path), r.verb, r.segs), r.unit.repo == srcRepo)
  }

  /** The matching routes of a full scan, in load order. */
  function FullScan(routes: seq<IndexedRoute>, call: Route, srcRepo: string): seq<ScoredRoute>
  {
    if routes == [] then []
    else
      var rest := FullScan(routes[..|routes| - 1], call, srcRepo);
      var s := Scored(Last(routes), call, srcRepo);
      if s.score > 0.0 then rest + [s] else rest
  }

  /** The routes of `n` segments, in load order. */
  function OfLength(routes: seq<IndexedRoute>, n: nat): seq<IndexedRoute>
  {
    if routes == [] then []
    else
      var rest := OfLength(routes[..|routes| - 1], n);
      if |Last(routes).segs| == n then rest + [Last(routes)] else rest
  }

  ghost predicate IsRouteIndex(idx: map<nat, seq<IndexedRoute>>, routes: seq<IndexedRoute>)
  {
    forall n: nat :: Bucket(idx, n) == OfLength(routes, n)
  }

  lemma RouteIndexGrows(idx: map<nat, seq<IndexedRoute>>, routes: seq<IndexedRoute>, r: IndexedRoute)
    requires IsRouteIndex(idx, routes)
    ensures IsRouteIndex(idx[|r.segs| := Bucket(idx, |r.segs|) + [r]], routes + [r])
  {
    var next := idx[|r.segs| := Bucket(idx, |r.segs|) + [r]];
    forall n: nat ensures Bucket(next, n) == OfLength(routes + [r], n) {
      assert (routes + [r])[..|routes|] == routes;
      assert Bucket(idx, n) == OfLength(routes, n);
    }
  }

  method BuildRouteIndex(units: seq<Unit>) returns (idx: map<nat, seq<IndexedRoute>>)
    ensures IsRouteIndex(idx, ParsedRoutes(units))
  {
    idx := map[];
    for i := 0 to |units|
      invariant IsRouteIndex(idx, ParsedRoutes(units[..i]))
    {
      assert units[..i + 1][..i] == units[..i];
      ghost var routes := ParsedRoutes(units[..i]);
      match ParseHTTP(units[i].qualified)
      case None =>
      case Some(key) =>
        var r := IndexedRoute(units[i], key.verb, SplitPath(key.path));
        RouteIndexGrows(idx, routes, r);
        idx := idx[|r.segs| := Bucket(idx, |r.segs|) + [r]];
    }
    assert units[..|units|] == units;
  }

  lemma {:induction false} BucketLosesNoRoute(routes: seq<IndexedRoute>, call: Route, srcRepo: string)
    ensures FullScan(OfLength(routes, |SplitPath(call.path)|), call, srcRepo) == FullScan(routes, call, srcRepo)
  {
    if routes != [] {
      BucketLosesNoRoute(routes[..|routes| - 1], call, srcRepo);
      var kept := OfLength(routes[..|routes| - 1], |SplitPath(call.path)|);
      assert (kept + [Last(routes)])[..|kept|] == kept;
    }
  }

  predicate BeforeInFile(a: Unit, b: Unit)
  {
    if a.startLine != b.startLine then a.startLine < b.startLine
    else if a.startByte != b.startByte then a.startByte < b.startByte
    else if a.kind != b.kind then Less(a.kind, b.kind)
    else Less(a.name, b.name)
  }

  /** The ranking of candidates: score, then a route of another repository, then place. */
  predicate BetterRoute(a: ScoredRoute, b: ScoredRoute)
  {
    if a.score != b.score then a.score > b.score
    else if a.sameRepo != b.sameRepo then !a.sameRepo
    else if a.unit.repo != b.unit.repo then Less(a.unit.repo, b.unit.repo)
    else if a.unit.file != b.unit.file then Less(a.unit.file, b.unit.file)
    else BeforeInFile(a.unit, b.unit)
  }

  /** Scores one bucket, keeping its order. */
  method ScanBucket(bucket: seq<IndexedRoute>, call: Route, srcRepo: string) returns (out: seq<ScoredRoute>)
    ensures out == FullScan(bucket, call, srcRepo)
  {
    var callSegs := SplitPath(call.path);
    out := [];
    for i := 0 to |bucket|
      invariant out == FullScan(bucket[..i], call, srcRepo)
    {
      assert bucket[..i + 1][..i] == bucket[..i];
      var r := bucket[i];
      var score := RouteMatchScoreSegs(call.verb, callSegs, r.verb, r.segs);
      if score <= 0.0 {
        continue;
      }
      out := out + [ScoredRoute(r.unit, score, r.unit.repo == srcRepo)];
    }
    assert bucket[..|bucket|] == bucket;
  }

  method RouteCandidates(idx: map<nat, seq<IndexedRoute>>, ghost units: seq<Unit>, key: string, srcRepo: string)
    returns (out: seq<ScoredRoute>)
    requires IsRouteIndex(idx, ParsedRoutes(units))
    ensures ParseHTTP(key).None? ==> out == []
    ensures ParseHTTP(key).Some? ==> multiset(out) == multiset(FullScan(ParsedRoutes(units), ParseHTTP(key).value, srcRepo))
    ensures Sorting.Sorted(out, BetterRoute)
  {
    var parsed := ParseHTTP(key);
    if parsed.None? {
      return [];
    }
    var call := parsed.value;
    var found := ScanBucket(Bucket(idx, |SplitPath(call.path)|), call, srcRepo);
    BucketLosesNoRoute(ParsedRoutes(units), call, srcRepo);
    out := Rank(found);
  }

  method Rank(found: seq<ScoredRoute>) returns (out: seq<ScoredRoute>)
    ensures multiset(out) == multiset(found) && Sorting.Sorted(out, BetterRoute)
  {
    BetterRouteIsWeakOrder(found);
    out := Sorting.Slice(found, BetterRoute);
  }

  lemma BetterRouteAsymmetric(a: ScoredRoute, b: ScoredRoute)
    requires BetterRoute(a, b)
    ensures !BetterRoute(b, a)
  {
    LessIsStrict(a.unit.repo, b.unit.repo);
    LessIsStrict(a.unit.file, b.unit.file);
    LessIsStrict(a.unit.kind, b.unit.kind);
    LessIsStrict(a.unit.name, b.unit.name);
  }

  /** For strings, "not less" is "equal or greater", and that is transitive. */
  lemma NotLessTransitive(a: string, b: string, c: string)
    requires !Less(a, b) && !Less(b, c)
    ensures !Less(a, c)
    ensures a == c ==> a == b == c
  {
    LessTotal(a, b);
    LessTotal(b, c);
    LessIsStrict(a, c);
    if a != b && b != c {
      LessTransitive(c, b, a);
    }
    LessIsStrict(a, b);
  }

  lemma NotBeforeInFileTransitive(a: Unit, b: Unit, c: Unit)
    requires !BeforeInFile(a, b) && !BeforeInFile(b, c)
    ensures !BeforeInFile(a, c)
  {
    if a.startLine == b.startLine == c.startLine && a.startByte == b.startByte == c.startByte {
      if a.kind == b.kind == c.kind {
        NotLessTransitive(a.name, b.name, c.name);
      } else {
        LessIsStrict(a.kind, a.kind);
        LessIsStrict(c.kind, c.kind);
        NotLessTransitive(a.kind, b.kind, c.kind);
      }
    }
  }

  lemma NotBetterTransitive(a: ScoredRoute, b: ScoredRoute, c: ScoredRoute)
    requires !BetterRoute(a, b) && !BetterRoute(b, c)
    ensures !BetterRoute(a, c)
  {
    if a.score == b.score == c.score && a.sameRepo == b.sameRepo == c.sameRepo {
      if a.unit.repo == b.unit.repo == c.unit.repo {
        if a.unit.file == b.unit.file == c.unit.file {
          NotBeforeInFileTransitive(a.unit, b.unit, c.unit);
        } else {
          LessIsStrict(a.unit.file, a.unit.file);
          LessIsStrict(c.unit.file, c.unit.file);
          NotLessTransitive(a.unit.file, b.unit.file, c.unit.file);
        }
      } else {
        LessIsStrict(a.unit.repo, a.unit.repo);
        LessIsStrict(c.unit.repo, c.unit.repo);
        NotLessTransitive(a.unit.repo, b.unit.repo, c.unit.repo);
      }
    }
  }

  lemma BetterRouteIsWeakOrder(out: seq<ScoredRoute>)
    ensures Sorting.WeakOrder(out, BetterRoute)
  {
    forall i, j | 0 <= i < |out| && 0 <= j < |out| && BetterRoute(out[i], out[j]) ensures !BetterRoute(out[j], out[i]) {
      BetterRouteAsymmetric(out[i], out[j]);
    }
    forall i, j, k | 0 <= i < |out| && 0 <= j < |out| && 0 <= k < |out| && !BetterRoute(out[i], out[j]) && !BetterRoute(out[j], out[k])
      ensures !BetterRoute(out[i], out[k])
    {
      NotBetterTransitive(out[i], out[j], out[k]);
    }
  }
}
