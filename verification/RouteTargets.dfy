/** Where the linking pass points an http call, told on the call's key and the routes' keys. */
module RouteTargets {
  import opened Wrappers
  import opened Edges
  import opened Units
  import opened Strings
  import opened ContractKeys
  import opened ContractLinks
  import opened ContractPass
  import opened LinkTargets
  import Routes

  // ---------------------------------------------------------------------------
  // What a route key says
  // ---------------------------------------------------------------------------

  /** A verb, and a path up to any query or fragment. */
  ghost predicate SaysRoute(key: string, verb: string, path: string)
  {
    && ' ' !in verb && '?' !in path && '#' !in path
    && exists tail: string :: key == "http:" + (verb + [' '] + (path + tail)) && (tail == "" || tail[0] == '?' || tail[0] == '#')
  }

  lemma {:induction false} CutsAtQuery(path: string, tail: string)
    requires '?' !in path && '#' !in path && (tail == "" || tail[0] == '?' || tail[0] == '#')
    ensures TrimQuery(path + tail) == path
  {
    if tail == "" {
      NoIndexAny(path, {'?', '#'});
      assert path + tail == path;
    } else {
      IndexAnyOfConcat(path, tail[0], tail[1..], {'?', '#'});
      assert path + [tail[0]] + tail[1..] == path + tail;
    }
  }

  lemma SaidIsRoute(key: string, verb: string, path: string)
    requires SaysRoute(key, verb, path)
    ensures ParseHTTP(key) == Some(Route(verb, path))
  {
    var tail: string :| key == "http:" + (verb + [' '] + (path + tail)) && (tail == "" || tail[0] == '?' || tail[0] == '#');
    var rest := verb + [' '] + (path + tail);
    KeyedBy(key, "http:", rest);
    IndexAnyOfConcat(verb, ' ', path + tail, {' '});
    assert rest[..|verb|] == verb && rest[|verb| + 1..] == path + tail;
    CutsAtQuery(path, tail);
  }

  lemma QueryIsCut(whole: string) returns (tail: string)
    ensures whole == TrimQuery(whole) + tail && '?' !in TrimQuery(whole) && '#' !in TrimQuery(whole)
    ensures tail == "" || tail[0] == '?' || tail[0] == '#'
  {
    var n := IndexAny(whole, {'?', '#'});
    tail := whole[n..];
  }

  lemma CutAround(s: string, i: nat, c: char)
    requires i < |s| && s[i] == c && forall j :: 0 <= j < i ==> s[j] != c
    ensures s == s[..i] + [c] + s[i + 1..] && c !in s[..i]
  {
  }

  lemma RouteIsSaid(key: string)
    requires ParseHTTP(key).Some?
    ensures SaysRoute(key, ParseHTTP(key).value.verb, ParseHTTP(key).value.path)
  {
    var rest := key[5..];
    var i := IndexAny(rest, {' '});
    KeyedBy(key, "http:", rest);
    CutAround(rest, i, ' ');
    var tail := QueryIsCut(rest[i + 1..]);
    IsSaid(key, rest[..i], TrimQuery(rest[i + 1..]), tail);
  }

  lemma IsSaid(key: string, verb: string, path: string, tail: string)
    requires ' ' !in verb && '?' !in path && '#' !in path && (tail == "" || tail[0] == '?' || tail[0] == '#')
    requires key == "http:" + (verb + [' '] + (path + tail))
    ensures SaysRoute(key, verb, path)
  {
  }

  // ---------------------------------------------------------------------------
  // How well a route fits a call
  // ---------------------------------------------------------------------------

  predicate VerbsFit(a: string, b: string) { a == b || a == "ANY" || b == "ANY" }

  predicate SegmentFits(a: string, b: string) { Lower(a) == Lower(b) || IsPathParam(a) || IsPathParam(b) }

  predicate SegmentsFit(a: seq<string>, b: seq<string>) { |a| == |b| && forall i :: 0 <= i < |a| ==> SegmentFits(a[i], b[i]) }

  /** How many segments fit only because one of them is a parameter. */
  function Loose(a: seq<string>, b: seq<string>): nat
    requires |a| == |b|
  {
    if a == [] then 0 else Loose(a[..|a| - 1], b[..|b| - 1]) + if Lower(Last(a)) == Lower(Last(b)) then 0 else 1
  }

  function Power(x: real, n: nat): real { if n == 0 then 1.0 else Power(x, n - 1) * x }

  predicate Fits(a: Route, b: Route) { VerbsFit(a.verb, b.verb) && SegmentsFit(Routes.SplitPath(a.path), Routes.SplitPath(b.path)) }

  /** A fitting route is worth 0.95, four fifths of it where the verbs only fit by "ANY", and 0.95 of it again
      for each loose segment. */
  function Worth(a: Route, b: Route): real
    requires Fits(a, b)
  {
    0.95 * (if a.verb == b.verb then 1.0 else 0.8) * Power(0.95, Loose(Routes.SplitPath(a.path), Routes.SplitPath(b.path)))
  }

  lemma {:induction false} PowerPositive(x: real, n: nat)
    requires x > 0.0
    ensures Power(x, n) > 0.0
  {
    if n > 0 {
      PowerPositive(x, n - 1);
      Positive(Power(x, n - 1), x);
    }
  }

  lemma Positive(x: real, y: real)
    requires x > 0.0 && y > 0.0
    ensures x * y > 0.0
  {
  }

  lemma {:induction false} FittingScore(a: seq<string>, b: seq<string>)
    requires SegmentsFit(a, b)
    ensures Routes.PathScore(a, b) == Power(0.95, Loose(a, b))
  {
    if a != [] {
      var n := |a| - 1;
      FrontFits(a, b);
      FittingScore(a[..n], b[..n]);
      SegmentScoreIs(a[n], b[n]);
      OneLooser(Loose(a[..n], b[..n]), Routes.PathScore(a[..n], b[..n]), Routes.SegmentScore(a[n], b[n]), Lower(a[n]) != Lower(b[n]));
    }
  }

  lemma FrontFits(a: seq<string>, b: seq<string>)
    requires SegmentsFit(a, b) && a != []
    ensures SegmentsFit(a[..|a| - 1], b[..|a| - 1]) && SegmentFits(a[|a| - 1], b[|a| - 1])
  {
  }

  lemma OneLooser(n: nat, p: real, s: real, loose: bool)
    requires p == Power(0.95, n) && s == if loose then 0.95 else 1.0
    ensures p * s == Power(0.95, n + if loose then 1 else 0)
  {
  }

  lemma SegmentScoreIs(a: string, b: string)
    ensures Routes.SegmentScore(a, b) == if Lower(a) == Lower(b) then 1.0 else if SegmentFits(a, b) then 0.95 else 0.0
  {
  }

  lemma UnfittingScore(a: seq<string>, b: seq<string>)
    requires |a| == |b| && !SegmentsFit(a, b)
    ensures Routes.PathScore(a, b) == 0.0
  {
    var i: nat :| i < |a| && !SegmentFits(a[i], b[i]);
    Routes.MismatchScoresZero(a, b, i);
  }

  /** The score of the match is what the route is worth, and nothing where it does not fit. */
  lemma ScoreIsWorth(a: Route, b: Route)
    ensures var score := Routes.RouteScore(a.verb, Routes.SplitPath(a.path), b.verb, Routes.SplitPath(b.path));
            if Fits(a, b) then score == Worth(a, b) > 0.0 else score == 0.0
  {
    var x, y := Routes.SplitPath(a.path), Routes.SplitPath(b.path);
    if |x| == |y| {
      if SegmentsFit(x, y) {
        FittingScore(x, y);
        PowerPositive(0.95, Loose(x, y));
        Positive(0.95 * 0.8, Power(0.95, Loose(x, y)));
        Positive(0.95, Power(0.95, Loose(x, y)));
      } else {
        UnfittingScore(x, y);
      }
    }
  }

  // ---------------------------------------------------------------------------
  // The candidates of a call
  // ---------------------------------------------------------------------------

  predicate FitsUnit(u: Unit, call: Route) { ParseHTTP(u.qualified).Some? && Fits(call, ParseHTTP(u.qualified).value) }

  function WorthOf(u: Unit, call: Route): real
    requires FitsUnit(u, call)
  {
    Worth(call, ParseHTTP(u.qualified).value)
  }

  function AsCandidate(u: Unit, call: Route, repo: string): Candidate
    requires FitsUnit(u, call)
  {
    Routes.ScoredRoute(u, WorthOf(u, call), u.repo == repo)
  }

  lemma ScoredIs(u: Unit, call: Route, repo: string)
    requires ParseHTTP(u.qualified).Some?
    ensures var s := Routes.Scored(Routes.ParsedRoute(u).value, call, repo);
            if FitsUnit(u, call) then s == AsCandidate(u, call, repo) && s.score > 0.0 else s.score == 0.0
  {
    ScoreIsWorth(call, ParseHTTP(u.qualified).value);
  }

  lemma ScanNext(routes: seq<Routes.IndexedRoute>, r: Routes.IndexedRoute, call: Route, repo: string)
    ensures Routes.FullScan(routes + [r], call, repo) ==
              Routes.FullScan(routes, call, repo) + if Routes.Scored(r, call, repo).score > 0.0 then [Routes.Scored(r, call, repo)] else []
  {
    assert (routes + [r])[..|routes|] == routes && Last(routes + [r]) == r;
  }

  /** Exactly the fitting units are candidates, each at what it is worth. */
  lemma {:induction false} CandidatesFit(units: seq<Unit>, call: Route, repo: string)
    ensures forall c :: c in Routes.FullScan(Routes.ParsedRoutes(units), call, repo) ==>
              c.unit in units && FitsUnit(c.unit, call) && c == AsCandidate(c.unit, call, repo)
    ensures forall u :: u in units && FitsUnit(u, call) ==>
              AsCandidate(u, call, repo) in Routes.FullScan(Routes.ParsedRoutes(units), call, repo)
  {
    if units != [] {
      var front, u := units[..|units| - 1], Last(units);
      CandidatesFit(front, call, repo);
      assert units == front + [u];
      if ParseHTTP(u.qualified).Some? {
        ScanNext(Routes.ParsedRoutes(front), Routes.ParsedRoute(u).value, call, repo);
        ScoredIs(u, call, repo);
      }
    }
  }

  lemma CandidateFits(units: seq<Unit>, call: Route, repo: string, c: Candidate)
    requires c in Routes.FullScan(Routes.ParsedRoutes(units), call, repo)
    ensures c.unit in units && FitsUnit(c.unit, call) && c == AsCandidate(c.unit, call, repo)
  {
    CandidatesFit(units, call, repo);
  }

  lemma FittingIsCandidate(units: seq<Unit>, call: Route, repo: string, u: Unit)
    requires u in units && FitsUnit(u, call)
    ensures AsCandidate(u, call, repo) in Routes.FullScan(Routes.ParsedRoutes(units), call, repo)
  {
    CandidatesFit(units, call, repo);
  }

  /** a is linked rather than b: worth more, or as much and of another repository than the call's, or by
      repository, file, line, byte, kind and name. */
  predicate FitsBetter(a: Unit, b: Unit, call: Route, repo: string)
    requires FitsUnit(a, call) && FitsUnit(b, call)
  {
    if WorthOf(a, call) != WorthOf(b, call) then WorthOf(a, call) > WorthOf(b, call)
    else if (a.repo == repo) != (b.repo == repo) then a.repo != repo
    else if a.repo != b.repo then Less(a.repo, b.repo)
    else if a.file != b.file then Less(a.file, b.file)
    else if a.startLine != b.startLine then a.startLine < b.startLine
    else if a.startByte != b.startByte then a.startByte < b.startByte
    else if a.kind != b.kind then Less(a.kind, b.kind)
    else Less(a.name, b.name)
  }

  lemma BetterIs(a: Unit, b: Unit, call: Route, repo: string)
    requires FitsUnit(a, call) && FitsUnit(b, call)
    ensures Routes.BetterRoute(AsCandidate(a, call, repo), AsCandidate(b, call, repo)) <==> FitsBetter(a, b, call, repo)
    ensures !FitsBetter(a, a, call, repo)
  {
    LessIsStrict(a.name, a.name);
  }

  ghost predicate BestFit(units: seq<Unit>, u: Unit, call: Route, repo: string)
    requires FitsUnit(u, call)
  {
    forall v :: v in units && FitsUnit(v, call) ==> !FitsBetter(v, u, call, repo)
  }

  lemma UnbeatenIsBest(e: Edge, units: seq<Unit>, call: Route, c: Candidate)
    requires e.kind.HTTPCall? && c in Routes.FullScan(Routes.ParsedRoutes(units), call, e.repo)
    requires forall d :: d in Routes.FullScan(Routes.ParsedRoutes(units), call, e.repo) && d != c ==> !Outranks(e, d, c)
    ensures c.unit in units && FitsUnit(c.unit, call) && c.score == WorthOf(c.unit, call) && BestFit(units, c.unit, call, e.repo)
  {
    CandidateFits(units, call, e.repo, c);
    forall v | v in units && FitsUnit(v, call) ensures !FitsBetter(v, c.unit, call, e.repo) {
      FittingIsCandidate(units, call, e.repo, v);
      BetterIs(v, c.unit, call, e.repo);
      assert AsCandidate(v, call, e.repo) == c || !Outranks(e, AsCandidate(v, call, e.repo), c);
    }
  }

  ghost predicate LinkedToRoute(e: Edge, after: Edge, units: seq<Unit>, u: Unit, call: Route, picks: bool)
    requires FitsUnit(u, call)
  {
    || (PointsAt(e, after, u, WorthOf(u, call)) && BestFit(units, u, call, e.repo))
    || (picks && PointsAt(e, after.(meta := e.meta), u, 0.9) && after.meta == e.meta.(source := "llm"))
  }

  lemma HoldsOne(cands: seq<Candidate>)
    ensures cands != [] ==> exists c :: c in cands
  {
    if cands != [] {
      assert cands[0] in cands;
    }
  }

  /** An http call: the best fitting route, or, where the two best cannot be told apart, perhaps another
      fitting one; without one nothing. */
  lemma HTTPEdgeLinks(e: Edge, after: Edge, cs: Contracts, llm: bool, verb: string, path: string)
    requires PassOn(e, after, cs, llm) && e.kind.HTTPCall? && !ValidlyResolved(e, cs) && SaysRoute(e.dstName, verb, path)
    ensures var call := Route(verb, path);
            if exists u :: u in cs.routes && FitsUnit(u, call)
            then exists u :: u in cs.routes && FitsUnit(u, call) && LinkedToRoute(e, after, cs.routes, u, call, llm && AmbiguousEdge(e, cs))
            else after == if e.dst == "" then e else e.(dst := "", dstRepo := "")
  {
    var call := Route(verb, path);
    var cands := Routes.FullScan(Routes.ParsedRoutes(cs.routes), call, e.repo);
    SaidIsRoute(e.dstName, verb, path);
    CandidatesFit(cs.routes, call, e.repo);
    PassLinks(e, after, cs, llm, cands);
    if u :| u in cs.routes && FitsUnit(u, call) {
      assert AsCandidate(u, call, e.repo) in cands;
      var c :| LinkedTo(e, after, c, cs, llm);
      RouteIsLinked(e, after, cs.routes, call, c, llm && AmbiguousEdge(e, cs));
    } else {
      HoldsOne(cands);
    }
  }

  lemma BestIsLinked(e: Edge, after: Edge, units: seq<Unit>, call: Route, c: Candidate, picks: bool)
    requires e.kind.HTTPCall? && c in Routes.FullScan(Routes.ParsedRoutes(units), call, e.repo) && after == Point(e, c.unit, c.score)
    requires forall d :: d in Routes.FullScan(Routes.ParsedRoutes(units), call, e.repo) && d != c ==> !Outranks(e, d, c)
    ensures c.unit in units && FitsUnit(c.unit, call) && LinkedToRoute(e, after, units, c.unit, call, picks)
  {
    UnbeatenIsBest(e, units, call, c);
    PointIs(e, c.unit, c.score);
  }

  lemma PickIsLinked(e: Edge, after: Edge, units: seq<Unit>, call: Route, c: Candidate)
    requires c in Routes.FullScan(Routes.ParsedRoutes(units), call, e.repo)
    requires after == Point(e, c.unit, 0.9).(meta := e.meta.(source := "llm"))
    ensures c.unit in units && FitsUnit(c.unit, call) && LinkedToRoute(e, after, units, c.unit, call, true)
  {
    CandidateFits(units, call, e.repo, c);
    PointIs(e, c.unit, 0.9);
  }

  lemma RouteIsLinked(e: Edge, after: Edge, units: seq<Unit>, call: Route, c: Candidate, picks: bool)
    requires e.kind.HTTPCall?
    requires var cands := Routes.FullScan(Routes.ParsedRoutes(units), call, e.repo);
             && c in cands
             && (|| (after == Point(e, c.unit, c.score) && forall d :: d in cands && d != c ==> !Outranks(e, d, c))
                 || (picks && after == Point(e, c.unit, 0.9).(meta := e.meta.(source := "llm"))))
    ensures c.unit in units && FitsUnit(c.unit, call) && LinkedToRoute(e, after, units, c.unit, call, picks)
  {
    var cands := Routes.FullScan(Routes.ParsedRoutes(units), call, e.repo);
    if after == Point(e, c.unit, c.score) && forall d :: d in cands && d != c ==> !Outranks(e, d, c) {
      BestIsLinked(e, after, units, call, c, picks);
    } else {
      PickIsLinked(e, after, units, call, c);
    }
  }

  /** The two best are within 0.05 of each other and alike in lying in the call's repository or not. */
  predicate CloseTop(ranked: seq<Candidate>)
  {
    |ranked| > 1 && ranked[0].score - ranked[1].score <= 0.05 && ranked[0].sameRepo == ranked[1].sameRepo
  }

  /** A pick is only made between such routes. */
  lemma AmbiguousRoutesAreClose(e: Edge, cs: Contracts)
    requires e.kind.HTTPCall?
    ensures AmbiguousEdge(e, cs) <==> exists ranked: seq<Candidate> :: IsRanking(e, ranked, cs) && CloseTop(ranked)
  {
    if AmbiguousEdge(e, cs) {
      var ranked: seq<Candidate> :| IsRanking(e, ranked, cs) && Ambiguous(e, ranked);
      assert CloseTop(ranked);
    }
    if ranked: seq<Candidate> :| IsRanking(e, ranked, cs) && CloseTop(ranked) {
      assert Ambiguous(e, ranked);
    }
  }
}
