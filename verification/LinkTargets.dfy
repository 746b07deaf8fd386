/** Where the linking pass points a contract edge, told on the keys of the edge and of the loaded units. */
module LinkTargets {
  import opened Wrappers
  import opened Edges
  import opened Units
  import opened Strings
  import opened ContractKeys
  import opened ContractLinks
  import opened ContractPass
  import Routes
  import Sorting

  // ---------------------------------------------------------------------------
  // One tier
  // ---------------------------------------------------------------------------

  /** The confidence the parser gave the edge, or without a record of it the stored one. */
  function ParserConf(e: Edge): real { if e.meta.baseConf > 0.0 then e.meta.baseConf else e.conf }

  /** How many of the units are of the tier. */
  function HowMany(units: seq<Unit>, p: Unit -> bool): nat
  {
    if units == [] then 0 else HowMany(units[..|units| - 1], p) + if p(Last(units)) then 1 else 0
  }

  predicate Any(units: seq<Unit>, p: Unit -> bool) { HowMany(units, p) > 0 }

  lemma {:induction false} SomeOrNone(units: seq<Unit>, p: Unit -> bool)
    ensures Any(units, p) <==> exists i :: 0 <= i < |units| && p(units[i])
  {
    if units != [] {
      var n := |units| - 1;
      SomeOrNone(units[..n], p);
      if i :| 0 <= i < |units| && p(units[i]) && i < n {
        assert units[..n][i] == units[i];
      }
      if i :| 0 <= i < n && p(units[..n][i]) {
        assert units[i] == units[..n][i];
      }
    }
  }

  ghost predicate NonePrecedes(units: seq<Unit>, p: Unit -> bool, u: Unit)
  {
    forall j :: 0 <= j < |units| && p(units[j]) ==> !Precedes(units[j], u)
  }

  /** By repository, qualified name, file, line, byte, kind and name. */
  predicate Precedes(a: Unit, b: Unit)
  {
    if a.repo != b.repo then Less(a.repo, b.repo)
    else if a.qualified != b.qualified then Less(a.qualified, b.qualified)
    else if a.file != b.file then Less(a.file, b.file)
    else if a.startLine != b.startLine then a.startLine < b.startLine
    else if a.startByte != b.startByte then a.startByte < b.startByte
    else if a.kind != b.kind then Less(a.kind, b.kind)
    else Less(a.name, b.name)
  }

  predicate PointsAt(e: Edge, after: Edge, u: Unit, factor: real)
  {
    after == e.(dst := u.id, dstRepo := u.repo, conf := ParserConf(e) * factor)
  }

  /** The edge points at the first of the tier's units, at the confidence of one or of several, or, if a pick
      among several is allowed, at any of them at nine tenths and marked. */
  ghost predicate LinkedWithin(e: Edge, after: Edge, units: seq<Unit>, p: Unit -> bool, one: real, several: real, picks: bool)
  {
    exists i: nat :: i < |units| && p(units[i]) && LinkedAt(e, after, units, p, units[i], one, several, picks)
  }

  ghost predicate LinkedAt(e: Edge, after: Edge, units: seq<Unit>, p: Unit -> bool, u: Unit, one: real, several: real, picks: bool)
  {
    || (PointsAt(e, after, u, if HowMany(units, p) == 1 then one else several) && NonePrecedes(units, p, u))
    || (picks && HowMany(units, p) > 1 && PointsAt(e, after.(meta := e.meta), u, 0.9) && after.meta == e.meta.(source := "llm"))
  }

  lemma PrecedesIsOrder(a: Unit, b: Unit)
    ensures Precedes(a, b) <==> UnitBefore(a, b)
    ensures !Precedes(a, a)
  {
    LessIsStrict(a.name, a.name);
  }

  lemma {:induction false} FilterCounts(units: seq<Unit>, p: Unit -> bool)
    ensures |Filter(units, p)| == HowMany(units, p)
  {
    if units != [] {
      FilterCounts(units[..|units| - 1], p);
    }
  }

  /** The tiers a disambiguator is asked about: rpc candidates at 0.7, tables at 0.8 or less. */
  predicate PicksAt(e: Edge, several: real) { several <= if e.kind.RPCCall? || e.kind.ImplementsRPC? then 0.7 else 0.8 }

  lemma FilteredPlace(units: seq<Unit>, p: Unit -> bool, u: Unit) returns (i: nat)
    requires u in Filter(units, p)
    ensures i < |units| && units[i] == u && p(u)
  {
    var k :| 0 <= k < |Filter(units, p)| && Filter(units, p)[k] == u;
    i :| 0 <= i < |units| && units[i] == u;
  }

  lemma InTier(some: seq<Unit>, conf: real, u: Unit)
    ensures Routes.ScoredRoute(u, conf, false) in Tier(some, conf) <==> u in some
    ensures forall c :: c in Tier(some, conf) ==> c.unit in some && c.score == conf && !c.sameRepo
  {
    if u in some {
      var k :| 0 <= k < |some| && some[k] == u;
      assert Tier(some, conf)[k] == Routes.ScoredRoute(u, conf, false);
    }
  }

  /** An unbeaten candidate of one tier is its first unit. */
  lemma UnbeatenIsFirst(e: Edge, units: seq<Unit>, p: Unit -> bool, conf: real, c: Candidate)
    requires !e.kind.HTTPCall? && c in Tier(Filter(units, p), conf)
    requires forall d :: d in Tier(Filter(units, p), conf) && d != c ==> !Outranks(e, d, c)
    ensures NonePrecedes(units, p, c.unit)
  {
    InTier(Filter(units, p), conf, c.unit);
    forall j | 0 <= j < |units| && p(units[j]) ensures !Precedes(units[j], c.unit) {
      assert units[j] in Filter(units, p);
      InTier(Filter(units, p), conf, units[j]);
      assert Routes.ScoredRoute(units[j], conf, false) == c || !Outranks(e, Routes.ScoredRoute(units[j], conf, false), c);
      PrecedesIsOrder(units[j], c.unit);
    }
  }

  /** A pick is only made among several, at the tiers where it is asked for. */
  lemma AmbiguousTier(e: Edge, ranked: seq<Candidate>, some: seq<Unit>, conf: real)
    requires IsContractEdge(e) && !e.kind.HTTPCall? && multiset(ranked) == multiset(Tier(some, conf)) && Ambiguous(e, ranked)
    ensures |some| > 1 && PicksAt(e, conf)
  {
    SameMembers(ranked, Tier(some, conf));
    assert ranked[0] in ranked;
    InTier(some, conf, ranked[0].unit);
  }

  lemma FirstLinksWithin(e: Edge, after: Edge, units: seq<Unit>, p: Unit -> bool, one: real, several: real, c: Candidate, picks: bool)
    requires !e.kind.HTTPCall?
    requires var some := Filter(units, p);
             var cands := Tier(some, if |some| == 1 then one else several);
             c in cands && after == Point(e, c.unit, c.score) && forall d :: d in cands && d != c ==> !Outranks(e, d, c)
    ensures LinkedWithin(e, after, units, p, one, several, picks)
  {
    var some := Filter(units, p);
    var conf := if |some| == 1 then one else several;
    FilterCounts(units, p);
    InTier(some, conf, c.unit);
    UnbeatenIsFirst(e, units, p, conf, c);
    var i := FilteredPlace(units, p, c.unit);
    FirstIsLinked(e, after, units, p, one, several, i, picks);
  }

  lemma FirstIsLinked(e: Edge, after: Edge, units: seq<Unit>, p: Unit -> bool, one: real, several: real, i: nat, picks: bool)
    requires i < |units| && p(units[i]) && NonePrecedes(units, p, units[i])
    requires after == Point(e, units[i], if HowMany(units, p) == 1 then one else several)
    ensures LinkedWithin(e, after, units, p, one, several, picks)
  {
    PointIs(e, units[i], if HowMany(units, p) == 1 then one else several);
    assert LinkedAt(e, after, units, p, units[i], one, several, picks);
  }

  lemma PointIs(e: Edge, u: Unit, factor: real)
    ensures PointsAt(e, Point(e, u, factor), u, factor)
    ensures PointsAt(e, Point(e, u, factor).(meta := e.meta.(source := "llm")).(meta := e.meta), u, factor)
  {
    assert ParserConf(e) == BaseConf(e);
  }

  lemma PickLinksWithin(e: Edge, after: Edge, units: seq<Unit>, p: Unit -> bool, one: real, several: real, c: Candidate)
    requires |Filter(units, p)| > 1 && c in Tier(Filter(units, p), several)
    requires after == Point(e, c.unit, 0.9).(meta := e.meta.(source := "llm"))
    ensures LinkedWithin(e, after, units, p, one, several, true)
  {
    FilterCounts(units, p);
    InTier(Filter(units, p), several, c.unit);
    var i := FilteredPlace(units, p, c.unit);
    PointIs(e, c.unit, 0.9);
    assert LinkedAt(e, after, units, p, units[i], one, several, true);
  }

  /** An edge whose candidates are the units of one tier is linked within it. */
  lemma TierLinks(e: Edge, after: Edge, cs: Contracts, llm: bool, units: seq<Unit>, p: Unit -> bool, one: real, several: real)
    requires IsContractEdge(e) && !e.kind.HTTPCall? && exists c :: LinkedTo(e, after, c, cs, llm)
    requires CandidatesOf(e, cs) == Tier(Filter(units, p), if |Filter(units, p)| == 1 then one else several)
    ensures LinkedWithin(e, after, units, p, one, several, llm && PicksAt(e, several))
  {
    var c :| LinkedTo(e, after, c, cs, llm);
    var some := Filter(units, p);
    if after == Point(e, c.unit, c.score) && forall d :: d in CandidatesOf(e, cs) && d != c ==> !Outranks(e, d, c) {
      FirstLinksWithin(e, after, units, p, one, several, c, llm && PicksAt(e, several));
    } else {
      var ranked: seq<Candidate> :| IsRanking(e, ranked, cs) && Ambiguous(e, ranked);
      AmbiguousTier(e, ranked, some, if |some| == 1 then one else several);
      PickLinksWithin(e, after, units, p, one, several, c);
    }
  }

  /** Without candidates the edge points nowhere; with any it is linked to one. */
  lemma PassLinks(e: Edge, after: Edge, cs: Contracts, llm: bool, cands: seq<Candidate>)
    requires PassOn(e, after, cs, llm) && IsContractEdge(e) && !ValidlyResolved(e, cs) && CandidatesOf(e, cs) == cands
    ensures cands == [] ==> after == if e.dst == "" then e else e.(dst := "", dstRepo := "")
    ensures cands != [] ==> exists c :: LinkedTo(e, after, c, cs, llm)
  {
  }

  // ---------------------------------------------------------------------------
  // Methods
  // ---------------------------------------------------------------------------

  lemma {:induction false} LastIndexIs(a: string, b: string, c: char)
    requires c !in b
    ensures LastIndexOf(a + [c] + b, c) == |a|
    decreases |b|
  {
    var s := a + [c] + b;
    if b != "" {
      LastIndexIs(a, b[..|b| - 1], c);
      assert s[..|s| - 1] == a + [c] + b[..|b| - 1] && s[|s| - 1] == b[|b| - 1];
    }
  }

  lemma {:induction false} LastIndexNone(s: string, c: char)
    ensures LastIndexOf(s, c) < 0 <==> c !in s
    ensures forall j :: LastIndexOf(s, c) < j < |s| ==> s[j] != c
  {
    if s != "" {
      LastIndexNone(s[..|s| - 1], c);
    }
  }

  /** What a method key says: a service, perhaps none, and a method. */
  ghost predicate SaysRPC(key: string, svc: string, name: string)
  {
    name != "" && '/' !in name && (key == "grpc:" + svc + "/" + name || (svc == "" && key == "grpc:" + name))
  }

  lemma SplitMethodIs(rest: string, svc: string, name: string)
    ensures SplitMethod(rest) == Some(RPC(svc, name)) <==>
              name != "" && '/' !in name && (rest == svc + ['/'] + name || (svc == "" && rest == name))
  {
    if name != "" && '/' !in name {
      LastIndexNone(name, '/');
      LastIndexIs(svc, name, '/');
      assert (svc + ['/'] + name)[..|svc|] == svc && (svc + ['/'] + name)[|svc| + 1..] == name;
    }
    if SplitMethod(rest) == Some(RPC(svc, name)) {
      SplitIsWhole(rest);
    }
  }

  lemma SplitIsWhole(rest: string)
    requires SplitMethod(rest).Some?
    ensures var r := SplitMethod(rest).value;
            r.name != "" && '/' !in r.name && (rest == r.svc + ['/'] + r.name || (r.svc == "" && rest == r.name))
  {
    var i := LastIndexOf(rest, '/');
    LastIndexNone(rest, '/');
    var name := rest[i + 1..];
    assert forall j :: 0 <= j < |name| ==> name[j] == rest[i + 1 + j];
    if i >= 0 {
      assert rest == rest[..i] + ['/'] + name;
    } else {
      assert name == rest;
    }
  }

  lemma KeyedBy(key: string, kind: string, rest: string)
    ensures key == kind + rest <==> HasPrefix(key, kind) && key[|kind|..] == rest
  {
  }

  lemma SlashJoins(kind: string, svc: string, name: string)
    ensures kind + svc + "/" + name == kind + (svc + ['/'] + name)
  {
  }

  lemma SaidIsParsed(key: string, svc: string, name: string)
    requires SaysRPC(key, svc, name)
    ensures ParseGRPC(key) == Some(RPC(svc, name))
  {
    var rest := if key == "grpc:" + svc + "/" + name then svc + ['/'] + name else name;
    SlashJoins("grpc:", svc, name);
    KeyedBy(key, "grpc:", rest);
    SplitMethodIs(rest, svc, name);
  }

  lemma ParsedIsSaid(key: string)
    requires ParseGRPC(key).Some?
    ensures SaysRPC(key, ParseGRPC(key).value.svc, ParseGRPC(key).value.name)
  {
    var rest := key[5..];
    SplitIsWhole(rest);
    KeyedBy(key, "grpc:", rest);
    SlashJoins("grpc:", ParseGRPC(key).value.svc, ParseGRPC(key).value.name);
  }

  lemma ParseGRPCIs(key: string, svc: string, name: string)
    ensures ParseGRPC(key) == Some(RPC(svc, name)) <==> SaysRPC(key, svc, name)
  {
    if SaysRPC(key, svc, name) {
      SaidIsParsed(key, svc, name);
    }
    if ParseGRPC(key).Some? {
      ParsedIsSaid(key);
    }
  }

  /** The unit is the method under exactly this service, under one of some package, or under any or none. */
  ghost function OfService(svc: string, name: string): Unit -> bool { (u: Unit) => svc != "" && u.qualified == "grpc:" + svc + "/" + name }

  ghost function InPackage(svc: string, name: string): Unit -> bool
  {
    (u: Unit) => svc != "" && exists pkg: string :: u.qualified == "grpc:" + pkg + "." + svc + "/" + name
  }

  ghost function OfMethod(name: string): Unit -> bool { (u: Unit) => exists s: string :: SaysRPC(u.qualified, s, name) }

  lemma ServicesAre(u: Unit, svc: string, name: string)
    requires name != "" && '/' !in name
    ensures ExactService(u, RPC(svc, name)) <==> OfService(svc, name)(u)
    ensures SuffixService(u, RPC(svc, name)) <==> InPackage(svc, name)(u)
    ensures SameMethod(u, RPC(svc, name)) <==> OfMethod(name)(u)
  {
    ParseGRPCIs(u.qualified, svc, name);
    if ParseGRPC(u.qualified).Some? {
      ParseGRPCIs(u.qualified, ParseGRPC(u.qualified).value.svc, ParseGRPC(u.qualified).value.name);
    }
    if s: string :| SaysRPC(u.qualified, s, name) {
      ParseGRPCIs(u.qualified, s, name);
    }
    PackagesAre(u, svc, name);
  }

  lemma PackagedEnds(key: string, pkg: string, svc: string, name: string)
    requires name != "" && '/' !in name && key == "grpc:" + pkg + "." + svc + "/" + name
    ensures ParseGRPC(key) == Some(RPC(pkg + ("." + svc), name)) && HasSuffix(pkg + ("." + svc), "." + svc)
  {
    var s := pkg + ("." + svc);
    assert key == "grpc:" + s + "/" + name;
    SaidIsParsed(key, s, name);
    assert s[|pkg|..] == "." + svc;
  }

  lemma EndsPackaged(key: string, s: string, svc: string, name: string)
    requires HasSuffix(s, "." + svc) && svc != "" && SaysRPC(key, s, name)
    ensures exists pkg: string :: key == "grpc:" + pkg + "." + svc + "/" + name
  {
    var pkg := s[..|s| - |"." + svc|];
    assert s == pkg + ("." + svc);
    assert key == "grpc:" + pkg + "." + svc + "/" + name;
  }

  lemma PackagesAre(u: Unit, svc: string, name: string)
    requires name != "" && '/' !in name
    ensures SuffixService(u, RPC(svc, name)) <==> InPackage(svc, name)(u)
  {
    if svc != "" {
      if pkg: string :| u.qualified == "grpc:" + pkg + "." + svc + "/" + name {
        PackagedEnds(u.qualified, pkg, svc, name);
        assert |pkg + ("." + svc)| != |svc|;
      }
      if SuffixService(u, RPC(svc, name)) {
        ParsedIsSaid(u.qualified);
        EndsPackaged(u.qualified, ParseGRPC(u.qualified).value.svc, svc, name);
      }
    }
  }

  lemma {:induction false} SameFilter(units: seq<Unit>, p: Unit -> bool, q: Unit -> bool)
    requires forall u :: u in units ==> (p(u) <==> q(u))
    ensures Filter(units, p) == Filter(units, q)
  {
    if units != [] {
      var n := |units| - 1;
      assert forall u :: u in units[..n] ==> u in units;
      SameFilter(units[..n], p, q);
      assert Last(units) in units;
    }
  }

  lemma TiersAre(units: seq<Unit>, svc: string, name: string)
    requires name != "" && '/' !in name
    ensures ExactServices(units, RPC(svc, name)) == Filter(units, OfService(svc, name))
    ensures SuffixServices(units, RPC(svc, name)) == Filter(units, InPackage(svc, name))
    ensures SameMethods(units, RPC(svc, name)) == Filter(units, OfMethod(name))
  {
    forall u: Unit
      ensures ExactService(u, RPC(svc, name)) <==> OfService(svc, name)(u)
      ensures SuffixService(u, RPC(svc, name)) <==> InPackage(svc, name)(u)
      ensures SameMethod(u, RPC(svc, name)) <==> OfMethod(name)(u)
    {
      ServicesAre(u, svc, name);
    }
    SameFilter(units, u => ExactService(u, RPC(svc, name)), OfService(svc, name));
    SameFilter(units, u => SuffixService(u, RPC(svc, name)), InPackage(svc, name));
    SameFilter(units, u => SameMethod(u, RPC(svc, name)), OfMethod(name));
  }

  lemma RPCTiersAre(units: seq<Unit>, key: string, svc: string, name: string)
    requires SaysRPC(key, svc, name)
    ensures RPCCandidates(units, key) ==
              var exact, suffix, same := Filter(units, OfService(svc, name)), Filter(units, InPackage(svc, name)), Filter(units, OfMethod(name));
              if exact != [] then Tier(exact, if |exact| == 1 then 0.95 else 0.7)
              else if suffix != [] then Tier(suffix, if |suffix| == 1 then 0.95 else 0.7)
              else Tier(same, 0.7)
  {
    SaidIsParsed(key, svc, name);
    TiersAre(units, svc, name);
  }

  /** A call or implementation of a method: the units of its very service if there are any, otherwise those of
      a service of that name in some package, otherwise those of the method, and otherwise none. */
  lemma RPCEdgeLinks(e: Edge, after: Edge, cs: Contracts, llm: bool, svc: string, name: string)
    requires PassOn(e, after, cs, llm) && (e.kind.RPCCall? || e.kind.ImplementsRPC?) && !ValidlyResolved(e, cs)
    requires SaysRPC(e.dstName, svc, name)
    ensures if Any(cs.rpcs, OfService(svc, name)) then LinkedWithin(e, after, cs.rpcs, OfService(svc, name), 0.95, 0.7, llm)
            else if Any(cs.rpcs, InPackage(svc, name)) then LinkedWithin(e, after, cs.rpcs, InPackage(svc, name), 0.95, 0.7, llm)
            else if Any(cs.rpcs, OfMethod(name)) then LinkedWithin(e, after, cs.rpcs, OfMethod(name), 0.7, 0.7, llm)
            else after == if e.dst == "" then e else e.(dst := "", dstRepo := "")
  {
    RPCTiersAre(cs.rpcs, e.dstName, svc, name);
    FilterCounts(cs.rpcs, OfService(svc, name));
    FilterCounts(cs.rpcs, InPackage(svc, name));
    FilterCounts(cs.rpcs, OfMethod(name));
    PassLinks(e, after, cs, llm, RPCCandidates(cs.rpcs, e.dstName));
    if Any(cs.rpcs, OfService(svc, name)) {
      TierLinks(e, after, cs, llm, cs.rpcs, OfService(svc, name), 0.95, 0.7);
    } else if Any(cs.rpcs, InPackage(svc, name)) {
      TierLinks(e, after, cs, llm, cs.rpcs, InPackage(svc, name), 0.95, 0.7);
    } else if Any(cs.rpcs, OfMethod(name)) {
      TierLinks(e, after, cs, llm, cs.rpcs, OfMethod(name), 0.7, 0.7);
    }
  }

  /** A key that says no method links nowhere. */
  lemma NoMethodLinksNowhere(e: Edge, after: Edge, cs: Contracts, llm: bool)
    requires PassOn(e, after, cs, llm) && (e.kind.RPCCall? || e.kind.ImplementsRPC?) && !ValidlyResolved(e, cs)
    requires forall svc: string, name: string :: !SaysRPC(e.dstName, svc, name)
    ensures after == if e.dst == "" then e else e.(dst := "", dstRepo := "")
  {
    if ParseGRPC(e.dstName).Some? {
      ParsedIsSaid(e.dstName);
    }
    PassLinks(e, after, cs, llm, RPCCandidates(cs.rpcs, e.dstName));
  }

  // ---------------------------------------------------------------------------
  // Tables
  // ---------------------------------------------------------------------------

  /** A table under this very key; one whose key has it as its bare name under some schema; and one declared
      for an entity whose derived name it is. */
  ghost function Keys(key: string): Unit -> bool { (u: Unit) => u.qualified == key }

  ghost function InSchema(table: string): Unit -> bool { (u: Unit) => exists schema: string :: u.qualified == "db:" + schema + "." + table }

  ghost function OfEntity(key: string): Unit -> bool
  {
    (u: Unit) =>
      && u.qualified != key
      && exists text: string :: u.signature == "entity:" + text && Trim(text, SPACES) != "" && "db:" + TableName(Trim(text, SPACES)) == key
  }

  ghost function Own(p: Unit -> bool, repo: string): Unit -> bool { (u: Unit) => p(u) && u.repo == repo }

  ghost function Foreign(p: Unit -> bool, repo: string): Unit -> bool { (u: Unit) => p(u) && u.repo != repo }

  lemma {:induction false} FilterTwice(units: seq<Unit>, p: Unit -> bool, q: Unit -> bool, both: Unit -> bool)
    requires forall u: Unit :: both(u) <==> p(u) && q(u)
    ensures Filter(Filter(units, p), q) == Filter(units, both)
  {
    if units != [] {
      var front, u := units[..|units| - 1], Last(units);
      FilterTwice(front, p, q, both);
      var kept := Filter(front, p);
      assert (kept + [u])[..|kept|] == kept;
    }
  }

  lemma ReposSplit(units: seq<Unit>, p: Unit -> bool, repo: string)
    ensures OfRepo(Filter(units, p), repo) == Filter(units, Own(p, repo))
    ensures OfOthers(Filter(units, p), repo) == Filter(units, Foreign(p, repo))
  {
    FilterTwice(units, p, (u: Unit) => u.repo == repo, Own(p, repo));
    FilterTwice(units, p, (u: Unit) => u.repo != repo, Foreign(p, repo));
  }

  lemma DotJoins(schema: string, table: string)
    ensures "db:" + schema + "." + table == "db:" + (schema + ['.'] + table)
  {
  }

  lemma SchemaIsCut(u: Unit, schema: string, table: string)
    requires '.' !in table && u.qualified == "db:" + schema + "." + table
    ensures BareNamed(u, "db:" + table)
  {
    var rest := schema + ['.'] + table;
    DotJoins(schema, table);
    KeyedBy(u.qualified, "db:", rest);
    LastIndexIs(schema, table, '.');
    assert rest[|schema| + 1..] == table;
  }

  lemma CutIsSchema(u: Unit, table: string)
    requires BareNamed(u, "db:" + table)
    ensures exists schema: string :: u.qualified == "db:" + schema + "." + table
  {
    var rest := u.qualified[3..];
    var i := LastIndexOf(rest, '.');
    KeyedBy(u.qualified, "db:", rest);
    KeyedBy(DB(rest[i + 1..]), "db:", rest[i + 1..]);
    KeyedBy("db:" + table, "db:", table);
    assert rest == rest[..i] + ['.'] + table;
    DotJoins(rest[..i], table);
  }

  lemma BareNameIs(u: Unit, table: string)
    requires '.' !in table
    ensures BareNamed(u, "db:" + table) <==> InSchema(table)(u)
  {
    if schema: string :| u.qualified == "db:" + schema + "." + table {
      SchemaIsCut(u, schema, table);
    }
    if BareNamed(u, "db:" + table) {
      CutIsSchema(u, table);
    }
  }

  lemma EntityNameIs(u: Unit, key: string)
    ensures EntityNamed(u, key) <==> OfEntity(key)(u)
  {
    if text: string :| u.signature == "entity:" + text {
      KeyedBy(u.signature, "entity:", text);
    }
    if HasPrefix(u.signature, "entity:") {
      KeyedBy(u.signature, "entity:", u.signature[7..]);
    }
  }

  lemma TableTiersAre(units: seq<Unit>, key: string, table: string)
    requires key == "db:" + table
    ensures Keyed(units, key) == Filter(units, Keys(key))
    ensures '.' !in table ==> BareNames(units, key) == Filter(units, InSchema(table))
    ensures EntityNames(units, key) == Filter(units, OfEntity(key))
  {
    SameFilter(units, (u: Unit) => u.qualified == key, Keys(key));
    forall u: Unit | '.' !in table ensures BareNamed(u, key) <==> InSchema(table)(u) {
      BareNameIs(u, table);
    }
    if '.' !in table {
      SameFilter(units, u => BareNamed(u, key), InSchema(table));
    }
    forall u: Unit ensures EntityNamed(u, key) <==> OfEntity(key)(u) {
      EntityNameIs(u, key);
    }
    SameFilter(units, u => EntityNamed(u, key), OfEntity(key));
  }

  /** One tier of tables: those of the edge's repository before those of others, several of them at less. */
  ghost predicate TierOfTables(cands: seq<Candidate>, units: seq<Unit>, p: Unit -> bool, repo: string, own: real, owns: real, cross: real, crosses: real)
  {
    cands == if Any(units, Own(p, repo)) then Tier(Filter(units, Own(p, repo)), if HowMany(units, Own(p, repo)) == 1 then own else owns)
             else Tier(Filter(units, Foreign(p, repo)), if HowMany(units, Foreign(p, repo)) == 1 then cross else crosses)
  }

  lemma TableTierIs(units: seq<Unit>, p: Unit -> bool, repo: string, same: real, cross: real)
    ensures TierOfTables(TableTier(Filter(units, p), repo, same, cross), units, p, repo, same, WeakerTier(same), cross, WeakerTier(cross))
  {
    ReposSplit(units, p, repo);
    FilterCounts(units, Own(p, repo));
    FilterCounts(units, Foreign(p, repo));
    NoCandidates(same, cross);
  }

  lemma NoCandidates(x: real, y: real)
    ensures Tier([], x) == Tier([], y)
  {
  }

  lemma WeakerTiers()
    ensures WeakerTier(0.95) == 0.9 && WeakerTier(0.9) == 0.8 && WeakerTier(0.8) == 0.7 && WeakerTier(0.7) == 0.6
  {
  }

  /** The edge is linked within the first of a tier's two groups that has a unit. */
  ghost predicate LinkedInTables(e: Edge, after: Edge, units: seq<Unit>, p: Unit -> bool, own: real, owns: real, cross: real, crosses: real, llm: bool)
  {
    if Any(units, Own(p, e.repo)) then LinkedWithin(e, after, units, Own(p, e.repo), own, owns, llm && owns <= 0.8)
    else LinkedWithin(e, after, units, Foreign(p, e.repo), cross, crosses, llm && crosses <= 0.8)
  }

  lemma {:induction false} OwnOrForeign(units: seq<Unit>, p: Unit -> bool, repo: string)
    ensures HowMany(units, p) == HowMany(units, Own(p, repo)) + HowMany(units, Foreign(p, repo))
  {
    if units != [] {
      OwnOrForeign(units[..|units| - 1], p, repo);
    }
  }

  lemma TableTierLinks(e: Edge, after: Edge, cs: Contracts, llm: bool, p: Unit -> bool, own: real, owns: real, cross: real, crosses: real)
    requires PassOn(e, after, cs, llm) && (e.kind.WritesTo? || e.kind.ReadsFrom?) && !ValidlyResolved(e, cs)
    requires Any(cs.tables, p) && TierOfTables(CandidatesOf(e, cs), cs.tables, p, e.repo, own, owns, cross, crosses)
    ensures LinkedInTables(e, after, cs.tables, p, own, owns, cross, crosses, llm)
  {
    OwnOrForeign(cs.tables, p, e.repo);
    FilterCounts(cs.tables, Own(p, e.repo));
    FilterCounts(cs.tables, Foreign(p, e.repo));
    PassLinks(e, after, cs, llm, CandidatesOf(e, cs));
    if Any(cs.tables, Own(p, e.repo)) {
      TierLinks(e, after, cs, llm, cs.tables, Own(p, e.repo), own, owns);
    } else {
      TierLinks(e, after, cs, llm, cs.tables, Foreign(p, e.repo), cross, crosses);
    }
  }

  lemma TableCandidatesAre(units: seq<Unit>, key: string, table: string, repo: string)
    requires key == "db:" + table
    ensures Any(units, Keys(key)) ==> TierOfTables(TableCandidates(units, key, repo), units, Keys(key), repo, 0.95, 0.9, 0.9, 0.8)
    ensures !Any(units, Keys(key)) && '.' in table ==> TableCandidates(units, key, repo) == []
    ensures !Any(units, Keys(key)) && '.' !in table && Any(units, InSchema(table)) ==>
              TierOfTables(TableCandidates(units, key, repo), units, InSchema(table), repo, 0.9, 0.8, 0.8, 0.7)
    ensures !Any(units, Keys(key)) && '.' !in table && !Any(units, InSchema(table)) ==>
              TierOfTables(TableCandidates(units, key, repo), units, OfEntity(key), repo, 0.8, 0.7, 0.7, 0.6)
  {
    KeyedBy(key, "db:", table);
    TableTiersAre(units, key, table);
    FilterCounts(units, Keys(key));
    FilterCounts(units, InSchema(table));
    TableTierIs(units, Keys(key), repo, 0.95, 0.9);
    TableTierIs(units, InSchema(table), repo, 0.9, 0.8);
    TableTierIs(units, OfEntity(key), repo, 0.8, 0.7);
    WeakerTiers();
  }

  /** A read or write of a table: the tables under its very key, otherwise, for a key without a schema, those
      of that bare name, otherwise those declared for an entity it is derived from, and otherwise none; in
      each the repository's own first. */
  lemma TableEdgeLinks(e: Edge, after: Edge, cs: Contracts, llm: bool, table: string)
    requires PassOn(e, after, cs, llm) && (e.kind.WritesTo? || e.kind.ReadsFrom?) && !ValidlyResolved(e, cs)
    requires e.dstName == "db:" + table
    ensures if Any(cs.tables, Keys(e.dstName)) then LinkedInTables(e, after, cs.tables, Keys(e.dstName), 0.95, 0.9, 0.9, 0.8, llm)
            else if '.' !in table && Any(cs.tables, InSchema(table)) then LinkedInTables(e, after, cs.tables, InSchema(table), 0.9, 0.8, 0.8, 0.7, llm)
            else if '.' !in table && Any(cs.tables, OfEntity(e.dstName)) then LinkedInTables(e, after, cs.tables, OfEntity(e.dstName), 0.8, 0.7, 0.7, 0.6, llm)
            else after == if e.dst == "" then e else e.(dst := "", dstRepo := "")
  {
    TableCandidatesAre(cs.tables, e.dstName, table, e.repo);
    if Any(cs.tables, Keys(e.dstName)) {
      TableTierLinks(e, after, cs, llm, Keys(e.dstName), 0.95, 0.9, 0.9, 0.8);
    } else if '.' !in table && Any(cs.tables, InSchema(table)) {
      TableTierLinks(e, after, cs, llm, InSchema(table), 0.9, 0.8, 0.8, 0.7);
    } else if '.' !in table && Any(cs.tables, OfEntity(e.dstName)) {
      TableTierLinks(e, after, cs, llm, OfEntity(e.dstName), 0.8, 0.7, 0.7, 0.6);
    } else {
      NoTableLinks(e, after, cs, llm, table);
    }
  }

  lemma NoTableLinks(e: Edge, after: Edge, cs: Contracts, llm: bool, table: string)
    requires PassOn(e, after, cs, llm) && (e.kind.WritesTo? || e.kind.ReadsFrom?) && !ValidlyResolved(e, cs)
    requires e.dstName == "db:" + table && !Any(cs.tables, Keys(e.dstName))
    requires '.' !in table ==> !Any(cs.tables, InSchema(table)) && !Any(cs.tables, OfEntity(e.dstName))
    ensures after == if e.dst == "" then e else e.(dst := "", dstRepo := "")
  {
    TableCandidatesAre(cs.tables, e.dstName, table, e.repo);
    if '.' !in table {
      OwnOrForeign(cs.tables, OfEntity(e.dstName), e.repo);
      FilterCounts(cs.tables, Foreign(OfEntity(e.dstName), e.repo));
    }
    PassLinks(e, after, cs, llm, TableCandidates(cs.tables, e.dstName, e.repo));
  }

  /** A plural takes "es" after s, x, z, ch and sh, "ies" for a y after a consonant, and otherwise "s". */
  lemma PluralIs(s: string)
    requires s != ""
    ensures var last := s[|s| - 1];
            Plural(s) ==
              if last == 's' || last == 'x' || last == 'z' || (last == 'h' && |s| > 1 && s[|s| - 2] in {'c', 's'}) then s + "es"
              else if last == 'y' && |s| > 1 && s[|s| - 2] !in {'a', 'e', 'i', 'o', 'u'} then s[..|s| - 1] + "ies"
              else s + "s"
  {
    EndsWithOne(s);
  }

  /** The table of an entity is the plural of its words in snake case. */
  lemma TableNameIs(entity: string)
    requires entity != "" && entity[0] !in SPACES + {'*', '&'} && entity[|entity| - 1] !in SPACES && '.' !in entity
    ensures TableName(entity) == Plural(Join(WordComponents(entity), '_'))
  {
    TrimsNothing(entity);
    LastIndexNone(entity, '.');
    assert LastIndexOf(entity, '.') == -1 && entity[0..] == entity;
  }

  lemma TrimsNothing(s: string)
    requires s != "" && s[0] !in SPACES + {'*', '&'} && s[|s| - 1] !in SPACES
    ensures TrimLeft(Trim(s, SPACES), {'*', '&'}) == s
  {
  }

  lemma EndsWithOne(s: string)
    requires s != ""
    ensures forall c: char :: HasSuffix(s, [c]) <==> s[|s| - 1] == c
    ensures HasSuffix(s, "ch") <==> |s| > 1 && s[|s| - 1] == 'h' && s[|s| - 2] == 'c'
    ensures HasSuffix(s, "sh") <==> |s| > 1 && s[|s| - 1] == 'h' && s[|s| - 2] == 's'
  {
    if |s| > 1 {
      assert s[|s| - 2..] == [s[|s| - 2], s[|s| - 1]];
    }
  }
}
