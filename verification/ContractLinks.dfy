/** Linking contract edges (rpc, http, table) to contract units: a fixpoint whatever the
    disambiguator answers, and stable confidences across unresolve / re-resolve cycles. */
module ContractLinks {
  import opened Wrappers
  import opened Edges
  import opened Units
  import opened Strings
  import opened ContractKeys
  import Routes

  const CONF_EXACT := 0.95
  const CONF_HIGH := 0.9
  const CONF_CROSS_FILE := 0.8
  const CONF_HEURISTIC := 0.7
  const CONF_WEAK := 0.6

  type EdgeID = string

  predicate IsContractEdge(e: Edge)
  {
    e.kind.RPCCall? || e.kind.ImplementsRPC? || e.kind.HTTPCall? || e.kind.WritesTo? || e.kind.ReadsFrom?
  }

  /** The contract units of all repositories, loaded once per run. */
  datatype Contracts = Contracts(rpcs: seq<Unit>, routes: seq<Unit>, tables: seq<Unit>)

  function AllUnits(cs: Contracts): seq<Unit> { cs.rpcs + cs.routes + cs.tables }

  ghost predicate UniqueIds(cs: Contracts)
  {
    forall u, v :: u in AllUnits(cs) && v in AllUnits(cs) && u.id == v.id ==> u == v
  }

  function UnitIds(units: seq<Unit>): set<string> { set i | 0 <= i < |units| :: units[i].id }

  // ---------------------------------------------------------------------------
  // Confidence
  // ---------------------------------------------------------------------------

  /** The recorded parser base when there is one, else whatever is stored. */
  function BaseConf(e: Edge): real { if e.meta.baseConf > 0.0 then e.meta.baseConf else e.conf }

  function ConfidenceAfterResolve(e: Edge, tier: real): real { BaseConf(e) * tier }

  function Point(e: Edge, u: Unit, tier: real): Edge
  {
    e.(dst := u.id, dstRepo := u.repo, conf := ConfidenceAfterResolve(e, tier))
  }

  /** What reindexing the destination does: the resolution goes, confidence and metadata stay. */
  function Unresolve(e: Edge): Edge { e.(dst := "", dstRepo := "") }

  /** The edge after `n` further cycles of losing and regaining a destination at one tier. */
  function Cycle(e: Edge, us: seq<Unit>, tier: real, n: nat): Edge
    requires n <= |us|
  {
    if n == 0 then e else Point(Unresolve(Cycle(e, us, tier, n - 1)), us[n - 1], tier)
  }

  ghost predicate ConfidenceSettles(e: Edge, tier: real)
  {
    forall us: seq<Unit> :: |us| >= 1 ==> Cycle(e, us, tier, |us|).conf == ConfidenceAfterResolve(e, tier)
  }

  lemma {:induction false} CycleKeepsMeta(e: Edge, us: seq<Unit>, tier: real, n: nat)
    requires n <= |us|
    ensures Cycle(e, us, tier, n).meta == e.meta
  {
    if n > 0 {
      CycleKeepsMeta(e, us, tier, n - 1);
    }
  }

  lemma {:induction false} CycleSettles(e: Edge, us: seq<Unit>, tier: real, n: nat)
    requires 1 <= n <= |us|
    requires e.meta.baseConf > 0.0 || tier == 0.0 || tier == 1.0 || e.conf == 0.0
    ensures Cycle(e, us, tier, n).conf == ConfidenceAfterResolve(e, tier)
  {
    CycleKeepsMeta(e, us, tier, n - 1);
    if n > 1 {
      CycleSettles(e, us, tier, n - 1);
    }
  }

  /** Any number of cycles leaves the confidence of the first exactly when the base was recorded, or
      the tier's factor cannot change it. */
  lemma ConfidenceSettlesIff(e: Edge, tier: real)
    ensures ConfidenceSettles(e, tier) <==> e.meta.baseConf > 0.0 || tier == 0.0 || tier == 1.0 || e.conf == 0.0
  {
    if e.meta.baseConf > 0.0 || tier == 0.0 || tier == 1.0 || e.conf == 0.0 {
      forall us: seq<Unit> | |us| >= 1 ensures Cycle(e, us, tier, |us|).conf == ConfidenceAfterResolve(e, tier) {
        CycleSettles(e, us, tier, |us|);
      }
    } else {
      var u: Unit :| true;
      var us := [u, u];
      var once := Cycle(e, us, tier, 1);
      assert Cycle(e, us, tier, 0) == e && once == Point(Unresolve(e), u, tier);
      assert Cycle(e, us, tier, 2) == Point(Unresolve(once), u, tier);
      var first := e.conf * tier;
      assert ConfidenceAfterResolve(e, tier) == first && once.conf == first && once.meta == e.meta;
      assert |us| == 2 && Cycle(e, us, tier, |us|).conf == first * tier;
      NonZeroProduct(e.conf, tier);
      Decays(first, tier);
      assert Cycle(e, us, tier, |us|).conf != ConfidenceAfterResolve(e, tier);
    }
  }

  lemma Decays(x: real, f: real)
    requires x != 0.0 && f != 1.0
    ensures x * f != x
  {
    assert x * f - x == x * (f - 1.0);
  }

  lemma NonZeroProduct(c: real, f: real)
    requires c != 0.0 && f != 0.0
    ensures c * f != 0.0
  {
  }

  // ---------------------------------------------------------------------------
  // Candidates
  // ---------------------------------------------------------------------------

  type Candidate = Routes.ScoredRoute

  function Tier(units: seq<Unit>, conf: real): seq<Candidate>
  {
    seq(|units|, i requires 0 <= i < |units| => Routes.ScoredRoute(units[i], conf, false))
  }

  datatype RPC = RPC(svc: string, name: string)

  function LastIndexOf(s: string, c: char): (i: int)
    ensures -1 <= i < |s| && (i >= 0 ==> s[i] == c)
  {
    if s == "" then -1 else if s[|s| - 1] == c then |s| - 1 else LastIndexOf(s[..|s| - 1], c)
  }

  /** A service and a method around the last slash. */
  function SplitMethod(rest: string): Option<RPC>
  {
    var i := LastIndexOf(rest, '/');
    if rest[i + 1..] == "" then None else Some(RPC(if i < 0 then "" else rest[..i], rest[i + 1..]))
  }

  function ParseGRPC(key: string): Option<RPC> { if HasPrefix(key, "grpc:") then SplitMethod(key[5..]) else None }

  predicate SameMethod(u: Unit, rpc: RPC) { ParseGRPC(u.qualified).Some? && ParseGRPC(u.qualified).value.name == rpc.name }

  predicate ExactService(u: Unit, rpc: RPC) { SameMethod(u, rpc) && rpc.svc != "" && ParseGRPC(u.qualified).value.svc == rpc.svc }

  predicate SuffixService(u: Unit, rpc: RPC)
  {
    SameMethod(u, rpc) && rpc.svc != "" && !ExactService(u, rpc) && HasSuffix(ParseGRPC(u.qualified).value.svc, "." + rpc.svc)
  }

  /** The units of each tier, in load order. */
  function ExactServices(units: seq<Unit>, rpc: RPC): seq<Unit> { Filter(units, u => ExactService(u, rpc)) }

  function SuffixServices(units: seq<Unit>, rpc: RPC): seq<Unit> { Filter(units, u => SuffixService(u, rpc)) }

  function SameMethods(units: seq<Unit>, rpc: RPC): seq<Unit> { Filter(units, u => SameMethod(u, rpc)) }

  /** The strongest non-empty tier of rpc units; several equals cannot be told apart. */
  function RPCCandidates(units: seq<Unit>, key: string): seq<Candidate>
  {
    match ParseGRPC(key)
    case None => []
    case Some(rpc) =>
      var exact := ExactServices(units, rpc);
      var suffix := SuffixServices(units, rpc);
      if exact != [] then Tier(exact, if |exact| == 1 then CONF_EXACT else CONF_HEURISTIC)
      else if suffix != [] then Tier(suffix, if |suffix| == 1 then CONF_EXACT else CONF_HEURISTIC)
      else Tier(SameMethods(units, rpc), CONF_HEURISTIC)
  }

  function WeakerTier(conf: real): real
  {
    if conf > CONF_HIGH then CONF_HIGH
    else if conf > CONF_CROSS_FILE then CONF_CROSS_FILE
    else if conf > CONF_HEURISTIC then CONF_HEURISTIC
    else CONF_WEAK
  }

  function DB(table: string): string { "db:" + table }

  predicate IsVowel(c: char) { c in "aeiou" }

  function Plural(s: string): string
  {
    if s == "" then ""
    else if HasSuffix(s, "s") || HasSuffix(s, "x") || HasSuffix(s, "z") || HasSuffix(s, "ch") || HasSuffix(s, "sh") then s + "es"
    else if HasSuffix(s, "y") && |s| > 1 && !IsVowel(s[|s| - 2]) then s[..|s| - 1] + "ies"
    else s + "s"
  }

  /** The table an ORM maps an entity to: snake case and a naive plural. */
  function TableName(entity: string): string
  {
    var trimmed := TrimLeft(Trim(entity, SPACES), {'*', '&'});
    Plural(Join(WordComponents(trimmed[LastIndexOf(trimmed, '.') + 1..]), '_'))
  }

  function SignatureEntity(signature: string): string
  {
    if HasPrefix(signature, "entity:") then Trim(signature[7..], SPACES) else ""
  }

  /** The key of a schema-qualified table without its schema. */
  predicate BareNamed(u: Unit, key: string)
  {
    && HasPrefix(u.qualified, "db:")
    && var table := u.qualified[3..];
    && LastIndexOf(table, '.') >= 0
    && DB(table[LastIndexOf(table, '.') + 1..]) == key
  }

  predicate EntityNamed(u: Unit, key: string)
  {
    var entity := SignatureEntity(u.signature);
    entity != "" && DB(TableName(entity)) == key && key != u.qualified
  }

  /** The tables a key names in full, by its bare name, and through an entity. */
  function Keyed(units: seq<Unit>, key: string): seq<Unit> { Filter(units, (u: Unit) => u.qualified == key) }

  function BareNames(units: seq<Unit>, key: string): seq<Unit> { Filter(units, u => BareNamed(u, key)) }

  function EntityNames(units: seq<Unit>, key: string): seq<Unit> { Filter(units, u => EntityNamed(u, key)) }

  function OfRepo(units: seq<Unit>, repo: string): seq<Unit> { Filter(units, (u: Unit) => u.repo == repo) }

  function OfOthers(units: seq<Unit>, repo: string): seq<Unit> { Filter(units, (u: Unit) => u.repo != repo) }

  /** Same-repository tables before the others; a group of several scores one tier lower. */
  function TableTier(units: seq<Unit>, repo: string, same: real, cross: real): seq<Candidate>
  {
    var own, others := OfRepo(units, repo), OfOthers(units, repo);
    if own != [] then Tier(own, if |own| > 1 then WeakerTier(same) else same)
    else Tier(others, if |others| > 1 then WeakerTier(cross) else cross)
  }

  function TableCandidates(units: seq<Unit>, key: string, repo: string): seq<Candidate>
  {
    if !HasPrefix(key, "db:") then []
    else
      var exact := Keyed(units, key);
      if exact != [] then TableTier(exact, repo, CONF_EXACT, CONF_HIGH)
      else if '.' in key[3..] then []
      else
        var named := BareNames(units, key);
        if named != [] then TableTier(named, repo, CONF_HIGH, CONF_CROSS_FILE)
        else TableTier(EntityNames(units, key), repo, CONF_CROSS_FILE, CONF_HEURISTIC)
  }

  function HTTPCandidates(units: seq<Unit>, key: string, repo: string): seq<Candidate>
  {
    match ParseHTTP(key)
    case None => []
    case Some(call) => Routes.FullScan(Routes.ParsedRoutes(units), call, repo)
  }

  /** The candidates of a contract edge, in load order. */
  function CandidatesOf(e: Edge, cs: Contracts): seq<Candidate>
  {
    if e.kind.HTTPCall? then HTTPCandidates(cs.routes, e.dstName, e.repo)
    else if e.kind.RPCCall? || e.kind.ImplementsRPC? then RPCCandidates(cs.rpcs, e.dstName)
    else TableCandidates(cs.tables, e.dstName, e.repo)
  }

  lemma {:induction false} RoutesComeFromUnits(units: seq<Unit>, call: Route, repo: string, c: Candidate)
    requires c in Routes.FullScan(Routes.ParsedRoutes(units), call, repo)
    ensures c.unit in units
  {
    ScannedIsParsed(Routes.ParsedRoutes(units), call, repo, c);
    ParsedIsUnit(units, c.unit);
  }

  lemma {:induction false} ScannedIsParsed(routes: seq<Routes.IndexedRoute>, call: Route, repo: string, c: Candidate)
    requires c in Routes.FullScan(routes, call, repo)
    ensures exists i :: 0 <= i < |routes| && routes[i].unit == c.unit
  {
    var n := |routes| - 1;
    if c == Routes.Scored(routes[n], call, repo) {
      assert routes[n].unit == c.unit;
    } else {
      ScannedIsParsed(routes[..n], call, repo, c);
    }
  }

  lemma {:induction false} ParsedIsUnit(units: seq<Unit>, u: Unit)
    requires exists i :: 0 <= i < |Routes.ParsedRoutes(units)| && Routes.ParsedRoutes(units)[i].unit == u
    ensures u in units
  {
    var n := |units| - 1;
    var i :| 0 <= i < |Routes.ParsedRoutes(units)| && Routes.ParsedRoutes(units)[i].unit == u;
    if i < |Routes.ParsedRoutes(units[..n])| {
      assert Routes.ParsedRoutes(units[..n])[i].unit == u;
      ParsedIsUnit(units[..n], u);
    }
  }

  ghost predicate From(candidates: seq<Candidate>, units: seq<Unit>)
  {
    forall i :: 0 <= i < |candidates| ==> candidates[i].unit in units
  }

  lemma TierFrom(some: seq<Unit>, units: seq<Unit>, conf: real)
    requires forall i :: 0 <= i < |some| ==> some[i] in units
    ensures From(Tier(some, conf), units)
  {
  }

  lemma RPCsAreUnits(units: seq<Unit>, key: string)
    ensures From(RPCCandidates(units, key), units)
  {
    match ParseGRPC(key)
    case None =>
    case Some(rpc) =>
      var exact := ExactServices(units, rpc);
      var suffix := SuffixServices(units, rpc);
      TierFrom(exact, units, if |exact| == 1 then CONF_EXACT else CONF_HEURISTIC);
      TierFrom(suffix, units, if |suffix| == 1 then CONF_EXACT else CONF_HEURISTIC);
      TierFrom(SameMethods(units, rpc), units, CONF_HEURISTIC);
  }

  lemma TableTierFrom(some: seq<Unit>, units: seq<Unit>, repo: string, same: real, cross: real)
    requires forall i :: 0 <= i < |some| ==> some[i] in units
    ensures From(TableTier(some, repo, same, cross), units)
  {
  }

  lemma TablesAreUnits(units: seq<Unit>, key: string, repo: string)
    ensures From(TableCandidates(units, key, repo), units)
  {
    TableTierFrom(Keyed(units, key), units, repo, CONF_EXACT, CONF_HIGH);
    TableTierFrom(BareNames(units, key), units, repo, CONF_HIGH, CONF_CROSS_FILE);
    TableTierFrom(EntityNames(units, key), units, repo, CONF_CROSS_FILE, CONF_HEURISTIC);
  }

  lemma HTTPsAreUnits(units: seq<Unit>, key: string, repo: string)
    ensures From(HTTPCandidates(units, key, repo), units)
  {
    forall i | 0 <= i < |HTTPCandidates(units, key, repo)| ensures HTTPCandidates(units, key, repo)[i].unit in units {
      RoutesComeFromUnits(units, ParseHTTP(key).value, repo, HTTPCandidates(units, key, repo)[i]);
    }
  }

  lemma CandidatesAreUnits(e: Edge, cs: Contracts)
    requires IsContractEdge(e)
    ensures From(CandidatesOf(e, cs), AllUnits(cs))
  {
    RPCsAreUnits(cs.rpcs, e.dstName);
    HTTPsAreUnits(cs.routes, e.dstName, e.repo);
    TablesAreUnits(cs.tables, e.dstName, e.repo);
  }
}
