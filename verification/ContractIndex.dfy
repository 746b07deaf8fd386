/** The hash indexes of the contract units, and the lookups through them against the plain scans. */
module ContractIndex {
  import opened Wrappers
  import opened Edges
  import opened Units
  import opened Strings
  import opened ContractKeys
  import opened ContractLinks
  import Routes

  // ---------------------------------------------------------------------------
  // Methods
  // ---------------------------------------------------------------------------

  datatype IndexedRPC = IndexedRPC(unit: Unit, svc: string)

  type RPCIndex = map<string, seq<IndexedRPC>>

  /** The units that expose a method of this name, in load order. */
  function Exposing(units: seq<Unit>, name: string): seq<IndexedRPC>
  {
    if units == [] then []
    else
      var rest := Exposing(units[..|units| - 1], name);
      match ParseGRPC(Last(units).qualified)
      case None => rest
      case Some(rpc) => if rpc.name == name then rest + [IndexedRPC(Last(units), rpc.svc)] else rest
  }

  ghost predicate IsRPCIndex(idx: RPCIndex, units: seq<Unit>) { forall name: string :: Bucket(idx, name) == Exposing(units, name) }

  lemma ExposingNext(units: seq<Unit>, i: nat, name: string)
    requires i < |units|
    ensures Exposing(units[..i + 1], name) ==
              match ParseGRPC(units[i].qualified)
              case None => Exposing(units[..i], name)
              case Some(rpc) => Exposing(units[..i], name) + if rpc.name == name then [IndexedRPC(units[i], rpc.svc)] else []
  {
    assert units[..i + 1][..i] == units[..i];
  }

  method BuildRPCIndex(units: seq<Unit>) returns (idx: RPCIndex)
    ensures IsRPCIndex(idx, units)
  {
    idx := map[];
    for i := 0 to |units|
      invariant IsRPCIndex(idx, units[..i])
    {
      ghost var before := idx;
      var parsed := ParseGRPC(units[i].qualified);
      if parsed.Some? {
        var name := parsed.value.name;
        idx := idx[name := Bucket(idx, name) + [IndexedRPC(units[i], parsed.value.svc)]];
      }
      forall name: string ensures Bucket(idx, name) == Exposing(units[..i + 1], name) {
        assert Bucket(before, name) == Exposing(units[..i], name);
        ExposingNext(units, i, name);
      }
    }
    assert units[..|units|] == units;
  }

  /** The units of the bucket entries that satisfy p. */
  function Picked(bucket: seq<IndexedRPC>, p: IndexedRPC -> bool): seq<Unit>
  {
    if bucket == [] then []
    else
      var rest := Picked(bucket[..|bucket| - 1], p);
      if p(Last(bucket)) then rest + [Last(bucket).unit] else rest
  }

  lemma PickedNext(bucket: seq<IndexedRPC>, c: IndexedRPC, p: IndexedRPC -> bool)
    ensures Picked(bucket + [c], p) == Picked(bucket, p) + if p(c) then [c.unit] else []
  {
    assert (bucket + [c])[..|bucket|] == bucket;
  }

  /** Picking from the bucket of a method name is filtering all units. */
  lemma {:induction false} BucketHoldsMethods(units: seq<Unit>, name: string, p: IndexedRPC -> bool, q: Unit -> bool)
    requires forall u :: q(u) <==> ParseGRPC(u.qualified).Some? && ParseGRPC(u.qualified).value.name == name
                                   && p(IndexedRPC(u, ParseGRPC(u.qualified).value.svc))
    ensures Picked(Exposing(units, name), p) == Filter(units, q)
  {
    if units != [] {
      var front, u := units[..|units| - 1], Last(units);
      BucketHoldsMethods(front, name, p, q);
      if ParseGRPC(u.qualified).Some? {
        PickedNext(Exposing(front, name), IndexedRPC(u, ParseGRPC(u.qualified).value.svc), p);
      }
    }
  }

  function All(): IndexedRPC -> bool { (c: IndexedRPC) => true }

  function SvcIs(svc: string): IndexedRPC -> bool { (c: IndexedRPC) => svc != "" && c.svc == svc }

  function SvcEnds(svc: string): IndexedRPC -> bool { (c: IndexedRPC) => svc != "" && c.svc != svc && HasSuffix(c.svc, "." + svc) }

  lemma BucketHoldsTiers(units: seq<Unit>, rpc: RPC)
    ensures Picked(Exposing(units, rpc.name), SvcIs(rpc.svc)) == ExactServices(units, rpc)
    ensures Picked(Exposing(units, rpc.name), SvcEnds(rpc.svc)) == SuffixServices(units, rpc)
    ensures Picked(Exposing(units, rpc.name), All()) == SameMethods(units, rpc)
  {
    BucketHoldsMethods(units, rpc.name, SvcIs(rpc.svc), u => ExactService(u, rpc));
    BucketHoldsMethods(units, rpc.name, SvcEnds(rpc.svc), u => SuffixService(u, rpc));
    BucketHoldsMethods(units, rpc.name, All(), u => SameMethod(u, rpc));
  }

  /** One scan of a bucket sorts it into the three tiers. */
  method SortBucket(bucket: seq<IndexedRPC>, svc: string) returns (exact: seq<Unit>, suffix: seq<Unit>, byMethod: seq<Unit>)
    ensures exact == Picked(bucket, SvcIs(svc)) && suffix == Picked(bucket, SvcEnds(svc)) && byMethod == Picked(bucket, All())
  {
    exact, suffix, byMethod := [], [], [];
    for i := 0 to |bucket|
      invariant exact == Picked(bucket[..i], SvcIs(svc))
      invariant suffix == Picked(bucket[..i], SvcEnds(svc))
      invariant byMethod == Picked(bucket[..i], All())
    {
      var c := bucket[i];
      assert bucket[..i + 1] == bucket[..i] + [c];
      PickedNext(bucket[..i], c, SvcIs(svc));
      PickedNext(bucket[..i], c, SvcEnds(svc));
      PickedNext(bucket[..i], c, All());
      byMethod := byMethod + [c.unit];
      if svc != "" {
        if c.svc == svc {
          exact := exact + [c.unit];
        } else if HasSuffix(c.svc, "." + svc) {
          suffix := suffix + [c.unit];
        }
      }
    }
    assert bucket[..|bucket|] == bucket;
  }

  /** rpcCandidates, before a tier is sorted. */
  method LookupRPC(idx: RPCIndex, ghost units: seq<Unit>, key: string) returns (out: seq<Candidate>)
    requires IsRPCIndex(idx, units)
    ensures out == RPCCandidates(units, key)
  {
    var parsed := ParseGRPC(key);
    if parsed.None? {
      return [];
    }
    var rpc := parsed.value;
    var exact, suffix, byMethod := SortBucket(Bucket(idx, rpc.name), rpc.svc);
    BucketHoldsTiers(units, rpc);
    if exact != [] {
      out := Tier(exact, if |exact| == 1 then CONF_EXACT else CONF_HEURISTIC);
    } else if suffix != [] {
      out := Tier(suffix, if |suffix| == 1 then CONF_EXACT else CONF_HEURISTIC);
    } else {
      out := Tier(byMethod, CONF_HEURISTIC);
    }
  }

  // ---------------------------------------------------------------------------
  // Tables
  // ---------------------------------------------------------------------------

  type Buckets = map<string, seq<Unit>>

  /** Tables by their full key, by their bare name where they have a schema, and by the key their entity
      would have given them. */
  datatype TableIndex = TableIndex(byKey: Buckets, byName: Buckets, byEntity: Buckets)

  ghost predicate IsTableIndex(idx: TableIndex, units: seq<Unit>)
  {
    && (forall key: string :: Bucket(idx.byKey, key) == Keyed(units, key))
    && (forall key: string :: Bucket(idx.byName, key) == BareNames(units, key))
    && (forall key: string :: Bucket(idx.byEntity, key) == EntityNames(units, key))
  }

  function Filed(buckets: Buckets, key: string, u: Unit): Buckets { buckets[key := Bucket(buckets, key) + [u]] }

  function EntityKey(u: Unit): Option<string>
  {
    var entity := SignatureEntity(u.signature);
    if entity != "" && DB(TableName(entity)) != u.qualified then Some(DB(TableName(entity))) else None
  }

  function BareKey(u: Unit): Option<string>
  {
    if !HasPrefix(u.qualified, "db:") then None
    else
      var table := u.qualified[3..];
      var i := LastIndexOf(table, '.');
      if i >= 0 then Some(DB(table[i + 1..])) else None
  }

  lemma KeysName(u: Unit, key: string)
    ensures BareNamed(u, key) <==> BareKey(u) == Some(key)
    ensures EntityNamed(u, key) <==> EntityKey(u) == Some(key)
  {
  }

  lemma TablesNext(units: seq<Unit>, i: nat, key: string)
    requires i < |units|
    ensures Keyed(units[..i + 1], key) == Keyed(units[..i], key) + if units[i].qualified == key then [units[i]] else []
    ensures BareNames(units[..i + 1], key) == BareNames(units[..i], key) + if BareKey(units[i]) == Some(key) then [units[i]] else []
    ensures EntityNames(units[..i + 1], key) == EntityNames(units[..i], key) + if EntityKey(units[i]) == Some(key) then [units[i]] else []
  {
    assert units[..i + 1][..i] == units[..i];
    KeysName(units[i], key);
  }

  lemma FiledAt(buckets: Buckets, key: string, u: Unit)
    ensures forall k: string :: Bucket(Filed(buckets, key, u), k) == Bucket(buckets, k) + if k == key then [u] else []
  {
  }

  /** A table filed under a key it may not have. */
  method FileUnder(before: Buckets, key: Option<string>, u: Unit) returns (buckets: Buckets)
    ensures forall k: string :: Bucket(buckets, k) == Bucket(before, k) + if key == Some(k) then [u] else []
  {
    buckets := before;
    if key.Some? {
      FiledAt(before, key.value, u);
      buckets := Filed(before, key.value, u);
    }
  }

  /** One table into the index, under its own key, its bare one and its entity's. */
  method FileTable(before: TableIndex, u: Unit, bare: Option<string>, entity: Option<string>) returns (idx: TableIndex)
    ensures forall key: string :: Bucket(idx.byKey, key) == Bucket(before.byKey, key) + if u.qualified == key then [u] else []
    ensures forall key: string :: Bucket(idx.byName, key) == Bucket(before.byName, key) + if bare == Some(key) then [u] else []
    ensures forall key: string :: Bucket(idx.byEntity, key) == Bucket(before.byEntity, key) + if entity == Some(key) then [u] else []
  {
    var byKey := FileUnder(before.byKey, Some(u.qualified), u);
    var byName := FileUnder(before.byName, bare, u);
    var byEntity := FileUnder(before.byEntity, entity, u);
    idx := TableIndex(byKey, byName, byEntity);
  }

  method BuildTableIndex(units: seq<Unit>) returns (idx: TableIndex)
    ensures IsTableIndex(idx, units)
  {
    idx := TableIndex(map[], map[], map[]);
    for i := 0 to |units|
      invariant IsTableIndex(idx, units[..i])
    {
      idx := FileTable(idx, units[i], BareKey(units[i]), EntityKey(units[i]));
      forall key: string
        ensures Bucket(idx.byKey, key) == Keyed(units[..i + 1], key)
        ensures Bucket(idx.byName, key) == BareNames(units[..i + 1], key)
        ensures Bucket(idx.byEntity, key) == EntityNames(units[..i + 1], key)
      {
        TablesNext(units, i, key);
      }
    }
    assert units[..|units|] == units;
  }

  lemma ReposNext(units: seq<Unit>, i: nat, repo: string)
    requires i < |units|
    ensures OfRepo(units[..i + 1], repo) == OfRepo(units[..i], repo) + if units[i].repo == repo then [units[i]] else []
    ensures OfOthers(units[..i + 1], repo) == OfOthers(units[..i], repo) + if units[i].repo == repo then [] else [units[i]]
  {
    assert units[..i + 1][..i] == units[..i];
  }

  /** One tier of tables, the asking repository's own before the others. */
  method LookupTier(units: seq<Unit>, repo: string, same: real, cross: real) returns (out: seq<Candidate>)
    ensures out == TableTier(units, repo, same, cross) && (out == [] <==> units == [])
  {
    var own: seq<Unit>, others: seq<Unit> := [], [];
    for i := 0 to |units|
      invariant own == OfRepo(units[..i], repo) && others == OfOthers(units[..i], repo) && |own| + |others| == i
    {
      ReposNext(units, i, repo);
      if units[i].repo == repo {
        own := own + [units[i]];
      } else {
        others := others + [units[i]];
      }
    }
    assert units[..|units|] == units;
    if own != [] {
      out := Tier(own, if |own| > 1 then WeakerTier(same) else same);
    } else {
      out := Tier(others, if |others| > 1 then WeakerTier(cross) else cross);
    }
  }

  /** The confidences of a tier, for a table of the asking repository and for another. */
  function ConfsOf(t: nat): (real, real)
  {
    if t == 0 then (CONF_EXACT, CONF_HIGH) else if t == 1 then (CONF_HIGH, CONF_CROSS_FILE) else (CONF_CROSS_FILE, CONF_HEURISTIC)
  }

  /** What the first non-empty tier from t on gives. */
  function FromTier(tiers: seq<seq<Unit>>, t: nat, repo: string): seq<Candidate>
    requires t <= |tiers|
    decreases |tiers| - t
  {
    if t == |tiers| then []
    else if tiers[t] != [] then TableTier(tiers[t], repo, ConfsOf(t).0, ConfsOf(t).1)
    else FromTier(tiers, t + 1, repo)
  }

  method ScanTiers(tiers: seq<seq<Unit>>, repo: string) returns (out: seq<Candidate>)
    ensures out == FromTier(tiers, 0, repo)
  {
    for t := 0 to |tiers|
      invariant FromTier(tiers, t, repo) == FromTier(tiers, 0, repo)
    {
      out := LookupTier(tiers[t], repo, ConfsOf(t).0, ConfsOf(t).1);
      if out != [] {
        return;
      }
    }
    out := [];
  }

  lemma NoTables(repo: string, same: real, cross: real)
    ensures TableTier([], repo, same, cross) == []
  {
  }

  /** The tiers of a key's buckets give its candidates. */
  lemma TiersGiveTables(exact: seq<Unit>, named: seq<Unit>, entities: seq<Unit>, repo: string)
    ensures FromTier([exact], 0, repo) == if exact != [] then TableTier(exact, repo, CONF_EXACT, CONF_HIGH) else []
    ensures FromTier([exact, named, entities], 0, repo) ==
              if exact != [] then TableTier(exact, repo, CONF_EXACT, CONF_HIGH)
              else if named != [] then TableTier(named, repo, CONF_HIGH, CONF_CROSS_FILE)
              else TableTier(entities, repo, CONF_CROSS_FILE, CONF_HEURISTIC)
  {
    var three := [exact, named, entities];
    NoTables(repo, CONF_CROSS_FILE, CONF_HEURISTIC);
    assert FromTier([exact], 1, repo) == [] && FromTier(three, 3, repo) == [];
    assert FromTier(three, 2, repo) == if entities != [] then TableTier(entities, repo, CONF_CROSS_FILE, CONF_HEURISTIC) else [];
    assert FromTier(three, 1, repo) == if named != [] then TableTier(named, repo, CONF_HIGH, CONF_CROSS_FILE) else FromTier(three, 2, repo);
  }

  /** tableCandidates, before a group is sorted. */
  method LookupTable(idx: TableIndex, ghost units: seq<Unit>, key: string, repo: string) returns (out: seq<Candidate>)
    requires IsTableIndex(idx, units)
    ensures out == TableCandidates(units, key, repo)
  {
    if !HasPrefix(key, "db:") {
      return [];
    }
    var exact := Bucket(idx.byKey, key);
    TiersGiveTables(exact, BareNames(units, key), EntityNames(units, key), repo);
    if '.' in key[3..] {
      out := ScanTiers([exact], repo);
    } else {
      out := ScanTiers([exact, Bucket(idx.byName, key), Bucket(idx.byEntity, key)], repo);
    }
  }

  // ---------------------------------------------------------------------------
  // All contract units
  // ---------------------------------------------------------------------------

  datatype Index = Index(rpcs: RPCIndex, routes: map<nat, seq<Routes.IndexedRoute>>, tables: TableIndex)

  ghost predicate IsIndex(idx: Index, cs: Contracts)
  {
    IsRPCIndex(idx.rpcs, cs.rpcs) && Routes.IsRouteIndex(idx.routes, Routes.ParsedRoutes(cs.routes)) && IsTableIndex(idx.tables, cs.tables)
  }

  method BuildIndex(cs: Contracts) returns (idx: Index)
    ensures IsIndex(idx, cs)
  {
    var rpcs := BuildRPCIndex(cs.rpcs);
    var routes := Routes.BuildRouteIndex(cs.routes);
    var tables := BuildTableIndex(cs.tables);
    idx := Index(rpcs, routes, tables);
  }
}
