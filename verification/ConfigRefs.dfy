/** Resolving "topic:${KEY}" references: every affected (kind, dst_name) group is deleted before any
    is stored again under its edges' new names. */
module ConfigRefs {
  import opened Wrappers
  import opened Bags
  import opened Edges
  import opened Strings
  import opened ContractKeys
  import opened ConfigKeys
  import Units

  // ---------------------------------------------------------------------------
  // What one edge resolves to
  // ---------------------------------------------------------------------------

  predicate IsTopicEdge(e: Edge) { e.kind.Produces? || e.kind.Consumes? }

  /** The reference an edge carries in its key, or the one it was resolved from earlier. */
  function RefOf(e: Edge): string
  {
    match ParseTopicRef(e.dstName)
    case Some(ref) => ref
    case None => e.meta.topicRef
  }

  /** The literal default of a "${KEY:default}" placeholder. */
  function DefaultTopic(meta: Meta): string
  {
    if meta.topic == "" || Contains(meta.topic, "${") then "" else meta.topic
  }

  function ValueOf(e: Edge, config: seq<Units.Unit>): string
  {
    var value := ConfigValue(config, RefOf(e), e.repo);
    if value == "" then DefaultTopic(e.meta) else value
  }

  function Resolve(e: Edge, config: seq<Units.Unit>): Edge
  {
    var value := ValueOf(e, config);
    if !IsTopicEdge(e) || RefOf(e) == "" || value == "" then e
    else e.(dstName := Topic(value), meta := e.meta.(topicRef := RefOf(e)))
  }

  /** The edge names its topic by a reference, or did when that was resolved. */
  ghost predicate CarriesRef(e: Edge, ref: string)
  {
    e.dstName == "topic:${" + ref + "}" || (e.meta.topicRef == ref && forall x: string :: e.dstName != "topic:${" + x + "}")
  }

  /** What a run makes of an edge that carries `ref`: it moves to the topic that the configured value or,
      failing that, its literal default names, and keeps the reference. */
  ghost predicate ResolvesBy(e: Edge, r: Edge, ref: string, config: seq<Units.Unit>)
  {
    var value := ConfigValue(config, ref, e.repo);
    var literal := e.meta.topic != "" && !exists i :: 0 <= i < |e.meta.topic| - 1 && e.meta.topic[i] == '$' && e.meta.topic[i + 1] == '{';
    if (e.kind.Produces? || e.kind.Consumes?) && ref != "" && value != "" then
      r == e.(dstName := "topic:" + value, meta := e.meta.(topicRef := ref))
    else if (e.kind.Produces? || e.kind.Consumes?) && ref != "" && literal then
      r == e.(dstName := "topic:" + e.meta.topic, meta := e.meta.(topicRef := ref))
    else r == e
  }

  ghost predicate ResolvesTo(e: Edge, r: Edge, config: seq<Units.Unit>)
  {
    exists ref: string :: CarriesRef(e, ref) && ResolvesBy(e, r, ref, config)
  }

  lemma RefIs(e: Edge, x: string)
    requires e.dstName == "topic:${" + x + "}"
    ensures ParseTopicRef(e.dstName) == Some(x)
  {
    assert HasPrefix(e.dstName, TOPIC_REF_PREFIX) && HasSuffix(e.dstName, "}");
    assert e.dstName[|TOPIC_REF_PREFIX|..|e.dstName| - 1] == x;
  }

  lemma RefHasForm(key: string)
    requires ParseTopicRef(key).Some?
    ensures key == "topic:${" + ParseTopicRef(key).value + "}"
  {
    var n := |TOPIC_REF_PREFIX|;
    assert key[n - 1] == '{' && key[|key| - 1] == '}' && |key| > n;
    assert key == key[..n] + key[n..|key| - 1] + key[|key| - 1..];
    assert key[|key| - 1..] == "}";
  }

  lemma OpensPlaceholder(s: string)
    ensures Contains(s, "${") <==> exists i :: 0 <= i < |s| - 1 && s[i] == '$' && s[i + 1] == '{'
  {
    if i :| 0 <= i < |s| - 1 && s[i] == '$' && s[i + 1] == '{' {
      assert "${" <= s[i..];
    }
    if Contains(s, "${") {
      var i :| 0 <= i <= |s| && "${" <= s[i..];
      assert s[i..][0] == s[i] == '$' && s[i..][1] == s[i + 1] == '{';
    }
  }

  /** An edge carries one reference. */
  lemma CarriesOneRef(e: Edge, ref: string)
    ensures CarriesRef(e, ref) <==> ref == RefOf(e)
  {
    if e.dstName == "topic:${" + ref + "}" {
      RefIs(e, ref);
    }
    if ParseTopicRef(e.dstName).Some? {
      RefHasForm(e.dstName);
    } else if x: string :| e.dstName == "topic:${" + x + "}" {
      RefIs(e, x);
    }
  }

  lemma ResolveIs(e: Edge, config: seq<Units.Unit>)
    ensures ResolvesTo(e, Resolve(e, config), config)
  {
    OpensPlaceholder(e.meta.topic);
    CarriesOneRef(e, RefOf(e));
    assert ResolvesBy(e, Resolve(e, config), RefOf(e), config);
  }

  ghost function ResolveOne(config: seq<Units.Unit>): Edge -> multiset<Edge> { e => multiset{Resolve(e, config)} }

  /** The table with every edge resolved. */
  ghost function ResolveAll(rows: multiset<Edge>, config: seq<Units.Unit>): multiset<Edge> { FlatMap(rows, ResolveOne(config)) }

  /** Every row resolves to one of the rows after, every row after is one of those, and there are as many. */
  ghost predicate RowsResolve(rows: multiset<Edge>, after: multiset<Edge>, config: seq<Units.Unit>)
  {
    && |after| == |rows|
    && (forall e :: e in rows ==> exists r :: r in after && ResolvesTo(e, r, config))
    && (forall r :: r in after ==> exists e :: e in rows && ResolvesTo(e, r, config))
  }

  lemma ResolveAllResolves(rows: multiset<Edge>, config: seq<Units.Unit>)
    ensures RowsResolve(rows, ResolveAll(rows, config), config)
  {
    FlatMapOnesKeepsSize(rows, ResolveOne(config));
    forall e | e in rows ensures exists r :: r in ResolveAll(rows, config) && ResolvesTo(e, r, config) {
      RowIsResolved(rows, e, config);
    }
    forall r | r in ResolveAll(rows, config) ensures exists e :: e in rows && ResolvesTo(e, r, config) {
      var e := ResolvedFrom(rows, r, config);
    }
  }

  lemma RowIsResolved(rows: multiset<Edge>, e: Edge, config: seq<Units.Unit>)
    requires e in rows
    ensures Resolve(e, config) in ResolveAll(rows, config) && ResolvesTo(e, Resolve(e, config), config)
  {
    FlatMapHolds(rows, ResolveOne(config), e, Resolve(e, config));
    ResolveIs(e, config);
  }

  lemma ResolvedFrom(rows: multiset<Edge>, r: Edge, config: seq<Units.Unit>) returns (e: Edge)
    requires r in ResolveAll(rows, config)
    ensures e in rows && ResolvesTo(e, r, config)
  {
    e := FlatMapMember(rows, ResolveOne(config), r);
    ResolveIs(e, config);
  }

  // ---------------------------------------------------------------------------
  // Rewriting whole groups in two phases
  // ---------------------------------------------------------------------------

  ghost function StoredGroup(groups: map<EdgeKey, seq<Edge>>): EdgeKey -> multiset<Edge>
  {
    key => if key in groups then multiset(groups[key]) else multiset{}
  }

  /** All the edges handed over for the given keys. */
  ghost function StoredGroups(groups: map<EdgeKey, seq<Edge>>, keys: set<EdgeKey>): multiset<Edge>
  {
    FlatMap(multiset(keys), StoredGroup(groups))
  }

  function NonEmptyKeys(groups: map<EdgeKey, seq<Edge>>): set<EdgeKey> { set key | key in groups && groups[key] != [] }

  /** The keys whose delete went through lose their rows; those of them whose insert went through
      get the given edges instead; every other key with edges counts as one error. */
  method RewriteEdgeGroups(table: EdgeTable, groups: map<EdgeKey, seq<Edge>>)
    returns (errors: nat, ghost deleted: set<EdgeKey>, ghost restored: set<EdgeKey>)
    modifies table
    ensures restored <= deleted <= groups.Keys
    ensures table.rows == OutOfGroups(old(table.rows), deleted) + StoredGroups(groups, restored)
    ensures deleted <= NonEmptyKeys(groups) && errors == |NonEmptyKeys(groups) - restored|
    ensures errors == 0 ==> restored == deleted == NonEmptyKeys(groups)
  {
    var keys := NonEmptyKeys(groups);
    var pending, failed := DeleteGroups(table, keys);
    deleted := pending;
    errors, restored := RestoreGroups(table, groups, pending);
    errors := errors + failed;
    MissingAddUp(keys, deleted, restored);
  }

  lemma MissingAddUp(keys: set<EdgeKey>, deleted: set<EdgeKey>, restored: set<EdgeKey>)
    requires restored <= deleted <= keys
    ensures |keys - restored| == |keys - deleted| + |deleted - restored|
    ensures |keys - restored| == 0 ==> restored == deleted == keys
  {
    assert keys - restored == (keys - deleted) + (deleted - restored);
    if |keys - restored| == 0 {
      assert keys - restored == {};
    }
  }

  /** Every key is still to do, settled or missed. */
  ghost predicate Divided(keys: set<EdgeKey>, todo: set<EdgeKey>, settled: set<EdgeKey>, missed: set<EdgeKey>)
  {
    todo + settled + missed == keys && todo !! settled && todo !! missed && settled !! missed
  }

  lemma DividedNext(keys: set<EdgeKey>, todo: set<EdgeKey>, settled: set<EdgeKey>, missed: set<EdgeKey>, key: EdgeKey)
    requires Divided(keys, todo, settled, missed) && key in todo
    ensures Divided(keys, todo - {key}, settled + {key}, missed)
    ensures Divided(keys, todo - {key}, settled, missed + {key}) && |missed + {key}| == |missed| + 1
    ensures key in keys && key !in settled && |todo - {key}| < |todo|
  {
  }

  lemma MissedAtEnd(keys: set<EdgeKey>, settled: set<EdgeKey>, missed: set<EdgeKey>)
    requires Divided(keys, {}, settled, missed)
    ensures settled <= keys && keys - settled == missed
  {
  }

  method DeleteGroups(table: EdgeTable, keys: set<EdgeKey>) returns (deleted: set<EdgeKey>, errors: nat)
    modifies table
    ensures deleted <= keys && errors == |keys - deleted|
    ensures table.rows == OutOfGroups(old(table.rows), deleted)
  {
    deleted, errors := {}, 0;
    ghost var missed: set<EdgeKey> := {};
    var todo := keys;
    ghost var before := table.rows;
    NoGroups(before);
    while todo != {}
      invariant Divided(keys, todo, deleted, missed) && errors == |missed|
      invariant table.rows == OutOfGroups(before, deleted)
      decreases |todo|
    {
      var key :| key in todo;
      DividedNext(keys, todo, deleted, missed, key);
      todo := todo - {key};
      var ok := table.DeleteByKindAndDst(key);
      if ok {
        OutOfMoreGroups(before, deleted, key);
        deleted := deleted + {key};
      } else {
        missed := missed + {key};
        errors := errors + 1;
      }
    }
    MissedAtEnd(keys, deleted, missed);
  }

  method RestoreGroups(table: EdgeTable, groups: map<EdgeKey, seq<Edge>>, keys: set<EdgeKey>) returns (errors: nat, ghost restored: set<EdgeKey>)
    requires keys <= groups.Keys
    modifies table
    ensures restored <= keys && errors == |keys - restored|
    ensures table.rows == old(table.rows) + StoredGroups(groups, restored)
  {
    errors, restored := 0, {};
    ghost var missed: set<EdgeKey> := {};
    ghost var before, stored: multiset<Edge> := table.rows, multiset{};
    var todo := keys;
    NoStoredGroup(groups);
    while todo != {}
      invariant Divided(keys, todo, restored, missed) && errors == |missed|
      invariant stored == StoredGroups(groups, restored) && table.rows == before + stored
      decreases |todo|
    {
      var key :| key in todo;
      DividedNext(keys, todo, restored, missed, key);
      OneMoreGroup(restored, key, groups);
      todo := todo - {key};
      var ok := table.BatchStoreEdges(groups[key]);
      if ok {
        Associate(before, stored, multiset(groups[key]));
        stored := stored + multiset(groups[key]);
        restored := restored + {key};
      } else {
        missed := missed + {key};
        errors := errors + 1;
      }
    }
    MissedAtEnd(keys, restored, missed);
  }

  lemma Associate(a: multiset<Edge>, b: multiset<Edge>, c: multiset<Edge>)
    ensures (a + b) + c == a + (b + c)
  {
  }

  lemma NoStoredGroup(groups: map<EdgeKey, seq<Edge>>)
    ensures StoredGroups(groups, {}) == multiset{}
  {
    var none: set<EdgeKey> := {};
    assert multiset(none) == multiset{};
    FlatMapNone(StoredGroup(groups));
  }

  lemma OneMoreGroup(keys: set<EdgeKey>, key: EdgeKey, groups: map<EdgeKey, seq<Edge>>)
    requires key !in keys && key in groups
    ensures StoredGroups(groups, keys + {key}) == StoredGroups(groups, keys) + multiset(groups[key])
  {
    assert multiset(keys + {key}) == multiset(keys) + multiset{key};
    FlatMapAdd(multiset(keys), key, StoredGroup(groups));
  }

  /** The groups handed over are complete: each holds the resolved form of every stored edge of its key. */
  ghost predicate CompleteGroups(rows: multiset<Edge>, groups: map<EdgeKey, seq<Edge>>, config: seq<Units.Unit>)
  {
    forall key :: key in groups ==> multiset(groups[key]) == ResolveAll(InGroups(rows, {key}), config)
  }

  /** An edge is rewritten when the delete of its group went through. */
  ghost function RewriteOne(config: seq<Units.Unit>, deleted: set<EdgeKey>): Edge -> multiset<Edge>
  {
    e => if KeyOf(e) in deleted then multiset{Resolve(e, config)} else multiset{e}
  }

  lemma {:induction false} GroupsAddUp(rows: multiset<Edge>, groups: map<EdgeKey, seq<Edge>>, config: seq<Units.Unit>, keys: set<EdgeKey>)
    requires CompleteGroups(rows, groups, config) && keys <= groups.Keys
    ensures StoredGroups(groups, keys) == ResolveAll(InGroups(rows, keys), config)
    decreases |keys|
  {
    if keys == {} {
      NoGroups(rows);
      NoStoredGroup(groups);
      FlatMapNone(ResolveOne(config));
    } else {
      var key :| key in keys;
      var rest := keys - {key};
      GroupsAddUp(rows, groups, config, rest);
      OneMoreGroup(rest, key, groups);
      var a, b := InGroups(rows, rest), InGroups(rows, {key});
      InMoreGroups(rows, rest, key);
      assert rest + {key} == keys;
      FlatMapUnion(a, b, ResolveOne(config));
    }
  }

  lemma {:induction false} FlatMapSingletons(rows: multiset<Edge>, f: Edge -> multiset<Edge>)
    requires forall e :: e in rows ==> f(e) == multiset{e}
    ensures FlatMap(rows, f) == rows
    decreases |rows|
  {
    if rows == multiset{} {
      FlatMapNone(f);
    } else {
      var e :| e in rows;
      var rest := rows - multiset{e};
      assert rows == rest + multiset{e};
      FlatMapSingletons(rest, f);
      FlatMapAdd(rest, e, f);
    }
  }

  /** Conservation: whatever failed, the table afterwards is the table before with every edge of a
      deleted group renamed, less the groups that could not be stored again.  Nothing is ever
      duplicated, whichever keys the new names land on. */
  lemma RewriteConserves(rows: multiset<Edge>, groups: map<EdgeKey, seq<Edge>>, config: seq<Units.Unit>, deleted: set<EdgeKey>, restored: set<EdgeKey>)
    requires CompleteGroups(rows, groups, config) && restored <= deleted <= groups.Keys
    ensures OutOfGroups(rows, deleted) + StoredGroups(groups, restored)
         == FlatMap(OutOfGroups(rows, deleted - restored), RewriteOne(config, deleted))
  {
    GroupsAddUp(rows, groups, config, restored);
    OutOfFewerGroups(rows, deleted, restored);
    FlatMapUnion(OutOfGroups(rows, deleted), InGroups(rows, restored), RewriteOne(config, deleted));
    KeptStay(rows, config, deleted);
    MovedResolve(rows, config, deleted, restored);
  }

  lemma KeptStay(rows: multiset<Edge>, config: seq<Units.Unit>, deleted: set<EdgeKey>)
    ensures FlatMap(OutOfGroups(rows, deleted), RewriteOne(config, deleted)) == OutOfGroups(rows, deleted)
  {
    FlatMapSingletons(OutOfGroups(rows, deleted), RewriteOne(config, deleted));
  }

  lemma MovedResolve(rows: multiset<Edge>, config: seq<Units.Unit>, deleted: set<EdgeKey>, restored: set<EdgeKey>)
    requires restored <= deleted
    ensures FlatMap(InGroups(rows, restored), RewriteOne(config, deleted)) == ResolveAll(InGroups(rows, restored), config)
  {
    FlatMapAgree(InGroups(rows, restored), RewriteOne(config, deleted), ResolveOne(config));
  }

  /** The rewritten table is the old one's size less the groups that could not be stored again. */
  lemma RewriteKeepsSize(rows: multiset<Edge>, groups: map<EdgeKey, seq<Edge>>, config: seq<Units.Unit>, deleted: set<EdgeKey>, restored: set<EdgeKey>)
    requires CompleteGroups(rows, groups, config) && restored <= deleted <= groups.Keys
    ensures |OutOfGroups(rows, deleted) + StoredGroups(groups, restored)| == |rows| - |InGroups(rows, deleted - restored)|
  {
    RewriteConserves(rows, groups, config, deleted, restored);
    FlatMapOnesKeepsSize(OutOfGroups(rows, deleted - restored), RewriteOne(config, deleted));
    GroupsSplit(rows, deleted - restored);
  }

  lemma GroupsSplit(rows: multiset<Edge>, keys: set<EdgeKey>)
    ensures |OutOfGroups(rows, keys)| + |InGroups(rows, keys)| == |rows|
  {
    assert rows == OutOfGroups(rows, keys) + InGroups(rows, keys);
  }

  lemma {:induction false} FlatMapOnesKeepsSize(rows: multiset<Edge>, f: Edge -> multiset<Edge>)
    requires forall e :: e in rows ==> |f(e)| == 1
    ensures |FlatMap(rows, f)| == |rows|
    decreases |rows|
  {
    if rows == multiset{} {
      FlatMapNone(f);
    } else {
      var e :| e in rows;
      var rest := rows - multiset{e};
      assert rows == rest + multiset{e};
      FlatMapOnesKeepsSize(rest, f);
      FlatMapAdd(rest, e, f);
    }
  }

  // ---------------------------------------------------------------------------
  // The pass
  // ---------------------------------------------------------------------------

  /** The topic keys of every rewritten edge, before and after. */
  ghost function Touched(rows: multiset<Edge>, config: seq<Units.Unit>): set<string>
  {
    (set e | e in rows && Resolve(e, config) != e :: e.dstName) + (set e | e in rows && Resolve(e, config) != e :: Resolve(e, config).dstName)
  }

  /** The positions of a group's edges, in order. */
  function Positions(edges: seq<Edge>, key: EdgeKey): (r: seq<nat>)
    ensures forall k :: 0 <= k < |r| ==> r[k] < |edges| && KeyOf(edges[r[k]]) == key
  {
    if edges == [] then []
    else
      var rest := Positions(edges[..|edges| - 1], key);
      if KeyOf(edges[|edges| - 1]) == key then rest + [|edges| - 1] else rest
  }

  function Pick(edges: seq<Edge>, positions: seq<nat>): (r: seq<Edge>)
    requires forall k :: 0 <= k < |positions| ==> positions[k] < |edges|
    ensures |r| == |positions| && forall k :: 0 <= k < |r| ==> r[k] == edges[positions[k]]
  {
    seq(|positions|, k requires 0 <= k < |positions| => edges[positions[k]])
  }

  lemma {:induction false} PickedGroupIsResolved(edges: seq<Edge>, current: seq<Edge>, key: EdgeKey, config: seq<Units.Unit>)
    requires |edges| <= |current| && forall i :: 0 <= i < |edges| ==> current[i] == Resolve(edges[i], config)
    ensures multiset(Pick(current, Positions(edges, key))) == ResolveAll(InGroups(multiset(edges), {key}), config)
  {
    if edges == [] {
      assert InGroups(multiset(edges), {key}) == multiset{};
      FlatMapNone(ResolveOne(config));
    } else {
      var front, last := edges[..|edges| - 1], edges[|edges| - 1];
      assert edges == front + [last];
      PickedGroupIsResolved(front, current, key, config);
      InGroupsAdd(multiset(front), last, {key});
      PickedNext(edges, current, key, config);
      if KeyOf(last) == key {
        FlatMapAdd(InGroups(multiset(front), {key}), last, ResolveOne(config));
      }
    }
  }

  lemma PickedNext(edges: seq<Edge>, current: seq<Edge>, key: EdgeKey, config: seq<Units.Unit>)
    requires edges != [] && |edges| <= |current| && forall i :: 0 <= i < |edges| ==> current[i] == Resolve(edges[i], config)
    ensures var front, last := edges[..|edges| - 1], edges[|edges| - 1];
            Pick(current, Positions(edges, key)) ==
              Pick(current, Positions(front, key)) + if KeyOf(last) == key then [Resolve(last, config)] else []
  {
  }

  ghost predicate IsGrouping(groups: map<EdgeKey, seq<nat>>, edges: seq<Edge>)
  {
    forall key: EdgeKey :: Units.Bucket(groups, key) == Positions(edges, key)
  }

  lemma GroupGrows(groups: map<EdgeKey, seq<nat>>, edges: seq<Edge>, i: nat)
    requires i < |edges| && IsGrouping(groups, edges[..i])
    ensures IsGrouping(groups[KeyOf(edges[i]) := Units.Bucket(groups, KeyOf(edges[i])) + [i]], edges[..i + 1])
  {
    assert edges[..i + 1][..i] == edges[..i];
    var next := groups[KeyOf(edges[i]) := Units.Bucket(groups, KeyOf(edges[i])) + [i]];
    forall key: EdgeKey ensures Units.Bucket(next, key) == Positions(edges[..i + 1], key) {
      assert Units.Bucket(groups, key) == Positions(edges[..i], key);
    }
  }

  /** The places below n of the edges that carry a reference, in order. */
  ghost predicate RefPlaces(refs: seq<nat>, edges: seq<Edge>, n: nat)
    requires n <= |edges|
  {
    && (forall k :: 0 <= k < |refs| ==> refs[k] < n && RefOf(edges[refs[k]]) != "")
    && (forall k, l :: 0 <= k < l < |refs| ==> refs[k] < refs[l])
    && (forall i :: 0 <= i < n && RefOf(edges[i]) != "" ==> i in refs)
  }

  lemma RefPlacesNext(refs: seq<nat>, edges: seq<Edge>, n: nat)
    requires n < |edges| && RefPlaces(refs, edges, n)
    ensures RefPlaces(if RefOf(edges[n]) != "" then refs + [n] else refs, edges, n + 1)
  {
    if RefOf(edges[n]) != "" {
      var carrying := set i: nat | i < |edges| && RefOf(edges[i]) != "";
      PlacesGrow(refs, carrying, n);
    }
  }

  lemma PlacesGrow(refs: seq<nat>, carrying: set<nat>, n: nat)
    requires n in carrying && forall k :: 0 <= k < |refs| ==> refs[k] < n && refs[k] in carrying
    requires forall i: nat :: i < n && i in carrying ==> i in refs
    ensures forall k :: 0 <= k < |refs + [n]| ==> (refs + [n])[k] < n + 1 && (refs + [n])[k] in carrying
    ensures forall i: nat :: i < n + 1 && i in carrying ==> i in refs + [n]
  {
  }

  ghost predicate KeysFiled(groups: map<EdgeKey, seq<nat>>, edges: seq<Edge>, n: nat)
    requires n <= |edges|
  {
    forall j :: 0 <= j < n ==> KeyOf(edges[j]) in groups
  }

  /** One loaded edge filed under its key, and noted when it carries a reference. */
  method SortOne(groups: map<EdgeKey, seq<nat>>, refs: seq<nat>, edges: seq<Edge>, i: nat) returns (groups': map<EdgeKey, seq<nat>>, refs': seq<nat>)
    requires i < |edges| && IsGrouping(groups, edges[..i]) && RefPlaces(refs, edges, i) && KeysFiled(groups, edges, i)
    ensures IsGrouping(groups', edges[..i + 1]) && RefPlaces(refs', edges, i + 1) && KeysFiled(groups', edges, i + 1)
  {
    GroupGrows(groups, edges, i);
    RefPlacesNext(refs, edges, i);
    var key := KeyOf(edges[i]);
    groups' := groups[key := Units.Bucket(groups, key) + [i]];
    refs' := if RefOf(edges[i]) != "" then refs + [i] else refs;
  }

  /** First sweep: the groups of the loaded edges, and the positions that carry a reference. */
  method Sort(edges: seq<Edge>) returns (groups: map<EdgeKey, seq<nat>>, refs: seq<nat>)
    ensures IsGrouping(groups, edges) && RefPlaces(refs, edges, |edges|) && KeysFiled(groups, edges, |edges|)
  {
    groups, refs := map[], [];
    for i := 0 to |edges|
      invariant IsGrouping(groups, edges[..i]) && RefPlaces(refs, edges, i) && KeysFiled(groups, edges, i)
    {
      groups, refs := SortOne(groups, refs, edges, i);
    }
    assert edges[..|edges|] == edges;
  }

  /** The groups of the edges that moved, and their old and new names. */
  function MovedKeys(edges: seq<Edge>, current: seq<Edge>): set<EdgeKey>
    requires |edges| == |current|
  {
    if edges == [] then {}
    else
      var n := |edges| - 1;
      MovedKeys(edges[..n], current[..n]) + if current[n] != edges[n] then {KeyOf(edges[n])} else {}
  }

  function MovedNames(edges: seq<Edge>, current: seq<Edge>): set<string>
    requires |edges| == |current|
  {
    if edges == [] then {}
    else
      var n := |edges| - 1;
      MovedNames(edges[..n], current[..n]) + if current[n] != edges[n] then {edges[n].dstName, current[n].dstName} else {}
  }

  lemma {:induction false} NoteMove(edges: seq<Edge>, current: seq<Edge>, i: nat, moved: Edge)
    requires |edges| == |current| && i < |edges| && current[i] == edges[i] && moved != edges[i]
    ensures MovedKeys(edges, current[i := moved]) == MovedKeys(edges, current) + {KeyOf(edges[i])}
    ensures MovedNames(edges, current[i := moved]) == MovedNames(edges, current) + {edges[i].dstName, moved.dstName}
  {
    var n := |edges| - 1;
    if i == n {
      assert current[i := moved][..n] == current[..n];
    } else {
      NoteMove(edges[..n], current[..n], i, moved);
      assert current[i := moved][..n] == current[..n][i := moved];
    }
  }

  lemma {:induction false} NothingMoved(edges: seq<Edge>)
    ensures MovedKeys(edges, edges) == {} && MovedNames(edges, edges) == {}
  {
    if edges != [] {
      NothingMoved(edges[..|edges| - 1]);
    }
  }

  lemma {:induction false} MovedIsNoted(edges: seq<Edge>, current: seq<Edge>, i: nat)
    requires |edges| == |current| && i < |edges| && current[i] != edges[i]
    ensures KeyOf(edges[i]) in MovedKeys(edges, current)
    ensures edges[i].dstName in MovedNames(edges, current) && current[i].dstName in MovedNames(edges, current)
  {
    if i < |edges| - 1 {
      MovedIsNoted(edges[..|edges| - 1], current[..|edges| - 1], i);
    }
  }

  lemma {:induction false} NotedKeyMoved(edges: seq<Edge>, current: seq<Edge>, key: EdgeKey) returns (i: nat)
    requires |edges| == |current| && key in MovedKeys(edges, current)
    ensures i < |edges| && current[i] != edges[i] && KeyOf(edges[i]) == key
  {
    i := |edges| - 1;
    if current[i] == edges[i] || KeyOf(edges[i]) != key {
      i := NotedKeyMoved(edges[..i], current[..i], key);
    }
  }

  lemma {:induction false} NotedNameMoved(edges: seq<Edge>, current: seq<Edge>, name: string) returns (i: nat)
    requires |edges| == |current| && name in MovedNames(edges, current)
    ensures i < |edges| && current[i] != edges[i] && (edges[i].dstName == name || current[i].dstName == name)
  {
    i := |edges| - 1;
    if current[i] == edges[i] || (edges[i].dstName != name && current[i].dstName != name) {
      i := NotedNameMoved(edges[..i], current[..i], name);
    }
  }

  /** Second sweep: moves every edge whose reference has a value, in memory, and notes what moved. */
  method MoveEdges(edges: seq<Edge>, refs: seq<nat>, config: seq<Units.Unit>)
    returns (current: seq<Edge>, touched: set<string>, dirty: set<EdgeKey>)
    requires forall i :: 0 <= i < |edges| ==> IsTopicEdge(edges[i])
    requires RefPlaces(refs, edges, |edges|)
    ensures |current| == |edges| && forall i :: 0 <= i < |edges| ==> current[i] == Resolve(edges[i], config)
    ensures dirty == MovedKeys(edges, current) && touched == MovedNames(edges, current)
  {
    var byLast := BuildConfigIndex(config);
    current, touched, dirty := edges, {}, {};
    NothingMoved(edges);
    for k := 0 to |refs|
      invariant |current| == |edges|
      invariant forall i :: 0 <= i < |edges| ==> current[i] == if i in refs[..k] then Resolve(edges[i], config) else edges[i]
      invariant dirty == MovedKeys(edges, current) && touched == MovedNames(edges, current)
    {
      var i := refs[k];
      var e := current[i];
      assert i !in refs[..k] && e == edges[i];
      assert forall j :: j in refs[..k + 1] <==> j in refs[..k] || j == i;
      var moved := MoveEdge(byLast, e, config);
      if moved == e {
        continue;
      }
      NoteMove(edges, current, i, moved);
      touched := touched + {e.dstName, moved.dstName};
      dirty := dirty + {KeyOf(e)};
      current := current[i := moved];
    }
  }

  /** An edge with a reference: itself while no value is found, or none that moves it. */
  method MoveEdge(byLast: map<string, seq<IndexedKey>>, e: Edge, ghost config: seq<Units.Unit>) returns (moved: Edge)
    requires IsIndexOf(byLast, IndexKeys(config)) && IsTopicEdge(e) && RefOf(e) != ""
    ensures moved == Resolve(e, config)
  {
    var ref := RefOf(e);
    var value := MatchConfigKeyIndexed(byLast, config, ref, e.repo);
    if value == "" {
      value := DefaultTopic(e.meta);
    }
    if value == "" {
      return e;
    }
    var name := Topic(value);
    if name == e.dstName && e.meta.topicRef == ref {
      return e;
    }
    moved := e.(dstName := name, meta := e.meta.(topicRef := ref));
  }

  /** The loaded edges are the table's topic edges; every other row resolves to itself. */
  ghost predicate Loaded(rows: multiset<Edge>, edges: seq<Edge>)
  {
    multiset(edges) == OfKinds(rows, {Produces, Consumes})
  }

  lemma LoadedMembers(rows: multiset<Edge>, edges: seq<Edge>)
    requires Loaded(rows, edges)
    ensures forall i :: 0 <= i < |edges| ==> edges[i] in rows && IsTopicEdge(edges[i])
    ensures forall e :: e in rows && IsTopicEdge(e) ==> e in edges
  {
    forall i | 0 <= i < |edges| ensures edges[i] in rows && IsTopicEdge(edges[i]) {
      assert edges[i] in multiset(edges);
    }
    forall e | e in rows && IsTopicEdge(e) ensures e in edges {
      assert e in multiset(edges);
    }
  }

  /** A group of the loaded edges is a whole group of the table. */
  lemma LoadedGroup(rows: multiset<Edge>, edges: seq<Edge>, key: EdgeKey)
    requires Loaded(rows, edges) && key.kind in {Produces, Consumes}
    ensures InGroups(multiset(edges), {key}) == InGroups(rows, {key})
  {
  }

  lemma GroupIsComplete(rows: multiset<Edge>, edges: seq<Edge>, current: seq<Edge>, key: EdgeKey, config: seq<Units.Unit>)
    requires Loaded(rows, edges) && key.kind in {Produces, Consumes}
    requires |current| == |edges| && forall i :: 0 <= i < |edges| ==> current[i] == Resolve(edges[i], config)
    ensures multiset(Pick(current, Positions(edges, key))) == ResolveAll(InGroups(rows, {key}), config)
  {
    PickedGroupIsResolved(edges, current, key, config);
    LoadedGroup(rows, edges, key);
  }

  lemma GroupsAreComplete(rows: multiset<Edge>, edges: seq<Edge>, current: seq<Edge>, rewrite: map<EdgeKey, seq<Edge>>, config: seq<Units.Unit>)
    requires Loaded(rows, edges)
    requires |current| == |edges| && forall i :: 0 <= i < |edges| ==> current[i] == Resolve(edges[i], config)
    requires rewrite.Keys == MovedKeys(edges, current) && forall key :: key in rewrite ==> rewrite[key] == Pick(current, Positions(edges, key))
    ensures CompleteGroups(rows, rewrite, config)
  {
    forall key | key in rewrite ensures multiset(rewrite[key]) == ResolveAll(InGroups(rows, {key}), config) {
      var i := NotedKeyMoved(edges, current, key);
      LoadedMembers(rows, edges);
      GroupIsComplete(rows, edges, current, key, config);
    }
  }

  lemma {:induction false} GroupNotEmpty(edges: seq<Edge>, i: nat)
    requires i < |edges|
    ensures Positions(edges, KeyOf(edges[i])) != []
  {
    if i < |edges| - 1 {
      GroupNotEmpty(edges[..|edges| - 1], i);
    }
  }

  /** Every edge of a clean group resolves to itself. */
  lemma CleanEdgesStay(rows: multiset<Edge>, edges: seq<Edge>, current: seq<Edge>, config: seq<Units.Unit>, e: Edge)
    requires Loaded(rows, edges)
    requires |current| == |edges| && forall i :: 0 <= i < |edges| ==> current[i] == Resolve(edges[i], config)
    requires e in rows && Resolve(e, config) != e
    ensures KeyOf(e) in MovedKeys(edges, current)
    ensures e.dstName in MovedNames(edges, current) && Resolve(e, config).dstName in MovedNames(edges, current)
  {
    LoadedMembers(rows, edges);
    var i :| 0 <= i < |edges| && edges[i] == e;
    MovedIsNoted(edges, current, i);
  }

  lemma NoErrorsResolveAll(rows: multiset<Edge>, edges: seq<Edge>, current: seq<Edge>, config: seq<Units.Unit>)
    requires Loaded(rows, edges)
    requires |current| == |edges| && forall i :: 0 <= i < |edges| ==> current[i] == Resolve(edges[i], config)
    ensures FlatMap(OutOfGroups(rows, {}), RewriteOne(config, MovedKeys(edges, current))) == ResolveAll(rows, config)
  {
    var dirty := MovedKeys(edges, current);
    NoGroups(rows);
    forall e | e in rows ensures RewriteOne(config, dirty)(e) == ResolveOne(config)(e) {
      if Resolve(e, config) != e {
        CleanEdgesStay(rows, edges, current, config, e);
      }
    }
    FlatMapAgree(rows, RewriteOne(config, dirty), ResolveOne(config));
  }

  lemma TouchedIsExact(rows: multiset<Edge>, edges: seq<Edge>, current: seq<Edge>, config: seq<Units.Unit>)
    requires Loaded(rows, edges)
    requires |current| == |edges| && forall i :: 0 <= i < |edges| ==> current[i] == Resolve(edges[i], config)
    ensures MovedNames(edges, current) == Touched(rows, config)
  {
    forall t | t in MovedNames(edges, current) ensures t in Touched(rows, config) {
      var i := NotedNameMoved(edges, current, t);
      LoadedMembers(rows, edges);
      assert edges[i] in rows && Resolve(edges[i], config) != edges[i];
    }
    forall t | t in Touched(rows, config) ensures t in MovedNames(edges, current) {
      var e :| e in rows && Resolve(e, config) != e && (e.dstName == t || Resolve(e, config).dstName == t);
      CleanEdgesStay(rows, edges, current, config, e);
    }
  }

  /** Whatever fails, the table afterwards is the table before with every edge of a deleted group
      resolved, less the groups that could not be stored again; when nothing fails it is the table
      before with every edge resolved.  `touched` is exact either way. */
  method ResolveConfigRefs(table: EdgeTable, config: seq<Units.Unit>)
    returns (touched: set<string>, errors: nat, ghost deleted: set<EdgeKey>, ghost restored: set<EdgeKey>)
    modifies table
    ensures restored <= deleted && |table.rows| == |old(table.rows)| - |InGroups(old(table.rows), deleted - restored)|
    ensures table.rows == FlatMap(OutOfGroups(old(table.rows), deleted - restored), RewriteOne(config, deleted))
    ensures errors == 0 ==> table.rows == ResolveAll(old(table.rows), config)
    ensures errors == 0 ==> RowsResolve(old(table.rows), table.rows, config)
    ensures touched == Touched(old(table.rows), config) && forall key :: key in deleted ==> key.dstName in touched
  {
    ghost var rows := table.rows;
    var edges := table.GetEdges({Produces, Consumes});
    LoadedMembers(rows, edges);
    var groups, refs := Sort(edges);
    var current, dirty;
    current, touched, dirty := MoveEdges(edges, refs, config);
    var rewrite := CollectGroups(edges, current, groups, dirty);
    GroupsAreComplete(rows, edges, current, rewrite, config);
    errors, deleted, restored := RewriteEdgeGroups(table, rewrite);
    RewriteConserves(rows, rewrite, config, deleted, restored);
    RewriteKeepsSize(rows, rewrite, config, deleted, restored);
    if errors == 0 {
      assert deleted == dirty;
      assert deleted - restored == {};
      NoErrorsResolveAll(rows, edges, current, config);
      ResolveAllResolves(rows, config);
    }
    TouchedIsExact(rows, edges, current, config);
    forall key | key in deleted ensures key.dstName in touched {
      var i := NotedKeyMoved(edges, current, key);
      MovedIsNoted(edges, current, i);
    }
  }

  method CollectGroups(edges: seq<Edge>, current: seq<Edge>, groups: map<EdgeKey, seq<nat>>, dirty: set<EdgeKey>)
    returns (rewrite: map<EdgeKey, seq<Edge>>)
    requires |current| == |edges| && dirty == MovedKeys(edges, current)
    requires IsGrouping(groups, edges)
    requires KeysFiled(groups, edges, |edges|)
    ensures rewrite.Keys == dirty
    ensures forall key :: key in dirty ==> rewrite[key] == Pick(current, Positions(edges, key)) && rewrite[key] != []
  {
    forall key | key in dirty ensures key in groups && groups[key] == Positions(edges, key) && groups[key] != [] {
      var i := NotedKeyMoved(edges, current, key);
      GroupNotEmpty(edges, i);
      assert groups[key] == Units.Bucket(groups, key);
    }
    rewrite := map key | key in dirty :: Pick(current, groups[key]);
  }

  // ---------------------------------------------------------------------------
  // Running it again
  // ---------------------------------------------------------------------------

  /** What the resolved value would be read as on the next run. */
  function RefInValue(value: string): string
  {
    match ParseTopicRef(Topic(value))
    case Some(ref) => ref
    case None => ""
  }

  /** A second run leaves a resolved edge alone exactly when its value is not itself a reference, or
      is one without a value of its own, or one that resolves to itself. */
  predicate Settles(e: Edge, config: seq<Units.Unit>)
  {
    var value := ValueOf(e, config);
    var again := Resolve(e, config);
    !IsTopicEdge(e) || RefOf(e) == "" || value == ""
    || RefInValue(value) == ""
    || ValueOf(again, config) == ""
    || (ValueOf(again, config) == value && RefInValue(value) == RefOf(e))
  }

  lemma TopicInjective(a: string, b: string)
    ensures Topic(a) == Topic(b) <==> a == b
  {
    assert Topic(a)[|TOPIC_PREFIX|..] == a && Topic(b)[|TOPIC_PREFIX|..] == b;
  }

  lemma SecondRunSettles(e: Edge, config: seq<Units.Unit>)
    ensures Resolve(Resolve(e, config), config) == Resolve(e, config) <==> Settles(e, config)
  {
    var again := Resolve(e, config);
    var value := ValueOf(e, config);
    if IsTopicEdge(e) && RefOf(e) != "" && value != "" {
      TopicInjective(value, ValueOf(again, config));
      if ParseTopicRef(Topic(value)).None? {
        assert RefOf(again) == RefOf(e) && ValueOf(again, config) == value;
      }
    }
  }

  /** A plain value never looks like a reference. */
  lemma PlainValuesSettle(e: Edge, config: seq<Units.Unit>)
    requires !HasPrefix(ValueOf(e, config), "${")
    ensures Resolve(Resolve(e, config), config) == Resolve(e, config)
  {
    var value := ValueOf(e, config);
    assert TOPIC_REF_PREFIX == TOPIC_PREFIX + "${" && value == Topic(value)[|TOPIC_PREFIX|..];
    SecondRunSettles(e, config);
  }

  lemma {:induction false} ResolveTwice(rows: multiset<Edge>, config: seq<Units.Unit>)
    requires forall e :: e in rows ==> Settles(e, config)
    ensures ResolveAll(ResolveAll(rows, config), config) == ResolveAll(rows, config)
    ensures Touched(ResolveAll(rows, config), config) == {}
  {
    var once := ResolveAll(rows, config);
    forall e | e in once ensures Resolve(e, config) == e {
      var from := FlatMapMember(rows, ResolveOne(config), e);
      SecondRunSettles(from, config);
    }
    FlatMapSingletons(once, ResolveOne(config));
  }
}
