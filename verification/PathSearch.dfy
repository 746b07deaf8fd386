/** Breadth-first search for a shortest directed path over a fixed store, through a cache that batches
    unit lookups. */
module PathSearch {
  import opened Wrappers

  datatype Node = Node(id: string, kind: string)

  datatype Link = Link(kind: string, src: string, dst: string)

  const IMPLEMENTS_RPC := "implements_rpc"
  const RPC_METHOD := "rpc_method"

  /** Units by id and edges in stored order. */
  datatype Store = Store(units: map<string, Node>, links: seq<Link>)

  ghost predicate Keyed(s: Store) { "" !in s.units && forall id :: id in s.units ==> s.units[id].id == id }

  // ---------------------------------------------------------------------------
  // Hops
  // ---------------------------------------------------------------------------

  /** Edge e leads from a to b: forwards for every kind but implements_rpc, which an rpc_method unit
      follows backwards to its servers. */
  predicate Leads(s: Store, e: Link, a: string, b: string)
  {
    && b in s.units
    && if e.kind == IMPLEMENTS_RPC then a in s.units && s.units[a].kind == RPC_METHOD && e.dst == a && e.src == b
       else e.src == a && e.dst == b
  }

  ghost predicate Hop(s: Store, a: string, b: string) { exists e :: e in s.links && Leads(s, e, a, b) }

  /** A hop is an edge out of the unit, other than implements_rpc, or for an rpc method such an edge into it. */
  lemma HopIs(s: Store, a: string, b: string)
    ensures Hop(s, a, b) <==>
              b in s.units &&
              (|| (exists e :: e in s.links && e.kind != "implements_rpc" && e.src == a && e.dst == b)
               || (a in s.units && s.units[a].kind == "rpc_method" && exists e :: e in s.links && e.kind == "implements_rpc" && e.src == b && e.dst == a))
  {
    if e :| e in s.links && e.kind != "implements_rpc" && e.src == a && e.dst == b && b in s.units {
      assert Leads(s, e, a, b);
    }
    if a in s.units && s.units[a].kind == "rpc_method" && b in s.units {
      if e :| e in s.links && e.kind == "implements_rpc" && e.src == b && e.dst == a {
        assert Leads(s, e, a, b);
      }
    }
  }

  /** The units at most k hops from a. */
  ghost function Within(s: Store, a: string, k: nat): set<string>
  {
    if k == 0 then {a}
    else Within(s, a, k - 1) + set b | b in s.units && (exists x :: x in Within(s, a, k - 1) && Hop(s, x, b))
  }

  ghost predicate IsWalk(s: Store, p: seq<string>) { p != [] && forall i :: 0 <= i < |p| - 1 ==> Hop(s, p[i], p[i + 1]) }

  ghost predicate Joins(s: Store, p: seq<string>, a: string, b: string) { IsWalk(s, p) && p[0] == a && p[|p| - 1] == b }

  lemma {:induction false} WalkStaysWithin(s: Store, p: seq<string>, k: nat)
    requires IsWalk(s, p) && |p| <= k + 1
    ensures p[|p| - 1] in Within(s, p[0], k)
    decreases k
  {
    if |p| > 1 {
      var front := p[..|p| - 1];
      forall i | 0 <= i < |front| - 1 ensures Hop(s, front[i], front[i + 1]) {
        assert Hop(s, p[i], p[i + 1]);
      }
      WalkStaysWithin(s, front, k - 1);
      assert Hop(s, p[|p| - 2], p[|p| - 1]);
    } else if k > 0 {
      WalkStaysWithin(s, p, k - 1);
    }
  }

  // ---------------------------------------------------------------------------
  // The loader
  // ---------------------------------------------------------------------------

  /** The units with one of the ids, in no particular order. */
  method GetUnitsByIDs(s: Store, ids: seq<string>) returns (units: seq<Node>)
    requires Keyed(s)
    ensures forall i :: 0 <= i < |units| ==> units[i].id in s.units && s.units[units[i].id] == units[i]
    ensures forall id :: id in ids && id in s.units ==> s.units[id] in units
  {
    units := [];
    for i := 0 to |ids|
      invariant forall j :: 0 <= j < |units| ==> units[j].id in s.units && s.units[units[j].id] == units[j]
      invariant forall j :: 0 <= j < i && ids[j] in s.units ==> s.units[ids[j]] in units
    {
      if ids[i] in s.units {
        units := units + [s.units[ids[i]]];
      }
    }
  }

  /** Remembers every unit asked for; None is a unit known to be missing. */
  class Loader {
    const s: Store
    var units: map<string, Option<Node>>

    ghost predicate Valid()
      reads this
    {
      && Keyed(s)
      && forall id :: id in units ==> units[id] == Stored(id)
    }

    ghost function Stored(id: string): Option<Node> { if id in s.units then Some(s.units[id]) else None }

    constructor (store: Store)
      requires Keyed(store)
      ensures Valid() && s == store && units == map[]
    {
      s, units := store, map[];
    }

    /** The ids worth asking the store for, each once. */
    method Missing(ids: seq<string>) returns (missing: seq<string>)
      ensures forall id :: id in missing <==> id in ids && id != "" && id !in units
      ensures forall i, j :: 0 <= i < j < |missing| ==> missing[i] != missing[j]
    {
      missing := [];
      var requested: set<string> := {};
      for i := 0 to |ids|
        invariant forall id :: id in requested <==> id in ids[..i] && id != ""
        invariant forall id :: id in missing <==> id in ids[..i] && id != "" && id !in units
        invariant forall x, y :: 0 <= x < y < |missing| ==> missing[x] != missing[y]
      {
        assert ids[..i + 1] == ids[..i] + [ids[i]];
        if ids[i] == "" || ids[i] in requested {
          continue;
        }
        requested := requested + {ids[i]};
        if ids[i] !in units {
          missing := missing + [ids[i]];
        }
      }
      assert ids[..|ids|] == ids;
    }

    /** Afterwards every id asked for is in the cache. */
    method UnitsByIDs(ids: seq<string>)
      requires Valid()
      modifies this
      ensures Valid() && forall id :: id in ids && id != "" ==> id in units
      ensures forall id :: id in old(units) ==> id in units
    {
      var missing := Missing(ids);
      if missing == [] {
        return;
      }
      var found := GetUnitsByIDs(s, missing);
      for i := 0 to |found|
        invariant Valid() && forall id :: id in old(units) ==> id in units
        invariant forall j :: 0 <= j < i ==> found[j].id in units
      {
        units := units[found[i].id := Some(found[i])];
      }
      forall id | id in missing && id in s.units ensures id in units {
        var j :| 0 <= j < |found| && found[j] == s.units[id];
      }
      for i := 0 to |missing|
        invariant Valid() && forall id :: id in old(units) ==> id in units
        invariant forall id :: id in missing && id in s.units ==> id in units
        invariant forall j :: 0 <= j < i ==> missing[j] in units
      {
        if missing[i] !in units {
          units := units[missing[i] := None];
        }
      }
    }

    method Unit(id: string) returns (u: Option<Node>)
      requires Valid()
      modifies this
      ensures Valid() && u == Stored(id)
    {
      if id in units {
        return units[id];
      }
      u := if id in s.units then Some(s.units[id]) else None;
      units := units[id := u];
    }

    function Cached(id: string): Option<Node>
      reads this
    {
      if id in units then units[id] else None
    }
  }

  // ---------------------------------------------------------------------------
  // Successors
  // ---------------------------------------------------------------------------

  datatype Step = Step(link: Link, unit: Node)

  /** The steps are the hops from a: each leads to its unit, and none is missing. */
  ghost predicate AreHops(s: Store, a: string, steps: seq<Step>)
  {
    && (forall i :: 0 <= i < |steps| ==> IsStep(s, a, steps[i]))
    && forall b :: Hop(s, a, b) ==> Reached(steps, b)
  }

  ghost predicate IsStep(s: Store, a: string, n: Step)
  {
    n.link in s.links && Leads(s, n.link, a, n.unit.id) && s.units[n.unit.id] == n.unit
  }

  function Forward(links: seq<Link>, a: string): (r: seq<Link>)
    ensures forall e :: e in r <==> e in links && e.src == a && e.dst != "" && e.kind != IMPLEMENTS_RPC
  {
    if links == [] then []
    else
      var rest := Forward(links[..|links| - 1], a);
      var e := links[|links| - 1];
      if e.src == a && e.dst != "" && e.kind != IMPLEMENTS_RPC then rest + [e] else rest
  }

  function Backward(links: seq<Link>, a: string): (r: seq<Link>)
    ensures forall e :: e in r <==> e in links && e.dst == a && e.kind == IMPLEMENTS_RPC
  {
    if links == [] then []
    else
      var rest := Backward(links[..|links| - 1], a);
      var e := links[|links| - 1];
      if e.dst == a && e.kind == IMPLEMENTS_RPC then rest + [e] else rest
  }

  /** The far end of an edge, in the direction it is followed. */
  function Far(e: Link): string { if e.kind == IMPLEMENTS_RPC then e.src else e.dst }

  function FarEnds(links: seq<Link>): (r: seq<string>)
    ensures |r| == |links| && forall i :: 0 <= i < |links| ==> r[i] == Far(links[i])
  {
    seq(|links|, i requires 0 <= i < |links| => Far(links[i]))
  }

  predicate Lands(s: Store, links: seq<Link>, n: Step)
  {
    n.link in links && Far(n.link) == n.unit.id && n.unit.id in s.units && s.units[n.unit.id] == n.unit
  }

  ghost predicate Reached(steps: seq<Step>, b: string) { exists j :: 0 <= j < |steps| && steps[j].unit.id == b }

  /** One step for each edge whose far end exists, and no other. */
  ghost predicate Along(s: Store, links: seq<Link>, steps: seq<Step>)
  {
    && (forall i :: 0 <= i < |steps| ==> Lands(s, links, steps[i]))
    && (forall i :: 0 <= i < |links| && Far(links[i]) in s.units ==> Reached(steps, Far(links[i])))
  }

  lemma ReachedGrows(steps: seq<Step>, more: seq<Step>, b: string)
    requires Reached(steps, b) || Reached(more, b)
    ensures Reached(steps + more, b)
  {
    if Reached(steps, b) {
      var j :| 0 <= j < |steps| && steps[j].unit.id == b;
      assert (steps + more)[j] == steps[j];
    } else {
      var j :| 0 <= j < |more| && more[j].unit.id == b;
      assert (steps + more)[|steps| + j] == more[j];
    }
  }

  method StepsAlong(ld: Loader, links: seq<Link>) returns (steps: seq<Step>)
    requires ld.Valid() && forall i :: 0 <= i < |links| && Far(links[i]) != "" ==> Far(links[i]) in ld.units
    ensures Along(ld.s, links, steps)
  {
    steps := [];
    for i := 0 to |links|
      invariant forall j :: 0 <= j < |steps| ==> Lands(ld.s, links, steps[j])
      invariant forall k :: 0 <= k < i && Far(links[k]) in ld.s.units ==> Reached(steps, Far(links[k]))
    {
      var u := ld.Cached(Far(links[i]));
      if u.Some? {
        var n := Step(links[i], u.value);
        forall b | Reached(steps, b) || b == n.unit.id ensures Reached(steps + [n], b) {
          assert [n][0] == n;
          ReachedGrows(steps, [n], b);
        }
        steps := steps + [n];
      }
    }
  }

  method Expand(ld: Loader, a: string) returns (steps: seq<Step>)
    requires ld.Valid() && a in ld.s.units
    modifies ld
    ensures ld.Valid() && AreHops(ld.s, a, steps)
  {
    var out := Forward(ld.s.links, a);
    ld.UnitsByIDs([a] + FarEnds(out));
    assert ([a] + FarEnds(out))[0] == a;
    forall i | 0 <= i < |out| ensures Far(out[i]) in ld.units {
      assert ([a] + FarEnds(out))[i + 1] == Far(out[i]) && out[i] in out;
    }
    steps := StepsAlong(ld, out);
    ghost var back := [];
    if ld.Cached(a).Some? && ld.Cached(a).value.kind == RPC_METHOD {
      var impls := Backward(ld.s.links, a);
      back := impls;
      ld.UnitsByIDs(FarEnds(impls));
      forall i | 0 <= i < |impls| && Far(impls[i]) != "" ensures Far(impls[i]) in ld.units {
        assert FarEnds(impls)[i] == Far(impls[i]);
      }
      var more := StepsAlong(ld, impls);
      CombineHops(ld.s, a, out, impls, steps, more);
      steps := steps + more;
    } else {
      CombineHops(ld.s, a, out, [], steps, []);
      assert steps + [] == steps;
    }
  }

  lemma CombineHops(s: Store, a: string, out: seq<Link>, impls: seq<Link>, steps: seq<Step>, more: seq<Step>)
    requires Keyed(s) && a in s.units && out == Forward(s.links, a)
    requires impls == if s.units[a].kind == RPC_METHOD then Backward(s.links, a) else []
    requires Along(s, out, steps) && Along(s, impls, more)
    ensures AreHops(s, a, steps + more)
  {
    forall n | Lands(s, out, n) || Lands(s, impls, n) ensures IsStep(s, a, n) {
      assert n.link in out || n.link in impls;
    }
    forall b | Hop(s, a, b) ensures Reached(steps + more, b) {
      HopIsReached(s, a, out, impls, steps, more, b);
      ReachedGrows(steps, more, b);
    }
  }

  lemma HopIsReached(s: Store, a: string, out: seq<Link>, impls: seq<Link>, steps: seq<Step>, more: seq<Step>, b: string)
    requires Keyed(s) && a in s.units && out == Forward(s.links, a)
    requires impls == if s.units[a].kind == RPC_METHOD then Backward(s.links, a) else []
    requires Along(s, out, steps) && Along(s, impls, more) && Hop(s, a, b)
    ensures Reached(steps, b) || Reached(more, b)
  {
    var e :| e in s.links && Leads(s, e, a, b);
    assert Far(e) == b;
    if e.kind == IMPLEMENTS_RPC {
      assert e in impls;
    } else {
      assert e in out;
    }
  }

  // ---------------------------------------------------------------------------
  // The search
  // ---------------------------------------------------------------------------

  /** One node of an answer; the first has no edge. */
  datatype PathStep = PathStep(link: Option<Link>, unit: Node)

  datatype Item = Item(id: string, path: seq<PathStep>)

  function Ids(path: seq<PathStep>): (r: seq<string>)
    ensures |r| == |path| && forall i :: 0 <= i < |path| ==> r[i] == path[i].unit.id
  {
    seq(|path|, i requires 0 <= i < |path| => path[i].unit.id)
  }

  /** A path of the store from a to b: its units are stored, its edges lead from each to the next. */
  ghost predicate IsPath(s: Store, path: seq<PathStep>, a: string, b: string)
  {
    && path != [] && path[0].unit.id == a && path[0].link.None? && path[|path| - 1].unit.id == b
    && (forall i :: 0 <= i < |path| ==> path[i].unit.id in s.units && s.units[path[i].unit.id] == path[i].unit)
    && (forall i :: 0 < i < |path| ==> path[i].link.Some? && IsStep(s, path[i - 1].unit.id, Step(path[i].link.value, path[i].unit)))
  }

  lemma PathIsWalk(s: Store, path: seq<PathStep>, a: string, b: string)
    requires IsPath(s, path, a, b)
    ensures Joins(s, Ids(path), a, b)
  {
    var p := Ids(path);
    forall i | 0 <= i < |p| - 1 ensures Hop(s, p[i], p[i + 1]) {
      assert IsStep(s, path[i + 1 - 1].unit.id, Step(path[i + 1].link.value, path[i + 1].unit));
    }
  }

  lemma PathExtends(s: Store, path: seq<PathStep>, a: string, x: string, n: Step)
    requires IsPath(s, path, a, x) && IsStep(s, x, n)
    ensures IsPath(s, path + [PathStep(Some(n.link), n.unit)], a, n.unit.id)
  {
  }

  /** Item q stands at the least number of hops from a. */
  ghost predicate Minimal(s: Store, a: string, q: Item)
  {
    && IsPath(s, q.path, a, q.id) && q.id in s.units
    && q.id in Within(s, a, |q.path| - 1)
    && (|q.path| > 1 ==> q.id !in Within(s, a, |q.path| - 2))
  }

  ghost predicate InQueue(queue: seq<Item>, id: string) { exists i :: 0 <= i < |queue| && queue[i].id == id }

  ghost predicate AllMinimal(s: Store, a: string, queue: seq<Item>) { forall i :: 0 <= i < |queue| ==> Minimal(s, a, queue[i]) }

  ghost predicate Depths(queue: seq<Item>, d: nat)
  {
    && (forall i :: 0 <= i < |queue| ==> d + 1 <= |queue[i].path| <= d + 2)
    && (forall i, j :: 0 <= i < j < |queue| ==> |queue[i].path| <= |queue[j].path|)
  }

  /** The queue holds minimal items of depth d, then of depth d + 1. */
  ghost predicate Layered(s: Store, a: string, queue: seq<Item>, d: nat) { AllMinimal(s, a, queue) && Depths(queue, d) }

  /** Every visited unit no longer queued has all its successors visited. */
  ghost predicate Closed(s: Store, visited: set<string>, queue: seq<Item>)
  {
    forall x, b :: x in visited && !InQueue(queue, x) && Hop(s, x, b) ==> b in visited
  }

  lemma WithinGrows(s: Store, a: string, j: nat, k: nat)
    requires j <= k
    ensures Within(s, a, j) <= Within(s, a, k)
    decreases k
  {
    if j < k {
      WithinGrows(s, a, j, k - 1);
    }
  }

  /** Once everything at depth d has been expanded, everything at depth d + 1 is visited. */
  lemma NextLayerVisited(s: Store, a: string, visited: set<string>, queue: seq<Item>, d: nat)
    requires Within(s, a, d) <= visited && Closed(s, visited, queue)
    requires forall i :: 0 <= i < |queue| ==> queue[i].id !in Within(s, a, d)
    ensures Within(s, a, d + 1) <= visited
  {
    forall b | b in Within(s, a, d + 1) ensures b in visited {
      if b !in Within(s, a, d) {
        var x :| x in Within(s, a, d) && Hop(s, x, b);
        assert !InQueue(queue, x);
      }
    }
  }

  lemma AllVisited(s: Store, a: string, visited: set<string>, k: nat)
    requires a in visited && Closed(s, visited, [])
    ensures Within(s, a, k) <= visited
  {
    if k > 0 {
      AllVisited(s, a, visited, k - 1);
      forall b | b in Within(s, a, k) && b !in Within(s, a, k - 1) ensures b in visited {
        var x :| x in Within(s, a, k - 1) && Hop(s, x, b);
        assert !InQueue([], x);
      }
    }
  }

  const DEFAULT_DEPTH := 10

  function Depth(maxDepth: int): nat { if maxDepth <= 0 then DEFAULT_DEPTH else maxDepth }

  /** No walk from a to b has fewer steps. */
  ghost predicate Shortest(s: Store, path: seq<PathStep>, a: string, b: string)
  {
    forall q: seq<string> :: Joins(s, q, a, b) ==> |path| <= |q|
  }

  lemma MinimalIsShortest(s: Store, a: string, q: Item)
    requires Minimal(s, a, q)
    ensures Shortest(s, q.path, a, q.id)
  {
    forall p: seq<string> | Joins(s, p, a, q.id) ensures |q.path| <= |p| {
      if |p| < |q.path| {
        WalkStaysWithin(s, p, |q.path| - 2);
      }
    }
  }

  /** The state between two items of the queue. */
  ghost predicate Inv(s: Store, from: string, to: string, depth: nat, visited: set<string>, queue: seq<Item>, d: nat, cut: bool)
  {
    && from in visited && visited <= s.units.Keys
    && Layered(s, from, queue, d)
    && ItemsIn(queue, visited)
    && Within(s, from, d) <= visited
    && (forall i :: 0 <= i < |queue| ==> |queue[i].path| <= depth + 1)
    && (if cut then d == depth else Closed(s, visited, queue))
    && (to in visited ==> queue != [] && queue[0].id == to == from && |queue[0].path| == 1)
  }

  /** One successor of the item being expanded. */
  lemma Visit(s: Store, from: string, item: Item, n: Step, visited: set<string>, d: nat)
    requires Minimal(s, from, item) && |item.path| == d + 1 && IsStep(s, item.id, n)
    requires Within(s, from, d) <= visited && n.unit.id !in visited
    ensures Minimal(s, from, Item(n.unit.id, item.path + [PathStep(Some(n.link), n.unit)]))
  {
    PathExtends(s, item.path, from, item.id, n);
    assert Hop(s, item.id, n.unit.id);
    assert n.unit.id in Within(s, from, d + 1);
  }

  /** Expanding one item: every successor ends up visited, the new ones queued one level deeper. */
  method Enqueue(ghost s: Store, ghost from: string, to: string, item: Item, steps: seq<Step>, visited: set<string>, queue: seq<Item>, ghost d: nat)
    returns (found: Option<seq<PathStep>>, visited': set<string>, queue': seq<Item>)
    requires Minimal(s, from, item) && |item.path| == d + 1 && AreHops(s, item.id, steps)
    requires Layered(s, from, queue, d) && Within(s, from, d) <= visited && visited <= s.units.Keys && to !in visited
    requires ItemsIn(queue, visited)
    ensures found.Some? ==> IsPath(s, found.value, from, to) && |found.value| == d + 2 && Shortest(s, found.value, from, to)
    ensures found.None? ==>
              && to !in visited' && visited <= visited' <= s.units.Keys
              && queue <= queue' && Layered(s, from, queue', d)
              && ItemsIn(queue', visited')
              && (forall x :: x in visited' && x !in visited ==> InQueue(queue', x))
              && (forall b :: Hop(s, item.id, b) ==> b in visited')
              && |queue'| - |queue| == |visited'| - |visited|
  {
    visited', queue' := visited, queue;
    for i := 0 to |steps|
      invariant to !in visited' && visited <= visited' <= s.units.Keys
      invariant queue <= queue' && Layered(s, from, queue', d)
      invariant ItemsIn(queue', visited')
      invariant forall x :: x in visited' && x !in visited ==> InQueue(queue', x)
      invariant forall j :: 0 <= j < i ==> steps[j].unit.id in visited'
      invariant |queue'| - |queue| == |visited'| - |visited|
    {
      var n := steps[i];
      assert IsStep(s, item.id, n);
      if n.unit.id in visited' {
        continue;
      }
      Visit(s, from, item, n, visited', d);
      var path := item.path + [PathStep(Some(n.link), n.unit)];
      var next := Item(n.unit.id, path);
      visited' := visited' + {n.unit.id};
      if n.unit.id == to {
        MinimalIsShortest(s, from, next);
        return Some(path), visited', queue';
      }
      QueueGrows(queue', next);
      LayersGrow(s, from, queue', d, next);
      queue' := queue' + [next];
    }
    found := None;
  }

  lemma QueueGrows(queue: seq<Item>, next: Item)
    ensures forall x :: InQueue(queue + [next], x) <==> InQueue(queue, x) || x == next.id
  {
    assert (queue + [next])[|queue|] == next;
    forall x | InQueue(queue, x) ensures InQueue(queue + [next], x) {
      var i :| 0 <= i < |queue| && queue[i].id == x;
      assert (queue + [next])[i] == queue[i];
    }
  }

  lemma QueueShrinks(queue: seq<Item>)
    requires queue != []
    ensures forall x :: InQueue(queue, x) <==> InQueue(queue[1..], x) || x == queue[0].id
  {
    forall x | InQueue(queue[1..], x) ensures InQueue(queue, x) {
      var i :| 0 <= i < |queue[1..]| && queue[1..][i].id == x;
      assert queue[i + 1].id == x;
    }
    forall x | InQueue(queue, x) && x != queue[0].id ensures InQueue(queue[1..], x) {
      var i :| 0 <= i < |queue| && queue[i].id == x;
      assert queue[1..][i - 1].id == x;
    }
  }

  /** Taking the first item, moving on to its layer. */
  lemma Pop(s: Store, from: string, to: string, depth: nat, visited: set<string>, queue: seq<Item>, d: nat, cut: bool) returns (d': nat)
    requires Inv(s, from, to, depth, visited, queue, d, cut) && queue != []
    ensures d' + 1 == |queue[0].path| && Minimal(s, from, queue[0]) && queue[0].id in visited
    ensures Layered(s, from, queue[1..], d') && Within(s, from, d') <= visited
    ensures ItemsIn(queue[1..], visited)
  {
    d' := |queue[0].path| - 1;
    LayersShrink(s, from, queue, d);
    ItemsTail(queue, visited);
    if d' == d + 1 {
      NextLayerVisited(s, from, visited, queue, d);
    }
  }

  ghost predicate ItemsIn(queue: seq<Item>, visited: set<string>) { forall i :: 0 <= i < |queue| ==> queue[i].id in visited }

  lemma ItemsTail(queue: seq<Item>, visited: set<string>)
    requires ItemsIn(queue, visited) && queue != []
    ensures ItemsIn(queue[1..], visited) && queue[0].id in visited
  {
  }

  lemma DepthsShrink(queue: seq<Item>, d: nat)
    requires Depths(queue, d) && queue != []
    ensures Depths(queue[1..], |queue[0].path| - 1)
  {
    forall i, j | 0 <= i < j < |queue[1..]| ensures |queue[1..][i].path| <= |queue[1..][j].path| {
      assert |queue[i + 1].path| <= |queue[j + 1].path|;
    }
  }

  lemma DeeperIsBeyond(s: Store, from: string, q: Item, d: nat)
    requires Minimal(s, from, q) && |q.path| == d + 2
    ensures q.id !in Within(s, from, d)
  {
  }

  lemma MinimalTail(s: Store, from: string, queue: seq<Item>)
    requires AllMinimal(s, from, queue) && queue != []
    ensures AllMinimal(s, from, queue[1..]) && Minimal(s, from, queue[0])
  {
    forall i | 0 <= i < |queue[1..]| ensures Minimal(s, from, queue[1..][i]) {
      assert Minimal(s, from, queue[i + 1]);
    }
  }

  lemma LayersShrink(s: Store, from: string, queue: seq<Item>, d: nat)
    requires Layered(s, from, queue, d) && queue != []
    ensures Layered(s, from, queue[1..], |queue[0].path| - 1) && Minimal(s, from, queue[0])
    ensures |queue[0].path| == d + 2 ==> forall i :: 0 <= i < |queue| ==> queue[i].id !in Within(s, from, d)
  {
    MinimalTail(s, from, queue);
    DepthsShrink(queue, d);
    if |queue[0].path| == d + 2 {
      forall i | 0 <= i < |queue| ensures queue[i].id !in Within(s, from, d) {
        DeeperIsBeyond(s, from, queue[i], d);
      }
    }
  }

  lemma DepthsGrow(queue: seq<Item>, d: nat, next: Item)
    requires Depths(queue, d) && |next.path| == d + 2
    ensures Depths(queue + [next], d)
  {
  }

  lemma LayersGrow(s: Store, from: string, queue: seq<Item>, d: nat, next: Item)
    requires Layered(s, from, queue, d) && Minimal(s, from, next) && |next.path| == d + 2
    ensures Layered(s, from, queue + [next], d)
  {
    DepthsGrow(queue, d, next);
    forall i | 0 <= i < |queue + [next]| ensures Minimal(s, from, (queue + [next])[i]) {
      if i < |queue| {
        assert Minimal(s, from, queue[i]);
      }
    }
  }

  /** A unit at the depth limit is dropped unexpanded: everything within reach is visited by then. */
  lemma Cut(s: Store, from: string, to: string, depth: nat, visited: set<string>, queue: seq<Item>, d: nat, cut: bool, d': nat)
    requires Inv(s, from, to, depth, visited, queue, d, cut) && queue != [] && depth >= 1
    requires d' + 1 == |queue[0].path| > depth
    requires Layered(s, from, queue[1..], d') && Within(s, from, d') <= visited
    ensures Inv(s, from, to, depth, visited, queue[1..], d', true)
  {
  }

  /** The queue after expanding its first item keeps the invariant. */
  lemma Expanded(s: Store, from: string, to: string, depth: nat, visited: set<string>, queue: seq<Item>, d: nat, cut: bool, d': nat, visited': set<string>, queue': seq<Item>)
    requires Inv(s, from, to, depth, visited, queue, d, cut) && queue != [] && d' + 1 == |queue[0].path| <= depth && to !in visited'
    requires visited <= visited' <= s.units.Keys && queue[1..] <= queue' && Layered(s, from, queue', d')
    requires Within(s, from, d') <= visited && ItemsIn(queue', visited')
    requires forall x :: x in visited' && x !in visited ==> InQueue(queue', x)
    requires forall b :: Hop(s, queue[0].id, b) ==> b in visited'
    ensures Inv(s, from, to, depth, visited', queue', d', cut)
  {
    QueueShrinks(queue);
    forall x | InQueue(queue[1..], x) ensures InQueue(queue', x) {
      var i :| 0 <= i < |queue[1..]| && queue[1..][i].id == x;
      assert queue'[i] == queue[1..][i];
    }
    assert !cut;
    forall x, b | x in visited' && !InQueue(queue', x) && Hop(s, x, b) ensures b in visited' {
      assert x in visited && !InQueue(queue[1..], x);
    }
  }

  /** An empty queue has visited everything within the depth. */
  lemma Exhausted(s: Store, from: string, to: string, depth: nat, visited: set<string>, d: nat, cut: bool)
    requires Inv(s, from, to, depth, visited, [], d, cut)
    ensures forall q: seq<string> :: Joins(s, q, from, to) ==> |q| > depth + 1
  {
    if !cut {
      AllVisited(s, from, visited, depth);
    }
    forall q: seq<string> | Joins(s, q, from, to) ensures |q| > depth + 1 {
      if |q| <= depth + 1 {
        WalkStaysWithin(s, q, depth);
      }
    }
  }

  lemma Started(s: Store, from: string, to: string, depth: nat, first: Item)
    requires Keyed(s) && from in s.units && depth >= 1 && first == Item(from, [PathStep(None, s.units[from])])
    ensures Inv(s, from, to, depth, {from}, [first], 0, false)
  {
    assert [first][0] == first && InQueue([first], from);
    assert Minimal(s, from, first);
  }

  /** Path: a shortest path of at most the depth's edges if there is any, otherwise nothing. */
  method Path(s: Store, from: string, to: string, maxDepth: int) returns (found: Option<seq<PathStep>>)
    requires Keyed(s)
    ensures found.Some? ==>
              && IsPath(s, found.value, from, to) && Joins(s, Ids(found.value), from, to)
              && |found.value| <= (if maxDepth > 0 then maxDepth else 10) + 1 && Shortest(s, found.value, from, to)
    ensures found.None? ==> from !in s.units || forall q: seq<string> :: Joins(s, q, from, to) ==> |q| > (if maxDepth > 0 then maxDepth else 10) + 1
  {
    var depth := Depth(maxDepth);
    var ld := new Loader(s);
    var start := ld.Unit(from);
    if start.None? {
      return None;
    }
    var visited := {from};
    var queue := [Item(from, [PathStep(None, start.value)])];
    ghost var d, cut := 0, false;
    Started(s, from, to, depth, queue[0]);
    while |queue| > 0
      invariant ld.Valid() && ld.s == s && fresh(ld)
      invariant Inv(s, from, to, depth, visited, queue, d, cut)
      decreases |s.units.Keys - visited| + |queue|
    {
      var item := queue[0];
      ghost var d' := Pop(s, from, to, depth, visited, queue, d, cut);
      ghost var before, seen := queue, visited;
      queue := queue[1..];
      if |item.path| > depth {
        Cut(s, from, to, depth, seen, before, d, cut, d');
        d, cut := d', true;
        continue;
      }
      if item.id == to {
        MinimalIsShortest(s, from, item);
        PathIsWalk(s, item.path, from, to);
        return Some(item.path);
      }
      var next := Expand(ld, item.id);
      found, visited, queue := Enqueue(s, from, to, item, next, visited, queue, d');
      if found.Some? {
        PathIsWalk(s, found.value, from, to);
        return;
      }
      Expanded(s, from, to, depth, seen, before, d, cut, d', visited, queue);
      SmallerRest(s.units.Keys, seen, visited);
      d := d';
    }
    Exhausted(s, from, to, depth, visited, d, cut);
    found := None;
  }

  lemma SmallerRest(all: set<string>, a: set<string>, b: set<string>)
    requires a <= b <= all
    ensures |all - b| == |all - a| - (|b| - |a|)
  {
    assert all - a == (all - b) + (b - a);
    assert b == a + (b - a);
  }
}
