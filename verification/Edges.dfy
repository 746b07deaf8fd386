/** Graph edges and the edge table.  Edge ids are left aside: the table is a multiset of rows, and a
    query returns its rows in an order of the store's choosing. */
module Edges {
  import opened Bags

  datatype EdgeKind =
    | Call | HandledBy
    | Produces | Consumes | KafkaFlow
    | RPCCall | ImplementsRPC | HTTPCall | WritesTo | ReadsFrom
    | OtherKind(name: string)

  /** The edge metadata the linker reads or writes; `body` is everything else in it. */
  datatype Meta = Meta(topic: string, topicRef: string, baseConf: real, source: string, body: string)

  datatype Edge = Edge(
    repo: string, src: string, dst: string, kind: EdgeKind, dstName: string,
    file: string, line: int, dstRepo: string, conf: real, meta: Meta)

  /** The group an edge belongs to: its kind and join key. */
  datatype EdgeKey = EdgeKey(kind: EdgeKind, dstName: string)

  function KeyOf(e: Edge): EdgeKey { EdgeKey(e.kind, e.dstName) }

  /** The rows of the given groups, the other rows, and the rows of the given kinds. */
  ghost function InGroups(rows: multiset<Edge>, keys: set<EdgeKey>): multiset<Edge> { Filter(rows, (e: Edge) => KeyOf(e) in keys) }

  ghost function OutOfGroups(rows: multiset<Edge>, keys: set<EdgeKey>): multiset<Edge> { Filter(rows, (e: Edge) => KeyOf(e) !in keys) }

  ghost function OfKinds(rows: multiset<Edge>, kinds: set<EdgeKind>): multiset<Edge> { Filter(rows, (e: Edge) => e.kind in kinds) }

  lemma OutOfMoreGroups(rows: multiset<Edge>, keys: set<EdgeKey>, key: EdgeKey)
    ensures OutOfGroups(OutOfGroups(rows, keys), {key}) == OutOfGroups(rows, keys + {key})
  {
  }

  lemma InMoreGroups(rows: multiset<Edge>, keys: set<EdgeKey>, key: EdgeKey)
    requires key !in keys
    ensures InGroups(rows, keys + {key}) == InGroups(rows, keys) + InGroups(rows, {key})
  {
  }

  lemma OutOfFewerGroups(rows: multiset<Edge>, keys: set<EdgeKey>, some: set<EdgeKey>)
    requires some <= keys
    ensures OutOfGroups(rows, keys - some) == OutOfGroups(rows, keys) + InGroups(rows, some)
  {
  }

  lemma InGroupsAdd(rows: multiset<Edge>, e: Edge, keys: set<EdgeKey>)
    ensures InGroups(rows + multiset{e}, keys) == if KeyOf(e) in keys then InGroups(rows, keys) + multiset{e} else InGroups(rows, keys)
  {
  }

  lemma NoGroups(rows: multiset<Edge>)
    ensures OutOfGroups(rows, {}) == rows && InGroups(rows, {}) == multiset{}
  {
  }

  method Select(rows: multiset<Edge>, p: Edge -> bool) returns (r: multiset<Edge>)
    ensures r == Filter(rows, p)
  {
    var edges := ToSeq(rows);
    r := multiset{};
    for i := 0 to |edges|
      invariant r == Filter(multiset(edges[..i]), p)
    {
      assert edges[..i + 1] == edges[..i] + [edges[i]];
      FilterAdd(multiset(edges[..i]), edges[i], p);
      if p(edges[i]) {
        r := r + multiset{edges[i]};
      }
    }
    assert edges[..|edges|] == edges;
  }

  /** The stored edges.  A write reports whether it happened; one that fails changes nothing. */
  class EdgeTable {
    var rows: multiset<Edge>

    constructor ()
      ensures rows == multiset{}
    {
      rows := multiset{};
    }

    method GetEdges(kinds: set<EdgeKind>) returns (edges: seq<Edge>)
      ensures multiset(edges) == OfKinds(rows, kinds)
    {
      var found := Select(rows, (e: Edge) => e.kind in kinds);
      edges := ToSeq(found);
    }

    method DeleteByKindAndDst(key: EdgeKey) returns (ok: bool)
      modifies this
      ensures rows == if ok then OutOfGroups(old(rows), {key}) else old(rows)
    {
      ok := *;
      if ok {
        rows := Select(rows, (e: Edge) => KeyOf(e) !in {key});
      }
    }

    method DeleteByKind(kind: EdgeKind) returns (ok: bool)
      modifies this
      ensures rows == if ok then old(rows) - OfKinds(old(rows), {kind}) else old(rows)
    {
      ok := *;
      if ok {
        rows := Select(rows, (e: Edge) => e.kind != kind);
      }
    }

    method StoreEdge(e: Edge) returns (ok: bool)
      modifies this
      ensures rows == if ok then old(rows) + multiset{e} else old(rows)
    {
      ok := *;
      if ok {
        rows := rows + multiset{e};
      }
    }

    /** One transaction: all of the edges or none. */
    method BatchStoreEdges(edges: seq<Edge>) returns (ok: bool)
      modifies this
      ensures rows == if ok then old(rows) + multiset(edges) else old(rows)
    {
      ok := *;
      if ok {
        rows := rows + multiset(edges);
      }
    }
  }
}
