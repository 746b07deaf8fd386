/** Two hits of one searcher in one cluster. */
module FusionCorner {
  import opened Hits
  import opened Fusion

  /** It does happen: the second searcher's second hit has the key of the first searcher's. */
  lemma SameSourceCanMerge(a: Source, b: Source, h: Hit, f: Contribution)
    requires a != b
    ensures var x, y := h.(line := 1, endLine := 10), h.(line := 5, endLine := 12);
            Key(y) != Key(x) && Homes([] + [Entry(a, 0, x)] + [Entry(b, 0, y)] + [Entry(b, 1, x)], f) == [0, 0, 0]
  {
    var x, y, z := Entry(a, 0, h.(line := 1, endLine := 10)), Entry(b, 0, h.(line := 5, endLine := 12)), Entry(b, 1, h.(line := 1, endLine := 10));
    OverlapJoins(x, y, f);
    FuseSnoc([] + [x] + [y], z, f);
    TargetOfSingle([Joined(Opened(x, f(x)), y, f(y))], z);
  }

  lemma OverlapJoins(x: Entry, y: Entry, f: Contribution)
    requires x.source != y.source && Overlaps(x.hit, y.hit)
    ensures FuseAll([] + [x] + [y], f) == [Joined(Opened(x, f(x)), y, f(y))] && Homes([] + [x] + [y], f) == [0, 0]
  {
    FirstOpens(x, f);
    FuseSnoc([] + [x], y, f);
    TargetOfSingle([Opened(x, f(x))], y);
  }

  lemma FirstOpens(x: Entry, f: Contribution)
    ensures FuseAll([] + [x], f) == [Opened(x, f(x))] && Homes([] + [x], f) == [0]
  {
    FuseSnoc([], x, f);
  }

  lemma TargetOfSingle(cs: seq<Cluster>, e: Entry)
    requires |cs| == 1
    ensures Target(cs, e) == if cs[0].key == Key(e.hit) || Free(cs[0], e) then 0 else 1
  {
  }
}
