/** kafka_flow edges as a maintained view: produces joined with consumes on the topic, rebuilt per
    repository, against the view rebuilt from scratch. */
module KafkaFlows {
  import opened Bags
  import opened Edges
  import opened ConfigRefs
  import Units

  const CONF_EXACT := 0.95

  // ---------------------------------------------------------------------------
  // The join
  // ---------------------------------------------------------------------------

  /** The flow a producer and a consumer of one topic derive. */
  function Flow(p: Edge, c: Edge): Edge
  {
    Edge(p.repo, p.src, c.src, KafkaFlow, p.dstName, p.file, p.line, c.repo,
         (if c.conf < p.conf then c.conf else p.conf) * CONF_EXACT, p.meta)
  }

  ghost function Pairs(p: Edge): Edge -> multiset<Edge>
  {
    (c: Edge) => if c.dstName == p.dstName then multiset{Flow(p, c)} else multiset{}
  }

  ghost function FlowsOf(consumers: multiset<Edge>): Edge -> multiset<Edge> { p => FlatMap(consumers, Pairs(p)) }

  ghost function Join(producers: multiset<Edge>, consumers: multiset<Edge>): multiset<Edge>
  {
    FlatMap(producers, FlowsOf(consumers))
  }

  /** What a full rebuild stores. */
  ghost function FullJoin(rows: multiset<Edge>): multiset<Edge> { Join(OfKinds(rows, {Produces}), OfKinds(rows, {Consumes})) }

  ghost function OnTopics(topics: set<string>): Edge -> bool { (e: Edge) => e.dstName in topics }

  lemma PairSelected(p: Edge, c: Edge, q: Edge -> bool)
    ensures Filter(Pairs(p)(c), q) == if p.dstName == c.dstName && q(Flow(p, c)) then Pairs(p)(c) else multiset{}
  {
    FilterSmall(Flow(p, c), q);
  }

  lemma {:induction false} FlowsOfSelected(p: Edge, consumers: multiset<Edge>, keep: bool, ck: Edge -> bool, q: Edge -> bool)
    requires forall c: Edge {:trigger Flow(p, c)} :: p.dstName == c.dstName ==> (q(Flow(p, c)) <==> keep && ck(c))
    ensures Filter(FlowsOf(consumers)(p), q) == if keep then FlowsOf(Filter(consumers, ck))(p) else multiset{}
    decreases |consumers|
  {
    var f := Pairs(p);
    if consumers == multiset{} {
      FlatMapNone(f);
      FilterSmall(p, q);
      FilterSmall(p, ck);
    } else {
      var c :| c in consumers;
      var rest := consumers - multiset{c};
      assert consumers == rest + multiset{c};
      FlowsOfSelected(p, rest, keep, ck, q);
      FlatMapAdd(rest, c, f);
      FilterUnion(FlatMap(rest, f), f(c), q);
      PairSelected(p, c, q);
      FilterAdd(rest, c, ck);
      FlatMapAdd(Filter(rest, ck), c, f);
    }
  }

  /** A property of a flow that is a property of its producer and one of its consumer selects the
      join of the selected sides. */
  lemma {:induction false} JoinOfSelected(producers: multiset<Edge>, consumers: multiset<Edge>, pk: Edge -> bool, ck: Edge -> bool, q: Edge -> bool)
    requires forall p: Edge, c: Edge {:trigger Flow(p, c)} :: p.dstName == c.dstName ==> (q(Flow(p, c)) <==> pk(p) && ck(c))
    ensures Filter(Join(producers, consumers), q) == Join(Filter(producers, pk), Filter(consumers, ck))
    decreases |producers|
  {
    var f, g := FlowsOf(consumers), FlowsOf(Filter(consumers, ck));
    if producers == multiset{} {
      var any: Edge :| true;
      FlatMapNone(f);
      FlatMapNone(g);
      FilterSmall(any, q);
      FilterSmall(any, pk);
    } else {
      var p :| p in producers;
      var rest := producers - multiset{p};
      assert producers == rest + multiset{p};
      JoinOfSelected(rest, consumers, pk, ck, q);
      FlatMapAdd(rest, p, f);
      FilterUnion(FlatMap(rest, f), f(p), q);
      FlowsOfSelected(p, consumers, pk(p), ck, q);
      FilterAdd(rest, p, pk);
      FlatMapAdd(Filter(rest, pk), p, g);
    }
  }

  /** Every flow of a join has a producer and a consumer. */
  lemma FlowHasEnds(producers: multiset<Edge>, consumers: multiset<Edge>, f: Edge) returns (p: Edge, c: Edge)
    requires f in Join(producers, consumers)
    ensures p in producers && c in consumers && p.dstName == c.dstName && f == Flow(p, c)
  {
    p := FlatMapMember(producers, FlowsOf(consumers), f);
    c := FlatMapMember(consumers, Pairs(p), f);
  }

  // ---------------------------------------------------------------------------
  // What a flow says
  // ---------------------------------------------------------------------------

  /** f leads from what produces to what consumes a topic, and carries the producer's place and payload. */
  predicate LinksEnds(f: Edge, p: Edge, c: Edge)
  {
    && f.kind.KafkaFlow? && p.kind.Produces? && c.kind.Consumes?
    && p.dstName == c.dstName == f.dstName
    && f.src == p.src && f.repo == p.repo && f.file == p.file && f.line == p.line && f.meta == p.meta
    && f.dst == c.src && f.dstRepo == c.repo
    && f.conf == (if c.conf < p.conf then c.conf else p.conf) * 0.95
  }

  lemma FlowIsOfEnds(f: Edge, p: Edge, c: Edge)
    requires p.kind.Produces? && c.kind.Consumes? && p.dstName == c.dstName
    ensures LinksEnds(f, p, c) <==> f == Flow(p, c)
  {
  }

  ghost function FlowsOnTopic(rows: multiset<Edge>, t: string): multiset<Edge> { Filter(rows, (e: Edge) => e.kind.KafkaFlow? && e.dstName == t) }

  ghost function ProducersOf(rows: multiset<Edge>, t: string): multiset<Edge> { Filter(rows, (e: Edge) => e.kind.Produces? && e.dstName == t) }

  ghost function ConsumersOf(rows: multiset<Edge>, t: string): multiset<Edge> { Filter(rows, (e: Edge) => e.kind.Consumes? && e.dstName == t) }

  /** The flows of a topic are its producers times its consumers: each is of two of them, any two have one,
      and there are no more than that. */
  ghost predicate FlowsArePairs(rows: multiset<Edge>, t: string)
  {
    && (forall f :: f in rows && f.kind.KafkaFlow? && f.dstName == t ==> exists p, c :: p in rows && c in rows && LinksEnds(f, p, c))
    && (forall p, c :: p in rows && c in rows && p.kind.Produces? && c.kind.Consumes? && p.dstName == c.dstName == t ==>
          exists f :: f in rows && LinksEnds(f, p, c))
    && |FlowsOnTopic(rows, t)| == |ProducersOf(rows, t)| * |ConsumersOf(rows, t)|
  }

  lemma {:induction false} FlowsOfSize(p: Edge, consumers: multiset<Edge>)
    requires forall c :: c in consumers ==> c.dstName == p.dstName
    ensures |FlowsOf(consumers)(p)| == |consumers|
    decreases |consumers|
  {
    if consumers == multiset{} {
      FlatMapNone(Pairs(p));
    } else {
      var c :| c in consumers;
      var rest := consumers - multiset{c};
      assert consumers == rest + multiset{c};
      FlowsOfSize(p, rest);
      FlatMapAdd(rest, c, Pairs(p));
    }
  }

  lemma {:induction false} JoinSize(producers: multiset<Edge>, consumers: multiset<Edge>, t: string)
    requires (forall p :: p in producers ==> p.dstName == t) && forall c :: c in consumers ==> c.dstName == t
    ensures |Join(producers, consumers)| == |producers| * |consumers|
    decreases |producers|
  {
    if producers == multiset{} {
      FlatMapNone(FlowsOf(consumers));
    } else {
      var p :| p in producers;
      var rest := producers - multiset{p};
      assert producers == rest + multiset{p};
      JoinSize(rest, consumers, t);
      FlatMapAdd(rest, p, FlowsOf(consumers));
      FlowsOfSize(p, consumers);
      OneMore(|rest|, |consumers|);
    }
  }

  lemma OneMore(a: nat, b: nat)
    ensures (a + 1) * b == a * b + b
  {
  }

  /** Every producer and consumer of one topic have their flow in the join. */
  lemma PairHasFlow(producers: multiset<Edge>, consumers: multiset<Edge>, p: Edge, c: Edge)
    requires p in producers && c in consumers && p.dstName == c.dstName
    ensures Flow(p, c) in Join(producers, consumers)
  {
    var ps, cs := producers - multiset{p}, consumers - multiset{c};
    assert producers == ps + multiset{p} && consumers == cs + multiset{c};
    FlatMapAdd(ps, p, FlowsOf(consumers));
    FlatMapAdd(cs, c, Pairs(p));
  }

  lemma JoinOnTopicSize(rows: multiset<Edge>, t: string)
    ensures |Filter(FullJoin(rows), (f: Edge) => f.dstName == t)| == |ProducersOf(rows, t)| * |ConsumersOf(rows, t)|
  {
    var q := (f: Edge) => f.dstName == t;
    JoinOfSelected(OfKinds(rows, {Produces}), OfKinds(rows, {Consumes}), q, q, q);
    assert Filter(OfKinds(rows, {Produces}), q) == ProducersOf(rows, t);
    assert Filter(OfKinds(rows, {Consumes}), q) == ConsumersOf(rows, t);
    JoinSize(ProducersOf(rows, t), ConsumersOf(rows, t), t);
  }

  /** A topic whose stored flows are those of the join has its pairs. */
  lemma JoinedTopicHasPairs(rows: multiset<Edge>, t: string)
    requires forall f: Edge :: f.kind.KafkaFlow? && f.dstName == t ==> rows[f] == FullJoin(rows)[f]
    ensures FlowsArePairs(rows, t)
  {
    var producers, consumers := OfKinds(rows, {Produces}), OfKinds(rows, {Consumes});
    forall f | f in rows && f.kind.KafkaFlow? && f.dstName == t ensures exists p, c :: p in rows && c in rows && LinksEnds(f, p, c) {
      var p, c := FlowHasEnds(producers, consumers, f);
      FlowIsOfEnds(f, p, c);
    }
    forall p, c | p in rows && c in rows && p.kind.Produces? && c.kind.Consumes? && p.dstName == c.dstName == t
      ensures exists f :: f in rows && LinksEnds(f, p, c)
    {
      PairHasFlow(producers, consumers, p, c);
      FlowIsOfEnds(Flow(p, c), p, c);
      assert rows[Flow(p, c)] == FullJoin(rows)[Flow(p, c)];
    }
    FlowsOnTopicAreJoined(rows, t);
    JoinOnTopicSize(rows, t);
  }

  lemma FlowsOnTopicAreJoined(rows: multiset<Edge>, t: string)
    requires forall f: Edge :: f.kind.KafkaFlow? && f.dstName == t ==> rows[f] == FullJoin(rows)[f]
    ensures FlowsOnTopic(rows, t) == Filter(FullJoin(rows), (f: Edge) => f.dstName == t)
  {
    forall f ensures FlowsOnTopic(rows, t)[f] == Filter(FullJoin(rows), (f: Edge) => f.dstName == t)[f] {
      if f in FullJoin(rows) {
        JoinHoldsFlows(rows, f);
      }
    }
  }

  // ---------------------------------------------------------------------------
  // What one rebuild does
  // ---------------------------------------------------------------------------

  predicate OfRepo(e: Edge, repo: string)
  {
    if e.kind.KafkaFlow? then e.repo == repo || e.dstRepo == repo else IsTopicEdge(e) && e.repo == repo
  }

  /** The topics a repository's link rebuilds: those its own edges and flows name, and those the
      config pass moved edges from or to. */
  ghost function Affected(rows: multiset<Edge>, repo: string, rewritten: set<string>): set<string>
  {
    rewritten + set e | e in rows && OfRepo(e, repo) :: e.dstName
  }

  /** Among them exactly the topics that the repository produces to, consumes from, or has an end of a
      stored flow on. */
  lemma AffectedIs(rows: multiset<Edge>, repo: string, rewritten: set<string>, t: string)
    ensures t in Affected(rows, repo, rewritten) <==>
              || t in rewritten
              || (exists e :: e in rows && e.dstName == t && e.repo == repo && (e.kind.Produces? || e.kind.Consumes? || e.kind.KafkaFlow?))
              || (exists e :: e in rows && e.dstName == t && e.dstRepo == repo && e.kind.KafkaFlow?)
  {
    if e :| e in rows && e.dstName == t && e.repo == repo && (e.kind.Produces? || e.kind.Consumes? || e.kind.KafkaFlow?) {
      assert OfRepo(e, repo);
    }
    if e :| e in rows && e.dstName == t && e.dstRepo == repo && e.kind.KafkaFlow? {
      assert OfRepo(e, repo);
    }
  }

  ghost function FlowKeys(topics: set<string>): set<EdgeKey> { set t | t in topics :: EdgeKey(KafkaFlow, t) }

  ghost function Rebuilt(rows: multiset<Edge>, topics: set<string>): multiset<Edge>
  {
    OutOfGroups(rows, FlowKeys(topics)) + Filter(FullJoin(rows), OnTopics(topics))
  }

  ghost function RebuiltFully(rows: multiset<Edge>): multiset<Edge> { rows - OfKinds(rows, {KafkaFlow}) + FullJoin(rows) }

  /** The topics one link run rebuilds. */
  ghost function LinkTopicsOf(rows: multiset<Edge>, repo: string, config: seq<Units.Unit>): set<string>
  {
    Affected(ResolveAll(rows, config), repo, Touched(rows, config))
  }

  /** One link run over the topic edges: resolve config references, then rebuild. */
  ghost function Linked(rows: multiset<Edge>, repo: string, config: seq<Units.Unit>): multiset<Edge>
  {
    Rebuilt(ResolveAll(rows, config), LinkTopicsOf(rows, repo, config))
  }

  // ---------------------------------------------------------------------------
  // The view stays equal to the join, over every interleaving of passes
  // ---------------------------------------------------------------------------

  /** A flow with a destination whose two ends lie outside the given repositories, off the given topics. */
  predicate LiveOutside(f: Edge, repos: set<string>, topics: set<string>)
  {
    f.kind.KafkaFlow? && f.dst != "" && f.repo !in repos && f.dstRepo !in repos && f.dstName !in topics
  }

  ghost function Live(repos: set<string>, topics: set<string>): Edge -> bool { (f: Edge) => LiveOutside(f, repos, topics) }

  /** The table, the repositories whose indexing has begun since they were last linked, and the topics a
      failed link left behind and no later one has rebuilt. */
  datatype State = State(rows: multiset<Edge>, dirty: set<string>, stale: set<string>)

  /** The live flows away from dirty repositories and stale topics are exactly those of the join. */
  ghost predicate ViewHolds(s: State)
  {
    Filter(s.rows, Live(s.dirty, s.stale)) == Filter(FullJoin(s.rows), Live(s.dirty, s.stale))
  }

  /** An index pass over `repo`, or any part of one: its own topic edges are replaced arbitrarily; a
      flow that touches it may stay, go, or lose its destination; nothing else that matters here
      changes. */
  ghost predicate Reindexed(rows: multiset<Edge>, after: multiset<Edge>, repo: string)
  {
    forall e :: (IsTopicEdge(e) && e.repo != repo) || LiveOutside(e, {repo}, {}) ==> after[e] == rows[e]
  }

  /** Only edges that name one of the topics changed. */
  ghost predicate ChangedOn(rows: multiset<Edge>, after: multiset<Edge>, topics: set<string>)
  {
    forall e: Edge :: e.dstName !in topics ==> after[e] == rows[e]
  }

  /** A link that fails has moved and rebuilt edges of some topics and not got to the end; a link of every
      repository rebuilds all flows. */
  datatype Op =
    | Reindex(repo: string, after: multiset<Edge>)
    | Link(repo: string, config: seq<Units.Unit>)
    | FailedLink(topics: set<string>, after: multiset<Edge>)
    | LinkAll(config: seq<Units.Unit>)

  ghost predicate Enabled(s: State, op: Op)
  {
    match op
    case Reindex(repo, after) => repo != "" && Reindexed(s.rows, after, repo)
    case Link(repo, _) => repo != ""
    case FailedLink(topics, after) => ChangedOn(s.rows, after, topics)
    case LinkAll(_) => true
  }

  ghost function Apply(s: State, op: Op): State
    requires Enabled(s, op)
  {
    match op
    case Reindex(repo, after) => State(after, s.dirty + {repo}, s.stale)
    case Link(repo, config) => State(Linked(s.rows, repo, config), s.dirty - {repo}, s.stale - LinkTopicsOf(s.rows, repo, config))
    case FailedLink(topics, after) => State(after, s.dirty, s.stale + topics)
    case LinkAll(config) => State(RebuiltFully(ResolveAll(s.rows, config)), {}, {})
  }

  ghost function Sourced(keep: Edge -> bool): Edge -> bool { (c: Edge) => keep(c) && c.src != "" }

  lemma SameSelection(a: multiset<Edge>, b: multiset<Edge>, kind: EdgeKind, k: Edge -> bool)
    requires forall e: Edge :: e.kind == kind && k(e) ==> a[e] == b[e]
    ensures Filter(OfKinds(a, {kind}), k) == Filter(OfKinds(b, {kind}), k)
  {
    forall e ensures Filter(OfKinds(a, {kind}), k)[e] == Filter(OfKinds(b, {kind}), k)[e] {
    }
  }

  lemma QOfEnds(keep: Edge -> bool, ck: Edge -> bool, q: Edge -> bool)
    requires ck == Sourced(keep) && forall f :: q(f) ==> f.dst != ""
    requires forall p: Edge, c: Edge {:trigger Flow(p, c)} :: p.dstName == c.dstName && c.src != "" ==> (q(Flow(p, c)) <==> keep(p) && keep(c))
    ensures forall p: Edge, c: Edge {:trigger Flow(p, c)} :: p.dstName == c.dstName ==> (q(Flow(p, c)) <==> keep(p) && ck(c))
  {
    forall p: Edge, c: Edge | p.dstName == c.dstName ensures q(Flow(p, c)) <==> keep(p) && ck(c) {
      assert Flow(p, c).dst == c.src;
    }
  }

  /** A join selected by its ends depends only on the edges with those ends. */
  lemma JoinAgrees(a: multiset<Edge>, b: multiset<Edge>, keep: Edge -> bool, q: Edge -> bool)
    requires forall p: Edge, c: Edge {:trigger Flow(p, c)} :: p.dstName == c.dstName && c.src != "" ==> (q(Flow(p, c)) <==> keep(p) && keep(c))
    requires forall f :: q(f) ==> f.dst != ""
    requires forall e :: IsTopicEdge(e) && keep(e) ==> a[e] == b[e]
    ensures Filter(FullJoin(a), q) == Filter(FullJoin(b), q)
  {
    var ck := Sourced(keep);
    SameSelection(a, b, Produces, keep);
    SameSelection(a, b, Consumes, ck);
    QOfEnds(keep, ck, q);
    JoinOfSelected(OfKinds(a, {Produces}), OfKinds(a, {Consumes}), keep, ck, q);
    JoinOfSelected(OfKinds(b, {Produces}), OfKinds(b, {Consumes}), keep, ck, q);
  }

  /** What two tables agree on, they join alike: edges away from some repositories and topics. */
  lemma JoinAgreesAway(a: multiset<Edge>, b: multiset<Edge>, repos: set<string>, topics: set<string>)
    requires forall e :: IsTopicEdge(e) && e.repo !in repos && e.dstName !in topics ==> a[e] == b[e]
    ensures Filter(FullJoin(a), Live(repos, topics)) == Filter(FullJoin(b), Live(repos, topics))
  {
    var keep := (e: Edge) => e.repo !in repos && e.dstName !in topics;
    JoinAgrees(a, b, keep, Live(repos, topics));
  }

  /** The view of the rows a step left alone. */
  lemma ViewOfUnchanged(s: State, after: multiset<Edge>, dirty: set<string>, stale: set<string>)
    requires ViewHolds(s) && s.dirty <= dirty && s.stale <= stale
    requires Filter(FullJoin(s.rows), Live(dirty, stale)) == Filter(FullJoin(after), Live(dirty, stale))
    requires forall f :: LiveOutside(f, dirty, stale) ==> after[f] == s.rows[f]
    ensures ViewHolds(State(after, dirty, stale))
  {
    forall f ensures Filter(after, Live(dirty, stale))[f] == Filter(FullJoin(after), Live(dirty, stale))[f] {
      if LiveOutside(f, dirty, stale) {
        assert LiveOutside(f, s.dirty, s.stale);
        assert Filter(s.rows, Live(s.dirty, s.stale))[f] == Filter(FullJoin(s.rows), Live(s.dirty, s.stale))[f];
        assert Filter(FullJoin(s.rows), Live(dirty, stale))[f] == FullJoin(s.rows)[f];
      }
    }
    assert Filter(after, Live(dirty, stale)) == Filter(FullJoin(after), Live(dirty, stale));
  }

  lemma ReindexKeepsView(s: State, repo: string, after: multiset<Edge>)
    requires ViewHolds(s) && Enabled(s, Reindex(repo, after))
    ensures ViewHolds(Apply(s, Reindex(repo, after)))
  {
    JoinAgreesAway(s.rows, after, s.dirty + {repo}, s.stale);
    forall f | LiveOutside(f, s.dirty + {repo}, s.stale) ensures after[f] == s.rows[f] {
      assert LiveOutside(f, {repo}, {});
    }
    ViewOfUnchanged(s, after, s.dirty + {repo}, s.stale);
  }

  lemma FailedLinkKeepsView(s: State, topics: set<string>, after: multiset<Edge>)
    requires ViewHolds(s) && Enabled(s, FailedLink(topics, after))
    ensures ViewHolds(Apply(s, FailedLink(topics, after)))
  {
    JoinAgreesAway(s.rows, after, s.dirty, s.stale + topics);
    ViewOfUnchanged(s, after, s.dirty, s.stale + topics);
  }

  /** Away from the touched topics the config pass changes no edge. */
  lemma ResolveKeepsOthers(rows: multiset<Edge>, config: seq<Units.Unit>, touched: set<string>, e: Edge)
    requires Touched(rows, config) <= touched && e.dstName !in touched
    ensures ResolveAll(rows, config)[e] == rows[e]
  {
    forall x | x in rows ensures ResolveOne(config)(x)[e] == if x == e then 1 else 0 {
      MovesWithinTouched(rows, config, x);
    }
    FlatMapKeepsCount(rows, ResolveOne(config), e);
  }

  lemma MovesWithinTouched(rows: multiset<Edge>, config: seq<Units.Unit>, x: Edge)
    requires x in rows
    ensures Resolve(x, config) == x || (x.dstName in Touched(rows, config) && Resolve(x, config).dstName in Touched(rows, config))
  {
  }

  /** The join depends on the topic edges only. */
  lemma SameTopicEdgesSameJoin(rows: multiset<Edge>, after: multiset<Edge>)
    requires forall e :: IsTopicEdge(e) ==> after[e] == rows[e]
    ensures FullJoin(after) == FullJoin(rows)
  {
    assert OfKinds(after, {Produces}) == OfKinds(rows, {Produces});
    assert OfKinds(after, {Consumes}) == OfKinds(rows, {Consumes});
  }

  lemma JoinHoldsFlows(rows: multiset<Edge>, f: Edge)
    requires f in FullJoin(rows)
    ensures f.kind.KafkaFlow?
  {
    var p, c := FlowHasEnds(OfKinds(rows, {Produces}), OfKinds(rows, {Consumes}), f);
  }

  lemma RebuildKeepsJoin(rows: multiset<Edge>, topics: set<string>)
    ensures FullJoin(Rebuilt(rows, topics)) == FullJoin(rows)
  {
    forall e | IsTopicEdge(e) ensures Rebuilt(rows, topics)[e] == rows[e] {
      if e in FullJoin(rows) {
        JoinHoldsFlows(rows, e);
      }
    }
    SameTopicEdgesSameJoin(rows, Rebuilt(rows, topics));
  }

  /** Off the touched topics the config pass changes no live flow of the join. */
  lemma ResolveKeepsOtherFlows(rows: multiset<Edge>, config: seq<Units.Unit>, f: Edge)
    requires f.dst != "" && f.dstName !in Touched(rows, config)
    ensures FullJoin(ResolveAll(rows, config))[f] == FullJoin(rows)[f]
  {
    var resolved := ResolveAll(rows, config);
    var keep := (e: Edge) => e.dstName == f.dstName;
    var q := (g: Edge) => g.dst != "" && g.dstName == f.dstName;
    forall e | IsTopicEdge(e) && keep(e) ensures rows[e] == resolved[e] {
      ResolveKeepsOthers(rows, config, Touched(rows, config), e);
    }
    JoinAgrees(rows, resolved, keep, q);
    assert Filter(FullJoin(rows), q)[f] == Filter(FullJoin(resolved), q)[f];
  }

  /** A flow that touches the linked repository lies on a rebuilt topic. */
  lemma TouchingFlowIsRebuilt(rows: multiset<Edge>, repo: string, rewritten: set<string>, f: Edge)
    requires f.kind.KafkaFlow? && (f.repo == repo || f.dstRepo == repo)
    requires f in rows || f in FullJoin(rows)
    ensures f.dstName in Affected(rows, repo, rewritten)
  {
    if f in rows {
      assert OfRepo(f, repo);
    } else {
      var p, c := FlowHasEnds(OfKinds(rows, {Produces}), OfKinds(rows, {Consumes}), f);
      assert p in rows && c in rows && (OfRepo(p, repo) || OfRepo(c, repo));
    }
  }

  lemma RebuiltCounts(rows: multiset<Edge>, topics: set<string>, f: Edge)
    requires f.kind.KafkaFlow?
    ensures Rebuilt(rows, topics)[f] == if f.dstName in topics then FullJoin(rows)[f] else rows[f]
  {
    assert KeyOf(f) in FlowKeys(topics) <==> f.dstName in topics;
  }

  lemma RebuiltHasPairs(rows: multiset<Edge>, topics: set<string>)
    ensures forall t :: t in topics ==> FlowsArePairs(Rebuilt(rows, topics), t)
  {
    forall t | t in topics ensures FlowsArePairs(Rebuilt(rows, topics), t) {
      forall f: Edge | f.kind.KafkaFlow? && f.dstName == t ensures Rebuilt(rows, topics)[f] == FullJoin(Rebuilt(rows, topics))[f] {
        RebuildKeepsJoin(rows, topics);
        RebuiltCounts(rows, topics, f);
      }
      JoinedTopicHasPairs(Rebuilt(rows, topics), t);
    }
  }

  lemma RebuiltFullyHasPairs(rows: multiset<Edge>)
    ensures forall t :: FlowsArePairs(RebuiltFully(rows), t)
  {
    FullRebuildKeepsJoin(rows);
    forall t ensures FlowsArePairs(RebuiltFully(rows), t) {
      JoinedTopicHasPairs(RebuiltFully(rows), t);
    }
  }

  /** Off the topics it rebuilds a link changes neither the stored flows nor those of the join. */
  lemma LinkKeepsOtherTopics(rows: multiset<Edge>, repo: string, config: seq<Units.Unit>, f: Edge)
    requires f.kind.KafkaFlow? && f.dst != "" && f.dstName !in LinkTopicsOf(rows, repo, config)
    ensures Linked(rows, repo, config)[f] == rows[f]
    ensures FullJoin(Linked(rows, repo, config))[f] == FullJoin(rows)[f]
  {
    var resolved, topics := ResolveAll(rows, config), LinkTopicsOf(rows, repo, config);
    RebuildKeepsJoin(resolved, topics);
    RebuiltCounts(resolved, topics, f);
    ResolveKeepsOthers(rows, config, Touched(rows, config), f);
    ResolveKeepsOtherFlows(rows, config, f);
  }

  /** On those it does rebuild, it stores the join. */
  lemma LinkRebuildsTopics(rows: multiset<Edge>, repo: string, config: seq<Units.Unit>, f: Edge)
    requires f.kind.KafkaFlow? && f.dstName in LinkTopicsOf(rows, repo, config)
    ensures Linked(rows, repo, config)[f] == FullJoin(Linked(rows, repo, config))[f]
  {
    var resolved, topics := ResolveAll(rows, config), LinkTopicsOf(rows, repo, config);
    RebuildKeepsJoin(resolved, topics);
    RebuiltCounts(resolved, topics, f);
  }

  /** Whatever went before, a link leaves a flow as the join has it exactly when it rebuilds the flow's
      topic or the flow was right already. */
  lemma LinkRepairsIff(rows: multiset<Edge>, repo: string, config: seq<Units.Unit>, f: Edge)
    requires f.kind.KafkaFlow? && f.dst != ""
    ensures Linked(rows, repo, config)[f] == FullJoin(Linked(rows, repo, config))[f]
            <==> f.dstName in LinkTopicsOf(rows, repo, config) || rows[f] == FullJoin(rows)[f]
  {
    if f.dstName in LinkTopicsOf(rows, repo, config) {
      LinkRebuildsTopics(rows, repo, config, f);
    } else {
      LinkKeepsOtherTopics(rows, repo, config, f);
    }
  }

  /** A link tried again after one that resolved the references and failed has nothing left to resolve: it
      rebuilds the repository's own topics only, and the others stay behind. */
  lemma RetryRebuildsOwnTopics(rows: multiset<Edge>, repo: string, config: seq<Units.Unit>)
    requires forall e :: e in rows ==> Settles(e, config)
    ensures LinkTopicsOf(ResolveAll(rows, config), repo, config) == Affected(ResolveAll(rows, config), repo, {})
  {
    ResolveTwice(rows, config);
  }

  lemma ResolvedPair(p: Edge, c: Edge, config: seq<Units.Unit>)
    ensures ResolveAll(multiset{p, c}, config) == multiset{Resolve(p, config), Resolve(c, config)}
  {
    FlatMapPair(p, c, ResolveOne(config));
  }

  /** The flows of one producer and one consumer. */
  lemma JoinOfPair(p: Edge, c: Edge)
    requires p.kind.Produces? && c.kind.Consumes?
    ensures FullJoin(multiset{p, c}) == if c.dstName == p.dstName then multiset{Flow(p, c)} else multiset{}
  {
    assert OfKinds(multiset{p, c}, {Produces}) == multiset{p};
    assert OfKinds(multiset{p, c}, {Consumes}) == multiset{c};
    FlatMapOne(p, FlowsOf(multiset{c}));
    FlatMapOne(c, Pairs(p));
  }

  /** A producer whose reference names a topic, and a consumer of that topic elsewhere. */
  predicate AwaitsFlow(p: Edge, c: Edge, config: seq<Units.Unit>)
  {
    && p.kind.Produces? && c.kind.Consumes? && c.src != ""
    && p.dstName != c.dstName && Resolve(p, config).dstName == c.dstName
    && Resolve(c, config) == c && Resolve(Resolve(p, config), config) == Resolve(p, config)
  }

  lemma UnmatchedPairIsView(p: Edge, c: Edge)
    requires p.kind.Produces? && c.kind.Consumes? && p.dstName != c.dstName
    ensures ViewHolds(State(multiset{p, c}, {}, {}))
  {
    JoinOfPair(p, c);
    ViewFromFlows(State(multiset{p, c}, {}, {}));
  }

  lemma ResolvingChangesTouched(rows: multiset<Edge>, config: seq<Units.Unit>)
    ensures ChangedOn(rows, ResolveAll(rows, config), Touched(rows, config))
  {
    forall e: Edge | e.dstName !in Touched(rows, config) ensures ResolveAll(rows, config)[e] == rows[e] {
      ResolveKeepsOthers(rows, config, Touched(rows, config), e);
    }
  }

  lemma UnaffectedRepo(rows: multiset<Edge>, repo: string)
    requires forall e :: e in rows ==> IsTopicEdge(e) && e.repo != repo
    ensures Affected(rows, repo, {}) == {}
  {
  }

  lemma NothingTouched(rows: multiset<Edge>, config: seq<Units.Unit>)
    requires forall e :: e in rows ==> Resolve(e, config) == e
    ensures Touched(rows, config) == {}
  {
  }

  /** A repository with no edge of its own rebuilds nothing of two edges that have settled. */
  lemma StrangerRebuildsNothing(p: Edge, c: Edge, config: seq<Units.Unit>, repo: string)
    requires IsTopicEdge(p) && IsTopicEdge(c) && p.repo != repo && c.repo != repo
    requires Resolve(p, config) == p && Resolve(c, config) == c
    ensures LinkTopicsOf(multiset{p, c}, repo, config) == {}
  {
    ResolvedPair(p, c, config);
    NothingTouched(multiset{p, c}, config);
    UnaffectedRepo(multiset{p, c}, repo);
  }

  ghost predicate LacksFlow(rows: multiset<Edge>, f: Edge) { f in FullJoin(rows) && f !in rows }

  lemma StrangerStoresNoFlow(p: Edge, c: Edge, config: seq<Units.Unit>, repo: string)
    requires p.kind.Produces? && c.kind.Consumes? && c.src != "" && p.dstName == c.dstName && p.repo != repo && c.repo != repo
    requires Resolve(p, config) == p && Resolve(c, config) == c
    ensures LacksFlow(Linked(multiset{p, c}, repo, config), Flow(p, c))
  {
    StrangerRebuildsNothing(p, c, config, repo);
    LinkKeepsOtherTopics(multiset{p, c}, repo, config, Flow(p, c));
    JoinOfPair(p, c);
  }

  lemma ResolvingKeepsProducer(p: Edge, config: seq<Units.Unit>)
    ensures Resolve(p, config).kind == p.kind && Resolve(p, config).repo == p.repo
  {
  }

  /** A link that resolves the producer and then fails leaves the flow to others, and the link of a third
      repository does not store it. */
  lemma FailedLinkStaysBehind(p: Edge, c: Edge, config: seq<Units.Unit>, repo: string)
    requires AwaitsFlow(p, c, config) && repo != p.repo && repo != c.repo
    ensures var s := State(multiset{p, c}, {}, {});
            && ViewHolds(s) && Enabled(s, FailedLink(Touched(s.rows, config), ResolveAll(s.rows, config)))
            && LacksFlow(Linked(ResolveAll(s.rows, config), repo, config), Flow(Resolve(p, config), c))
  {
    ResolvingKeepsProducer(p, config);
    UnmatchedPairIsView(p, c);
    ResolvedPair(p, c, config);
    ResolvingChangesTouched(multiset{p, c}, config);
    StrangerStoresNoFlow(Resolve(p, config), c, config, repo);
  }

  /** For one, a producer of "${K}" with the default "t", and a consumer of "t". */
  lemma DefaultedTopicStaysBehind()
    ensures exists s: State, topics: set<string>, after: multiset<Edge>, f: Edge ::
              ViewHolds(s) && Enabled(s, FailedLink(topics, after)) && LacksFlow(Linked(after, "A", []), f)
  {
    var p := Edge("B", "p", "", Produces, "topic:${K}", "", 0, "", 1.0, Meta("t", "", 0.0, "", ""));
    var c := Edge("C", "c", "", Consumes, "topic:t", "", 0, "", 1.0, Meta("", "", 0.0, "", ""));
    assert AwaitsFlow(p, c, []);
    FailedLinkStaysBehind(p, c, [], "A");
  }

  /** A flow that touches the linked repository on a topic its link does not rebuild is neither stored nor
      joined. */
  lemma UnrebuiltFlowIsAbsent(rows: multiset<Edge>, repo: string, config: seq<Units.Unit>, f: Edge)
    requires f.kind.KafkaFlow? && f.dst != "" && (f.repo == repo || f.dstRepo == repo)
    requires f.dstName !in LinkTopicsOf(rows, repo, config)
    ensures rows[f] == 0 && FullJoin(rows)[f] == 0
  {
    var resolved, touched := ResolveAll(rows, config), Touched(rows, config);
    ResolveKeepsOthers(rows, config, touched, f);
    ResolveKeepsOtherFlows(rows, config, f);
    if f in resolved || f in FullJoin(resolved) {
      TouchingFlowIsRebuilt(resolved, repo, touched, f);
    }
  }

  lemma ViewCounts(s: State, f: Edge)
    requires ViewHolds(s) && LiveOutside(f, s.dirty, s.stale)
    ensures s.rows[f] == FullJoin(s.rows)[f]
  {
    assert Filter(s.rows, Live(s.dirty, s.stale))[f] == Filter(FullJoin(s.rows), Live(s.dirty, s.stale))[f];
  }

  /** On a topic no rebuild reaches, the stored flows stay those of the join. */
  lemma UntouchedTopic(rows: multiset<Edge>, repo: string, config: seq<Units.Unit>, f: Edge)
    requires f.kind.KafkaFlow? && f.dst != "" && f.dstName !in LinkTopicsOf(rows, repo, config)
    requires f.repo != repo && f.dstRepo != repo ==> rows[f] == FullJoin(rows)[f]
    ensures Linked(rows, repo, config)[f] == FullJoin(Linked(rows, repo, config))[f]
  {
    LinkKeepsOtherTopics(rows, repo, config, f);
    if f.repo == repo || f.dstRepo == repo {
      UnrebuiltFlowIsAbsent(rows, repo, config, f);
    }
  }

  lemma LinkedFlowJoins(s: State, repo: string, config: seq<Units.Unit>, f: Edge)
    requires ViewHolds(s) && LiveOutside(f, s.dirty - {repo}, s.stale - LinkTopicsOf(s.rows, repo, config))
    ensures Linked(s.rows, repo, config)[f] == FullJoin(Linked(s.rows, repo, config))[f]
  {
    if f.dstName in LinkTopicsOf(s.rows, repo, config) {
      LinkRebuildsTopics(s.rows, repo, config, f);
    } else {
      if f.repo != repo && f.dstRepo != repo {
        ViewCounts(s, f);
      }
      UntouchedTopic(s.rows, repo, config, f);
    }
  }

  lemma LinkKeepsView(s: State, repo: string, config: seq<Units.Unit>)
    requires ViewHolds(s) && Enabled(s, Link(repo, config))
    ensures ViewHolds(Apply(s, Link(repo, config)))
  {
    var t := Apply(s, Link(repo, config));
    forall f | LiveOutside(f, t.dirty, t.stale) ensures t.rows[f] == FullJoin(t.rows)[f] {
      LinkedFlowJoins(s, repo, config, f);
    }
    ViewFromFlows(t);
  }

  /** The view holds if every flow it speaks of is there as often as the join has it. */
  lemma ViewFromFlows(t: State)
    requires forall f :: LiveOutside(f, t.dirty, t.stale) ==> t.rows[f] == FullJoin(t.rows)[f]
    ensures ViewHolds(t)
  {
    forall f ensures Filter(t.rows, Live(t.dirty, t.stale))[f] == Filter(FullJoin(t.rows), Live(t.dirty, t.stale))[f] {
    }
    assert Filter(t.rows, Live(t.dirty, t.stale)) == Filter(FullJoin(t.rows), Live(t.dirty, t.stale));
  }

  lemma FullRebuildKeepsJoin(rows: multiset<Edge>)
    ensures FullJoin(RebuiltFully(rows)) == FullJoin(rows)
  {
    forall e | IsTopicEdge(e) ensures RebuiltFully(rows)[e] == rows[e] {
      if e in FullJoin(rows) {
        JoinHoldsFlows(rows, e);
      }
    }
    SameTopicEdgesSameJoin(rows, RebuiltFully(rows));
  }

  lemma FullViewHolds(rows: multiset<Edge>)
    ensures ViewHolds(State(RebuiltFully(rows), {}, {}))
  {
    FullRebuildKeepsJoin(rows);
    ViewFromFlows(State(RebuiltFully(rows), {}, {}));
  }

  lemma LinkAllKeepsView(s: State, config: seq<Units.Unit>)
    ensures ViewHolds(Apply(s, LinkAll(config)))
  {
    var resolved := ResolveAll(s.rows, config);
    assert Apply(s, LinkAll(config)) == State(RebuiltFully(resolved), {}, {});
    FullViewHolds(resolved);
  }

  lemma StepKeepsView(s: State, op: Op)
    requires ViewHolds(s) && Enabled(s, op)
    ensures ViewHolds(Apply(s, op))
  {
    match op
    case Reindex(repo, after) => ReindexKeepsView(s, repo, after);
    case Link(repo, config) => LinkKeepsView(s, repo, config);
    case FailedLink(topics, after) => FailedLinkKeepsView(s, topics, after);
    case LinkAll(config) => LinkAllKeepsView(s, config);
  }

  ghost predicate Runs(s: State, ops: seq<Op>)
    decreases ops
  {
    ops == [] || (Enabled(s, ops[0]) && Runs(Apply(s, ops[0]), ops[1..]))
  }

  ghost function Run(s: State, ops: seq<Op>): State
    requires Runs(s, ops)
    decreases ops
  {
    if ops == [] then s else Run(Apply(s, ops[0]), ops[1..])
  }

  lemma {:induction false} RunKeepsView(s: State, ops: seq<Op>)
    requires ViewHolds(s) && Runs(s, ops)
    ensures ViewHolds(Run(s, ops))
    decreases ops
  {
    if ops != [] {
      StepKeepsView(s, ops[0]);
      RunKeepsView(Apply(s, ops[0]), ops[1..]);
    }
  }

  /** Incremental equals full: after any interleaving of index passes, links and failed links, once every
      repository has been linked since its last pass and every topic a failed link left behind has been
      rebuilt, the flows with a destination are those a rebuild from scratch would store. */
  lemma IncrementalEqualsFull(s: State, ops: seq<Op>)
    requires ViewHolds(s) && Runs(s, ops) && Run(s, ops).dirty == {} && Run(s, ops).stale == {}
    ensures Filter(Run(s, ops).rows, Live({}, {})) == Filter(RebuiltFully(Run(s, ops).rows), Live({}, {}))
  {
    RunKeepsView(s, ops);
    FullRebuildFlows(Run(s, ops).rows);
  }

  /** Spelled out: after such a run every flow with a destination is of a producer and a consumer of its
      topic, and every producer and consumer of a topic, the latter in some unit, have one. */
  lemma IncrementalFlowsArePairs(s: State, ops: seq<Op>)
    requires ViewHolds(s) && Runs(s, ops) && Run(s, ops).dirty == {} && Run(s, ops).stale == {}
    ensures var rows := Run(s, ops).rows;
            && (forall f :: f in rows && f.kind.KafkaFlow? && f.dst != "" ==> exists p, c :: p in rows && c in rows && LinksEnds(f, p, c))
            && (forall p, c :: p in rows && c in rows && p.kind.Produces? && c.kind.Consumes? && p.dstName == c.dstName && c.src != "" ==>
                  exists f :: f in rows && LinksEnds(f, p, c))
  {
    RunKeepsView(s, ops);
    var t := Run(s, ops);
    forall f | f in t.rows && f.kind.KafkaFlow? && f.dst != "" ensures exists p, c :: p in t.rows && c in t.rows && LinksEnds(f, p, c) {
      var p, c := LiveFlowHasEnds(t, f);
    }
    forall p, c | p in t.rows && c in t.rows && p.kind.Produces? && c.kind.Consumes? && p.dstName == c.dstName && c.src != ""
      ensures exists f :: f in t.rows && LinksEnds(f, p, c)
    {
      EndsHaveLiveFlow(t, p, c);
    }
  }

  lemma LiveFlowHasEnds(s: State, f: Edge) returns (p: Edge, c: Edge)
    requires ViewHolds(s) && LiveOutside(f, s.dirty, s.stale) && f in s.rows
    ensures p in s.rows && c in s.rows && LinksEnds(f, p, c)
  {
    ViewCounts(s, f);
    p, c := FlowHasEnds(OfKinds(s.rows, {Produces}), OfKinds(s.rows, {Consumes}), f);
    FlowIsOfEnds(f, p, c);
  }

  lemma EndsHaveLiveFlow(s: State, p: Edge, c: Edge)
    requires ViewHolds(s) && s.dirty == {} && s.stale == {}
    requires p in s.rows && c in s.rows && p.kind.Produces? && c.kind.Consumes? && p.dstName == c.dstName && c.src != ""
    ensures Flow(p, c) in s.rows && LinksEnds(Flow(p, c), p, c)
  {
    PairHasFlow(OfKinds(s.rows, {Produces}), OfKinds(s.rows, {Consumes}), p, c);
    FlowIsOfEnds(Flow(p, c), p, c);
    ViewCounts(s, Flow(p, c));
  }

  /** The live flows a rebuild from scratch stores are those of the join. */
  lemma FullRebuildFlows(rows: multiset<Edge>)
    ensures Filter(RebuiltFully(rows), Live({}, {})) == Filter(FullJoin(rows), Live({}, {}))
  {
    assert forall f :: LiveOutside(f, {}, {}) ==> RebuiltFully(rows)[f] == FullJoin(rows)[f];
  }

  /** In particular one repository's pass and link, from a view that is the join. */
  lemma OnePassEqualsFull(rows: multiset<Edge>, after: multiset<Edge>, repo: string, config: seq<Units.Unit>)
    requires Filter(rows, Live({}, {})) == Filter(FullJoin(rows), Live({}, {}))
    requires repo != "" && Reindexed(rows, after, repo)
    ensures Filter(Linked(after, repo, config), Live({}, {})) == Filter(RebuiltFully(Linked(after, repo, config)), Live({}, {}))
  {
    var s := State(rows, {}, {});
    var t := Apply(s, Reindex(repo, after));
    StepKeepsView(s, Reindex(repo, after));
    LinkKeepsView(t, repo, config);
    assert t.dirty - {repo} == {} && t.stale - LinkTopicsOf(after, repo, config) == {};
    FullRebuildFlows(Linked(after, repo, config));
  }

  // ---------------------------------------------------------------------------
  // The passes themselves
  // ---------------------------------------------------------------------------

  function OnTopic(edges: seq<Edge>, topic: string): seq<Edge>
  {
    if edges == [] then []
    else
      var rest := OnTopic(edges[..|edges| - 1], topic);
      if edges[|edges| - 1].dstName == topic then rest + [edges[|edges| - 1]] else rest
  }

  method IndexByTopic(edges: seq<Edge>) returns (byTopic: map<string, seq<Edge>>)
    ensures forall t: string :: Units.Bucket(byTopic, t) == OnTopic(edges, t)
  {
    byTopic := map[];
    for i := 0 to |edges|
      invariant forall t: string :: Units.Bucket(byTopic, t) == OnTopic(edges[..i], t)
    {
      assert edges[..i + 1][..i] == edges[..i];
      var t := edges[i].dstName;
      byTopic := byTopic[t := Units.Bucket(byTopic, t) + [edges[i]]];
    }
    assert edges[..|edges|] == edges;
  }

  lemma {:induction false} BucketJoinsAll(p: Edge, consumers: seq<Edge>)
    ensures Sum(OnTopic(consumers, p.dstName), Pairs(p)) == Sum(consumers, Pairs(p))
  {
    if consumers != [] {
      var front, c := consumers[..|consumers| - 1], consumers[|consumers| - 1];
      BucketJoinsAll(p, front);
      var kept := OnTopic(front, p.dstName);
      assert (kept + [c])[..|kept|] == kept;
    }
  }

  lemma BucketIsFlowsOf(p: Edge, consumers: seq<Edge>)
    ensures Sum(OnTopic(consumers, p.dstName), Pairs(p)) == FlowsOf(multiset(consumers))(p)
  {
    BucketJoinsAll(p, consumers);
    SumOfPermutation(consumers, Listing(multiset(consumers)), Pairs(p));
  }

  /** Only flows on the topics changed. */
  ghost predicate FlowsChangedOn(rows: multiset<Edge>, after: multiset<Edge>, topics: set<string>)
  {
    forall e: Edge :: !(e.kind.KafkaFlow? && e.dstName in topics) ==> after[e] == rows[e]
  }

  lemma FlowsChangedTwice(a: multiset<Edge>, b: multiset<Edge>, c: multiset<Edge>, topics: set<string>)
    requires FlowsChangedOn(a, b, topics) && FlowsChangedOn(b, c, topics)
    ensures FlowsChangedOn(a, c, topics)
  {
  }

  /** Stores the flows of one producer; a failed store is counted and left out. */
  method StoreFlows(table: EdgeTable, p: Edge, bucket: seq<Edge>) returns (errors: nat)
    requires forall i :: 0 <= i < |bucket| ==> bucket[i].dstName == p.dstName
    modifies table
    ensures errors == 0 ==> table.rows == old(table.rows) + Sum(bucket, Pairs(p))
    ensures FlowsChangedOn(old(table.rows), table.rows, {p.dstName})
  {
    errors := 0;
    for i := 0 to |bucket|
      invariant errors == 0 ==> table.rows == old(table.rows) + Sum(bucket[..i], Pairs(p))
      invariant FlowsChangedOn(old(table.rows), table.rows, {p.dstName})
    {
      assert bucket[..i + 1][..i] == bucket[..i];
      var ok := table.StoreEdge(Flow(p, bucket[i]));
      if !ok {
        errors := errors + 1;
      }
    }
    assert bucket[..|bucket|] == bucket;
  }

  ghost function FlowsOn(consumers: multiset<Edge>, topics: set<string>): Edge -> multiset<Edge>
  {
    (p: Edge) => if p.dstName in topics then FlowsOf(consumers)(p) else multiset{}
  }

  lemma JoinOnTopics(producers: seq<Edge>, consumers: multiset<Edge>, topics: set<string>)
    ensures Sum(producers, FlowsOn(consumers, topics)) == Filter(Join(multiset(producers), consumers), OnTopics(topics))
  {
    var ps, f := multiset(producers), FlowsOn(consumers, topics);
    SumOfPermutation(producers, Listing(ps), f);
    FlatMapFiltered(ps, f, OnTopics(topics));
    FlatMapAgree(Filter(ps, OnTopics(topics)), f, FlowsOf(consumers));
    SelectedByProducer(ps, consumers, topics);
  }

  lemma SelectedByProducer(ps: multiset<Edge>, consumers: multiset<Edge>, topics: set<string>)
    ensures Filter(Join(ps, consumers), OnTopics(topics)) == Join(Filter(ps, OnTopics(topics)), consumers)
  {
    var all := (c: Edge) => true;
    JoinOfSelected(ps, consumers, OnTopics(topics), all, OnTopics(topics));
    assert Filter(consumers, all) == consumers;
  }

  /** The flows of one producer, if its topic is being rebuilt. */
  method StoreProducer(table: EdgeTable, p: Edge, byTopic: map<string, seq<Edge>>, consumers: seq<Edge>, topics: set<string>) returns (errors: nat)
    requires forall t: string :: Units.Bucket(byTopic, t) == OnTopic(consumers, t)
    modifies table
    ensures errors == 0 ==> table.rows == old(table.rows) + FlowsOn(multiset(consumers), topics)(p)
    ensures FlowsChangedOn(old(table.rows), table.rows, topics)
  {
    if p.dstName !in topics {
      return 0;
    }
    var bucket := Units.Bucket(byTopic, p.dstName);
    OnTopicHolds(consumers, p.dstName);
    BucketIsFlowsOf(p, consumers);
    errors := StoreFlows(table, p, bucket);
  }

  method StoreJoin(table: EdgeTable, producers: seq<Edge>, consumers: seq<Edge>, topics: set<string>) returns (errors: nat)
    modifies table
    ensures errors == 0 ==> table.rows == old(table.rows) + Filter(Join(multiset(producers), multiset(consumers)), OnTopics(topics))
    ensures FlowsChangedOn(old(table.rows), table.rows, topics)
  {
    var byTopic := IndexByTopic(consumers);
    ghost var f := FlowsOn(multiset(consumers), topics);
    errors := 0;
    for i := 0 to |producers|
      invariant errors == 0 ==> table.rows == old(table.rows) + Sum(producers[..i], f)
      invariant FlowsChangedOn(old(table.rows), table.rows, topics)
    {
      assert producers[..i + 1][..i] == producers[..i];
      ghost var so := table.rows;
      var failed := StoreProducer(table, producers[i], byTopic, consumers, topics);
      FlowsChangedTwice(old(table.rows), so, table.rows, topics);
      errors := errors + failed;
    }
    assert producers[..|producers|] == producers;
    JoinOnTopics(producers, multiset(consumers), topics);
  }

  lemma {:induction false} OnTopicHolds(edges: seq<Edge>, topic: string)
    ensures forall i :: 0 <= i < |OnTopic(edges, topic)| ==> OnTopic(edges, topic)[i].dstName == topic
  {
    if edges != [] {
      OnTopicHolds(edges[..|edges| - 1], topic);
    }
  }

  /** The topics of the repository's own edges among the given ones. */
  method TopicsOf(edges: seq<Edge>, repo: string) returns (topics: set<string>)
    ensures topics == set i | 0 <= i < |edges| && OfRepo(edges[i], repo) :: edges[i].dstName
  {
    topics := {};
    for i := 0 to |edges|
      invariant topics == set j | 0 <= j < i && OfRepo(edges[j], repo) :: edges[j].dstName
    {
      if OfRepo(edges[i], repo) {
        topics := topics + {edges[i].dstName};
      }
    }
  }

  lemma TopicsInTable(rows: multiset<Edge>, edges: seq<Edge>, kinds: set<EdgeKind>, repo: string)
    requires multiset(edges) == OfKinds(rows, kinds)
    ensures (set i | 0 <= i < |edges| && OfRepo(edges[i], repo) :: edges[i].dstName) == TopicsOfKind(rows, kinds, repo)
  {
    forall i | 0 <= i < |edges| ensures edges[i] in rows && edges[i].kind in kinds {
      assert edges[i] in multiset(edges);
    }
    forall e | e in rows && e.kind in kinds ensures e in edges {
      assert e in multiset(edges);
    }
  }

  method DeleteTopics(table: EdgeTable, topics: set<string>) returns (ok: bool)
    modifies table
    ensures ok ==> table.rows == OutOfGroups(old(table.rows), FlowKeys(topics))
    ensures FlowsChangedOn(old(table.rows), table.rows, topics)
  {
    var todo := topics;
    ghost var done: set<string> := {};
    NoGroups(table.rows);
    assert FlowKeys(done) == {};
    while todo != {}
      invariant done + todo == topics && done !! todo
      invariant table.rows == OutOfGroups(old(table.rows), FlowKeys(done))
      decreases |todo|
    {
      var t :| t in todo;
      todo := todo - {t};
      ok := table.DeleteByKindAndDst(EdgeKey(KafkaFlow, t));
      if !ok {
        return false;
      }
      OutOfMoreGroups(old(table.rows), FlowKeys(done), EdgeKey(KafkaFlow, t));
      assert FlowKeys(done + {t}) == FlowKeys(done) + {EdgeKey(KafkaFlow, t)};
      done := done + {t};
    }
    assert done == topics;
    ok := true;
  }

  /** deriveKafkaFlows: incremental for a repository, from scratch for the empty id. */
  method DeriveKafkaFlows(table: EdgeTable, repo: string, rewritten: set<string>) returns (ok: bool, errors: nat)
    modifies table
    ensures ok && errors == 0 && repo != "" ==> table.rows == Rebuilt(old(table.rows), Affected(old(table.rows), repo, rewritten))
    ensures ok && errors == 0 && repo == "" ==> table.rows == RebuiltFully(old(table.rows))
    ensures ok && errors == 0 ==> forall t :: repo == "" || t in Affected(old(table.rows), repo, rewritten) ==> FlowsArePairs(table.rows, t)
    ensures repo != "" ==> FlowsChangedOn(old(table.rows), table.rows, Affected(old(table.rows), repo, rewritten))
    ensures forall e: Edge :: !e.kind.KafkaFlow? ==> table.rows[e] == old(table.rows)[e]
  {
    var producers := table.GetEdges({Produces});
    var consumers := table.GetEdges({Consumes});
    if repo != "" {
      var flows := table.GetEdges({KafkaFlow});
      var affected := AffectedTopics(table.rows, producers, consumers, flows, repo, rewritten);
      if affected == {} {
        NothingAffected(table.rows);
        return true, 0;
      }
      RebuiltHasPairs(table.rows, affected);
      ok, errors := RebuildTopics(table, producers, consumers, affected);
    } else {
      RebuiltFullyHasPairs(table.rows);
      ok, errors := RebuildAll(table, producers, consumers);
    }
  }

  method RebuildTopics(table: EdgeTable, producers: seq<Edge>, consumers: seq<Edge>, topics: set<string>) returns (ok: bool, errors: nat)
    requires multiset(producers) == OfKinds(table.rows, {Produces}) && multiset(consumers) == OfKinds(table.rows, {Consumes})
    modifies table
    ensures ok && errors == 0 ==> table.rows == Rebuilt(old(table.rows), topics)
    ensures FlowsChangedOn(old(table.rows), table.rows, topics)
  {
    errors := 0;
    ok := DeleteTopics(table, topics);
    if ok {
      ghost var so := table.rows;
      errors := StoreJoin(table, producers, consumers, topics);
      FlowsChangedTwice(old(table.rows), so, table.rows, topics);
    }
  }

  method RebuildAll(table: EdgeTable, producers: seq<Edge>, consumers: seq<Edge>) returns (ok: bool, errors: nat)
    requires multiset(producers) == OfKinds(table.rows, {Produces}) && multiset(consumers) == OfKinds(table.rows, {Consumes})
    modifies table
    ensures ok && errors == 0 ==> table.rows == RebuiltFully(old(table.rows))
    ensures forall e: Edge :: !e.kind.KafkaFlow? ==> table.rows[e] == old(table.rows)[e]
  {
    errors := 0;
    ok := ClearFlows(table);
    if ok {
      var topics := AllTopics(producers);
      errors := StoreJoin(table, producers, consumers, topics);
      AllTopicsSelectAll(producers, multiset(consumers), topics);
    }
  }

  method ClearFlows(table: EdgeTable) returns (ok: bool)
    modifies table
    ensures ok ==> table.rows == old(table.rows) - OfKinds(old(table.rows), {KafkaFlow})
    ensures forall e: Edge :: !e.kind.KafkaFlow? ==> table.rows[e] == old(table.rows)[e]
  {
    ok := table.DeleteByKind(KafkaFlow);
  }

  method AffectedTopics(ghost rows: multiset<Edge>, producers: seq<Edge>, consumers: seq<Edge>, flows: seq<Edge>, repo: string, rewritten: set<string>)
    returns (affected: set<string>)
    requires multiset(producers) == OfKinds(rows, {Produces})
    requires multiset(consumers) == OfKinds(rows, {Consumes})
    requires multiset(flows) == OfKinds(rows, {KafkaFlow})
    ensures affected == Affected(rows, repo, rewritten)
  {
    var a := TopicsOf(producers, repo);
    var b := TopicsOf(consumers, repo);
    var c := TopicsOf(flows, repo);
    affected := rewritten + a + b + c;
    TopicsInTable(rows, producers, {Produces}, repo);
    TopicsInTable(rows, consumers, {Consumes}, repo);
    TopicsInTable(rows, flows, {KafkaFlow}, repo);
    AffectedByKind(rows, repo, rewritten);
  }

  ghost function TopicsOfKind(rows: multiset<Edge>, kinds: set<EdgeKind>, repo: string): set<string>
  {
    set e | e in rows && e.kind in kinds && OfRepo(e, repo) :: e.dstName
  }

  lemma AffectedByKind(rows: multiset<Edge>, repo: string, rewritten: set<string>)
    ensures Affected(rows, repo, rewritten) ==
              rewritten + TopicsOfKind(rows, {Produces}, repo) + TopicsOfKind(rows, {Consumes}, repo) + TopicsOfKind(rows, {KafkaFlow}, repo)
  {
  }

  method AllTopics(edges: seq<Edge>) returns (topics: set<string>)
    ensures forall i :: 0 <= i < |edges| ==> edges[i].dstName in topics
  {
    topics := set i | 0 <= i < |edges| :: edges[i].dstName;
  }

  lemma AllTopicsSelectAll(producers: seq<Edge>, consumers: multiset<Edge>, topics: set<string>)
    requires forall i :: 0 <= i < |producers| ==> producers[i].dstName in topics
    ensures Filter(Join(multiset(producers), consumers), OnTopics(topics)) == Join(multiset(producers), consumers)
  {
    var ps := multiset(producers);
    forall f | f in Join(ps, consumers) ensures f.dstName in topics {
      var p, c := FlowHasEnds(ps, consumers, f);
      assert p in producers;
    }
  }

  lemma NothingAffected(rows: multiset<Edge>)
    ensures Rebuilt(rows, {}) == rows
  {
    assert FlowKeys({}) == {};
    NoGroups(rows);
    assert Filter(FullJoin(rows), OnTopics({})) == multiset{};
  }

  /** Whatever failed in it, the config pass changes only edges of the topics it touched. */
  lemma RewriteKeepsOthers(rows: multiset<Edge>, config: seq<Units.Unit>, deleted: set<EdgeKey>, touched: set<string>, e: Edge)
    requires Touched(rows, config) <= touched && e.dstName !in touched
    ensures FlatMap(rows, RewriteOne(config, deleted))[e] == rows[e]
  {
    forall x | x in rows ensures RewriteOne(config, deleted)(x)[e] == if x == e then 1 else 0 {
      MovesWithinTouched(rows, config, x);
    }
    FlatMapKeepsCount(rows, RewriteOne(config, deleted), e);
  }

  lemma ConfigPassChangesOn(rows: multiset<Edge>, after: multiset<Edge>, config: seq<Units.Unit>, deleted: set<EdgeKey>, lost: set<EdgeKey>, touched: set<string>)
    requires touched == Touched(rows, config) && lost <= deleted && forall key :: key in deleted ==> key.dstName in touched
    requires after == FlatMap(OutOfGroups(rows, lost), RewriteOne(config, deleted))
    ensures ChangedOn(rows, after, touched)
  {
    var some := OutOfGroups(rows, lost);
    assert forall x :: x in some ==> x in rows;
    forall e: Edge | e.dstName !in touched ensures after[e] == rows[e] {
      RewriteKeepsOthers(some, config, deleted, touched, e);
      assert KeyOf(e) !in lost;
    }
  }

  /** The topic part of a linker run, which may also be given up between its two passes.  Without an
      error it is the link step above; otherwise a failed link on `topics`. */
  method LinkTopics(table: EdgeTable, repo: string, config: seq<Units.Unit>) returns (ok: bool, errors: nat, ghost topics: set<string>)
    requires repo != ""
    modifies table
    ensures ok && errors == 0 ==> table.rows == Linked(old(table.rows), repo, config)
    ensures ok && errors == 0 ==> forall t :: t in LinkTopicsOf(old(table.rows), repo, config) ==> FlowsArePairs(table.rows, t)
    ensures ChangedOn(old(table.rows), table.rows, topics)
  {
    ghost var deleted, restored;
    ghost var before := table.rows;
    var touched;
    touched, errors, deleted, restored := ResolveConfigRefs(table, config);
    ConfigPassChangesOn(before, table.rows, config, deleted, deleted - restored, touched);
    topics := touched;
    var goesOn: bool := *;
    if !goesOn {
      return false, errors, topics;
    }
    topics := Affected(table.rows, repo, touched);
    var failed;
    ok, failed := DeriveKafkaFlows(table, repo, touched);
    errors := errors + failed;
  }
}
