/** Following a parameter through the graph: a budgeted depth-first walk that detects cycles, records
    every way it ends, and keeps the best sixty-four chains. */
module Trace {
  import Sorting

  /** A way out of a unit: the edge's kind, confidence and factor, and what is followed next. */
  datatype Hop = Hop(kind: string, unit: string, tracked: seq<string>, note: string, weight: real)

  datatype Step = Step(unit: string, tracked: seq<string>, via: string, note: string, confidence: real)

  /** The fixed store and argument matching as functions: the hops out of a unit for what is tracked
      there, and the normalised text of tracked identifiers. */
  datatype World = World(hops: (string, seq<string>) -> seq<Hop>, text: seq<string> -> string, maxDepth: nat)

  datatype Limit = Unlimited | DepthLimit | BudgetLimit

  /** A recorded walk; `limit` says which limit cut it off, if one did. */
  datatype Chain = Chain(steps: seq<Step>, limit: Limit)

  predicate Truncated(c: Chain) { !c.limit.Unlimited? }

  // ---------------------------------------------------------------------------
  // Walks
  // ---------------------------------------------------------------------------

  function NodeKey(w: World, unit: string, tracked: seq<string>): string { unit + "|" + w.text(tracked) }

  function KeyAt(w: World, path: seq<Step>, i: nat): string
    requires i < |path|
  {
    NodeKey(w, path[i].unit, path[i].tracked)
  }

  function ChainKey(w: World, path: seq<Step>): string
  {
    if path == [] then ""
    else if |path| == 1 then KeyAt(w, path, 0)
    else ChainKey(w, path[..|path| - 1]) + ">" + KeyAt(w, path, |path| - 1)
  }

  /** While no unit id has a bar in it, equal keys mean the same unit with the same identifiers. */
  lemma NodeKeyTells(w: World, u: string, t: seq<string>, v: string, r: seq<string>)
    requires '|' !in u && '|' !in v
    ensures NodeKey(w, u, t) == NodeKey(w, v, r) <==> u == v && w.text(t) == w.text(r)
  {
    if NodeKey(w, u, t) == NodeKey(w, v, r) {
      CutsAt(u, w.text(t), v, w.text(r), '|');
    }
  }

  lemma {:induction false} CutsAt(a: string, b: string, c: string, d: string, x: char)
    requires x !in a && x !in c && a + [x] + b == c + [x] + d
    ensures a == c && b == d
  {
    var s, t := a + [x] + b, c + [x] + d;
    assert s[0] == t[0] && s[1..] == t[1..];
    if a == "" || c == "" {
      assert a == c == "";
    } else {
      assert s[1..] == a[1..] + [x] + b && t[1..] == c[1..] + [x] + d;
      CutsAt(a[1..], b, c[1..], d, x);
    }
  }

  /** A walk's key spells the keys along it: walks of the same units with the same identifiers share one. */
  lemma {:induction false} ChainKeySpells(w: World, a: seq<Step>, b: seq<Step>)
    requires |a| == |b| && forall i :: 0 <= i < |a| ==> KeyAt(w, a, i) == KeyAt(w, b, i)
    ensures ChainKey(w, a) == ChainKey(w, b)
  {
    if |a| > 1 {
      var n := |a| - 1;
      forall i | 0 <= i < n ensures KeyAt(w, a[..n], i) == KeyAt(w, b[..n], i) {
        assert KeyAt(w, a, i) == KeyAt(w, b, i);
      }
      ChainKeySpells(w, a[..n], b[..n]);
    } else if |a| == 1 {
      assert KeyAt(w, a, 0) == KeyAt(w, b, 0);
    }
  }

  ghost predicate NoArrow(w: World, a: seq<Step>) { forall i :: 0 <= i < |a| ==> '>' !in KeyAt(w, a, i) }

  lemma {:induction false} CutsLast(a: string, b: string, c: string, d: string, x: char)
    requires x !in b && x !in d && a + [x] + b == c + [x] + d
    ensures a == c && b == d
    decreases |b|
  {
    var s, t := a + [x] + b, c + [x] + d;
    var n := |s| - 1;
    assert s[n] == t[n] && s[..n] == t[..n];
    if b == "" || d == "" {
      assert b == d == "";
      assert s[..n] == a && t[..n] == c;
    } else {
      assert s[..n] == a + [x] + b[..|b| - 1] && t[..n] == c + [x] + d[..|d| - 1];
      CutsLast(a, b[..|b| - 1], c, d[..|d| - 1], x);
      assert b == b[..|b| - 1] + [s[n]] && d == d[..|d| - 1] + [t[n]];
    }
  }

  /** And while no key has a ">" in it, only those. */
  lemma {:induction false} ChainKeyTells(w: World, a: seq<Step>, b: seq<Step>)
    requires a != [] && b != [] && NoArrow(w, a) && NoArrow(w, b) && ChainKey(w, a) == ChainKey(w, b)
    ensures |a| == |b| && forall i :: 0 <= i < |a| ==> KeyAt(w, a, i) == KeyAt(w, b, i)
  {
    ArrowsInside(w, a);
    ArrowsInside(w, b);
    if |a| > 1 && |b| > 1 {
      var m, n := |a| - 1, |b| - 1;
      CutsLast(ChainKey(w, a[..m]), KeyAt(w, a, m), ChainKey(w, b[..n]), KeyAt(w, b, n), '>');
      FrontHasNoArrow(w, a);
      FrontHasNoArrow(w, b);
      ChainKeyTells(w, a[..m], b[..n]);
      forall i | 0 <= i < |a| ensures KeyAt(w, a, i) == KeyAt(w, b, i) {
        if i < m {
          assert KeyAt(w, a[..m], i) == KeyAt(w, b[..n], i);
        }
      }
    }
  }

  lemma FrontHasNoArrow(w: World, a: seq<Step>)
    requires |a| > 1 && NoArrow(w, a)
    ensures NoArrow(w, a[..|a| - 1])
  {
    var front := a[..|a| - 1];
    forall i | 0 <= i < |front| ensures '>' !in KeyAt(w, front, i) {
      assert '>' !in KeyAt(w, a, i);
    }
  }

  lemma ArrowsInside(w: World, a: seq<Step>)
    requires a != [] && NoArrow(w, a)
    ensures '>' in ChainKey(w, a) <==> |a| > 1
    ensures |a| > 1 ==> ChainKey(w, a) == ChainKey(w, a[..|a| - 1]) + ['>'] + KeyAt(w, a, |a| - 1)
  {
    if |a| == 1 {
      assert '>' !in KeyAt(w, a, 0);
    }
  }

  /** Hop h taken after step s. */
  function Take(s: Step, h: Hop): Step { Step(h.unit, h.tracked, h.kind, h.note, s.confidence * h.weight) }

  ghost predicate Follows(w: World, s: Step, t: Step)
  {
    exists i :: 0 <= i < |w.hops(s.unit, s.tracked)| && t == Take(s, w.hops(s.unit, s.tracked)[i])
  }

  /** A step follows one out of whose unit a hop leads to it, at the product of the confidences. */
  lemma FollowsIs(w: World, s: Step, t: Step)
    ensures Follows(w, s, t) <==>
              exists i :: 0 <= i < |w.hops(s.unit, s.tracked)| &&
                var h := w.hops(s.unit, s.tracked)[i];
                t.unit == h.unit && t.tracked == h.tracked && t.via == h.kind && t.note == h.note && t.confidence == s.confidence * h.weight
  {
    if i :| 0 <= i < |w.hops(s.unit, s.tracked)| && (var h := w.hops(s.unit, s.tracked)[i];
            t.unit == h.unit && t.tracked == h.tracked && t.via == h.kind && t.note == h.note && t.confidence == s.confidence * h.weight) {
      assert t == Take(s, w.hops(s.unit, s.tracked)[i]);
    }
  }

  ghost predicate IsWalk(w: World, path: seq<Step>)
  {
    path != [] && forall i :: 0 < i < |path| ==> Follows(w, path[i - 1], path[i])
  }

  /** The first n steps stand at different unit and tracked identifiers. */
  ghost predicate Simple(w: World, path: seq<Step>, n: nat)
    requires n <= |path|
  {
    forall i, j :: 0 <= i < j < n ==> KeyAt(w, path, i) != KeyAt(w, path, j)
  }

  /** The last step was on the path before. */
  ghost predicate Cycles(w: World, path: seq<Step>)
    requires path != []
  {
    exists i: nat :: i < |path| - 1 && KeyAt(w, path, i) == KeyAt(w, path, |path| - 1)
  }

  ghost predicate Sinks(w: World, path: seq<Step>)
    requires path != []
  {
    w.hops(path[|path| - 1].unit, path[|path| - 1].tracked) == []
  }

  /** Where the walk must stop, budget aside. */
  ghost predicate Ends(w: World, path: seq<Step>)
    requires path != []
  {
    |path| > w.maxDepth || Cycles(w, path) || Sinks(w, path)
  }

  /** A walk that stops where it must and not before. */
  ghost predicate Maximal(w: World, path: seq<Step>)
  {
    && IsWalk(w, path) && Ends(w, path)
    && forall n :: 0 < n < |path| ==> !Ends(w, path[..n])
  }

  /** What is recorded: a walk of at least one hop within the depth, simple but for its last step, that
      says truthfully how it ended. */
  ghost predicate Sound(w: World, c: Chain)
  {
    && 2 <= |c.steps| <= w.maxDepth + 1
    && IsWalk(w, c.steps) && Simple(w, c.steps, |c.steps| - 1)
    && (c.limit.Unlimited? ==> Cycles(w, c.steps) || Sinks(w, c.steps))
    && (c.limit.DepthLimit? ==> |c.steps| == w.maxDepth + 1)
  }

  // ---------------------------------------------------------------------------
  // Ranking
  // ---------------------------------------------------------------------------

  predicate CrossesService(via: string) { via == "rpc_call" || via == "http_call" || via == "kafka_flow" }

  function Crossings(path: seq<Step>): nat
  {
    if path == [] then 0
    else Crossings(path[..|path| - 1]) + if CrossesService(path[|path| - 1].via) then 1 else 0
  }

  predicate BetterChain(a: seq<Step>, b: seq<Step>)
  {
    if Crossings(a) != Crossings(b) then Crossings(a) > Crossings(b) else |a| > |b|
  }

  /** A chain that reached an end beats one that was cut off. */
  predicate Better(a: Chain, b: Chain)
  {
    if Truncated(a) != Truncated(b) then !Truncated(a) else BetterChain(a.steps, b.steps)
  }

  /** The steps of a walk that were reached across a service boundary. */
  function CrossedAt(path: seq<Step>): set<nat>
  {
    set i: nat | i < |path| && (path[i].via == "rpc_call" || path[i].via == "http_call" || path[i].via == "kafka_flow")
  }

  /** a is worth showing before b: it came to an end and b was cut off; or, alike in that, it crosses more
      boundaries; or, alike in that too, it is longer. */
  predicate Outdoes(a: Chain, b: Chain)
  {
    if a.limit.Unlimited? != b.limit.Unlimited? then a.limit.Unlimited?
    else if |CrossedAt(a.steps)| != |CrossedAt(b.steps)| then |CrossedAt(a.steps)| > |CrossedAt(b.steps)|
    else |a.steps| > |b.steps|
  }

  lemma {:induction false} CrossingsCount(path: seq<Step>)
    ensures Crossings(path) == |CrossedAt(path)|
  {
    if path != [] {
      var n := |path| - 1;
      CrossingsCount(path[..n]);
      assert CrossedAt(path) == CrossedAt(path[..n]) + if CrossesService(path[n].via) then {n} else {};
    } else {
      assert CrossedAt(path) == {};
    }
  }

  lemma BetterIs(a: Chain, b: Chain)
    ensures Better(a, b) <==> Outdoes(a, b)
  {
    CrossingsCount(a.steps);
    CrossingsCount(b.steps);
  }

  lemma BetterIsAsymmetric(a: Chain, b: Chain)
    requires Better(a, b)
    ensures !Better(b, a)
  {
  }

  lemma NotBetterIsTransitive(a: Chain, b: Chain, c: Chain)
    requires !Better(a, b) && !Better(b, c)
    ensures !Better(a, c)
  {
  }

  /** No discarded chain is strictly better than a kept one. */
  ghost predicate KeepsBest(kept: seq<Chain>, discarded: seq<Chain>)
  {
    forall i, j :: 0 <= i < |discarded| && 0 <= j < |kept| ==> !Better(discarded[i], kept[j])
  }

  const MAX_COMPLETED := 64

  lemma DiscardNew(kept: seq<Chain>, discarded: seq<Chain>, worst: nat, c: Chain)
    requires KeepsBest(kept, discarded) && worst < |kept| && !Better(c, kept[worst])
    requires forall j :: 0 <= j < |kept| ==> !Better(kept[worst], kept[j])
    ensures KeepsBest(kept, discarded + [c])
  {
    forall j | 0 <= j < |kept| ensures !Better(c, kept[j]) {
      NotBetterIsTransitive(c, kept[worst], kept[j]);
    }
  }

  lemma ReplaceWorst(kept: seq<Chain>, discarded: seq<Chain>, worst: nat, c: Chain)
    requires KeepsBest(kept, discarded) && worst < |kept| && Better(c, kept[worst])
    requires forall j :: 0 <= j < |kept| ==> !Better(kept[worst], kept[j])
    ensures KeepsBest(kept[worst := c], discarded + [kept[worst]])
  {
    BetterIsAsymmetric(c, kept[worst]);
    forall i | 0 <= i < |discarded| ensures !Better(discarded[i], c) {
      NotBetterIsTransitive(discarded[i], kept[worst], c);
    }
  }

  // ---------------------------------------------------------------------------
  // The tracer
  // ---------------------------------------------------------------------------

  const MAX_EXPANSIONS := 5000

  /** What a cut-off chain says of itself on its last step. */
  function LimitNote(limit: Limit): string
  {
    match limit
    case Unlimited => ""
    case DepthLimit => "truncated: depth limit reached"
    case BudgetLimit => "truncated: expansion budget exhausted"
  }

  function Shown(c: Chain): seq<Step>
    requires c.steps != []
  {
    if !Truncated(c) then c.steps
    else
      var n := |c.steps| - 1;
      var last := c.steps[n];
      c.steps[n := last.(note := if last.note == "" then LimitNote(c.limit) else last.note + " (" + LimitNote(c.limit) + ")")]
  }

  /** A chain is shown as it was walked, a cut-off one with the reason added to its last note. */
  lemma ShownSays(c: Chain)
    requires c.steps != []
    ensures var n := |c.steps| - 1;
            var why := if c.limit.DepthLimit? then "truncated: depth limit reached" else "truncated: expansion budget exhausted";
            && |Shown(c)| == |c.steps| && (forall i :: 0 <= i < n ==> Shown(c)[i] == c.steps[i])
            && Shown(c)[n] == if c.limit.Unlimited? then c.steps[n]
                              else if c.steps[n].note == "" then c.steps[n].(note := why)
                              else c.steps[n].(note := c.steps[n].note + " (" + why + ")")
  {
  }

  function Keys(w: World, path: seq<Step>, n: nat): set<string>
    requires n <= |path|
  {
    set i | 0 <= i < n :: KeyAt(w, path, i)
  }

  class Tracer {
    const w: World
    var expansions: nat
    var onPath: set<string>
    var seen: set<string>
    var discovered: nat
    var completed: seq<Chain>
    /** Chains recorded and not kept, and whether the budget ever stopped the walk. */
    ghost var discarded: seq<Chain>
    ghost var exhausted: bool

    /** The recorded chains, kept and not, one for each key seen. */
    ghost predicate Book()
      reads this`seen, this`discovered, this`completed, this`discarded
    {
      && Retained(completed, discarded)
      && |completed| + |discarded| == discovered == |seen|
      && Accounts(w, seen, completed + discarded)
    }

    ghost predicate Valid()
      reads this
    {
      expansions <= MAX_EXPANSIONS && (exhausted ==> expansions == MAX_EXPANSIONS) && Book()
    }

    constructor (world: World)
      ensures w == world && Valid() && onPath == {} && !exhausted
    {
      w := world;
      expansions, onPath, seen, discovered, completed, discarded, exhausted := 0, {}, {}, 0, [], [], false;
    }

    method Worst() returns (worst: nat)
      requires |completed| > 0
      ensures worst < |completed| && forall j :: 0 <= j < |completed| ==> !Better(completed[worst], completed[j])
    {
      worst := 0;
      for i := 1 to |completed|
        invariant worst < |completed| && forall j :: 0 <= j < i ==> !Better(completed[worst], completed[j])
      {
        if Better(completed[worst], completed[i]) {
          forall j | 0 <= j < i ensures !Better(completed[i], completed[j]) {
            BetterIsAsymmetric(completed[worst], completed[i]);
            NotBetterIsTransitive(completed[i], completed[worst], completed[j]);
          }
          worst := i;
        }
      }
    }

    method Keep(chain: Chain)
      requires Retained(completed, discarded)
      modifies this`completed, this`discarded
      ensures Retained(completed, discarded)
      ensures |completed| + |discarded| == old(|completed| + |discarded|) + 1
      ensures multiset(completed + discarded) == multiset(old(completed + discarded)) + multiset{chain}
    {
      if |completed| < MAX_COMPLETED {
        completed := completed + [chain];
        return;
      }
      var worst := Worst();
      var loser := completed[worst];
      if Better(chain, loser) {
        ReplaceWorst(completed, discarded, worst, chain);
        ReplacedBag(completed, discarded, worst, chain);
        discarded := discarded + [loser];
        completed := completed[worst := chain];
      } else {
        DiscardNew(completed, discarded, worst, chain);
        assert completed + (discarded + [chain]) == (completed + discarded) + [chain];
        discarded := discarded + [chain];
      }
    }

    method Record(chain: Chain, key: string)
      requires Book() && Sound(w, chain) && key == ChainKey(w, chain.steps) && key !in seen
      modifies this`seen, this`discovered, this`completed, this`discarded
      ensures Book() && seen == old(seen) + {key}
    {
      ghost var before := completed + discarded;
      Keep(chain);
      AddedChain(w, seen, before, completed + discarded, chain);
      GrownBy(seen, key);
      seen := seen + {key};
      discovered := discovered + 1;
    }

    /** finish: a walk of one step, or one whose key was seen, is not recorded. */
    method Finish(path: seq<Step>, limit: Limit)
      requires Book() && path != []
      requires |path| > 1 ==> Sound(w, Chain(path, limit))
      modifies this`seen, this`discovered, this`completed, this`discarded
      ensures Book()
      ensures seen == if |path| > 1 then old(seen) + {ChainKey(w, path)} else old(seen)
    {
      if |path| <= 1 {
        return;
      }
      var key := ChainKey(w, path);
      if key in seen {
        assert seen == seen + {key};
        return;
      }
      Record(Chain(path, limit), key);
    }

    /** Records a walk that ends where it must, budget aside. */
    method Stop(path: seq<Step>, limit: Limit)
      requires Book() && OnPath(w, path, onPath) && Ends(w, path)
      requires (limit.Unlimited? && (Cycles(w, path) || Sinks(w, path))) || (limit.DepthLimit? && |path| == w.maxDepth + 1)
      modifies this`seen, this`discovered, this`completed, this`discarded
      ensures Book() && old(seen) <= seen && Noted(w, path, seen)
    {
      EndIsSound(w, path, onPath, limit);
      Finish(path, limit);
      EndIsNoted(w, path, seen);
    }

    method Dfs(unit: string, tracked: seq<string>, path: seq<Step>, conf: real)
      requires Valid() && OnPath(w, path, onPath) && At(path, unit, tracked, conf)
      modifies this
      ensures Valid() && onPath == old(onPath) && old(seen) <= seen && (old(exhausted) ==> exhausted)
      ensures !exhausted ==> Noted(w, path, seen)
      decreases w.maxDepth + 1 - |path|, 3
    {
      if |path| > w.maxDepth {
        Stop(path, DepthLimit);
        return;
      }
      var key := NodeKey(w, unit, tracked);
      if key in onPath {
        CycleFound(w, path, onPath);
        Stop(path, Unlimited);
        return;
      }
      Enter(unit, tracked, path, conf, key);
    }

    /** The budget is spent: the walk is recorded as it stands. */
    method GiveUp(path: seq<Step>)
      requires Valid() && OnPath(w, path, onPath) && expansions >= MAX_EXPANSIONS
      modifies this`exhausted, this`seen, this`discovered, this`completed, this`discarded
      ensures Valid() && old(seen) <= seen && exhausted
    {
      exhausted := true;
      EndIsSound(w, path, onPath, BudgetLimit);
      Finish(path, BudgetLimit);
    }

    /** Expands a unit that is not on the path yet, budget allowing. */
    method Enter(unit: string, tracked: seq<string>, path: seq<Step>, conf: real, key: string)
      requires Valid() && OnPath(w, path, onPath) && At(path, unit, tracked, conf) && |path| <= w.maxDepth
      requires key == NodeKey(w, unit, tracked) && key !in onPath
      modifies this
      ensures Valid() && onPath == old(onPath) && old(seen) <= seen && (old(exhausted) ==> exhausted)
      ensures !exhausted ==> Noted(w, path, seen)
      decreases w.maxDepth + 1 - |path|, 2
    {
      if expansions >= MAX_EXPANSIONS {
        GiveUp(path);
        return;
      }
      expansions := expansions + 1;
      var hops := w.hops(unit, tracked);
      if |hops| == 0 {
        Stop(path, Unlimited);
        return;
      }
      Descend(hops, path, conf, key);
    }

    /** Follows the hops with the unit marked as being on the path. */
    method Descend(hops: seq<Hop>, path: seq<Step>, conf: real, key: string)
      requires Valid() && OnPath(w, path, onPath) && |path| <= w.maxDepth
      requires var last := path[|path| - 1]; hops == w.hops(last.unit, last.tracked) && hops != [] && conf == last.confidence
      requires key == KeyAt(w, path, |path| - 1) && key !in onPath
      modifies this
      ensures Valid() && onPath == old(onPath) && old(seen) <= seen && (old(exhausted) ==> exhausted)
      ensures !exhausted ==> Noted(w, path, seen)
      decreases w.maxDepth + 1 - |path|, 1
    {
      NotOnPath(w, path, onPath);
      onPath := onPath + {key};
      FollowHops(hops, path, conf);
      onPath := onPath - {key};
    }

    /** The loop over the hops of one unit. */
    method FollowHops(hops: seq<Hop>, path: seq<Step>, conf: real)
      requires Valid() && path != [] && OnPath(w, path, Keys(w, path, |path| - 1)) && onPath == Keys(w, path, |path|)
      requires !Ends(w, path) && Simple(w, path, |path|)
      requires var last := path[|path| - 1]; hops == w.hops(last.unit, last.tracked) && conf == last.confidence
      modifies this
      ensures Valid() && onPath == old(onPath) && old(seen) <= seen && (old(exhausted) ==> exhausted)
      ensures !exhausted ==> Noted(w, path, seen)
      decreases w.maxDepth + 1 - |path|, 0
    {
      for i := 0 to |hops|
        invariant Valid() && onPath == old(onPath) && old(seen) <= seen && (old(exhausted) ==> exhausted)
        invariant !exhausted ==> HopsNoted(w, path, i, seen)
      {
        var h := hops[i];
        var nextConf := conf * h.weight;
        var step := Step(h.unit, h.tracked, h.kind, h.note, nextConf);
        ChildOnPath(w, path, i);
        ghost var before := seen;
        Dfs(h.unit, h.tracked, path + [step], nextConf);
        if !exhausted {
          NextHopNoted(w, path, i, before, seen);
        }
      }
      if !exhausted {
        AllHopsNoted(w, path, seen);
      }
    }
  }

  predicate At(path: seq<Step>, unit: string, tracked: seq<string>, conf: real)
    requires path != []
  {
    var last := path[|path| - 1];
    last.unit == unit && last.tracked == tracked && last.confidence == conf
  }

  /** At most sixty-four chains are kept, nothing is discarded before that many are, and no discarded
      chain is strictly better than a kept one. */
  ghost predicate Retained(kept: seq<Chain>, discarded: seq<Chain>)
  {
    && |kept| <= 64 && (discarded != [] ==> |kept| == 64)
    && KeepsBest(kept, discarded)
  }

  /** Sound chains, and the keys are theirs. */
  ghost predicate Accounts(w: World, keys: set<string>, all: seq<Chain>)
  {
    && (forall c :: c in all ==> Sound(w, c) && ChainKey(w, c.steps) in keys)
    && (forall k :: k in keys ==> exists c :: c in all && ChainKey(w, c.steps) == k)
  }

  lemma GrownBy(s: set<string>, k: string)
    requires k !in s
    ensures |s + {k}| == |s| + 1
  {
  }

  lemma ReplacedBag(kept: seq<Chain>, discarded: seq<Chain>, worst: nat, c: Chain)
    requires worst < |kept|
    ensures multiset(kept[worst := c] + (discarded + [kept[worst]])) == multiset(kept + discarded) + multiset{c}
  {
    assert multiset(kept[worst := c]) == multiset(kept) - multiset{kept[worst]} + multiset{c};
    assert kept[worst] in multiset(kept);
  }

  lemma AddedChain(w: World, seen: set<string>, before: seq<Chain>, after: seq<Chain>, c: Chain)
    requires Accounts(w, seen, before) && Sound(w, c)
    requires multiset(after) == multiset(before) + multiset{c}
    ensures Accounts(w, seen + {ChainKey(w, c.steps)}, after)
  {
    forall d ensures d in after <==> d in before || d == c {
      assert d in after <==> d in multiset(after);
      assert d in before <==> d in multiset(before);
    }
  }

  // ---------------------------------------------------------------------------
  // Reaching every end
  // ---------------------------------------------------------------------------

  /** The state of the walk at `path`: simple so far, nothing before it an end. */
  ghost predicate OnPath(w: World, path: seq<Step>, keys: set<string>)
  {
    && IsWalk(w, path) && |path| <= w.maxDepth + 1
    && Simple(w, path, |path| - 1) && keys == Keys(w, path, |path| - 1)
    && forall n :: 0 < n < |path| ==> !Ends(w, path[..n])
  }

  /** Every walk through `path` that stops where it must has been seen. */
  ghost predicate Noted(w: World, path: seq<Step>, seen: set<string>)
  {
    forall m: seq<Step> :: path <= m && |m| > 1 && Maximal(w, m) ==> ChainKey(w, m) in seen
  }

  lemma NotedGrows(w: World, path: seq<Step>, before: set<string>, after: set<string>)
    requires Noted(w, path, before) && before <= after
    ensures Noted(w, path, after)
  {
  }

  /** Only the path itself stops at an end of the path. */
  lemma EndIsNoted(w: World, path: seq<Step>, seen: set<string>)
    requires path != [] && Ends(w, path) && (|path| > 1 ==> ChainKey(w, path) in seen)
    ensures Noted(w, path, seen)
  {
    forall m: seq<Step> | path <= m && |m| > 1 && Maximal(w, m) ensures ChainKey(w, m) in seen {
      assert m[..|path|] == path;
      if |path| == |m| {
        assert m == path;
      }
    }
  }

  lemma CycleFound(w: World, path: seq<Step>, keys: set<string>)
    requires OnPath(w, path, keys) && KeyAt(w, path, |path| - 1) in keys
    ensures Cycles(w, path)
  {
    var i: int :| 0 <= i < |path| - 1 && KeyAt(w, path, i) == KeyAt(w, path, |path| - 1);
  }

  lemma NotOnPath(w: World, path: seq<Step>, keys: set<string>)
    requires OnPath(w, path, keys) && KeyAt(w, path, |path| - 1) !in keys
    requires |path| <= w.maxDepth && w.hops(path[|path| - 1].unit, path[|path| - 1].tracked) != []
    ensures !Ends(w, path) && Simple(w, path, |path|)
    ensures keys + {KeyAt(w, path, |path| - 1)} == Keys(w, path, |path|)
  {
    forall i: nat | i < |path| - 1 ensures KeyAt(w, path, i) != KeyAt(w, path, |path| - 1) {
      assert KeyAt(w, path, i) in Keys(w, path, |path| - 1);
    }
    forall k | k in Keys(w, path, |path|) ensures k in keys + {KeyAt(w, path, |path| - 1)} {
      var i :| 0 <= i < |path| && KeyAt(w, path, i) == k;
      if i < |path| - 1 {
        assert k in Keys(w, path, |path| - 1);
      }
    }
  }

  function Child(w: World, path: seq<Step>, i: nat): seq<Step>
    requires path != [] && i < |w.hops(path[|path| - 1].unit, path[|path| - 1].tracked)|
  {
    path + [Take(path[|path| - 1], w.hops(path[|path| - 1].unit, path[|path| - 1].tracked)[i])]
  }

  lemma ChildOnPath(w: World, path: seq<Step>, i: nat)
    requires path != [] && OnPath(w, path, Keys(w, path, |path| - 1)) && !Ends(w, path) && Simple(w, path, |path|)
    requires i < |w.hops(path[|path| - 1].unit, path[|path| - 1].tracked)|
    ensures OnPath(w, Child(w, path, i), Keys(w, path, |path|))
  {
    var child := Child(w, path, i);
    assert Follows(w, path[|path| - 1], child[|path|]);
    assert forall j :: 0 <= j < |path| ==> KeyAt(w, child, j) == KeyAt(w, path, j);
    forall n | 0 < n < |child| ensures !Ends(w, child[..n]) {
      assert child[..n] == path[..n];
      assert path[..|path|] == path;
    }
    forall k ensures k in Keys(w, child, |path|) <==> k in Keys(w, path, |path|) {
      assert forall j :: 0 <= j < |path| ==> KeyAt(w, child, j) == KeyAt(w, path, j);
    }
  }

  /** The first n hops out of the path have been followed to every end. */
  ghost predicate HopsNoted(w: World, path: seq<Step>, n: nat, seen: set<string>)
    requires path != []
  {
    && n <= |w.hops(path[|path| - 1].unit, path[|path| - 1].tracked)|
    && forall k: nat :: k < n ==> Noted(w, Child(w, path, k), seen)
  }

  lemma NextHopNoted(w: World, path: seq<Step>, n: nat, before: set<string>, after: set<string>)
    requires path != [] && HopsNoted(w, path, n, before) && before <= after
    requires n < |w.hops(path[|path| - 1].unit, path[|path| - 1].tracked)| && Noted(w, Child(w, path, n), after)
    ensures HopsNoted(w, path, n + 1, after)
  {
    forall k: nat | k < n ensures Noted(w, Child(w, path, k), after) {
      NotedGrows(w, Child(w, path, k), before, after);
    }
  }

  lemma EndIsSound(w: World, path: seq<Step>, keys: set<string>, limit: Limit)
    requires OnPath(w, path, keys)
    requires (limit.Unlimited? ==> Cycles(w, path) || Sinks(w, path)) && (limit.DepthLimit? ==> |path| == w.maxDepth + 1)
    ensures |path| > 1 ==> Sound(w, Chain(path, limit))
  {
  }

  lemma AllHopsNoted(w: World, path: seq<Step>, seen: set<string>)
    requires path != [] && !Ends(w, path)
    requires HopsNoted(w, path, |w.hops(path[|path| - 1].unit, path[|path| - 1].tracked)|, seen)
    ensures Noted(w, path, seen)
  {
    var last := path[|path| - 1];
    var hops := w.hops(last.unit, last.tracked);
    forall m: seq<Step> | path <= m && |m| > 1 && Maximal(w, m) ensures ChainKey(w, m) in seen {
      assert m[..|path|] == path && m[..|m|] == m;
      assert |m| > |path|;
      assert Follows(w, m[|path| - 1], m[|path|]);
      var k: nat :| k < |hops| && m[|path|] == Take(last, hops[k]);
      assert Noted(w, Child(w, path, k), seen);
    }
  }

  // ---------------------------------------------------------------------------
  // The answer
  // ---------------------------------------------------------------------------

  function Depth(requested: int): nat { if requested <= 0 || requested > 24 then 16 else requested }

  function Start(unit: string, param: string): Step { Step(unit, [param], "", "start: parameter " + param, 1.0) }

  /** Chain a says nothing beyond the first steps of b. */
  predicate IsPrefixChain(w: World, a: seq<Step>, b: seq<Step>)
  {
    |a| <= |b| && forall i :: 0 <= i < |a| ==> a[i].unit == b[i].unit && w.text(a[i].tracked) == w.text(b[i].tracked)
  }

  /** The chains that are no prefix of the best one, in order. */
  function Others(w: World, chains: seq<Chain>, best: Chain): seq<Chain>
  {
    if chains == [] then []
    else
      var front, c := Others(w, chains[..|chains| - 1], best), chains[|chains| - 1];
      if IsPrefixChain(w, c.steps, best.steps) then front else front + [c]
  }

  lemma {:induction false} OthersAre(w: World, chains: seq<Chain>, best: Chain, c: Chain)
    ensures c in Others(w, chains, best) <==>
              c in chains && !(|c.steps| <= |best.steps| && forall i :: 0 <= i < |c.steps| ==>
                c.steps[i].unit == best.steps[i].unit && w.text(c.steps[i].tracked) == w.text(best.steps[i].tracked))
  {
    if chains != [] {
      var n := |chains| - 1;
      OthersAre(w, chains[..n], best, c);
      assert chains == chains[..n] + [chains[n]];
    }
  }

  const MAX_ALTERNATIVES := 4

  function FirstFew(chains: seq<Chain>): seq<Chain> { if |chains| > MAX_ALTERNATIVES then chains[..MAX_ALTERNATIVES] else chains }

  lemma BetterIsWeakOrder(s: seq<Chain>)
    ensures Sorting.WeakOrder(s, Better)
  {
    forall i, j | 0 <= i < |s| && 0 <= j < |s| && Better(s[i], s[j]) ensures !Better(s[j], s[i]) {
      BetterIsAsymmetric(s[i], s[j]);
    }
    forall i, j, k | 0 <= i < |s| && 0 <= j < |s| && 0 <= k < |s| && !Better(s[i], s[j]) && !Better(s[j], s[k]) ensures !Better(s[i], s[k]) {
      NotBetterIsTransitive(s[i], s[j], s[k]);
    }
  }

  lemma SortedRetained(w: World, keys: set<string>, kept: seq<Chain>, ranked: seq<Chain>, discarded: seq<Chain>)
    requires multiset(ranked) == multiset(kept) && Retained(kept, discarded) && Accounts(w, keys, kept + discarded)
    ensures |ranked| == |kept| && Retained(ranked, discarded) && Accounts(w, keys, ranked + discarded)
  {
    assert |ranked| == |multiset(ranked)| == |multiset(kept)| == |kept|;
    forall c ensures c in ranked <==> c in kept {
      assert c in ranked <==> c in multiset(ranked);
      assert c in kept <==> c in multiset(kept);
    }
    forall i, j | 0 <= i < |discarded| && 0 <= j < |ranked| ensures !Better(discarded[i], ranked[j]) {
      assert ranked[j] in kept;
    }
  }

  /** Nothing recorded, kept or not, is better than the chain shown first. */
  lemma FirstIsBest(ranked: seq<Chain>, discarded: seq<Chain>)
    requires ranked != [] && Sorting.Sorted(ranked, Better) && Retained(ranked, discarded)
    ensures forall c :: c in ranked + discarded ==> !Better(c, ranked[0])
  {
    forall c | c in ranked + discarded ensures !Better(c, ranked[0]) {
      if c in discarded {
        var i :| 0 <= i < |discarded| && discarded[i] == c;
      } else {
        var i :| 0 <= i < |ranked| && ranked[i] == c;
        if i == 0 && Better(c, c) {
          BetterIsAsymmetric(c, c);
        }
      }
    }
  }

  lemma NoneOutdoes(all: seq<Chain>, best: Chain)
    requires forall c :: c in all ==> !Better(c, best)
    ensures forall c :: c in all ==> !Outdoes(c, best)
  {
    forall c | c in all ensures !Outdoes(c, best) {
      BetterIs(c, best);
    }
  }

  method Alternatives(w: World, ranked: seq<Chain>) returns (picked: seq<Chain>)
    requires ranked != []
    ensures picked == FirstFew(Others(w, ranked[1..], ranked[0]))
  {
    picked := [];
    var rest := ranked[1..];
    for i := 0 to |rest|
      invariant picked == FirstFew(Others(w, rest[..i], ranked[0]))
    {
      OthersNext(w, rest, ranked[0], i);
      if |picked| >= MAX_ALTERNATIVES {
        OthersGrow(w, rest, ranked[0], i);
        assert rest[..|rest|] == rest;
        return;
      }
      if IsPrefixChain(w, rest[i].steps, ranked[0].steps) {
        continue;
      }
      picked := picked + [rest[i]];
    }
    assert rest[..|rest|] == rest;
  }

  lemma OthersNext(w: World, chains: seq<Chain>, best: Chain, i: nat)
    requires i < |chains|
    ensures Others(w, chains[..i + 1], best) ==
              Others(w, chains[..i], best) + if IsPrefixChain(w, chains[i].steps, best.steps) then [] else [chains[i]]
  {
    assert chains[..i + 1][..i] == chains[..i];
  }

  lemma {:induction false} OthersGrow(w: World, chains: seq<Chain>, best: Chain, n: nat)
    requires n <= |chains|
    ensures Others(w, chains[..n], best) <= Others(w, chains, best)
    decreases |chains|
  {
    if n < |chains| {
      OthersGrow(w, chains[..|chains| - 1], best, n);
      assert chains[..|chains| - 1][..n] == chains[..n];
    } else {
      assert chains[..n] == chains;
    }
  }

  datatype Result = Result(steps: seq<Step>, alternatives: seq<Chain>, chains: nat)

  /** What the answer says of the chains that were recorded: their number, a best one, and others. */
  ghost predicate Shows(w: World, start: Step, res: Result, ranked: seq<Chain>, discarded: seq<Chain>, keys: set<string>)
  {
    && Retained(ranked, discarded) && Accounts(w, keys, ranked + discarded)
    && res.chains == |ranked| + |discarded| == |keys|
    && (ranked == [] ==> res.steps == [start] && res.alternatives == [])
    && (ranked != [] ==>
          && ranked[0].steps != [] && res.steps == Shown(ranked[0])
          && (forall c :: c in ranked + discarded ==> !Outdoes(c, ranked[0]))
          && res.alternatives == FirstFew(Others(w, ranked[1..], ranked[0]))
          && (|res.alternatives| == 4 || (|res.alternatives| < 4 && res.alternatives == Others(w, ranked[1..], ranked[0]))))
  }

  /** The answer shows what was recorded, and that is every walk unless the budget was spent. */
  ghost predicate Tells(w: World, start: Step, res: Result, expansions: nat, ranked: seq<Chain>, discarded: seq<Chain>, keys: set<string>)
  {
    Shows(w, start, res, ranked, discarded, keys) && (expansions < MAX_EXPANSIONS ==> Noted(w, [start], keys))
  }

  method TraceIn(w: World, start: Step) returns (res: Result, expansions: nat, ghost ranked: seq<Chain>, ghost discarded: seq<Chain>, ghost keys: set<string>)
    requires start.confidence == 1.0
    ensures expansions <= MAX_EXPANSIONS && Tells(w, start, res, expansions, ranked, discarded, keys)
  {
    var tr := new Tracer(w);
    WalkFrom(tr, start);
    expansions, discarded, keys := tr.expansions, tr.discarded, tr.seen;
    res, ranked := ShowBest(w, start, tr.completed, tr.discovered, discarded, keys);
  }

  /** Trace: the best chain, up to four others, and how many there were.  Unless the budget was spent,
      every walk from the start that ends where it must is among those counted. */
  method Trace(hops: (string, seq<string>) -> seq<Hop>, text: seq<string> -> string, unit: string, param: string, requested: int)
    returns (res: Result, expansions: nat)
    ensures expansions <= 5000
    ensures var w := World(hops, text, if 1 <= requested <= 24 then requested else 16);
            exists ranked, discarded, keys :: Tells(w, Start(unit, param), res, expansions, ranked, discarded, keys)
  {
    var w := World(hops, text, Depth(requested));
    ghost var ranked, discarded, keys;
    res, expansions, ranked, discarded, keys := TraceIn(w, Start(unit, param));
    assert Depth(requested) == if 1 <= requested <= 24 then requested else 16;
    assert Tells(World(hops, text, if 1 <= requested <= 24 then requested else 16), Start(unit, param), res, expansions, ranked, discarded, keys);
  }

  method WalkFrom(tr: Tracer, start: Step)
    requires tr.Valid() && tr.onPath == {} && !tr.exhausted && start.confidence == 1.0
    modifies tr
    ensures tr.Valid() && (tr.expansions < MAX_EXPANSIONS ==> Noted(tr.w, [start], tr.seen))
  {
    tr.Dfs(start.unit, start.tracked, [start], 1.0);
  }

  /** The answer from what the walk recorded. */
  method ShowBest(w: World, start: Step, completed: seq<Chain>, discovered: nat, ghost discarded: seq<Chain>, ghost keys: set<string>)
    returns (res: Result, ghost ranked: seq<Chain>)
    requires Retained(completed, discarded) && Accounts(w, keys, completed + discarded)
    requires discovered == |completed| + |discarded| == |keys|
    ensures Shows(w, start, res, ranked, discarded, keys)
  {
    BetterIsWeakOrder(completed);
    var sorted := Sorting.Slice(completed, Better);
    SortedRetained(w, keys, completed, sorted, discarded);
    ranked := sorted;
    if |sorted| == 0 {
      res := Result([start], [], discovered);
    } else {
      FirstIsBest(sorted, discarded);
      NoneOutdoes(sorted + discarded, sorted[0]);
      assert sorted[0] in sorted + discarded;
      var others := Alternatives(w, sorted);
      res := Result(Shown(sorted[0]), others, discovered);
    }
  }
}
