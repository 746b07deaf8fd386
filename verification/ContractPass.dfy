/** The contract-linking pass over the stored edges: buffered writes, bounded disambiguation, and the
    fixpoint it reaches. */
module ContractPass {
  import opened Wrappers
  import opened Edges
  import opened Units
  import opened Strings
  import opened ContractKeys
  import opened ContractLinks
  import opened ContractIndex
  import Routes
  import Sorting

  // ---------------------------------------------------------------------------
  // Stored resolutions
  // ---------------------------------------------------------------------------

  datatype Resolution = Resolution(id: EdgeID, dst: string, dstRepo: string, conf: real)

  type Rows = map<EdgeID, Edge>

  function Written(e: Edge, r: Resolution): Edge { e.(dst := r.dst, dstRepo := r.dstRepo, conf := r.conf) }

  function Write(rows: Rows, r: Resolution): Rows
  {
    if r.id in rows then rows[r.id := Written(rows[r.id], r)] else rows
  }

  function WriteAll(rows: Rows, rs: seq<Resolution>): Rows
  {
    if rs == [] then rows else Write(WriteAll(rows, rs[..|rs| - 1]), rs[|rs| - 1])
  }

  function WriteSome(rows: Rows, rs: seq<Resolution>, landed: set<nat>): Rows
  {
    if rs == [] then rows
    else
      var rest := WriteSome(rows, rs[..|rs| - 1], landed);
      if |rs| - 1 in landed then Write(rest, rs[|rs| - 1]) else rest
  }

  predicate Names(rs: seq<Resolution>, id: EdgeID) { exists i :: 0 <= i < |rs| && rs[i].id == id }

  lemma {:induction false} WriteAllKeys(rows: Rows, rs: seq<Resolution>)
    ensures WriteAll(rows, rs).Keys == rows.Keys
  {
    if rs != [] {
      WriteAllKeys(rows, rs[..|rs| - 1]);
    }
  }

  lemma {:induction false} WritePast(rows: Rows, rs: seq<Resolution>, id: EdgeID, e: Edge)
    requires id in rows && !Names(rs, id)
    ensures WriteAll(rows[id := e], rs) == WriteAll(rows, rs)[id := e]
    ensures id in WriteAll(rows, rs) && WriteAll(rows, rs)[id] == rows[id]
  {
    if rs != [] {
      var front, r := rs[..|rs| - 1], rs[|rs| - 1];
      assert r.id != id && forall i :: 0 <= i < |front| ==> front[i] == rs[i];
      WritePast(rows, front, id, e);
    }
  }

  lemma {:induction false} WritesCommute(rows: Rows, a: seq<Resolution>, b: seq<Resolution>)
    requires forall i :: 0 <= i < |a| ==> !Names(b, a[i].id)
    ensures WriteAll(WriteAll(rows, a), b) == WriteAll(WriteAll(rows, b), a)
  {
    if a != [] {
      var front, r := a[..|a| - 1], a[|a| - 1];
      forall i | 0 <= i < |front| ensures !Names(b, front[i].id) {
        assert front[i] == a[i];
      }
      WritesCommute(rows, front, b);
      var mid := WriteAll(rows, front);
      WriteAllKeys(rows, front);
      WriteAllKeys(mid, b);
      if r.id in mid {
        WritePast(mid, b, r.id, Written(mid[r.id], r));
      }
    }
  }

  lemma {:induction false} AllLanded(rows: Rows, rs: seq<Resolution>, landed: set<nat>)
    requires forall i: nat :: i < |rs| ==> i in landed
    ensures WriteSome(rows, rs, landed) == WriteAll(rows, rs)
  {
    if rs != [] {
      AllLanded(rows, rs[..|rs| - 1], landed);
    }
  }

  class ContractTable {
    var rows: Rows

    method UpdateEdgeResolution(r: Resolution) returns (ok: bool)
      modifies this
      ensures rows == if ok then Write(old(rows), r) else old(rows)
    {
      ok := *;
      if ok {
        rows := Write(rows, r);
      }
    }

    method UpdateEdgeMeta(id: EdgeID, meta: Meta) returns (ok: bool)
      requires id in rows
      modifies this
      ensures rows == if ok then old(rows)[id := old(rows)[id].(meta := meta)] else old(rows)
    {
      ok := *;
      if ok {
        rows := rows[id := rows[id].(meta := meta)];
      }
    }

    /** Applies what it can.  Without an error every resolution it does not name as failed landed;
        with one nothing is known about any of them. */
    method BatchUpdate(rs: seq<Resolution>) returns (failed: set<nat>, err: bool, ghost landed: set<nat>)
      modifies this
      ensures rows == WriteSome(old(rows), rs, landed) && rows.Keys == old(rows).Keys
      ensures forall i :: i in failed ==> i < |rs|
      ensures |failed| <= |rs|
      ensures !err ==> forall i: nat :: i < |rs| && i !in failed ==> i in landed
    {
      failed, landed := {}, {};
      for i := 0 to |rs|
        invariant forall k :: k in failed ==> k < i
        invariant forall k :: k in landed ==> k < i
        invariant |failed| <= i
        invariant forall k: nat :: k < i ==> k in failed || k in landed
        invariant rows == WriteSome(old(rows), rs[..i], landed) && rows.Keys == old(rows).Keys
      {
        assert rs[..i + 1][..i] == rs[..i];
        var ok := UpdateEdgeResolution(rs[i]);
        if ok {
          LaterLanding(old(rows), rs[..i], landed, i);
          landed := landed + {i};
        } else {
          failed := failed + {i};
        }
      }
      assert rs[..|rs|] == rs;
      err := *;
    }
  }

  lemma {:induction false} LaterLanding(rows: Rows, rs: seq<Resolution>, landed: set<nat>, i: nat)
    requires |rs| <= i
    ensures WriteSome(rows, rs, landed + {i}) == WriteSome(rows, rs, landed)
  {
    if rs != [] {
      LaterLanding(rows, rs[..|rs| - 1], landed, i);
    }
  }

  // ---------------------------------------------------------------------------
  // The buffered writer
  // ---------------------------------------------------------------------------

  const RESOLUTION_BUFFER := 1000

  class ResolutionWriter {
    const table: ContractTable
    const batching: bool
    var buf: seq<Resolution>
    var applied: nat
    var errors: nat

    constructor (t: ContractTable, batches: bool)
      ensures table == t && batching == batches && buf == [] && applied == 0 && errors == 0
    {
      table, batching, buf, applied, errors := t, batches, [], 0, 0;
    }

    method Add(r: Resolution)
      modifies this, table
      ensures applied + errors + |buf| == old(applied + errors + |buf|) + 1
      ensures errors >= old(errors) && table.rows.Keys == old(table.rows).Keys
      ensures buf == old(buf) + [r] || buf == []
      ensures errors == old(errors) ==>
                || (buf == old(buf) + [r] && table.rows == old(table.rows))
                || (buf == [] && table.rows == WriteAll(old(table.rows), old(buf) + [r]))
    {
      buf := buf + [r];
      if |buf| >= RESOLUTION_BUFFER {
        Flush();
      }
    }

    /** Every queued resolution ends up counted exactly once, as applied or as an error. */
    method Flush()
      modifies this, table
      ensures buf == [] && applied + errors == old(applied + errors + |buf|)
      ensures errors >= old(errors) && table.rows.Keys == old(table.rows).Keys
      ensures errors == old(errors) ==> table.rows == WriteAll(old(table.rows), old(buf))
      ensures old(buf) == [] ==> errors == old(errors)
    {
      if buf == [] {
        return;
      }
      var failures, err := WriteBuffer();
      var landed := |buf| - failures;
      if err {
        errors := errors + landed;
        landed := 0;
      }
      errors := errors + failures;
      applied := applied + landed;
      buf := [];
    }

    method WriteBuffer() returns (failures: nat, err: bool)
      modifies table
      ensures failures <= |buf| && table.rows.Keys == old(table.rows).Keys
      ensures !err && failures == 0 ==> table.rows == WriteAll(old(table.rows), buf)
    {
      if batching {
        var failed;
        ghost var landed;
        failed, err, landed := table.BatchUpdate(buf);
        failures := |failed|;
        if !err && failures == 0 {
          AllLanded(old(table.rows), buf, landed);
        }
        return;
      }
      failures, err := 0, false;
      for i := 0 to |buf|
        invariant failures <= i && table.rows.Keys == old(table.rows).Keys
        invariant failures == 0 ==> table.rows == WriteAll(old(table.rows), buf[..i])
      {
        assert buf[..i + 1][..i] == buf[..i];
        var ok := table.UpdateEdgeResolution(buf[i]);
        if !ok {
          failures := failures + 1;
        }
      }
      assert buf[..|buf|] == buf;
    }
  }

  // ---------------------------------------------------------------------------
  // Ranking and disambiguation
  // ---------------------------------------------------------------------------

  /** sortUnits: repository, qualified name, file, place in the file. */
  predicate UnitBefore(a: Unit, b: Unit)
  {
    if a.repo != b.repo then Less(a.repo, b.repo)
    else if a.qualified != b.qualified then Less(a.qualified, b.qualified)
    else if a.file != b.file then Less(a.file, b.file)
    else Routes.BeforeInFile(a, b)
  }

  predicate EarlierUnit(a: Candidate, b: Candidate) { UnitBefore(a.unit, b.unit) }

  predicate Outranks(e: Edge, a: Candidate, b: Candidate)
  {
    if e.kind.HTTPCall? then Routes.BetterRoute(a, b) else EarlierUnit(a, b)
  }

  lemma UnitBeforeAsymmetric(a: Unit, b: Unit)
    requires UnitBefore(a, b)
    ensures !UnitBefore(b, a)
  {
    LessIsStrict(a.repo, b.repo);
    LessIsStrict(a.qualified, b.qualified);
    LessIsStrict(a.file, b.file);
    LessIsStrict(a.kind, b.kind);
    LessIsStrict(a.name, b.name);
  }

  lemma NotBeforeTransitive(a: Unit, b: Unit, c: Unit)
    requires !UnitBefore(a, b) && !UnitBefore(b, c)
    ensures !UnitBefore(a, c)
  {
    if a.repo == b.repo == c.repo {
      if a.qualified == b.qualified == c.qualified {
        if a.file == b.file == c.file {
          Routes.NotBeforeInFileTransitive(a, b, c);
        } else {
          LessIsStrict(a.file, a.file);
          LessIsStrict(c.file, c.file);
          Routes.NotLessTransitive(a.file, b.file, c.file);
        }
      } else {
        LessIsStrict(a.qualified, a.qualified);
        LessIsStrict(c.qualified, c.qualified);
        Routes.NotLessTransitive(a.qualified, b.qualified, c.qualified);
      }
    } else {
      LessIsStrict(a.repo, a.repo);
      LessIsStrict(c.repo, c.repo);
      Routes.NotLessTransitive(a.repo, b.repo, c.repo);
    }
  }

  method RankByUnit(found: seq<Candidate>) returns (out: seq<Candidate>)
    ensures multiset(out) == multiset(found) && Sorting.Sorted(out, EarlierUnit)
  {
    forall i, j | 0 <= i < |found| && 0 <= j < |found| && EarlierUnit(found[i], found[j]) ensures !EarlierUnit(found[j], found[i]) {
      UnitBeforeAsymmetric(found[i].unit, found[j].unit);
    }
    forall i, j, k | 0 <= i < |found| && 0 <= j < |found| && 0 <= k < |found| && !EarlierUnit(found[i], found[j]) && !EarlierUnit(found[j], found[k])
      ensures !EarlierUnit(found[i], found[k])
    {
      NotBeforeTransitive(found[i].unit, found[j].unit, found[k].unit);
    }
    out := Sorting.Slice(found, EarlierUnit);
  }

  function Ranking(e: Edge): (Candidate, Candidate) -> bool { (a: Candidate, b: Candidate) => Outranks(e, a, b) }

  /** The candidates of the edge, best first. */
  ghost predicate IsRanking(e: Edge, ranked: seq<Candidate>, cs: Contracts)
  {
    multiset(ranked) == multiset(CandidatesOf(e, cs)) && Sorting.Sorted(ranked, Ranking(e))
  }

  /** The heuristic cannot tell the edge's best candidates apart. */
  ghost predicate AmbiguousEdge(e: Edge, cs: Contracts)
  {
    exists ranked: seq<Candidate> :: IsRanking(e, ranked, cs) && Ambiguous(e, ranked)
  }

  method RankedCandidates(e: Edge, cs: Contracts, idx: Index) returns (out: seq<Candidate>)
    requires IsContractEdge(e) && IsIndex(idx, cs)
    ensures IsRanking(e, out, cs)
    ensures forall j :: 0 < j < |out| ==> !Outranks(e, out[j], out[0])
  {
    if e.kind.HTTPCall? {
      out := Routes.RouteCandidates(idx.routes, cs.routes, e.dstName, e.repo);
    } else if e.kind.RPCCall? || e.kind.ImplementsRPC? {
      var found := LookupRPC(idx.rpcs, cs.rpcs, e.dstName);
      out := RankByUnit(found);
    } else {
      var found := LookupTable(idx.tables, cs.tables, e.dstName, e.repo);
      out := RankByUnit(found);
    }
  }

  const ROUTE_AMBIGUITY_DELTA := 0.05

  /** The heuristic has no real reason to prefer its first candidate. */
  predicate Ambiguous(e: Edge, cands: seq<Candidate>)
  {
    && |cands| > 1
    && match e.kind
       case HTTPCall => cands[0].score - cands[1].score <= ROUTE_AMBIGUITY_DELTA && cands[0].sameRepo == cands[1].sameRepo
       case RPCCall => cands[0].score <= CONF_HEURISTIC
       case ImplementsRPC => cands[0].score <= CONF_HEURISTIC
       case _ => cands[0].score <= CONF_CROSS_FILE
  }

  const MAX_DISAMBIG_CALLS := 20

  /** Per-run answers of the disambiguator, by join key, and its call budget. */
  class DisambigRun {
    var cache: map<string, Option<Unit>>
    var calls: nat

    ghost predicate Valid(cs: Contracts)
      reads this
    {
      calls <= MAX_DISAMBIG_CALLS && forall key :: key in cache && cache[key].Some? ==> cache[key].value in AllUnits(cs)
    }

    constructor (ghost cs: Contracts)
      ensures Valid(cs)
    {
      cache, calls := map[], 0;
    }

    /** Any answer at all may come back; what is returned is one of the candidates. */
    method Disambiguate(ghost cs: Contracts, key: string, cands: seq<Candidate>) returns (pick: Option<Unit>)
      requires Valid(cs) && UniqueIds(cs) && From(cands, AllUnits(cs))
      modifies this
      ensures Valid(cs)
      ensures pick.Some? ==> exists i :: 0 <= i < |cands| && cands[i].unit == pick.value
      ensures old(calls) <= calls <= 20 && calls <= old(calls) + (if key in old(cache) then 0 else 1)
    {
      if key in cache {
        var seen := cache[key];
        if seen.None? {
          return None;
        }
        for i := 0 to |cands|
        {
          if cands[i].unit.id == seen.value.id {
            return seen;
          }
        }
        return None;
      }
      if calls >= MAX_DISAMBIG_CALLS {
        return None;
      }
      calls := calls + 1;
      var choice: int, ok: bool := *, *;
      if !ok || choice < 0 || choice >= |cands| {
        cache := cache[key := None];
        return None;
      }
      cache := cache[key := Some(cands[choice].unit)];
      pick := Some(cands[choice].unit);
    }
  }

  // ---------------------------------------------------------------------------
  // What the pass does to one edge, and the fixpoint
  // ---------------------------------------------------------------------------

  predicate ValidlyResolved(e: Edge, cs: Contracts) { e.dst != "" && e.dst in UnitIds(AllUnits(cs)) }

  /** Linked to an unbeaten candidate at its tier, or, where those cannot be told apart and there is a
      disambiguator, to one of them by it. */
  ghost predicate LinkedTo(e: Edge, after: Edge, c: Candidate, cs: Contracts, llm: bool)
  {
    var cands := CandidatesOf(e, cs);
    c in cands &&
    (|| (after == Point(e, c.unit, c.score) && forall d :: d in cands && d != c ==> !Outranks(e, d, c))
     || (llm && AmbiguousEdge(e, cs) && after == Point(e, c.unit, CONF_HIGH).(meta := e.meta.(source := "llm"))))
  }

  ghost predicate PassOn(e: Edge, after: Edge, cs: Contracts, llm: bool)
  {
    if !IsContractEdge(e) || ValidlyResolved(e, cs) then after == e
    else if CandidatesOf(e, cs) == [] then after == if e.dst != "" then Unresolve(e) else e
    else exists c :: LinkedTo(e, after, c, cs, llm)
  }

  /** The pass has nothing to do: a contract edge points at an existing unit, or at nothing for want
      of a candidate. */
  predicate Settled(e: Edge, cs: Contracts)
  {
    IsContractEdge(e) ==> ValidlyResolved(e, cs) || (e.dst == "" && CandidatesOf(e, cs) == [])
  }

  ghost predicate AllSettled(rows: Rows, cs: Contracts) { forall id :: id in rows ==> Settled(rows[id], cs) }

  ghost predicate WellFormed(cs: Contracts)
  {
    UniqueIds(cs) && forall u :: u in AllUnits(cs) ==> u.id != ""
  }

  lemma UnitIdKnown(units: seq<Unit>, u: Unit)
    requires u in units
    ensures u.id in UnitIds(units)
  {
  }

  /** Contract linking reaches its fixpoint in one pass, whatever the disambiguator answered. */
  lemma PassSettles(e: Edge, after: Edge, cs: Contracts, llm: bool)
    requires WellFormed(cs) && PassOn(e, after, cs, llm)
    ensures Settled(after, cs)
  {
    if IsContractEdge(e) && !ValidlyResolved(e, cs) && CandidatesOf(e, cs) != [] {
      var c :| LinkedTo(e, after, c, cs, llm);
      CandidatesAreUnits(e, cs);
      var i :| 0 <= i < |CandidatesOf(e, cs)| && CandidatesOf(e, cs)[i] == c;
      UnitIdKnown(AllUnits(cs), c.unit);
    }
  }

  lemma SettledStays(e: Edge, after: Edge, cs: Contracts, llm: bool)
    requires Settled(e, cs) && PassOn(e, after, cs, llm)
    ensures after == e
  {
  }

  // ---------------------------------------------------------------------------
  // The pass
  // ---------------------------------------------------------------------------

  /** What the table will hold once both buffers are written. */
  function Virtual(rows: Rows, links: seq<Resolution>, clears: seq<Resolution>): Rows { WriteAll(WriteAll(rows, links), clears) }

  /** The buffers name only edges already processed, and no edge twice. */
  ghost predicate BuffersApart(links: seq<Resolution>, clears: seq<Resolution>, done: set<EdgeID>)
  {
    && (forall i :: 0 <= i < |links| ==> links[i].id in done && !Names(clears, links[i].id))
    && (forall i :: 0 <= i < |clears| ==> clears[i].id in done)
  }

  lemma VirtualAt(rows: Rows, links: seq<Resolution>, clears: seq<Resolution>, done: set<EdgeID>, id: EdgeID, e: Edge)
    requires BuffersApart(links, clears, done) && id !in done && id in rows
    ensures Virtual(rows[id := e], links, clears) == Virtual(rows, links, clears)[id := e]
    ensures id in Virtual(rows, links, clears) && Virtual(rows, links, clears)[id] == rows[id]
  {
    WritePast(rows, links, id, e);
    WritePast(WriteAll(rows, links), clears, id, e);
  }

  lemma LinkQueued(rows: Rows, links: seq<Resolution>, clears: seq<Resolution>, done: set<EdgeID>, r: Resolution)
    requires BuffersApart(links, clears, done) && r.id !in done && r.id in rows
    ensures Virtual(rows, links + [r], clears) == Virtual(rows, links, clears)[r.id := Written(rows[r.id], r)]
    ensures BuffersApart(links + [r], clears, done + {r.id})
  {
    var mid := WriteAll(rows, links);
    VirtualAt(rows, links, clears, done, r.id, Written(rows[r.id], r));
    WritePast(rows, links, r.id, Written(rows[r.id], r));
    assert (links + [r])[..|links|] == links;
    WritePast(mid, clears, r.id, Written(mid[r.id], r));
  }

  lemma ClearQueued(rows: Rows, links: seq<Resolution>, clears: seq<Resolution>, done: set<EdgeID>, r: Resolution)
    requires BuffersApart(links, clears, done) && r.id !in done && r.id in rows
    ensures Virtual(rows, links, clears + [r]) == Virtual(rows, links, clears)[r.id := Written(rows[r.id], r)]
    ensures BuffersApart(links, clears + [r], done + {r.id})
  {
    VirtualAt(rows, links, clears, done, r.id, Written(rows[r.id], r));
    assert (clears + [r])[..|clears|] == clears;
    forall i | 0 <= i < |links| ensures !Names(clears + [r], links[i].id) {
      assert !Names(clears, links[i].id) && r.id != links[i].id;
    }
  }

  lemma LinksFlushed(rows: Rows, links: seq<Resolution>, clears: seq<Resolution>)
    ensures Virtual(WriteAll(rows, links), [], clears) == Virtual(rows, links, clears)
  {
  }

  lemma ClearsFlushed(rows: Rows, links: seq<Resolution>, clears: seq<Resolution>, done: set<EdgeID>)
    requires BuffersApart(links, clears, done)
    ensures Virtual(WriteAll(rows, clears), links, []) == Virtual(rows, links, clears)
  {
    WritesCommute(rows, links, clears);
  }

  lemma SameMembers<T>(a: seq<T>, b: seq<T>)
    requires multiset(a) == multiset(b)
    ensures |a| == |b| && forall c :: c in a <==> c in b
  {
    assert |multiset(a)| == |a| && |multiset(b)| == |b|;
    forall c ensures c in a <==> c in b {
      assert c in multiset(a) <==> c in multiset(b);
    }
  }

  lemma SameCandidates(e: Edge, cs: Contracts, cands: seq<Candidate>)
    requires IsContractEdge(e) && multiset(cands) == multiset(CandidatesOf(e, cs))
    ensures |cands| == |CandidatesOf(e, cs)|
    ensures forall c :: c in cands <==> c in CandidatesOf(e, cs)
    ensures From(cands, AllUnits(cs))
  {
    SameMembers(cands, CandidatesOf(e, cs));
    CandidatesAreUnits(e, cs);
    FromMembers(cands, CandidatesOf(e, cs), AllUnits(cs));
  }

  lemma FromMembers(a: seq<Candidate>, b: seq<Candidate>, units: seq<Unit>)
    requires From(b, units) && forall c :: c in a ==> c in b
    ensures From(a, units)
  {
    forall i | 0 <= i < |a| ensures a[i].unit in units {
      assert a[i] in b;
    }
  }

  class Pass {
    const table: ContractTable
    const links: ResolutionWriter
    const clears: ResolutionWriter
    const run: DisambigRun
    const disambig: bool
    var queued: nat
    var direct: nat

    ghost predicate Shape()
    {
      links != clears && links.table == table && clears.table == table
    }

    function Errors(): nat
      reads this, links, clears
    {
      direct + links.errors + clears.errors
    }

    ghost function Final(): Rows
      reads table, links, clears
    {
      Virtual(table.rows, links.buf, clears.buf)
    }

    ghost predicate Apart(done: set<EdgeID>)
      reads links, clears
    {
      BuffersApart(links.buf, clears.buf, done)
    }

    constructor (t: ContractTable, batching: bool, llm: bool, ghost cs: Contracts)
      ensures Shape() && table == t && disambig == llm && queued == 0 && Errors() == 0 && Final() == t.rows
      ensures links.buf == [] && clears.buf == [] && run.Valid(cs)
      ensures fresh(links) && fresh(clears) && fresh(run)
    {
      var l := new ResolutionWriter(t, batching);
      var c := new ResolutionWriter(t, batching);
      var r := new DisambigRun(cs);
      table, links, clears, run, disambig, queued, direct := t, l, c, r, llm, 0, 0;
    }

    method QueueLink(r: Resolution, ghost done: set<EdgeID>)
      requires Shape() && Apart(done) && r.id !in done && r.id in table.rows
      modifies this`queued, links, table
      ensures queued == old(queued) + 1 && Errors() >= old(Errors())
      ensures table.rows.Keys == old(table.rows).Keys && Apart(done + {r.id})
      ensures Errors() == old(Errors()) ==> Final() == old(Final())[r.id := Written(old(table.rows)[r.id], r)]
    {
      LinkQueued(table.rows, links.buf, clears.buf, done, r);
      ghost var rows, buf := table.rows, links.buf;
      links.Add(r);
      if links.buf == [] {
        LinksFlushed(rows, buf + [r], clears.buf);
      }
      queued := queued + 1;
    }

    method QueueClear(r: Resolution, ghost done: set<EdgeID>)
      requires Shape() && Apart(done) && r.id !in done && r.id in table.rows
      modifies this`queued, clears, table
      ensures queued == old(queued) + 1 && Errors() >= old(Errors())
      ensures table.rows.Keys == old(table.rows).Keys && Apart(done + {r.id})
      ensures Errors() == old(Errors()) ==> Final() == old(Final())[r.id := Written(old(table.rows)[r.id], r)]
    {
      ClearQueued(table.rows, links.buf, clears.buf, done, r);
      ghost var rows, buf := table.rows, clears.buf;
      clears.Add(r);
      if clears.buf == [] {
        ClearsFlushed(rows, links.buf, buf + [r], done + {r.id});
      }
      queued := queued + 1;
    }

    /** A disambiguated edge is written on its own, resolution first, then the annotation. */
    method WriteDirect(r: Resolution, meta: Meta, ghost done: set<EdgeID>)
      requires Shape() && Apart(done) && r.id !in done && r.id in table.rows
      modifies this`queued, this`direct, table
      ensures queued == old(queued) + 1 && Errors() >= old(Errors())
      ensures table.rows.Keys == old(table.rows).Keys && Apart(done + {r.id})
      ensures Errors() == old(Errors()) ==> Final() == old(Final())[r.id := Written(old(table.rows)[r.id], r).(meta := meta)]
    {
      queued := queued + 1;
      ghost var rows := table.rows;
      var ok := table.UpdateEdgeResolution(r);
      if !ok {
        direct := direct + 1;
        return;
      }
      ok := table.UpdateEdgeMeta(r.id, meta);
      if !ok {
        direct := direct + 1;
      } else {
        VirtualAt(rows, links.buf, clears.buf, done, r.id, Written(rows[r.id], r).(meta := meta));
        assert table.rows == rows[r.id := Written(rows[r.id], r).(meta := meta)];
      }
    }

    /** One edge of the loop, from the copy `e` the run loaded. */
    method LinkEdge(id: EdgeID, e: Edge, cs: Contracts, idx: Index, ghost done: set<EdgeID>) returns (ghost after: Edge)
      requires Shape() && Apart(done) && id !in done && id in table.rows
      requires WellFormed(cs) && run.Valid(cs) && IsContractEdge(e)
      requires IsIndex(idx, cs)
      modifies this`queued, this`direct, links, clears, table, run
      ensures run.Valid(cs) && Errors() >= old(Errors())
      ensures table.rows.Keys == old(table.rows).Keys && Apart(done + {id})
      ensures PassOn(e, after, cs, disambig)
      ensures Errors() == old(Errors()) && old(table.rows)[id] == e ==> Final() == old(Final())[id := after]
      ensures Settled(e, cs) ==>
                && queued == old(queued) && Errors() == old(Errors()) && table.rows == old(table.rows)
                && links.buf == old(links.buf) && clears.buf == old(clears.buf)
    {
      after := e;
      VirtualAt(table.rows, links.buf, clears.buf, done, id, table.rows[id]);
      assert table.rows == table.rows[id := table.rows[id]];
      if e.dst != "" && e.dst in UnitIds(AllUnits(cs)) {
        return;
      }
      var cands := RankedCandidates(e, cs, idx);
      SameCandidates(e, cs, cands);
      if cands == [] {
        if e.dst != "" {
          after := Unresolve(e);
          QueueClear(Resolution(id, "", "", e.conf), done);
        }
        return;
      }
      after := LinkRanked(id, e, cs, cands, done);
    }

    /** Points the edge at the disambiguator's pick, or at the first candidate. */
    method LinkRanked(id: EdgeID, e: Edge, cs: Contracts, cands: seq<Candidate>, ghost done: set<EdgeID>) returns (after: Edge)
      requires Shape() && Apart(done) && id !in done && id in table.rows
      requires WellFormed(cs) && run.Valid(cs) && From(cands, AllUnits(cs)) && cands != []
      requires (forall c :: c in cands <==> c in CandidatesOf(e, cs)) && IsRanking(e, cands, cs)
      requires forall j :: 0 < j < |cands| ==> !Outranks(e, cands[j], cands[0])
      modifies this`queued, this`direct, links, clears, table, run
      ensures run.Valid(cs) && Errors() >= old(Errors())
      ensures table.rows.Keys == old(table.rows).Keys && Apart(done + {id})
      ensures exists c :: LinkedTo(e, after, c, cs, disambig)
      ensures Errors() == old(Errors()) && old(table.rows)[id] == e ==> Final() == old(Final())[id := after]
    {
      if disambig && Ambiguous(e, cands) {
        var pick := run.Disambiguate(cs, e.dstName, cands);
        if pick.Some? {
          var conf := ConfidenceAfterResolve(e, CONF_HIGH);
          ghost var i :| 0 <= i < |cands| && cands[i].unit == pick.value;
          after := Point(e, pick.value, CONF_HIGH).(meta := e.meta.(source := "llm"));
          assert LinkedTo(e, after, cands[i], cs, disambig);
          WriteDirect(Resolution(id, pick.value.id, pick.value.repo, conf), e.meta.(source := "llm"), done);
          return;
        }
      }
      var best := cands[0];
      var conf := ConfidenceAfterResolve(e, best.score);
      after := Point(e, best.unit, best.score);
      assert LinkedTo(e, after, best, cs, disambig);
      QueueLink(Resolution(id, best.unit.id, best.unit.repo, conf), done);
    }

    /** Where the pass stands once the edges `done` are processed, of the table `loaded` it began with. */
    ghost predicate Underway(loaded: Rows, done: set<EdgeID>, cs: Contracts)
      reads this, links, clears, table, run
    {
      && Shape() && Apart(done) && run.Valid(cs)
      && table.rows.Keys == loaded.Keys
      && (Errors() == 0 ==> Progress(loaded, Final(), done, cs, disambig))
      && (AllSettled(loaded, cs) ==> Idle(loaded))
    }

    /** Nothing was written and nothing waits to be. */
    ghost predicate Idle(loaded: Rows)
      reads this, links, clears, table
    {
      queued == 0 && Errors() == 0 && table.rows == loaded && links.buf == [] && clears.buf == []
    }

    method LinkNext(id: EdgeID, e: Edge, cs: Contracts, idx: Index, ghost loaded: Rows, ghost done: set<EdgeID>)
      requires WellFormed(cs) && IsIndex(idx, cs) && Underway(loaded, done, cs)
      requires id in loaded && e == loaded[id] && id !in done && IsContractEdge(e)
      modifies this`queued, this`direct, links, clears, table, run
      ensures Underway(loaded, done + {id}, cs)
    {
      ghost var before := Final();
      VirtualAt(table.rows, links.buf, clears.buf, done, id, table.rows[id]);
      ghost var after := LinkEdge(id, e, cs, idx, done);
      if Errors() == 0 {
        Progresses(loaded, before, Final(), done, id, after, cs, disambig);
      }
    }

    /** The loop over the loaded contract edges. */
    method LinkEdges(ids: seq<EdgeID>, edges: Rows, cs: Contracts, idx: Index)
      requires WellFormed(cs) && IsIndex(idx, cs) && Underway(edges, {}, cs)
      requires forall i :: 0 <= i < |ids| ==> ids[i] in edges && IsContractEdge(edges[ids[i]])
      requires forall i, j :: 0 <= i < j < |ids| ==> ids[i] != ids[j]
      modifies this`queued, this`direct, links, clears, table, run
      ensures Underway(edges, (set id | id in ids), cs)
    {
      ghost var done: set<EdgeID> := {};
      for i := 0 to |ids|
        invariant Underway(edges, done, cs) && done == set j | 0 <= j < i :: ids[j]
      {
        LinkNext(ids[i], edges[ids[i]], cs, idx, edges, done);
        done := done + {ids[i]};
      }
      assert done == set id | id in ids;
    }

    method FlushAll(ghost done: set<EdgeID>)
      requires Shape() && Apart(done)
      modifies links, clears, table
      ensures Errors() >= old(Errors())
      ensures Errors() == old(Errors()) ==> table.rows == old(Final())
      ensures old(links.buf) == [] && old(clears.buf) == [] ==> Errors() == old(Errors())
    {
      links.Flush();
      clears.Flush();
    }
  }

  method ContractEdges(rows: Rows) returns (ids: seq<EdgeID>)
    ensures forall i :: 0 <= i < |ids| ==> ids[i] in rows && IsContractEdge(rows[ids[i]])
    ensures forall id :: id in rows && IsContractEdge(rows[id]) ==> id in ids
    ensures forall i, j :: 0 <= i < j < |ids| ==> ids[i] != ids[j]
  {
    ids := [];
    var todo := rows.Keys;
    while todo != {}
      invariant todo <= rows.Keys
      invariant forall i :: 0 <= i < |ids| ==> ids[i] in rows && ids[i] !in todo && IsContractEdge(rows[ids[i]])
      invariant forall id :: id in rows && id !in todo && IsContractEdge(rows[id]) ==> id in ids
      invariant forall i, j :: 0 <= i < j < |ids| ==> ids[i] != ids[j]
      decreases |todo|
    {
      var id :| id in todo;
      todo := todo - {id};
      if IsContractEdge(rows[id]) {
        ids := ids + [id];
      }
    }
  }

  /** resolveContracts.  Without a failed write every edge ends as PassOn says, so the table is
      settled; a table that already was is not written at all. */
  method ResolveContracts(table: ContractTable, cs: Contracts, batching: bool, llm: bool) returns (queued: nat, errors: nat)
    requires WellFormed(cs)
    modifies table
    ensures errors == 0 ==> table.rows.Keys == old(table.rows).Keys && forall id :: id in table.rows ==> PassOn(old(table.rows)[id], table.rows[id], cs, llm)
    ensures errors == 0 ==> AllSettled(table.rows, cs)
    ensures AllSettled(old(table.rows), cs) ==> queued == 0 && errors == 0 && table.rows == old(table.rows)
  {
    ghost var loaded := table.rows;
    var idx := BuildIndex(cs);
    var ids := ContractEdges(table.rows);
    var edges := table.rows;
    var pass := new Pass(table, batching, llm, cs);
    pass.LinkEdges(ids, edges, cs, idx);
    ghost var done := set id | id in ids;
    ghost var final := pass.Final();
    pass.FlushAll(done);
    queued, errors := pass.queued, pass.Errors();
    if errors == 0 {
      ProgressSettles(loaded, final, done, cs, llm);
    }
  }

  lemma ProgressSettles(loaded: Rows, final: Rows, done: set<EdgeID>, cs: Contracts, llm: bool)
    requires WellFormed(cs) && Progress(loaded, final, done, cs, llm)
    requires forall id :: id in loaded && IsContractEdge(loaded[id]) ==> id in done
    ensures forall id :: id in final ==> PassOn(loaded[id], final[id], cs, llm)
    ensures AllSettled(final, cs)
  {
    forall id | id in final ensures PassOn(loaded[id], final[id], cs, llm) && Settled(final[id], cs) {
      PassSettles(loaded[id], final[id], cs, llm);
    }
  }

  /** The processed edges are as the pass leaves them, the others as loaded. */
  ghost predicate Progress(loaded: Rows, final: Rows, done: set<EdgeID>, cs: Contracts, llm: bool)
  {
    && final.Keys == loaded.Keys
    && forall id :: id in loaded ==> if id in done then PassOn(loaded[id], final[id], cs, llm) else final[id] == loaded[id]
  }

  lemma Progresses(loaded: Rows, before: Rows, final: Rows, done: set<EdgeID>, id: EdgeID, after: Edge, cs: Contracts, llm: bool)
    requires Progress(loaded, before, done, cs, llm) && id in loaded && id !in done
    requires PassOn(loaded[id], after, cs, llm) && final == before[id := after]
    ensures Progress(loaded, final, done + {id}, cs, llm)
  {
  }
}
