/** Indexing a file tree: full passes with and without the hash check, incremental passes from pushed
    changes, and what a failing indexer leaves behind. */
module IndexPass {
  import opened Wrappers
  import opened Failures

  datatype Row = Row(hash: string, lang: string, size: nat, indexed: bool)

  /** Ignore rules, language detection and hashing, as functions of a path or a content. */
  datatype World = World(ignoreFile: string -> bool, walkKeeps: string -> bool, lang: string -> string, hash: string -> string)

  /** File rows and what every indexer holds, by path. */
  datatype State = State(rows: map<string, Row>, docs: map<string, string>)

  /** What the state says of one path. */
  datatype Slot = Slot(row: Option<Row>, doc: Option<string>)

  function SlotOf(s: State, p: string): Slot
  {
    Slot(if p in s.rows then Some(s.rows[p]) else None, if p in s.docs then Some(s.docs[p]) else None)
  }

  const EMPTY := Slot(None, None)

  lemma SlotsDecide(s: State, t: State)
    requires forall p: string :: SlotOf(s, p) == SlotOf(t, p)
    ensures s == t
  {
    forall p: string ensures (p in s.rows <==> p in t.rows) && (p in s.docs <==> p in t.docs) {
      assert SlotOf(s, p) == SlotOf(t, p);
    }
    forall p | p in s.rows ensures s.rows[p] == t.rows[p] {
      assert SlotOf(s, p) == SlotOf(t, p);
    }
    forall p | p in s.docs ensures s.docs[p] == t.docs[p] {
      assert SlotOf(s, p) == SlotOf(t, p);
    }
  }

  function RowOf(w: World, p: string, c: string): Row { Row(w.hash(c), w.lang(p), |c|, true) }

  function Fresh(w: World, p: string, c: string): Slot { Slot(Some(RowOf(w, p, c)), Some(c)) }

  ghost predicate CollisionFree(w: World) { forall a, b :: w.hash(a) == w.hash(b) ==> a == b }

  // ---------------------------------------------------------------------------
  // The index
  // ---------------------------------------------------------------------------

  ghost predicate DistinctPaths(batch: seq<File>) { forall i, j :: 0 <= i < j < |batch| ==> batch[i].path != batch[j].path }

  function HasFile(batch: seq<File>, p: string): Option<string>
  {
    if batch == [] then None
    else if batch[|batch| - 1].path == p then Some(batch[|batch| - 1].content)
    else HasFile(batch[..|batch| - 1], p)
  }

  lemma {:induction false} HasFileIs(batch: seq<File>, p: string)
    ensures HasFile(batch, p).Some? <==> p in Paths(batch)
    ensures DistinctPaths(batch) ==> forall i :: 0 <= i < |batch| && batch[i].path == p ==> HasFile(batch, p) == Some(batch[i].content)
  {
    if batch != [] {
      var n := |batch| - 1;
      HasFileIs(batch[..n], p);
      assert batch == batch[..n] + [batch[n]];
      assert forall i :: 0 <= i < n ==> batch[..n][i] == batch[i];
    }
  }

  lemma HasFileNext(batch: seq<File>, f: File)
    ensures forall p :: HasFile(batch + [f], p) == if p == f.path then Some(f.content) else HasFile(batch, p)
  {
    assert (batch + [f])[..|batch|] == batch;
  }

  lemma {:induction false} PathsHaveFiles(batch: seq<File>)
    ensures forall p :: HasFile(batch, p).Some? <==> p in Paths(batch)
  {
    forall p ensures HasFile(batch, p).Some? <==> p in Paths(batch) {
      HasFileIs(batch, p);
    }
  }

  /** What indexing a batch does to one path: a failed file keeps its old row, and no one knows what
      the indexers hold of it. */
  ghost predicate BatchAt(w: World, before: Slot, after: Slot, file: Option<string>, p: string, failed: bool, trusted: bool)
  {
    match file
    case None => after == before
    case Some(c) =>
      if failed then after.row == before.row
      else after.row == Some(RowOf(w, p, c)) && (trusted ==> after.doc == Some(c))
  }

  const INDEX_BATCH_FILES := 512

  /** The stored row says this content is indexed already. */
  predicate Skips(w: World, row: Row, c: string) { row.indexed && row.hash == w.hash(c) }

  /** The scan's verdict on a file with this content, if it can be read. */
  predicate Wanted(w: World, known: Option<map<string, Row>>, p: string, content: Option<string>)
  {
    content.Some? && !(known.Some? && p in known.value && Skips(w, known.value[p], content.value))
  }

  /** The sweep goes by the rows: what indexers hold of a file that never got one stays. */
  function Swept(before: Slot): Slot { if before.row.Some? then EMPTY else before }

  /** What a full pass does to one path: not listed, swept; unreadable, as before; unchanged by its hash
      and not forced, as before; otherwise indexed afresh, or failed. */
  ghost predicate PassAt(w: World, force: bool, before: Slot, after: Slot, p: string, listed: bool, content: Option<string>, failed: bool, trusted: bool)
  {
    if !listed then after == Swept(before)
    else if content.None? then after == before
    else if !force && before.row.Some? && Skips(w, before.row.value, content.value) then after == before
    else BatchAt(w, before, after, content, p, failed, trusted)
  }

  /** The same on rows and holdings: where indexers can be trusted to have reported, a file that is not
      listed and had a row is gone, one that cannot be read or carries the hash of its contents in an
      indexed row is as it was, and any other has a row and holdings of its contents unless it failed. */
  ghost predicate Leaves(w: World, force: bool, before: State, after: State, p: string, listed: bool, content: Option<string>, failed: bool)
  {
    if !listed then
      if p in before.rows then p !in after.rows && p !in after.docs else SlotOf(after, p) == SlotOf(before, p)
    else if content.None? || (!force && p in before.rows && before.rows[p].indexed && before.rows[p].hash == w.hash(content.value)) then
      SlotOf(after, p) == SlotOf(before, p)
    else if failed then
      (p in after.rows <==> p in before.rows) && (p in before.rows ==> after.rows[p] == before.rows[p])
    else
      p in after.rows && p in after.docs && after.docs[p] == content.value
      && after.rows[p] == Row(w.hash(content.value), w.lang(p), |content.value|, true)
  }

  lemma PassLeaves(w: World, force: bool, before: State, after: State, p: string, listed: bool, content: Option<string>, failed: bool)
    requires PassAt(w, force, SlotOf(before, p), SlotOf(after, p), p, listed, content, failed, true)
    ensures Leaves(w, force, before, after, p, listed, content, failed)
  {
  }

  class Index {
    const w: World
    const indexers: nat
    var rows: map<string, Row>
    ghost var docs: map<string, string>

    constructor (world: World, n: nat)
      ensures w == world && indexers == n && Now() == State(map[], map[])
    {
      w, indexers := world, n;
      rows, docs := map[], map[];
    }

    ghost function Now(): State
      reads this
    {
      State(rows, docs)
    }

    /** One indexer over a batch: it may fail as a whole, break files, once or more, or meet a failure of
        no file in particular, and may report fewer failures than it counts. */
    method RunIndexer(batch: seq<File>) returns (err: bool, filesFailed: nat, errs: seq<string>, ghost broken: set<string>)
      ensures broken <= Paths(batch) && Reports(errs, broken, filesFailed)
    {
      err := *;
      filesFailed, errs, broken := 0, [], {};
      ghost var about: seq<Option<string>>, msgs: seq<string> := [], [];
      var events: int := *;
      for e := 0 to if events < 0 then 0 else events
        invariant broken <= Paths(batch) && Accounts(errs, broken, filesFailed, about, msgs)
      {
        var i: int, reported: bool, msg: string := *, *, *;
        var subject := if 0 <= i < |batch| then Some(batch[i].path) else None;
        if reported && |errs| == filesFailed {
          errs := errs + [if subject.Some? then subject.value + ": " + msg else msg];
        }
        filesFailed := filesFailed + 1;
        about, msgs := about + [subject], msgs + [msg];
        if subject.Some? {
          assert batch[i] in batch;
          broken := broken + {subject.value};
        }
      }
    }

    method StoreRows(batch: seq<File>, failed: set<string>) returns (ok: bool)
      modifies this`rows
      ensures forall p :: p !in Paths(batch) || p in failed ==> SlotOf(Now(), p) == SlotOf(old(Now()), p)
      ensures ok ==> forall p :: p !in failed && HasFile(batch, p).Some? ==>
                p in rows && rows[p] == RowOf(w, p, HasFile(batch, p).value)
    {
      ok := true;
      for i := 0 to |batch|
        invariant forall p :: p !in Paths(batch) || p in failed ==> SlotOf(Now(), p) == SlotOf(old(Now()), p)
        invariant forall p :: p !in failed && HasFile(batch[..i], p).Some? ==>
                    p in rows && rows[p] == RowOf(w, p, HasFile(batch[..i], p).value)
      {
        assert batch[..i + 1][..i] == batch[..i];
        var f := batch[i];
        assert f.path in Paths(batch);
        if f.path !in failed {
          var stored: bool := *;
          if !stored {
            return false;
          }
          rows := rows[f.path := RowOf(w, f.path, f.content)];
        }
      }
      assert batch[..|batch|] == batch;
    }

    /** The fan-out over the indexers: what they broke and which files are marked for it. */
    method RunIndexers(batch: seq<File>) returns (fatal: bool, failed: set<string>, ghost broken: set<string>)
      requires DistinctPaths(batch)
      ensures failed <= Paths(batch) && broken <= Paths(batch)
      ensures !fatal && NoneShadowed(Paths(batch)) ==> broken <= failed
    {
      fatal, failed, broken := false, {}, {};
      for i := 0 to indexers
        invariant failed <= Paths(batch) && broken <= Paths(batch)
        invariant NoneShadowed(Paths(batch)) ==> broken <= failed
      {
        var err, filesFailed, errs;
        ghost var brokenHere;
        err, filesFailed, errs, brokenHere := RunIndexer(batch);
        broken := broken + brokenHere;
        fatal := fatal || err;
        if NoneShadowed(Paths(batch)) {
          EveryFailureIsMarked(errs, brokenHere, filesFailed, Paths(batch));
        }
        if filesFailed > 0 {
          var attributed, named := AttributeFailures(errs, batch, {});
          failed := failed + if attributed < filesFailed then Paths(batch) else named;
        }
      }
      if fatal {
        broken := Paths(batch);
      }
    }

    /** indexFileSet: every indexer sees the batch; only files none of them failed on get a row. */
    method IndexFileSet(batch: seq<File>) returns (ok: bool, failed: set<string>)
      requires DistinctPaths(batch)
      modifies this
      ensures failed <= Paths(batch)
      ensures forall p :: p !in Paths(batch) ==> SlotOf(Now(), p) == SlotOf(old(Now()), p)
      ensures ok ==> forall p :: BatchAt(w, SlotOf(old(Now()), p), SlotOf(Now(), p), HasFile(batch, p), p, p in failed, NoneShadowed(Paths(batch)))
    {
      if |batch| == 0 {
        return true, {};
      }
      var fatal;
      ghost var broken;
      fatal, failed, broken := RunIndexers(batch);
      ghost var junk: map<string, string> := *;
      PathsHaveFiles(batch);
      docs := Handed(docs, batch, broken, junk);
      if fatal {
        return false, failed;
      }
      ok := StoreRows(batch, failed);
    }

    /** removeIndexedPaths: the indexers first, then the rows; it may stop anywhere. */
    method RemoveIndexedPaths(paths: seq<string>) returns (ok: bool)
      modifies this
      ensures forall p :: p !in paths ==> SlotOf(Now(), p) == SlotOf(old(Now()), p)
      ensures ok ==> forall p :: p in paths ==> SlotOf(Now(), p) == EMPTY
    {
      ok := *;
      ghost var gone: set<string> := *;
      docs := map p | p in docs && (p in paths ==> !ok && p !in gone) :: docs[p];
      if !ok {
        return;
      }
      for i := 0 to |paths|
        invariant forall p :: p !in paths ==> SlotOf(Now(), p) == SlotOf(old(Now()), p)
        invariant forall p :: p in paths ==> p !in docs
        invariant forall j :: 0 <= j < i ==> paths[j] !in rows
      {
        var removed: bool := *;
        if !removed {
          return false;
        }
        rows := rows - {paths[i]};
      }
    }

    /** removeStaleFiles: what is stored and no longer listed goes. */
    method RemoveStaleFiles(stored: map<string, Row>, listing: seq<string>) returns (ok: bool)
      requires stored == rows
      modifies this
      ensures forall p :: p in listing ==> SlotOf(Now(), p) == SlotOf(old(Now()), p)
      ensures ok ==> forall p :: p !in listing ==> SlotOf(Now(), p) == Swept(SlotOf(old(Now()), p))
    {
      var stale: seq<string> := [];
      var todo := stored.Keys;
      while todo != {}
        invariant todo <= stored.Keys
        invariant forall p :: p in stale <==> p in stored && p !in todo && p !in listing
        decreases |todo|
      {
        var p :| p in todo;
        todo := todo - {p};
        if p !in listing {
          stale := stale + [p];
        }
      }
      ok := RemoveIndexedPaths(stale);
    }

    /** The files of one window that have to be read into the index. */
    method ScanBatch(batch: seq<string>, known: Option<map<string, Row>>, disk: string -> Option<string>) returns (toIndex: seq<File>)
      requires forall i, j :: 0 <= i < j < |batch| ==> batch[i] != batch[j]
      ensures DistinctPaths(toIndex) && Paths(toIndex) <= set p | p in batch
      ensures forall p :: HasFile(toIndex, p) == if p in batch && Wanted(w, known, p, disk(p)) then disk(p) else None
    {
      toIndex := [];
      for i := 0 to |batch|
        invariant DistinctPaths(toIndex)
        invariant forall f :: f in toIndex ==> f.path in batch[..i]
        invariant forall p :: HasFile(toIndex, p) == if p in batch[..i] && Wanted(w, known, p, disk(p)) then disk(p) else None
      {
        assert batch[..i + 1] == batch[..i] + [batch[i]];
        var content := disk(batch[i]);
        if Wanted(w, known, batch[i], content) {
          var f := File(batch[i], content.value);
          assert f.path !in batch[..i];
          HasFileNext(toIndex, f);
          toIndex := toIndex + [f];
        }
      }
      assert batch[..|batch|] == batch;
    }

    /** doIndex over one walk's listing: the stale sweep, then windows of files, skipping those whose
        stored hash is unchanged unless the pass is forced. */
    method DoIndex(force: bool, listing: seq<string>, disk: string -> Option<string>) returns (ok: bool, failed: set<string>)
      requires forall i, j :: 0 <= i < j < |listing| ==> listing[i] != listing[j]
      modifies this
      ensures ok ==> forall p :: PassAt(w, force, SlotOf(old(Now()), p), SlotOf(Now(), p), p, p in listing, disk(p), p in failed, NoneShadowed(set p | p in listing))
      ensures ok && NoneShadowed(set p | p in listing) ==>
                forall p :: Leaves(w, force, old(Now()), Now(), p, p in listing, disk(p), p in failed)
      ensures failed <= set p | p in listing
      ensures ok && failed == {} && NoneShadowed(set p | p in listing) ==> CleanPass(w, force, old(Now()), Now(), listing, disk)
    {
      ghost var was := Now();
      failed := {};
      var stored := rows;
      ok := RemoveStaleFiles(stored, listing);
      if !ok {
        return;
      }
      var known := if force then None else Some(stored);
      var start := 0;
      while start < |listing|
        invariant 0 <= start <= |listing|
        invariant failed <= set p | p in listing[..start]
        invariant forall p :: p !in listing ==> SlotOf(Now(), p) == Swept(SlotOf(was, p))
        invariant forall p :: p in listing[start..] ==> SlotOf(Now(), p) == SlotOf(was, p)
        invariant forall p :: p in listing[..start] ==>
                    PassAt(w, force, SlotOf(was, p), SlotOf(Now(), p), p, true, disk(p), p in failed, NoneShadowed(set p | p in listing))
      {
        var end := if start + INDEX_BATCH_FILES < |listing| then start + INDEX_BATCH_FILES else |listing|;
        var batch := listing[start..end];
        ghost var before, failedBefore := Now(), failed;
        var toIndex := ScanBatch(batch, known, disk);
        var batchFailed;
        ok, batchFailed := IndexFileSet(toIndex);
        if !ok {
          failed := failed + batchFailed;
          assert forall p :: p in batch ==> p in listing;
          assert forall p :: p in listing[..start] ==> p in listing;
          return;
        }
        failed := failed + batchFailed;
        WindowDone(w, force, was, before, Now(), listing, start, end, toIndex, disk, failedBefore, batchFailed);
        start := end;
      }
      assert listing[..start] == listing;
      if NoneShadowed(set p | p in listing) {
        forall p ensures Leaves(w, force, was, Now(), p, p in listing, disk(p), p in failed) {
          PassLeaves(w, force, was, Now(), p, p in listing, disk(p), p in failed);
        }
      }
    }
  }

  /** One window later: its files are as the pass leaves them, the others untouched. */
  lemma WindowDone(w: World, force: bool, was: State, before: State, after: State, listing: seq<string>, start: nat, end: nat,
    toIndex: seq<File>, disk: string -> Option<string>, failedBefore: set<string>, batchFailed: set<string>)
    requires start <= end <= |listing| && forall i, j :: 0 <= i < j < |listing| ==> listing[i] != listing[j]
    requires var known := if force then None else Some(was.rows);
             forall p :: HasFile(toIndex, p) == if p in listing[start..end] && Wanted(w, known, p, disk(p)) then disk(p) else None
    requires failedBefore <= (set p | p in listing[..start]) && batchFailed <= Paths(toIndex) <= set p | p in listing[start..end]
    requires forall p :: p !in listing ==> SlotOf(before, p) == Swept(SlotOf(was, p))
    requires forall p :: p in listing[start..] ==> SlotOf(before, p) == SlotOf(was, p)
    requires forall p :: p in listing[..start] ==>
               PassAt(w, force, SlotOf(was, p), SlotOf(before, p), p, true, disk(p), p in failedBefore, NoneShadowed(set p | p in listing))
    requires forall p :: BatchAt(w, SlotOf(before, p), SlotOf(after, p), HasFile(toIndex, p), p, p in batchFailed, NoneShadowed(Paths(toIndex)))
    ensures failedBefore + batchFailed <= set p | p in listing[..end]
    ensures forall p :: p !in listing ==> SlotOf(after, p) == Swept(SlotOf(was, p))
    ensures forall p :: p in listing[end..] ==> SlotOf(after, p) == SlotOf(was, p)
    ensures forall p :: p in listing[..end] ==>
              PassAt(w, force, SlotOf(was, p), SlotOf(after, p), p, true, disk(p), p in failedBefore + batchFailed, NoneShadowed(set p | p in listing))
  {
    PathsHaveFiles(toIndex);
    Places(listing, start, end);
    SmallerShadows(Paths(toIndex), set p | p in listing);
    forall p | p !in listing[start..end] ensures SlotOf(after, p) == SlotOf(before, p) {
      assert BatchAt(w, SlotOf(before, p), SlotOf(after, p), HasFile(toIndex, p), p, p in batchFailed, NoneShadowed(Paths(toIndex)));
    }
    forall p | p in listing[..start]
      ensures PassAt(w, force, SlotOf(was, p), SlotOf(after, p), p, true, disk(p), p in failedBefore + batchFailed, NoneShadowed(set p | p in listing))
    {
      assert p !in listing[start..] && p !in listing[start..end];
    }
    forall p | p in listing[start..end]
      ensures PassAt(w, force, SlotOf(was, p), SlotOf(after, p), p, true, disk(p), p in failedBefore + batchFailed, NoneShadowed(set p | p in listing))
    {
      assert BatchAt(w, SlotOf(before, p), SlotOf(after, p), HasFile(toIndex, p), p, p in batchFailed, NoneShadowed(Paths(toIndex)));
    }
  }

  lemma Places(listing: seq<string>, start: nat, end: nat)
    requires start <= end <= |listing| && forall i, j :: 0 <= i < j < |listing| ==> listing[i] != listing[j]
    ensures forall p :: p in listing[..end] <==> p in listing[..start] || p in listing[start..end]
    ensures forall p :: p in listing[start..] <==> p in listing[start..end] || p in listing[end..]
    ensures forall p :: p in listing[..start] ==> p in listing && p !in listing[start..]
    ensures forall p :: p in listing[start..] ==> p in listing
    ensures forall p :: p in listing[start..end] ==> p !in listing[end..]
  {
    assert listing[..end] == listing[..start] + listing[start..end];
    assert listing[start..] == listing[start..end] + listing[end..];
    assert listing == listing[..start] + listing[start..];
    forall p | p in listing[..start] ensures p !in listing[start..] {
      var i :| 0 <= i < start && listing[i] == p;
      assert forall j :: 0 <= j < |listing[start..]| ==> listing[start..][j] == listing[start + j];
    }
    forall p | p in listing[start..end] ensures p !in listing[end..] {
      var i :| 0 <= i < |listing[start..end]| && listing[start..end][i] == p;
      assert listing[start + i] == p;
      assert forall j :: 0 <= j < |listing[end..]| ==> listing[end..][j] == listing[end + j];
    }
  }

  lemma SmallerShadows(few: set<string>, many: set<string>)
    requires few <= many
    ensures NoneShadowed(many) ==> NoneShadowed(few)
  {
  }

  /** The indexers' holdings after a batch: the new contents, anything at all for broken files. */
  ghost function Handed(docs: map<string, string>, batch: seq<File>, broken: set<string>, junk: map<string, string>): (r: map<string, string>)
    ensures forall p :: p !in Paths(batch) && p !in broken ==> (p in r <==> p in docs) && (p in docs ==> r[p] == docs[p])
    ensures forall p :: HasFile(batch, p).Some? && p !in broken ==> p in r && r[p] == HasFile(batch, p).value
  {
    PathsHaveFiles(batch);
    map p | p in docs.Keys + Paths(batch) + junk.Keys && (if p in broken then p in junk else p in docs || HasFile(batch, p).Some?) ::
      if p in broken then junk[p] else if HasFile(batch, p).Some? then HasFile(batch, p).value else docs[p]
  }

  // ---------------------------------------------------------------------------
  // What passes agree on
  // ---------------------------------------------------------------------------

  type Tree = map<string, string>

  /** What a full pass takes in of a tree. */
  predicate Kept(w: World, p: string) { w.walkKeeps(p) && w.lang(p) != "" }

  function FullSlot(w: World, tree: Tree, p: string): Slot { if p in tree && Kept(w, p) then Fresh(w, p, tree[p]) else EMPTY }

  /** The state holds exactly the kept files of the tree. */
  ghost predicate Indexes(w: World, s: State, tree: Tree) { forall p: string :: SlotOf(s, p) == FullSlot(w, tree, p) }

  /** A walk over the tree, every file readable. */
  ghost predicate Walks(w: World, tree: Tree, listing: seq<string>, disk: string -> Option<string>)
  {
    forall p :: (p in listing <==> p in tree && Kept(w, p)) && (p in listing ==> disk(p) == Some(tree[p]))
  }

  /** Every row speaks of what the indexers hold, and they hold nothing without a row. */
  ghost predicate Consistent(w: World, s: State)
  {
    forall p: string :: var slot := SlotOf(s, p); slot == EMPTY || (slot.doc.Some? && slot == Fresh(w, p, slot.doc.value))
  }

  /** A pass from s to t on which nothing failed. */
  ghost predicate CleanPass(w: World, force: bool, s: State, t: State, listing: seq<string>, disk: string -> Option<string>)
  {
    forall p: string :: PassAt(w, force, SlotOf(s, p), SlotOf(t, p), p, p in listing, disk(p), false, true)
  }

  /** Something stored would mislead the pass at p: a hash that matches over other contents, or holdings
      without a row. */
  ghost predicate Misleads(w: World, force: bool, slot: Slot, p: string, listed: bool, content: Option<string>)
  {
    if !listed then slot.row.None? && slot.doc.Some?
    else !force && content.Some? && slot.row.Some? && Skips(w, slot.row.value, content.value) && slot != Fresh(w, p, content.value)
  }

  /** A pass leaves the index of the tree exactly when nothing stored misleads it. */
  lemma PassIndexesIff(w: World, force: bool, s: State, t: State, tree: Tree, listing: seq<string>, disk: string -> Option<string>)
    requires Walks(w, tree, listing, disk) && CleanPass(w, force, s, t, listing, disk)
    ensures Indexes(w, t, tree) <==> forall p: string :: !Misleads(w, force, SlotOf(s, p), p, p in listing, disk(p))
  {
    forall p: string ensures SlotOf(t, p) == FullSlot(w, tree, p) <==> !Misleads(w, force, SlotOf(s, p), p, p in listing, disk(p)) {
      assert PassAt(w, force, SlotOf(s, p), SlotOf(t, p), p, p in listing, disk(p), false, true);
    }
  }

  /** From a consistent state a pass that skips unchanged files ends where a forced one does. */
  lemma SkippingChangesNothing(w: World, s: State, t: State, u: State, tree: Tree, listing: seq<string>, disk: string -> Option<string>)
    requires CollisionFree(w) && Consistent(w, s) && Walks(w, tree, listing, disk)
    requires CleanPass(w, true, s, t, listing, disk) && CleanPass(w, false, s, u, listing, disk)
    ensures t == u && Indexes(w, t, tree) && Consistent(w, t)
  {
    forall p: string, force: bool ensures !Misleads(w, force, SlotOf(s, p), p, p in listing, disk(p)) {
      assert SlotOf(s, p) == EMPTY || SlotOf(s, p) == Fresh(w, p, SlotOf(s, p).doc.value);
    }
    PassIndexesIff(w, true, s, t, tree, listing, disk);
    PassIndexesIff(w, false, s, u, tree, listing, disk);
    forall p: string ensures SlotOf(t, p) == SlotOf(u, p) {
      assert SlotOf(t, p) == FullSlot(w, tree, p) == SlotOf(u, p);
    }
    SlotsDecide(t, u);
    forall p: string ensures SlotOf(t, p) == EMPTY || (SlotOf(t, p).doc.Some? && SlotOf(t, p) == Fresh(w, p, SlotOf(t, p).doc.value)) {
      assert SlotOf(t, p) == FullSlot(w, tree, p);
    }
  }

  /** A file that failed keeps its old row; the next pass retries it unless that row's hash is the one
      of the content it finds, and then what the failure broke stays broken. */
  lemma FailedFileIsRetriedIff(w: World, force: bool, before: Slot, failed: Slot, next: Slot, p: string, c: string)
    requires CollisionFree(w) && (before == EMPTY || (before.doc.Some? && before == Fresh(w, p, before.doc.value)))
    requires failed.row == before.row && failed.doc != Some(c)
    requires PassAt(w, force, failed, next, p, true, Some(c), false, true)
    ensures next == Fresh(w, p, c) <==> force || before.doc != Some(c)
  {
  }

  /** A forced pass over an unchanged file fails and loses what was held of it: the next pass skips the
      file, which no longer can be found. */
  lemma FailedFileIsSkipped(w: World, p: string, c: string)
    ensures var before := Fresh(w, p, c);
            var failed := Slot(before.row, None);
            && PassAt(w, true, before, failed, p, true, Some(c), true, true)
            && PassAt(w, false, failed, failed, p, true, Some(c), false, true)
            && failed != Fresh(w, p, c)
            && forall next :: PassAt(w, false, failed, next, p, true, Some(c), false, true) ==> next == failed
  {
  }
}
