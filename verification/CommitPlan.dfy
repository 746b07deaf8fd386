/** The incremental pass: pushed changes merged into one action per path, and applied to the index as
    a full pass over the resulting tree would. */
module CommitPlan {
  import opened Wrappers
  import opened Failures
  import opened IndexPass

  /** D, R, and everything else: added and modified are treated alike. */
  datatype Status = Deleted | Renamed | Other

  /** One changed file of a commit; empty content means it is read from the working tree. */
  datatype Change = Change(status: Status, path: string, oldPath: string, content: string)

  datatype Entry = Delete | Upsert(content: string)

  type Plan = map<string, Entry>

  // ---------------------------------------------------------------------------
  // Merging
  // ---------------------------------------------------------------------------

  predicate Renames(c: Change) { c.status.Renamed? && c.oldPath != "" && c.oldPath != c.path }

  function MergeOne(plan: Plan, c: Change): Plan
  {
    if c.status.Deleted? then plan[c.path := Delete]
    else if Renames(c) then plan[c.oldPath := Delete][c.path := Upsert(c.content)]
    else plan[c.path := Upsert(c.content)]
  }

  function Merge(changes: seq<Change>): Plan
  {
    if changes == [] then map[] else MergeOne(Merge(changes[..|changes| - 1]), changes[|changes| - 1])
  }

  function Flatten(commits: seq<seq<Change>>): seq<Change>
  {
    if commits == [] then [] else Flatten(commits[..|commits| - 1]) + commits[|commits| - 1]
  }

  lemma MergeNext(changes: seq<Change>, c: Change)
    ensures Merge(changes + [c]) == MergeOne(Merge(changes), c)
  {
    assert (changes + [c])[..|changes|] == changes;
  }

  lemma FlattenNext(commits: seq<seq<Change>>, i: nat)
    requires i < |commits|
    ensures Flatten(commits[..i + 1]) == Flatten(commits[..i]) + commits[i]
  {
    assert commits[..i + 1][..i] == commits[..i];
  }

  /** One change on the plan so far. */
  method MergeChange(plan: Plan, f: Change) returns (plan': Plan)
    ensures plan' == MergeOne(plan, f)
  {
    plan' := plan;
    if f.status.Deleted? {
      plan' := plan'[f.path := Delete];
    } else if f.status.Renamed? {
      if f.oldPath != "" && f.oldPath != f.path {
        plan' := plan'[f.oldPath := Delete];
      }
      plan' := plan'[f.path := Upsert(f.content)];
    } else {
      plan' := plan'[f.path := Upsert(f.content)];
    }
  }

  /** The files of one commit on the plan so far. */
  method MergeFiles(plan: Plan, files: seq<Change>, ghost before: seq<Change>) returns (plan': Plan)
    requires plan == Merge(before)
    ensures plan' == Merge(before + files)
  {
    plan' := plan;
    assert before + files[..0] == before;
    for j := 0 to |files|
      invariant plan' == Merge(before + files[..j])
    {
      assert before + files[..j + 1] == (before + files[..j]) + [files[j]];
      MergeNext(before + files[..j], files[j]);
      plan' := MergeChange(plan', files[j]);
    }
    assert files[..|files|] == files;
  }

  method MergeCommitPlan(commits: seq<seq<Change>>) returns (plan: Plan)
    ensures plan == Merge(Flatten(commits))
    ensures forall i: nat, j: nat, p :: LastInBatch(commits, i, j, p) ==>
              p in plan && plan[p] == if TakesAway(commits[i][j], p) then Delete else Upsert(commits[i][j].content)
    ensures forall p :: NoneMentions(commits, p) ==> p !in plan
  {
    plan := map[];
    for i := 0 to |commits|
      invariant plan == Merge(Flatten(commits[..i]))
    {
      FlattenNext(commits, i);
      plan := MergeFiles(plan, commits[i], Flatten(commits[..i]));
    }
    assert commits[..|commits|] == commits;
    forall i: nat, j: nat, p | LastInBatch(commits, i, j, p)
      ensures p in plan && plan[p] == if TakesAway(commits[i][j], p) then Delete else Upsert(commits[i][j].content)
    {
      var k := LastOfBatch(commits, i, j, p);
      LastMentionDecides(Flatten(commits), k, p);
    }
    forall p | NoneMentions(commits, p) ensures p !in plan {
      NoneOfBatch(commits, p);
      UnmentionedIsUnplanned(Flatten(commits), p);
    }
  }

  // ---------------------------------------------------------------------------
  // Replaying
  // ---------------------------------------------------------------------------

  type Disk = string -> Option<string>

  /** The content a planned file is indexed with, if it can be read. */
  function Read(disk: Disk, p: string, content: string): Option<string> { if content == "" then disk(p) else Some(content) }

  /** The change as it happens to a tree; an unreadable file stays as it was. */
  function Write(tree: Tree, disk: Disk, p: string, content: string): Tree
  {
    match Read(disk, p, content)
    case None => tree
    case Some(c) => tree[p := c]
  }

  function ReplayOne(tree: Tree, disk: Disk, c: Change): Tree
  {
    if c.status.Deleted? then tree - {c.path}
    else Write(if Renames(c) then tree - {c.oldPath} else tree, disk, c.path, c.content)
  }

  function Replay(tree: Tree, disk: Disk, changes: seq<Change>): Tree
  {
    if changes == [] then tree else ReplayOne(Replay(tree, disk, changes[..|changes| - 1]), disk, changes[|changes| - 1])
  }

  /** What a tree holds at p. */
  function Held(tree: Tree, p: string): Option<string> { if p in tree then Some(tree[p]) else None }

  /** What the plan says the tree holds at p. */
  function Planned(tree: Tree, disk: Disk, plan: Plan, p: string): Option<string>
  {
    if p in plan then (match plan[p] case Delete => None case Upsert(content) => Read(disk, p, content))
    else Held(tree, p)
  }

  /** The merged plan, applied in any order, is the changes one by one, wherever its last word on a path
      can be read; what the changes before that one found makes no difference. */
  lemma {:induction false} PlanIsReplay(tree: Tree, disk: Disk, changes: seq<Change>, p: string)
    requires p in Merge(changes) && Merge(changes)[p].Upsert? ==> Read(disk, p, Merge(changes)[p].content).Some?
    ensures Held(Replay(tree, disk, changes), p) == Planned(tree, disk, Merge(changes), p)
  {
    if changes != [] {
      var front, last := changes[..|changes| - 1], changes[|changes| - 1];
      if p != last.path && !(Renames(last) && p == last.oldPath) {
        PlanIsReplay(tree, disk, front, p);
      }
    }
  }

  // ---------------------------------------------------------------------------
  // What the last change that mentions a path says
  // ---------------------------------------------------------------------------

  /** A change is about its path and, if it is a rename, about the path it came from. */
  predicate Mentions(c: Change, p: string) { c.path == p || (c.status.Renamed? && c.oldPath == p && p != "") }

  ghost predicate LastMention(changes: seq<Change>, i: nat, p: string)
  {
    i < |changes| && Mentions(changes[i], p) && forall j :: i < j < |changes| ==> !Mentions(changes[j], p)
  }

  /** The j-th change of the i-th commit mentions p, and no later one of that commit or a later commit does. */
  ghost predicate LastInBatch(commits: seq<seq<Change>>, i: nat, j: nat, p: string)
  {
    && i < |commits| && j < |commits[i]| && Mentions(commits[i][j], p)
    && (forall k :: j < k < |commits[i]| ==> !Mentions(commits[i][k], p))
    && forall m, k :: i < m < |commits| && 0 <= k < |commits[m]| ==> !Mentions(commits[m][k], p)
  }

  ghost predicate NoneMentions(commits: seq<seq<Change>>, p: string)
  {
    forall m, k :: 0 <= m < |commits| && 0 <= k < |commits[m]| ==> !Mentions(commits[m][k], p)
  }

  lemma {:induction false} LastOfBatch(commits: seq<seq<Change>>, i: nat, j: nat, p: string) returns (k: nat)
    requires LastInBatch(commits, i, j, p)
    ensures LastMention(Flatten(commits), k, p) && Flatten(commits)[k] == commits[i][j]
    decreases |commits|
  {
    var n := |commits| - 1;
    var front := Flatten(commits[..n]);
    if i == n {
      k := |front| + j;
    } else {
      k := LastOfBatch(commits[..n], i, j, p);
    }
    forall x | k < x < |Flatten(commits)| ensures !Mentions(Flatten(commits)[x], p) {
      assert Flatten(commits)[x] == if x < |front| then front[x] else commits[n][x - |front|];
    }
  }

  lemma {:induction false} NoneOfBatch(commits: seq<seq<Change>>, p: string)
    requires NoneMentions(commits, p)
    ensures forall x :: 0 <= x < |Flatten(commits)| ==> !Mentions(Flatten(commits)[x], p)
  {
    if commits != [] {
      NoneOfBatch(commits[..|commits| - 1], p);
    }
  }

  /** The change takes p away: it deletes it or renames it to something else. */
  predicate TakesAway(c: Change, p: string) { if c.path == p then c.status.Deleted? else c.status.Renamed? && c.oldPath == p && p != "" }

  lemma MentionInFront(changes: seq<Change>, i: nat, p: string)
    requires LastMention(changes, i, p) && i < |changes| - 1
    ensures LastMention(changes[..|changes| - 1], i, p)
  {
    var front := changes[..|changes| - 1];
    assert forall j :: 0 <= j < |front| ==> front[j] == changes[j];
  }

  /** The last change that mentions a path decides what the plan does to it: a deletion, a rename away from
      it, or new contents, those of a rename onto it included; one renamed onto itself is only new contents. */
  lemma {:induction false} LastMentionDecides(changes: seq<Change>, i: nat, p: string)
    requires LastMention(changes, i, p)
    ensures p in Merge(changes) && Merge(changes)[p] == if TakesAway(changes[i], p) then Delete else Upsert(changes[i].content)
  {
    if i < |changes| - 1 {
      MentionInFront(changes, i, p);
      LastMentionDecides(changes[..|changes| - 1], i, p);
    }
  }

  lemma {:induction false} UnmentionedIsUnplanned(changes: seq<Change>, p: string)
    requires forall j :: 0 <= j < |changes| ==> !Mentions(changes[j], p)
    ensures p !in Merge(changes)
  {
    if changes != [] {
      UnmentionedIsUnplanned(changes[..|changes| - 1], p);
    }
  }

  /** And what the changes one by one leave there: nothing, the pushed contents, or without any those on
      disk. */
  lemma {:induction false} LastMentionIsHeld(tree: Tree, disk: Disk, changes: seq<Change>, i: nat, p: string)
    requires LastMention(changes, i, p)
    ensures TakesAway(changes[i], p) ==> p !in Replay(tree, disk, changes)
    ensures !TakesAway(changes[i], p) && changes[i].content != "" ==> Held(Replay(tree, disk, changes), p) == Some(changes[i].content)
    ensures !TakesAway(changes[i], p) && changes[i].content == "" && disk(p).Some? ==> Held(Replay(tree, disk, changes), p) == disk(p)
  {
    if i < |changes| - 1 {
      MentionInFront(changes, i, p);
      LastMentionIsHeld(tree, disk, changes[..|changes| - 1], i, p);
    }
  }

  lemma {:induction false} UnmentionedIsKept(tree: Tree, disk: Disk, changes: seq<Change>, p: string)
    requires forall j :: 0 <= j < |changes| ==> !Mentions(changes[j], p)
    ensures Held(Replay(tree, disk, changes), p) == Held(tree, p)
  {
    if changes != [] {
      UnmentionedIsKept(tree, disk, changes[..|changes| - 1], p);
    }
  }

  // ---------------------------------------------------------------------------
  // Applying
  // ---------------------------------------------------------------------------

  /** The pass removes p, reads it in, or has nothing to do with it. */
  predicate Drops(w: World, plan: Plan, p: string) { p in plan && (plan[p].Delete? || w.ignoreFile(p)) }

  predicate TakesIn(w: World, plan: Plan, p: string) { p in plan && plan[p].Upsert? && !w.ignoreFile(p) && w.lang(p) != "" }

  predicate Touches(w: World, plan: Plan, p: string) { Drops(w, plan, p) || TakesIn(w, plan, p) }

  ghost predicate PlanAt(w: World, plan: Plan, disk: Disk, before: Slot, after: Slot, p: string, unapplied: bool, trusted: bool)
  {
    if Drops(w, plan, p) then after == EMPTY
    else if TakesIn(w, plan, p) && Read(disk, p, plan[p].content).Some? then
      BatchAt(w, before, after, Read(disk, p, plan[p].content), p, unapplied, trusted)
    else after == before
  }

  /** The paths to remove, in whatever order the map gives them. */
  method Deletes(w: World, plan: Plan) returns (deletes: seq<string>)
    ensures forall p :: p in deletes <==> Drops(w, plan, p)
  {
    deletes := [];
    var todo := plan.Keys;
    while todo != {}
      invariant todo <= plan.Keys
      invariant forall p :: p in deletes <==> Drops(w, plan, p) && p !in todo
      decreases |todo|
    {
      var p :| p in todo;
      todo := todo - {p};
      if plan[p].Delete? || w.ignoreFile(p) {
        deletes := deletes + [p];
      }
    }
  }

  /** The files to index, in whatever order the map gives them, and those that could not be read. */
  method Upserts(w: World, plan: Plan, disk: Disk) returns (toIndex: seq<File>, unreadable: set<string>)
    ensures DistinctPaths(toIndex) && forall p :: p in Paths(toIndex) ==> TakesIn(w, plan, p)
    ensures forall p :: HasFile(toIndex, p) == if TakesIn(w, plan, p) then Read(disk, p, plan[p].content) else None
    ensures forall p :: p in unreadable <==> TakesIn(w, plan, p) && Read(disk, p, plan[p].content).None?
  {
    toIndex, unreadable := [], {};
    var todo := plan.Keys;
    while todo != {}
      invariant todo <= plan.Keys && CollectedBut(w, plan, disk, todo, toIndex, unreadable)
      decreases |todo|
    {
      var p :| p in todo;
      toIndex, unreadable := CollectOne(w, plan, disk, todo, p, toIndex, unreadable);
      todo := todo - {p};
    }
  }

  /** The files and unreadable paths of the plan, but for those still to do. */
  ghost predicate CollectedBut(w: World, plan: Plan, disk: Disk, todo: set<string>, toIndex: seq<File>, unreadable: set<string>)
  {
    && DistinctPaths(toIndex)
    && (forall f :: f in toIndex ==> f.path !in todo && TakesIn(w, plan, f.path))
    && (forall p :: HasFile(toIndex, p) == if TakesIn(w, plan, p) && p !in todo then Read(disk, p, plan[p].content) else None)
    && (forall p :: p in unreadable <==> TakesIn(w, plan, p) && p !in todo && Read(disk, p, plan[p].content).None?)
  }

  method CollectOne(w: World, plan: Plan, disk: Disk, ghost todo: set<string>, p: string, before: seq<File>, unread: set<string>)
    returns (toIndex: seq<File>, unreadable: set<string>)
    requires p in todo && todo <= plan.Keys && CollectedBut(w, plan, disk, todo, before, unread)
    ensures CollectedBut(w, plan, disk, todo - {p}, toIndex, unreadable)
  {
    toIndex, unreadable := before, unread;
    if plan[p].Delete? || w.ignoreFile(p) || w.lang(p) == "" {
      return;
    }
    var content := Read(disk, p, plan[p].content);
    if content.None? {
      unreadable := unreadable + {p};
      return;
    }
    var f := File(p, content.value);
    HasFileNext(toIndex, f);
    toIndex := toIndex + [f];
  }

  /** applyPlan: removals, then one batch.  However it ends, it has touched only paths of the plan. */
  method ApplyPlan(index: Index, plan: Plan, disk: Disk) returns (ok: bool, unapplied: set<string>, ghost trusted: bool)
    modifies index
    ensures forall p :: !Touches(index.w, plan, p) ==> SlotOf(index.Now(), p) == SlotOf(old(index.Now()), p)
    ensures ok ==> forall p :: PlanAt(index.w, plan, disk, SlotOf(old(index.Now()), p), SlotOf(index.Now(), p), p, p in unapplied, trusted)
    ensures ok ==> forall p :: TakesIn(index.w, plan, p) && Read(disk, p, plan[p].content).None? ==> p in unapplied
    ensures NoneShadowed(set p | p in plan) ==> trusted
    ensures ok && unapplied == {} && trusted ==> CleanApply(index.w, plan, disk, old(index.Now()), index.Now())
  {
    unapplied, trusted := {}, NoneShadowed(set p | p in plan);
    var deletes := Deletes(index.w, plan);
    var toIndex, unreadable := Upserts(index.w, plan, disk);
    PathsHaveFiles(toIndex);
    SmallerShadows(Paths(toIndex), set p | p in plan);
    ok := index.RemoveIndexedPaths(deletes);
    if !ok {
      return;
    }
    var failed;
    ok, failed := index.IndexFileSet(toIndex);
    unapplied := unreadable + failed;
  }

  // ---------------------------------------------------------------------------
  // Incremental equals full
  // ---------------------------------------------------------------------------

  /** A walk asks about the file too, so what it keeps is not ignored. */
  ghost predicate WalkAsks(w: World) { forall p: string :: w.walkKeeps(p) ==> !w.ignoreFile(p) }

  /** A pass over the plan that left nothing unapplied: all it took in could be read and indexed. */
  ghost predicate CleanApply(w: World, plan: Plan, disk: Disk, s: State, t: State)
  {
    forall p: string ::
      && (TakesIn(w, plan, p) ==> Read(disk, p, plan[p].content).Some?)
      && PlanAt(w, plan, disk, SlotOf(s, p), SlotOf(t, p), p, false, true)
  }

  /** The state is the index of the tree but for paths the plan touches: how any number of interrupted
      attempts leave it. */
  ghost predicate IndexesApart(w: World, s: State, tree: Tree, plan: Plan)
  {
    forall p: string :: !Touches(w, plan, p) ==> SlotOf(s, p) == FullSlot(w, tree, p)
  }

  /** No file taken in on its own lies where a walk would not go. */
  ghost predicate WalkAgrees(w: World, plan: Plan) { forall p: string :: TakesIn(w, plan, p) ==> w.walkKeeps(p) }

  /** A planned upsert that is not taken in, readable or not, is of a file no full pass takes in. */
  lemma UntakenIsNotKept(w: World, plan: Plan, tree: Tree, p: string)
    requires WalkAsks(w) && p in plan && plan[p].Upsert? && !TakesIn(w, plan, p)
    ensures FullSlot(w, tree, p) == EMPTY
  {
  }

  lemma SlotAgreesIff(w: World, tree: Tree, disk: Disk, changes: seq<Change>, s: State, t: State, p: string)
    requires WalkAsks(w) && IndexesApart(w, s, tree, Merge(changes)) && CleanApply(w, Merge(changes), disk, s, t)
    ensures SlotOf(t, p) == FullSlot(w, Replay(tree, disk, changes), p) <==> (TakesIn(w, Merge(changes), p) ==> w.walkKeeps(p))
  {
    var plan := Merge(changes);
    assert PlanAt(w, plan, disk, SlotOf(s, p), SlotOf(t, p), p, false, true);
    if p in plan && plan[p].Upsert? && !TakesIn(w, plan, p) {
      UntakenIsNotKept(w, plan, tree, p);
      UntakenIsNotKept(w, plan, Replay(tree, disk, changes), p);
    } else {
      PlanIsReplay(tree, disk, changes, p);
    }
  }

  /** Applying the merged plan to the index of a tree, or to what interrupted attempts left of it, gives
      the index of the tree with every change replayed, exactly when the walk agrees on what is taken in. */
  lemma IncrementalIndexesIff(w: World, tree: Tree, disk: Disk, changes: seq<Change>, s: State, t: State)
    requires WalkAsks(w) && IndexesApart(w, s, tree, Merge(changes))
    requires CleanApply(w, Merge(changes), disk, s, t)
    ensures Indexes(w, t, Replay(tree, disk, changes)) <==> WalkAgrees(w, Merge(changes))
  {
    forall p: string
      ensures SlotOf(t, p) == FullSlot(w, Replay(tree, disk, changes), p) <==> (TakesIn(w, Merge(changes), p) ==> w.walkKeeps(p))
    {
      SlotAgreesIff(w, tree, disk, changes, s, t, p);
    }
  }

  /** What a clean pass over the push leaves of a path: nothing where the last change took it away or it is
      ignored; a row and holdings of the new contents where the push takes it in; otherwise what was there. */
  ghost predicate LeftAs(w: World, before: State, after: State, disk: Disk, last: Change, p: string)
  {
    var content := if last.content != "" then Some(last.content) else disk(p);
    if TakesAway(last, p) || w.ignoreFile(p) then p !in after.rows && p !in after.docs
    else if w.lang(p) != "" then
      && content.Some?
      && p in after.rows && p in after.docs && after.docs[p] == content.value
      && after.rows[p] == Row(w.hash(content.value), w.lang(p), |content.value|, true)
    else SlotOf(after, p) == SlotOf(before, p)
  }

  lemma CleanApplyLeaves(w: World, disk: Disk, changes: seq<Change>, s: State, t: State, i: nat, p: string)
    requires LastMention(changes, i, p) && CleanApply(w, Merge(changes), disk, s, t)
    ensures LeftAs(w, s, t, disk, changes[i], p)
  {
    LastMentionDecides(changes, i, p);
    assert PlanAt(w, Merge(changes), disk, SlotOf(s, p), SlotOf(t, p), p, false, true);
  }

  /** A path no change mentions is as it was. */
  lemma CleanApplyKeeps(w: World, disk: Disk, changes: seq<Change>, s: State, t: State, p: string)
    requires CleanApply(w, Merge(changes), disk, s, t) && forall j :: 0 <= j < |changes| ==> !Mentions(changes[j], p)
    ensures SlotOf(t, p) == SlotOf(s, p)
  {
    UnmentionedIsUnplanned(changes, p);
    assert PlanAt(w, Merge(changes), disk, SlotOf(s, p), SlotOf(t, p), p, false, true);
  }

  /** A renamed file is gone from where it was and indexed where it is. */
  lemma RenameMoves(w: World, disk: Disk, from: string, to: string, content: string, s: State, t: State)
    requires from != "" && from != to && content != "" && !w.ignoreFile(to) && w.lang(to) != ""
    requires CleanApply(w, Merge([Change(Renamed, to, from, content)]), disk, s, t)
    ensures from !in t.rows && from !in t.docs
    ensures to in t.rows && to in t.docs && t.docs[to] == content && t.rows[to].hash == w.hash(content)
  {
    var changes := [Change(Renamed, to, from, content)];
    CleanApplyLeaves(w, disk, changes, s, t, 0, from);
    CleanApplyLeaves(w, disk, changes, s, t, 0, to);
  }

  /** An attempt that was interrupted anywhere can be repeated: it leaves a state the lemma above
      starts from. */
  lemma InterruptedCanRepeat(w: World, tree: Tree, plan: Plan, s: State, t: State)
    requires IndexesApart(w, s, tree, plan) && forall p: string :: !Touches(w, plan, p) ==> SlotOf(t, p) == SlotOf(s, p)
    ensures IndexesApart(w, t, tree, plan)
  {
    forall p: string | !Touches(w, plan, p) ensures SlotOf(t, p) == FullSlot(w, tree, p) {
      assert SlotOf(s, p) == FullSlot(w, tree, p);
    }
  }

  /** A push and a full pass over the pushed tree leave the same index. */
  lemma PushEqualsFullPass(w: World, tree: Tree, disk: Disk, changes: seq<Change>, s: State, t: State, force: bool, u: State, listing: seq<string>, after: Disk)
    requires WalkAsks(w) && CollisionFree(w) && WalkAgrees(w, Merge(changes))
    requires Indexes(w, s, tree) && CleanApply(w, Merge(changes), disk, s, t)
    requires Walks(w, Replay(tree, disk, changes), listing, after) && CleanPass(w, force, s, u, listing, after)
    ensures t == u
  {
    IncrementalIndexesIff(w, tree, disk, changes, s, t);
    forall p: string ensures !Misleads(w, force, SlotOf(s, p), p, p in listing, after(p)) {
      assert SlotOf(s, p) == FullSlot(w, tree, p);
    }
    PassIndexesIff(w, force, s, u, Replay(tree, disk, changes), listing, after);
    forall p: string ensures SlotOf(t, p) == SlotOf(u, p) {
      assert SlotOf(t, p) == FullSlot(w, Replay(tree, disk, changes), p) == SlotOf(u, p);
    }
    SlotsDecide(t, u);
  }

  /** Where the walk disagrees, the push indexes a file the next full pass removes. */
  lemma PushKeepsWhatWalkPrunes(w: World, tree: Tree, disk: Disk, p: string, c: string, s: State, t: State)
    requires WalkAsks(w) && !w.ignoreFile(p) && !w.walkKeeps(p) && w.lang(p) != "" && c != ""
    requires Indexes(w, s, tree) && CleanApply(w, Merge([Change(Other, p, "", c)]), disk, s, t)
    ensures SlotOf(t, p) == Fresh(w, p, c) && FullSlot(w, Replay(tree, disk, [Change(Other, p, "", c)]), p) == EMPTY
  {
    var change := Change(Other, p, "", c);
    assert [change][..0] == [];
    assert Merge([change]) == map[p := Upsert(c)];
    assert PlanAt(w, Merge([change]), disk, SlotOf(s, p), SlotOf(t, p), p, false, true);
  }

  /** doApplyCommits: the merged plan of a batch, applied. */
  method DoApplyCommits(index: Index, commits: seq<seq<Change>>, disk: Disk) returns (ok: bool, unapplied: set<string>)
    modifies index
    ensures forall p :: NoneMentions(commits, p) ==> SlotOf(index.Now(), p) == SlotOf(old(index.Now()), p)
    ensures ok && unapplied == {} && NoneShadowed(set p | p in Merge(Flatten(commits))) ==>
              forall i: nat, j: nat, p :: LastInBatch(commits, i, j, p) ==> LeftAs(index.w, old(index.Now()), index.Now(), disk, commits[i][j], p)
  {
    ghost var was := index.Now();
    var plan := MergeCommitPlan(commits);
    ghost var trusted;
    ok, unapplied, trusted := ApplyPlan(index, plan, disk);
    if ok && unapplied == {} && NoneShadowed(set p | p in plan) {
      forall i: nat, j: nat, p | LastInBatch(commits, i, j, p) ensures LeftAs(index.w, was, index.Now(), disk, commits[i][j], p) {
        var k := LastOfBatch(commits, i, j, p);
        CleanApplyLeaves(index.w, disk, Flatten(commits), was, index.Now(), k, p);
      }
    }
  }
}
