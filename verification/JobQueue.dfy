/** The distributed commit queue as a state machine.

    Every label of `Step` is one atomic store call (or one local decision) of a worker running
    `runQueuedJob`, or an event of the environment: a push, the clock, a crash, the stale sweep.
    Workers interleave freely, so a run is any sequence of enabled steps.  A store call that can
    fail carries the flag `ok`. */
module JobQueue {

  type SHA = string
  type RepoID = string
  type WorkerID = string
  type JobID = nat

  /** How long a repository claim lives, in seconds (store.DefaultRepoClaimTTLSeconds). */
  const REPO_CLAIM_TTL := 3600

  datatype Commit = Commit(sha: SHA, parents: seq<SHA>)

  /** A commit job's payload is its decoded batch; the empty batch stands for every payload that
      decodeCommitBatch rejects. */
  datatype Kind = IndexJob(force: bool) | CommitJob(batch: seq<Commit>)

  datatype Outcome = Success | Failure

  datatype Status =
    | Pending
    | Running(owner: WorkerID, heartbeat: int)
    | Done
    | Failed

  datatype Job = Job(repo: RepoID, kind: Kind, status: Status)

  datatype Claim = Free | Held(owner: WorkerID, expires: int)

  /** A repository row: the commit cursor, the advertised in-flight commit and the indexing claim. */
  datatype Repo = Repo(cursor: SHA, pending: SHA, claim: Claim)

  /** What a worker carries from ClaimNextIndexJob on: the job's id, repository and body. */
  datatype Hold = Hold(id: JobID, repo: RepoID, kind: Kind)

  datatype Reason = WaitsForPredecessor | PredecessorUnknown | RepoBusy

  /** The control state of one worker inside runQueuedJob.  `read` is the cursor the worker decided
      on; `held` is the cursor the row had when the worker's claim on it succeeded. */
  datatype Phase =
    | Idle
    | Claimed(hold: Hold)
    | Decided(hold: Hold, seen: Repo)
    | Broken(hold: Hold, seen: Repo)
    | Releasing(hold: Hold, why: Reason)
    | Working(hold: Hold, read: SHA, held: SHA)
    | Landed(hold: Hold, result: Outcome)
    | Finishing(hold: Hold, result: Outcome)

  /** One write of the cursor: `prev` is the value it replaced. */
  datatype Landing = Landing(repo: RepoID, prev: SHA, batch: seq<Commit>, read: SHA, held: SHA)

  datatype State = State(
    now: int,
    next: JobID,
    jobs: map<JobID, Job>,
    repos: map<RepoID, Repo>,
    workers: map<WorkerID, Phase>,
    history: seq<Landing>)

  datatype Step =
    | EnqueueIndex(repo: RepoID, force: bool)
    | EnqueueCommits(repo: RepoID, batch: seq<Commit>)
    | Tick(seconds: nat)
    | RequeueStale(olderThan: nat)
    | ClaimJob(w: WorkerID, id: JobID)
    | Heartbeat(w: WorkerID)
    | Crash(w: WorkerID)
    | RejectPayload(w: WorkerID)
    | ReadRepo(w: WorkerID, ok: bool)
    | CheckEarlier(w: WorkerID, ok: bool)
    | Retract(w: WorkerID, ok: bool)
    | ClaimRepo(w: WorkerID, ok: bool)
    | Publish(w: WorkerID)
    | FinishPass(w: WorkerID, ok: bool)
    | Advance(w: WorkerID, ok: bool)
    | ReleaseRepo(w: WorkerID, ok: bool)
    | Complete(w: WorkerID, ok: bool)
    | Release(w: WorkerID, ok: bool)

  // ---------------------------------------------------------------------------
  // The commit-order decision
  // ---------------------------------------------------------------------------

  datatype BatchOrder = BatchNext | BatchApplied | BatchTooEarly

  predicate HasParent(parents: seq<SHA>, sha: SHA) { sha in parents }

  /** The batch may follow the cursor: there is none yet, or its first commit names it as a parent. */
  predicate Continues(batch: seq<Commit>, cursor: SHA)
    requires batch != []
  {
    cursor == "" || HasParent(batch[0].parents, cursor)
  }

  function CommitJobOrder(batch: seq<Commit>, cursor: SHA): BatchOrder
    requires batch != []
  {
    if Continues(batch, cursor) then BatchNext
    else if exists i :: 0 <= i < |batch| && batch[i].sha == cursor then BatchApplied
    else BatchTooEarly
  }

  function Target(batch: seq<Commit>): SHA
    requires batch != []
  {
    batch[|batch| - 1].sha
  }

  /** What the worker does after reading the row: index jobs have no order to respect. */
  function OrderOf(kind: Kind, cursor: SHA): BatchOrder
    requires kind.CommitJob? ==> kind.batch != []
  {
    match kind
    case IndexJob(_) => BatchNext
    case CommitJob(batch) => CommitJobOrder(batch, cursor)
  }

  // ---------------------------------------------------------------------------
  // The store's view of the queue
  // ---------------------------------------------------------------------------

  predicate Unfinished(j: Job) { j.status.Pending? || j.status.Running? }

  predicate HeldBy(j: Job, w: WorkerID) { j.status.Running? && j.status.owner == w }

  predicate Stale(j: Job, cutoff: int) { j.status.Running? && j.status.heartbeat < cutoff }

  predicate PendingIndex(j: Job, repo: RepoID) { j.repo == repo && j.kind.IndexJob? && j.status.Pending? }

  ghost predicate HasPendingIndex(s: State, repo: RepoID)
  {
    exists id :: id in s.jobs && PendingIndex(s.jobs[id], repo)
  }

  ghost predicate EarlierUnfinishedCommit(s: State, repo: RepoID, id: JobID)
  {
    exists i :: i in s.jobs && i < id && s.jobs[i].repo == repo && s.jobs[i].kind.CommitJob? && Unfinished(s.jobs[i])
  }

  ghost predicate OldestUnfinished(s: State, id: JobID)
  {
    && id in s.jobs
    && s.jobs[id].kind.CommitJob?
    && Unfinished(s.jobs[id])
    && !EarlierUnfinishedCommit(s, s.jobs[id].repo, id)
  }

  /** RequeueStaleIndexJobs on one row: a stale commit job always goes back to the queue; of the
      stale index jobs of a repository at most one does, and none when one is already pending. */
  ghost function Requeued(s: State, id: JobID, cutoff: int): Job
    requires id in s.jobs
  {
    var j := s.jobs[id];
    if !Stale(j, cutoff) then j
    else if j.kind.IndexJob? && (HasPendingIndex(s, j.repo) || exists i :: i in s.jobs && i < id && SameStaleIndex(s.jobs[i], j.repo, cutoff)) then
      j.(status := Failed)
    else j.(status := Pending)
  }

  predicate SameStaleIndex(j: Job, repo: RepoID, cutoff: int) { j.repo == repo && j.kind.IndexJob? && Stale(j, cutoff) }

  function PhaseOf(s: State, w: WorkerID): Phase
  {
    if w in s.workers then s.workers[w] else Idle
  }

  predicate Live(c: Claim, now: int) { c.Held? && now < c.expires }

  // ---------------------------------------------------------------------------
  // Steps
  // ---------------------------------------------------------------------------

  ghost predicate Enabled(s: State, step: Step)
  {
    match step
    case EnqueueIndex(r, _) => r in s.repos
    case EnqueueCommits(r, _) => r in s.repos
    case Tick(_) => true
    case RequeueStale(_) => true
    case ClaimJob(w, id) =>
      && PhaseOf(s, w).Idle?
      && id in s.jobs && s.jobs[id].status.Pending?
      && forall i :: i in s.jobs && s.jobs[i].status.Pending? ==> id <= i
    case Heartbeat(w) => !PhaseOf(s, w).Idle?
    case Crash(w) => true
    case RejectPayload(w) =>
      var p := PhaseOf(s, w);
      p.Claimed? && p.hold.kind.CommitJob? && p.hold.kind.batch == []
    case ReadRepo(w, ok) =>
      var p := PhaseOf(s, w);
      p.Claimed? && (p.hold.kind.CommitJob? ==> p.hold.kind.batch != []) && (ok ==> p.hold.repo in s.repos)
    case CheckEarlier(w, _) =>
      var p := PhaseOf(s, w);
      p.Decided? && Decodable(p.hold.kind) && OrderOf(p.hold.kind, p.seen.cursor).BatchTooEarly?
    case Retract(w, _) =>
      var p := PhaseOf(s, w);
      p.Broken? || (p.Decided? && Decodable(p.hold.kind) && OrderOf(p.hold.kind, p.seen.cursor).BatchApplied?)
    case ClaimRepo(w, ok) =>
      var p := PhaseOf(s, w);
      p.Decided? && Decodable(p.hold.kind) && OrderOf(p.hold.kind, p.seen.cursor).BatchNext? && (ok ==> p.hold.repo in s.repos)
    case Publish(w) =>
      var p := PhaseOf(s, w);
      p.Working? && p.hold.kind.CommitJob? && p.hold.kind.batch != [] && p.hold.repo in s.repos
    case FinishPass(w, ok) =>
      var p := PhaseOf(s, w);
      p.Working? && (ok ==> p.hold.kind.IndexJob?)
    case Advance(w, ok) =>
      var p := PhaseOf(s, w);
      p.Working? && p.hold.kind.CommitJob? && p.hold.kind.batch != [] && p.hold.repo in s.repos
    case ReleaseRepo(w, ok) => PhaseOf(s, w).Landed? && (ok ==> PhaseOf(s, w).hold.repo in s.repos)
    case Complete(w, _) => PhaseOf(s, w).Finishing? && PhaseOf(s, w).hold.id in s.jobs
    case Release(w, _) => PhaseOf(s, w).Releasing? && PhaseOf(s, w).hold.id in s.jobs
  }

  predicate Decodable(kind: Kind) { kind.CommitJob? ==> kind.batch != [] }

  /** The successor state, table by table: the worker's control, the job rows, the repository
      rows, and the history of cursor writes. */
  ghost function Apply(s: State, step: Step): State
    requires Enabled(s, step)
  {
    State(
      if step.Tick? then s.now + step.seconds else s.now,
      if Inserts(s, step) then s.next + 1 else s.next,
      JobsAfter(s, step),
      ReposAfter(s, step),
      if Acts(step) then s.workers[step.w := PhaseAfter(s, step)] else s.workers,
      if Lands(step) then s.history + [LandingOf(s, step)] else s.history)
  }

  /** The step moves its worker on; a heartbeat and a publication leave it where it is. */
  predicate Acts(step: Step)
  {
    !(step.EnqueueIndex? || step.EnqueueCommits? || step.Tick? || step.RequeueStale? || step.Heartbeat? || step.Publish?)
  }

  ghost function PhaseAfter(s: State, step: Step): Phase
    requires Enabled(s, step) && Acts(step)
  {
    var p := PhaseOf(s, step.w);
    match step
    case ClaimJob(_, id) => Claimed(Hold(id, s.jobs[id].repo, s.jobs[id].kind))
    case RejectPayload(_) => Finishing(p.hold, Failure)
    case ReadRepo(_, ok) => if ok then Decided(p.hold, s.repos[p.hold.repo]) else Finishing(p.hold, Failure)
    case CheckEarlier(_, ok) =>
      if !ok then Releasing(p.hold, PredecessorUnknown)
      else if EarlierUnfinishedCommit(s, p.hold.repo, p.hold.id) then Releasing(p.hold, WaitsForPredecessor)
      else Broken(p.hold, p.seen)
    case Retract(_, _) => Finishing(p.hold, if p.Broken? then Failure else Success)
    case ClaimRepo(_, ok) =>
      if !ok then Finishing(p.hold, Failure)
      else if Live(s.repos[p.hold.repo].claim, s.now) then Releasing(p.hold, RepoBusy)
      else Working(p.hold, p.seen.cursor, s.repos[p.hold.repo].cursor)
    case FinishPass(_, ok) => Landed(p.hold, if ok then Success else Failure)
    case Advance(_, _) => Landed(p.hold, Success)
    case ReleaseRepo(_, _) => Finishing(p.hold, p.result)
    case _ => Idle  // Crash, Complete and Release end the job for this worker
  }

  ghost predicate Inserts(s: State, step: Step)
  {
    step.EnqueueCommits? || (step.EnqueueIndex? && !HasPendingIndex(s, step.repo))
  }

  ghost function JobsAfter(s: State, step: Step): map<JobID, Job>
    requires Enabled(s, step)
  {
    match step
    case EnqueueIndex(r, force) =>
      if HasPendingIndex(s, r) then
        var id :| id in s.jobs && PendingIndex(s.jobs[id], r);
        s.jobs[id := s.jobs[id].(kind := IndexJob(s.jobs[id].kind.force || force))]
      else s.jobs[s.next := Job(r, IndexJob(force), Pending)]
    case EnqueueCommits(r, batch) => s.jobs[s.next := Job(r, CommitJob(batch), Pending)]
    case RequeueStale(olderThan) => map id | id in s.jobs :: Requeued(s, id, s.now - olderThan)
    case ClaimJob(w, id) => s.jobs[id := s.jobs[id].(status := Running(w, s.now))]
    case Heartbeat(w) =>
      var id := PhaseOf(s, w).hold.id;
      if id in s.jobs && HeldBy(s.jobs[id], w) then s.jobs[id := s.jobs[id].(status := Running(w, s.now))] else s.jobs
    case Complete(w, ok) =>
      var p := PhaseOf(s, w);
      if ok && HeldBy(s.jobs[p.hold.id], w)
      then s.jobs[p.hold.id := s.jobs[p.hold.id].(status := if p.result.Success? then Done else Failed)]
      else s.jobs
    case Release(w, ok) =>
      var id := PhaseOf(s, w).hold.id;
      if !ok || !HeldBy(s.jobs[id], w) then s.jobs
      else if s.jobs[id].kind.IndexJob? && HasPendingIndex(s, s.jobs[id].repo) then s.jobs[id := s.jobs[id].(status := Failed)]
      else s.jobs[id := s.jobs[id].(status := Pending)]
    case _ => s.jobs
  }

  ghost function ReposAfter(s: State, step: Step): map<RepoID, Repo>
    requires Enabled(s, step)
  {
    match step
    case Retract(w, ok) =>
      var p := PhaseOf(s, w);
      var h := p.hold;
      if ok && h.repo in s.repos && h.kind.CommitJob? && Decodable(h.kind) && p.seen.pending == Target(h.kind.batch)
      then s.repos[h.repo := s.repos[h.repo].(pending := "")]
      else s.repos
    case ClaimRepo(w, ok) =>
      var r := PhaseOf(s, w).hold.repo;
      if ok && !Live(s.repos[r].claim, s.now)
      then s.repos[r := s.repos[r].(claim := Held(w, s.now + REPO_CLAIM_TTL))]
      else s.repos
    case Publish(w) =>
      var h := PhaseOf(s, w).hold;
      s.repos[h.repo := s.repos[h.repo].(pending := Target(h.kind.batch))]
    case Advance(w, ok) =>
      var h := PhaseOf(s, w).hold;
      if ok then s.repos[h.repo := s.repos[h.repo].(cursor := Target(h.kind.batch))] else s.repos
    case ReleaseRepo(w, ok) =>
      var r := PhaseOf(s, w).hold.repo;
      if ok then s.repos[r := s.repos[r].(claim := Free, pending := "")] else s.repos
    case _ => s.repos
  }

  predicate Lands(step: Step) { step.Advance? && step.ok }

  ghost function LandingOf(s: State, step: Step): Landing
    requires Enabled(s, step) && Lands(step)
  {
    var p := PhaseOf(s, step.w);
    Landing(p.hold.repo, s.repos[p.hold.repo].cursor, p.hold.kind.batch, p.read, p.held)
  }

  // ---------------------------------------------------------------------------
  // Runs
  // ---------------------------------------------------------------------------

  /** An empty queue over any repositories, none of them being indexed. */
  ghost predicate Init(s: State)
  {
    && s.next == 0 && s.jobs == map[] && s.workers == map[] && s.history == []
    && forall r :: r in s.repos ==> s.repos[r].claim.Free?
  }

  ghost predicate Runs(s: State, steps: seq<Step>)
    decreases |steps|, 0
  {
    steps == [] || (Runs(s, Front(steps)) && Enabled(Run(s, Front(steps)), Last(steps)))
  }

  ghost function Run(s: State, steps: seq<Step>): State
    requires Runs(s, steps)
    decreases |steps|, 1
  {
    if steps == [] then s else Apply(Run(s, Front(steps)), Last(steps))
  }

  function Front(steps: seq<Step>): seq<Step>
    requires steps != []
  {
    steps[..|steps| - 1]
  }

  function Last(steps: seq<Step>): Step
    requires steps != []
  {
    steps[|steps| - 1]
  }

  // ---------------------------------------------------------------------------
  // What every step keeps
  // ---------------------------------------------------------------------------

  /** The queue's own consistency: ids are handed out in order, every worker holds a job that
      exists and has the repository and batch it was claimed with, and at most one index job per
      repository is pending. */
  ghost predicate Valid(s: State)
  {
    && JobsInOrder(s)
    && (forall w :: w in s.workers ==> HoldsItsJob(s, s.workers[w]))
    && OnePendingIndexJob(s)
  }

  ghost predicate JobsInOrder(s: State)
  {
    forall id :: id in s.jobs ==> id < s.next && s.jobs[id].repo in s.repos
  }

  ghost predicate OnePendingIndexJob(s: State)
  {
    forall i, j :: i in s.jobs && j in s.jobs && PendingIndex(s.jobs[i], s.jobs[j].repo) && PendingIndex(s.jobs[j], s.jobs[j].repo) ==> i == j
  }

  ghost predicate HoldsItsJob(s: State, p: Phase)
  {
    !p.Idle? ==>
      && p.hold.id in s.jobs
      && SameWork(p.hold, s.jobs[p.hold.id])
      && (p.Decided? || p.Broken? || p.Working? ==> Decodable(p.hold.kind))
      && (p.Broken? ==> p.hold.kind.CommitJob?)
      && (p.Working? && p.hold.kind.CommitJob? ==> Continues(p.hold.kind.batch, p.read))
  }

  /** The force flag of a queued index job may still be raised, a commit job's batch never changes. */
  predicate SameWork(h: Hold, j: Job)
  {
    && h.repo == j.repo
    && (h.kind.CommitJob? <==> j.kind.CommitJob?)
    && (h.kind.CommitJob? ==> h.kind == j.kind)
  }

  /** How one step may change one existing job. */
  ghost predicate Evolves(s: State, step: Step, id: JobID, j: Job, k: Job)
  {
    && k.repo == j.repo
    && (j.kind.CommitJob? <==> k.kind.CommitJob?)
    && (j.kind.CommitJob? ==> k.kind == j.kind)
    && (!Unfinished(j) ==> k == j)
    && (Unfinished(j) && !Unfinished(k) && j.kind.CommitJob? ==>
          && step.Complete? && step.ok && HeldBy(j, step.w)
          && PhaseOf(s, step.w).Finishing? && PhaseOf(s, step.w).hold.id == id
          && k.status == (if PhaseOf(s, step.w).result.Success? then Done else Failed))
  }

  /** The worker of the step holds the job, in the queue and in hand. */
  predicate ActsOn(s: State, w: WorkerID, id: JobID, j: Job) { HeldBy(j, w) && !PhaseOf(s, w).Idle? && PhaseOf(s, w).hold.id == id }

  /** How one step may change the status of an unfinished job: only a claim takes it out of the queue,
      only its holder's heartbeat renews the claim, and only its holder's release or a sweep that finds
      it stale puts it back. */
  ghost predicate Moves(s: State, step: Step, id: JobID, j: Job, k: Job)
  {
    && (j.status.Pending? ==> k.status == j.status || (step.ClaimJob? && step.id == id && k.status == Running(step.w, s.now)))
    && (j.status.Running? && k.status.Running? && k != j ==> step.Heartbeat? && ActsOn(s, step.w, id, j) && k.status == Running(step.w, s.now))
    && (j.status.Running? && k.status.Pending? ==>
          || (step.Release? && step.ok && ActsOn(s, step.w, id, j))
          || (step.RequeueStale? && Stale(j, s.now - step.olderThan)))
  }

  lemma StepEvolvesJob(s: State, step: Step, id: JobID)
    requires Valid(s) && Enabled(s, step) && id in s.jobs
    ensures id in JobsAfter(s, step) && Evolves(s, step, id, s.jobs[id], JobsAfter(s, step)[id])
    ensures Moves(s, step, id, s.jobs[id], JobsAfter(s, step)[id])
  {
    StepMovesJob(s, step, id);
  }

  lemma StepMovesJob(s: State, step: Step, id: JobID)
    requires Valid(s) && Enabled(s, step) && id in s.jobs
    ensures id in JobsAfter(s, step) && Moves(s, step, id, s.jobs[id], JobsAfter(s, step)[id])
  {
  }

  lemma StepAddsJobs(s: State, step: Step)
    requires Valid(s) && Enabled(s, step)
    ensures ReposAfter(s, step).Keys == s.repos.Keys
    ensures forall id :: id in JobsAfter(s, step) && id !in s.jobs ==>
              id == s.next && Inserts(s, step) && JobsAfter(s, step)[id].repo in s.repos
  {
    forall w | w in s.workers ensures HoldsItsJob(s, s.workers[w]) {}
  }

  lemma StepEvolvesJobs(s: State, step: Step)
    requires Valid(s) && Enabled(s, step)
    ensures JobsInOrder(Apply(s, step))
    ensures forall id :: id in s.jobs ==> id in Apply(s, step).jobs && Evolves(s, step, id, s.jobs[id], Apply(s, step).jobs[id])
    ensures forall id :: id in Apply(s, step).jobs && id !in s.jobs ==> id == s.next
    ensures Apply(s, step).next >= s.next && Apply(s, step).repos.Keys == s.repos.Keys
  {
    StepAddsJobs(s, step);
    forall id | id in s.jobs { StepEvolvesJob(s, step, id); }
  }

  lemma StepKeepsHolds(s: State, step: Step, w: WorkerID)
    requires Valid(s) && Enabled(s, step) && w in Apply(s, step).workers
    ensures HoldsItsJob(Apply(s, step), Apply(s, step).workers[w])
  {
    var t := Apply(s, step);
    StepEvolvesJobs(s, step);
    if Acts(step) && step.w == w {
      assert t.workers[w] == PhaseAfter(s, step);
      assert w in s.workers ==> HoldsItsJob(s, s.workers[w]);
    } else {
      assert t.workers[w] == s.workers[w] && HoldsItsJob(s, s.workers[w]);
    }
  }

  lemma StepKeepsOnePending(s: State, step: Step)
    requires Valid(s) && Enabled(s, step)
    ensures OnePendingIndexJob(Apply(s, step))
  {
  }

  lemma StepKeepsValid(s: State, step: Step)
    requires Valid(s) && Enabled(s, step)
    ensures Valid(Apply(s, step))
  {
    StepEvolvesJobs(s, step);
    forall w | w in Apply(s, step).workers { StepKeepsHolds(s, step, w); }
    StepKeepsOnePending(s, step);
  }

  // ---------------------------------------------------------------------------
  // No commit batch is dropped
  // ---------------------------------------------------------------------------

  lemma {:induction false} RunKeepsValid(s: State, steps: seq<Step>)
    requires Valid(s) && Runs(s, steps)
    ensures Valid(Run(s, steps))
    decreases |steps|
  {
    if steps == [] {
    } else {
      RunKeepsValid(s, Front(steps));
      StepKeepsValid(Run(s, Front(steps)), Last(steps));
    }
  }

  lemma {:induction false} PrefixRuns(s: State, steps: seq<Step>, n: nat)
    requires Runs(s, steps) && n <= |steps|
    ensures Runs(s, steps[..n])
    decreases |steps|
  {
    if n == |steps| {
      assert steps[..n] == steps;
    } else {
      PrefixRuns(s, Front(steps), n);
      assert Front(steps)[..n] == steps[..n];
    }
  }

  /** Through any interleaving a commit job stays in the queue under its repository and with its
      batch, and once it has a result that result never changes. */
  lemma {:induction false} CommitJobsSurvive(s: State, steps: seq<Step>, id: JobID)
    requires Valid(s) && Runs(s, steps)
    requires id in s.jobs && s.jobs[id].kind.CommitJob?
    ensures id in Run(s, steps).jobs
    ensures Run(s, steps).jobs[id].repo == s.jobs[id].repo
    ensures Run(s, steps).jobs[id].kind == s.jobs[id].kind
    ensures !Unfinished(s.jobs[id]) ==> Run(s, steps).jobs[id] == s.jobs[id]
    decreases |steps|
  {
    if steps == [] {
    } else {
      CommitJobsSurvive(s, Front(steps), id);
      RunKeepsValid(s, Front(steps));
      StepEvolvesJobs(Run(s, Front(steps)), Last(steps));
    }
  }

  /** Step `n` of the run gives job `id` the status it has at the end of the run: the job is still
      unfinished before it and finished after it, the step is the successful completion by the very
      worker the queue shows as the holder, and what is recorded is that worker's outcome. */
  ghost predicate ResultWrittenAt(s: State, steps: seq<Step>, id: JobID, n: nat)
    requires Runs(s, steps)
  {
    && n < |steps| && steps[n].Complete? && steps[n].ok
    && Runs(s, steps[..n]) && Runs(s, steps[..n + 1])
    && WritesResult(Run(s, steps[..n]), steps[n].w, id, Run(s, steps))
    && FinishedIn(Run(s, steps[..n + 1]), id)
  }

  ghost predicate FinishedIn(s: State, id: JobID) { id in s.jobs && !Unfinished(s.jobs[id]) }

  ghost predicate WritesResult(before: State, w: WorkerID, id: JobID, after: State)
  {
    && id in before.jobs && Unfinished(before.jobs[id]) && HeldBy(before.jobs[id], w)
    && PhaseOf(before, w).Finishing? && PhaseOf(before, w).hold.id == id
    && id in after.jobs && after.jobs[id].status == (if PhaseOf(before, w).result.Success? then Done else Failed)
  }

  /** A result is final. */
  lemma {:induction false} FinishedStays(s: State, steps: seq<Step>, id: JobID, m: nat, n: nat)
    requires Valid(s) && Runs(s, steps) && m <= n <= |steps| && Runs(s, steps[..m]) && Runs(s, steps[..n])
    requires FinishedIn(Run(s, steps[..m]), id)
    ensures FinishedIn(Run(s, steps[..n]), id)
    decreases n
  {
    if m < n {
      var upTo := steps[..n];
      assert Front(upTo) == steps[..n - 1];
      FinishedStays(s, steps, id, m, n - 1);
      RunKeepsValid(s, Front(upTo));
      StepEvolvesJob(Run(s, Front(upTo)), Last(upTo), id);
    }
  }

  lemma WrittenAtOneStep(s: State, steps: seq<Step>, id: JobID, m: nat, n: nat)
    requires Valid(s) && Runs(s, steps) && ResultWrittenAt(s, steps, id, m) && ResultWrittenAt(s, steps, id, n)
    ensures m == n
  {
    if m < n {
      FinishedStays(s, steps, id, m + 1, n);
    } else if n < m {
      FinishedStays(s, steps, id, n + 1, m);
    }
  }

  lemma {:induction false} ResultIsWritten(s: State, steps: seq<Step>, id: JobID) returns (n: nat)
    requires Valid(s) && Runs(s, steps)
    requires id in s.jobs && s.jobs[id].kind.CommitJob? && Unfinished(s.jobs[id]) && FinishedIn(Run(s, steps), id)
    ensures ResultWrittenAt(s, steps, id, n)
    decreases |steps|
  {
    var before := Front(steps);
    CommitJobsSurvive(s, before, id);
    if Unfinished(Run(s, before).jobs[id]) {
      n := |steps| - 1;
      LastStepWrites(s, steps, id);
    } else {
      n := ResultIsWritten(s, before, id);
      StillWritten(s, steps, id, n);
    }
  }

  lemma StillWritten(s: State, steps: seq<Step>, id: JobID, n: nat)
    requires Valid(s) && Runs(s, steps) && steps != []
    requires ResultWrittenAt(s, Front(steps), id, n)
    ensures ResultWrittenAt(s, steps, id, n)
  {
    var before := Front(steps);
    assert before[..n] == steps[..n] && before[..n + 1] == steps[..n + 1];
    RunKeepsValid(s, before);
    StepEvolvesJob(Run(s, before), Last(steps), id);
  }

  lemma LastStepWrites(s: State, steps: seq<Step>, id: JobID)
    requires Valid(s) && Runs(s, steps) && steps != [] && id in Run(s, Front(steps)).jobs
    requires Run(s, Front(steps)).jobs[id].kind.CommitJob? && Unfinished(Run(s, Front(steps)).jobs[id]) && FinishedIn(Run(s, steps), id)
    ensures ResultWrittenAt(s, steps, id, |steps| - 1)
  {
    var n := |steps| - 1;
    assert steps[..n] == Front(steps) && steps[..n + 1] == steps;
    RunKeepsValid(s, Front(steps));
    StepEvolvesJob(Run(s, Front(steps)), Last(steps), id);
  }

  /** The terminal result of a commit job is written by exactly one step. */
  lemma CommitResultWrittenOnce(s: State, steps: seq<Step>, id: JobID) returns (n: nat)
    requires Valid(s) && Runs(s, steps)
    requires id in s.jobs && s.jobs[id].kind.CommitJob? && Unfinished(s.jobs[id]) && FinishedIn(Run(s, steps), id)
    ensures ResultWrittenAt(s, steps, id, n) && forall m: nat :: ResultWrittenAt(s, steps, id, m) ==> m == n
  {
    n := ResultIsWritten(s, steps, id);
    forall m: nat | ResultWrittenAt(s, steps, id, m) ensures m == n {
      WrittenAtOneStep(s, steps, id, m, n);
    }
  }

  // ---------------------------------------------------------------------------
  // No commit batch is blocked by ordering
  // ---------------------------------------------------------------------------

  /** The oldest unfinished commit job of a repository stays the oldest until it finishes: ids only
      grow and results are final. */
  lemma {:induction false} OldestStaysOldest(s: State, steps: seq<Step>, id: JobID)
    requires Valid(s) && Runs(s, steps) && OldestUnfinished(s, id)
    ensures id in Run(s, steps).jobs
    ensures OldestUnfinished(Run(s, steps), id) || !Unfinished(Run(s, steps).jobs[id])
    decreases |steps|
  {
    if steps == [] {
    } else {
      OldestStaysOldest(s, Front(steps), id);
      RunKeepsValid(s, Front(steps));
      CommitJobsSurvive(s, Front(steps), id);
      StepEvolvesJobs(Run(s, Front(steps)), Last(steps));
    }
  }

  /** From the moment a commit job is its repository's oldest unfinished one, no ordering check of
      an unfinished hold on it answers "wait for the preceding batch": whenever a worker gets as far
      as that check, the verdict is a reported gap, not a release. */
  lemma OldestIsNeverBlocked(s: State, steps: seq<Step>, id: JobID, w: WorkerID)
    requires Valid(s) && Runs(s, steps) && OldestUnfinished(s, id)
    requires Enabled(Run(s, steps), CheckEarlier(w, true))
    requires PhaseOf(Run(s, steps), w).hold.id == id
    requires id in Run(s, steps).jobs && Unfinished(Run(s, steps).jobs[id])
    ensures PhaseOf(Apply(Run(s, steps), CheckEarlier(w, true)), w).Broken?
  {
    OldestStaysOldest(s, steps, id);
    RunKeepsValid(s, steps);
  }

  /** Conversely a worker is sent to wait only while a predecessor is really unfinished. */
  lemma WaitingHasPredecessor(s: State, w: WorkerID, ok: bool)
    requires Valid(s) && Enabled(s, CheckEarlier(w, ok))
    ensures PhaseOf(Apply(s, CheckEarlier(w, ok)), w) == Releasing(PhaseOf(s, w).hold, WaitsForPredecessor)
       <==> ok && EarlierUnfinishedCommit(s, PhaseOf(s, w).hold.repo, PhaseOf(s, w).hold.id)
  {
  }

  // ---------------------------------------------------------------------------
  // The cursor history is a parent chain
  // ---------------------------------------------------------------------------

  predicate InPass(p: Phase) { p.Working? || p.Landed? }

  /** A worker inside a pass still holds its repository's claim, live and under its own name, and
      nobody moved the cursor since that claim. */
  ghost predicate Exclusive(s: State)
  {
    forall w :: w in s.workers ==> HoldsItsRepo(s, w, s.workers[w])
  }

  ghost predicate HoldsItsRepo(s: State, w: WorkerID, p: Phase)
  {
    InPass(p) ==>
      && p.hold.repo in s.repos
      && s.repos[p.hold.repo].claim.Held? && s.repos[p.hold.repo].claim.owner == w
      && s.now < s.repos[p.hold.repo].claim.expires
      && (p.Working? ==> s.repos[p.hold.repo].cursor == p.held)
  }

  /** No claim outlives its TTL: time does not pass the expiry of a claim whose pass still runs. */
  ghost predicate Timely(s: State, step: Step)
  {
    step.Tick? ==>
      forall w :: w in s.workers && InPass(s.workers[w]) && s.workers[w].hold.repo in s.repos && s.repos[s.workers[w].hold.repo].claim.Held?
        ==> s.now + step.seconds < s.repos[s.workers[w].hold.repo].claim.expires
  }

  ghost predicate TimelyRun(s: State, steps: seq<Step>)
    requires Runs(s, steps)
    decreases |steps|
  {
    steps == [] || (TimelyRun(s, Front(steps)) && Timely(Run(s, Front(steps)), Last(steps)))
  }

  lemma StepKeepsExclusive(s: State, step: Step)
    requires Valid(s) && Exclusive(s) && Enabled(s, step) && Timely(s, step)
    ensures Exclusive(Apply(s, step))
  {
    var t := Apply(s, step);
    forall w | w in t.workers ensures HoldsItsRepo(t, w, t.workers[w]) {
      WorkerStaysExclusive(s, step, w);
    }
  }

  lemma WorkerStaysExclusive(s: State, step: Step, w: WorkerID)
    requires Valid(s) && Exclusive(s) && Enabled(s, step) && Timely(s, step)
    requires w in Apply(s, step).workers
    ensures HoldsItsRepo(Apply(s, step), w, Apply(s, step).workers[w])
  {
    if InPass(Apply(s, step).workers[w]) {
      if Acts(step) && step.w == w {
        ActorStaysExclusive(s, step);
      } else {
        OtherStaysExclusive(s, step, w);
      }
    }
  }

  lemma ActorStaysExclusive(s: State, step: Step)
    requires Valid(s) && Exclusive(s) && Enabled(s, step) && Acts(step)
    requires step.w in Apply(s, step).workers && InPass(Apply(s, step).workers[step.w])
    ensures HoldsItsRepo(Apply(s, step), step.w, Apply(s, step).workers[step.w])
  {
    assert step.w in s.workers && HoldsItsRepo(s, step.w, s.workers[step.w]) && HoldsItsJob(s, s.workers[step.w]);
  }

  lemma OtherStaysExclusive(s: State, step: Step, w: WorkerID)
    requires Valid(s) && Exclusive(s) && Enabled(s, step) && Timely(s, step) && !(Acts(step) && step.w == w)
    requires w in Apply(s, step).workers && InPass(Apply(s, step).workers[w])
    ensures HoldsItsRepo(Apply(s, step), w, Apply(s, step).workers[w])
  {
    assert w in s.workers && HoldsItsRepo(s, w, s.workers[w]) && HoldsItsJob(s, s.workers[w]);
    if Acts(step) && step.w in s.workers {
      assert HoldsItsRepo(s, step.w, s.workers[step.w]);
    }
  }

  /** Two workers are never inside passes over the same repository. */
  lemma PassesNeverOverlap(init: State, steps: seq<Step>, v: WorkerID, w: WorkerID)
    requires Init(init) && Runs(init, steps) && TimelyRun(init, steps)
    requires v != w && InPass(PhaseOf(Run(init, steps), v)) && InPass(PhaseOf(Run(init, steps), w))
    ensures PhaseOf(Run(init, steps), v).hold.repo != PhaseOf(Run(init, steps), w).hold.repo
  {
    RunKeepsHistory(init, steps);
    var s := Run(init, steps);
    assert HoldsItsRepo(s, v, s.workers[v]) && HoldsItsRepo(s, w, s.workers[w]);
  }

  /** The cursor of `r` after the landings `h`, starting from `start`. */
  function CursorAfter(h: seq<Landing>, r: RepoID, start: SHA): SHA
  {
    if h == [] then start
    else
      var last := h[|h| - 1];
      if last.repo == r && last.batch != [] then Target(last.batch) else CursorAfter(h[..|h| - 1], r, start)
  }

  /** Landing `i` replaced the target of the previous landing on its repository, was made under the
      claim that saw exactly that cursor, and was decided on a cursor its batch continues. */
  ghost predicate Recorded(init: State, h: seq<Landing>, i: nat)
    requires i < |h|
  {
    && h[i].repo in init.repos
    && h[i].batch != []
    && h[i].prev == CursorAfter(h[..i], h[i].repo, init.repos[h[i].repo].cursor)
    && h[i].prev == h[i].held
    && Continues(h[i].batch, h[i].read)
  }

  ghost predicate HistoryKept(init: State, s: State)
  {
    && s.repos.Keys == init.repos.Keys
    && (forall r :: r in s.repos ==> s.repos[r].cursor == CursorAfter(s.history, r, init.repos[r].cursor))
    && (forall i :: 0 <= i < |s.history| ==> Recorded(init, s.history, i))
  }

  lemma CursorsStay(s: State, step: Step)
    requires Valid(s) && Enabled(s, step) && !Lands(step)
    ensures Apply(s, step).repos.Keys == s.repos.Keys
    ensures forall r :: r in s.repos ==> Apply(s, step).repos[r].cursor == s.repos[r].cursor
  {
  }

  /** A landing is made under the claim that saw the cursor it replaces. */
  lemma LandingIsRecorded(init: State, s: State, step: Step)
    requires Valid(s) && Exclusive(s) && HistoryKept(init, s) && Enabled(s, step) && Lands(step)
    ensures Apply(s, step).history == s.history + [LandingOf(s, step)]
    ensures Recorded(init, s.history + [LandingOf(s, step)], |s.history|)
    ensures var l := LandingOf(s, step);
            l.repo in s.repos && Apply(s, step).repos == s.repos[l.repo := s.repos[l.repo].(cursor := Target(l.batch))]
  {
    assert step.w in s.workers && HoldsItsJob(s, s.workers[step.w]) && HoldsItsRepo(s, step.w, s.workers[step.w]);
    assert (s.history + [LandingOf(s, step)])[..|s.history|] == s.history;
  }

  lemma StepKeepsHistory(init: State, s: State, step: Step)
    requires Valid(s) && Exclusive(s) && HistoryKept(init, s) && Enabled(s, step)
    ensures HistoryKept(init, Apply(s, step))
  {
    if Lands(step) {
      var l := LandingOf(s, step);
      LandingIsRecorded(init, s, step);
      CursorsFollow(s.history, l);
      OldStayRecorded(init, s.history, l);
    } else {
      CursorsStay(s, step);
    }
  }

  lemma CursorsFollow(h: seq<Landing>, last: Landing)
    ensures forall r: RepoID, start: SHA ::
              CursorAfter(h + [last], r, start) == if last.repo == r && last.batch != [] then Target(last.batch) else CursorAfter(h, r, start)
  {
    assert (h + [last])[..|h|] == h;
  }

  lemma OldStayRecorded(init: State, h: seq<Landing>, last: Landing)
    requires forall i :: 0 <= i < |h| ==> Recorded(init, h, i)
    ensures forall i :: 0 <= i < |h| ==> Recorded(init, h + [last], i)
  {
    forall i | 0 <= i < |h| ensures Recorded(init, h + [last], i) {
      assert Recorded(init, h, i);
      assert (h + [last])[..i] == h[..i];
    }
  }

  lemma {:induction false} RunKeepsHistory(init: State, steps: seq<Step>)
    requires Init(init) && Runs(init, steps) && TimelyRun(init, steps)
    ensures Valid(Run(init, steps)) && Exclusive(Run(init, steps)) && HistoryKept(init, Run(init, steps))
    decreases |steps|
  {
    if steps == [] {
    } else {
      var s := Run(init, Front(steps));
      RunKeepsHistory(init, Front(steps));
      StepKeepsValid(s, Last(steps));
      StepKeepsExclusive(s, Last(steps));
      StepKeepsHistory(init, s, Last(steps));
    }
  }

  /** Landing `i` replaced the target of the previous landing on its repository (or the cursor the
      repository started with) and, unless that was empty, its first commit is a child of it. */
  ghost predicate Chained(init: State, h: seq<Landing>, i: nat)
    requires i < |h|
  {
    && h[i].repo in init.repos
    && h[i].batch != []
    && h[i].prev == CursorAfter(h[..i], h[i].repo, init.repos[h[i].repo].cursor)
    && (h[i].prev != "" ==> HasParent(h[i].batch[0].parents, h[i].prev))
  }

  /** In every timely run a landing extends the parent chain exactly when its batch continues the
      cursor found at the repository claim; that is so whenever nothing landed between the worker's
      cursor read and its claim.  The stored cursor is always the target of the last landing. */
  lemma CursorHistoryIsParentChain(init: State, steps: seq<Step>)
    requires Init(init) && Runs(init, steps) && TimelyRun(init, steps)
    ensures var h := Run(init, steps).history;
            forall i :: 0 <= i < |h| ==>
              && h[i].batch != []
              && (Chained(init, h, i) <==> Continues(h[i].batch, h[i].held))
              && (h[i].read == h[i].held ==> Chained(init, h, i))
    ensures forall r :: r in init.repos ==>
              r in Run(init, steps).repos && Run(init, steps).repos[r].cursor == CursorAfter(Run(init, steps).history, r, init.repos[r].cursor)
  {
    RunKeepsHistory(init, steps);
    var h := Run(init, steps).history;
    forall i | 0 <= i < |h|
      ensures h[i].batch != []
      ensures Chained(init, h, i) <==> Continues(h[i].batch, h[i].held)
      ensures h[i].read == h[i].held ==> Chained(init, h, i)
    {
      assert Recorded(init, h, i);
    }
  }
}
