/** What becomes of a pushed batch: no commit job is recorded as done unless its own batch went through a
    pass or the cursor was found inside it. */
module BatchFate {
  import opened JobQueue

  // ---------------------------------------------------------------------------
  // The ordering decision, on the cursor the worker read
  // ---------------------------------------------------------------------------

  /** What a worker that has read the row does next is decided by the cursor alone: a batch that starts
      the history or continues the cursor claims the repository, one the cursor lies in is retracted, and
      any other has to look for its predecessor. */
  lemma CursorDecides(s: State, step: Step)
    requires Enabled(s, step) && Acts(step) && !step.Crash?
    requires PhaseOf(s, step.w).Decided? && PhaseOf(s, step.w).hold.kind.CommitJob?
    ensures var p := PhaseOf(s, step.w);
            var batch, cursor := p.hold.kind.batch, p.seen.cursor;
            && batch != []
            && (step.ClaimRepo? <==> cursor == "" || cursor in batch[0].parents)
            && (step.Retract? <==> cursor != "" && cursor !in batch[0].parents && exists i :: 0 <= i < |batch| && batch[i].sha == cursor)
            && (step.CheckEarlier? <==> cursor != "" && cursor !in batch[0].parents && forall i :: 0 <= i < |batch| ==> batch[i].sha != cursor)
  {
  }

  /** A batch that has to wait is released while an older batch of its repository is queued or running, and
      otherwise found to leave a gap; one whose predecessors could not be counted is released. */
  lemma PredecessorDecides(s: State, w: WorkerID, ok: bool)
    requires Valid(s) && Enabled(s, CheckEarlier(w, ok))
    ensures var hold := PhaseOf(s, w).hold;
            var older := exists i :: i in s.jobs && i < hold.id && s.jobs[i].repo == hold.repo && s.jobs[i].kind.CommitJob?
                                     && (s.jobs[i].status.Pending? || s.jobs[i].status.Running?);
            PhaseOf(Apply(s, CheckEarlier(w, ok)), w) ==
              if !ok then Releasing(hold, PredecessorUnknown)
              else if older then Releasing(hold, WaitsForPredecessor)
              else Broken(hold, PhaseOf(s, w).seen)
  {
  }

  /** Asking again for a pass that is still queued adds no job and never takes a force back. */
  lemma QueuedPassIsKept(s: State, repo: RepoID, force: bool, id: JobID)
    requires Valid(s) && Enabled(s, EnqueueIndex(repo, force))
    requires id in s.jobs && s.jobs[id].repo == repo && s.jobs[id].kind.IndexJob? && s.jobs[id].status.Pending?
    ensures Apply(s, EnqueueIndex(repo, force)).jobs == s.jobs[id := Job(repo, IndexJob(s.jobs[id].kind.force || force), Pending)]
  {
    assert PendingIndex(s.jobs[id], repo);
  }

  /** A released commit job is in the queue again, its batch as it was; a gap ends as a failure. */
  lemma ReleasedIsQueued(s: State, w: WorkerID)
    requires Valid(s) && Enabled(s, Release(w, true)) && PhaseOf(s, w).hold.kind.CommitJob?
    requires s.jobs[PhaseOf(s, w).hold.id].status.Running? && s.jobs[PhaseOf(s, w).hold.id].status.owner == w
    ensures var hold := PhaseOf(s, w).hold;
            Apply(s, Release(w, true)).jobs == s.jobs[hold.id := Job(hold.repo, hold.kind, Pending)]
  {
    assert HoldsItsJob(s, s.workers[w]);
  }

  /** A commit job that a dead worker holds is in the queue again after a sweep. */
  lemma StaleIsQueued(s: State, olderThan: nat, id: JobID)
    requires id in s.jobs && s.jobs[id].kind.CommitJob? && s.jobs[id].status.Running? && s.jobs[id].status.heartbeat < s.now - olderThan
    ensures Apply(s, RequeueStale(olderThan)).jobs[id] == Job(s.jobs[id].repo, s.jobs[id].kind, Pending)
  {
  }

  /** Jobs are claimed in the order they were queued: none while an older one is pending. */
  lemma ClaimTakesOldest(s: State, w: WorkerID, id: JobID)
    requires Valid(s) && Enabled(s, ClaimJob(w, id))
    ensures id in s.jobs && s.jobs[id].status == Pending
    ensures forall i :: i in s.jobs && i < id ==> s.jobs[i].status != Pending
    ensures Apply(s, ClaimJob(w, id)).jobs == s.jobs[id := Job(s.jobs[id].repo, s.jobs[id].kind, Running(w, s.now))]
    ensures PhaseOf(Apply(s, ClaimJob(w, id)), w) == Claimed(Hold(id, s.jobs[id].repo, s.jobs[id].kind))
  {
  }

  /** What a commit job's worker will report: success once its pass is through, even if the cursor could not be
      written, or if the cursor lay in its batch; failure if the pass failed, the batch could not be read, the
      repository could not be read or claimed, or there is a gap. */
  lemma OutcomeIs(s: State, step: Step)
    requires Valid(s) && Enabled(s, step) && Acts(step) && PhaseOf(s, step.w).Idle? == step.ClaimJob?
    requires !step.ClaimJob? ==> PhaseOf(s, step.w).hold.kind.CommitJob?
    ensures var p, q := PhaseOf(s, step.w), PhaseOf(Apply(s, step), step.w);
            && (step.Advance? ==> q == Landed(p.hold, Success))
            && (step.FinishPass? ==> q == Landed(p.hold, Failure))
            && (step.Retract? ==> q == Finishing(p.hold, if p.Decided? then Success else Failure))
            && (step.RejectPayload? || (step.ReadRepo? && !step.ok) || (step.ClaimRepo? && !step.ok) ==> q == Finishing(p.hold, Failure))
            && (step.ReleaseRepo? ==> q == Finishing(p.hold, p.result))
            && (step.Complete? || step.Release? || step.Crash? ==> q == Idle)
  {
    assert !step.ClaimJob? ==> step.w in s.workers;
  }

  /** What a step of a commit job's worker writes to the repository row. */
  lemma RowFollowsBatch(s: State, step: Step)
    requires Valid(s) && Enabled(s, step) && (Acts(step) || step.Publish?)
    requires PhaseOf(s, step.w).Decided? || PhaseOf(s, step.w).Working? || PhaseOf(s, step.w).Landed?
    requires PhaseOf(s, step.w).hold.kind.CommitJob? && PhaseOf(s, step.w).hold.kind.batch != []
    ensures var p := PhaseOf(s, step.w);
            var r, last := p.hold.repo, p.hold.kind.batch[|p.hold.kind.batch| - 1].sha;
            && r in s.repos && r in Apply(s, step).repos
            && var row, after := s.repos[r], Apply(s, step).repos[r];
            && (step.Publish? ==> after == row.(pending := last))
            && (step.Advance? && step.ok ==> after == row.(cursor := last))
            && (step.ReleaseRepo? && step.ok ==> after == row.(pending := "", claim := Free))
            && (step.Retract? && step.ok ==> after == if p.seen.pending == last then row.(pending := "") else row)
            && (step.ClaimRepo? && step.ok ==>
                  after == if row.claim.Held? && s.now < row.claim.expires then row else row.(claim := Held(step.w, s.now + 3600)))
  {
    assert step.w in s.workers && HoldsItsJob(s, s.workers[step.w]);
  }

  // ---------------------------------------------------------------------------
  // Over runs
  // ---------------------------------------------------------------------------

  /** Step m of the run: the worker reads the repository row `seen`. */
  ghost predicate ReadAt(s: State, steps: seq<Step>, w: WorkerID, hold: Hold, seen: Repo, m: nat)
    requires Runs(s, steps)
  {
    && m < |steps| && steps[m] == ReadRepo(w, true) && Runs(s, steps[..m])
    && var before := Run(s, steps[..m]);
       PhaseOf(before, w) == Claimed(hold) && hold.repo in before.repos && before.repos[hold.repo] == seen
  }

  /** Step n of the run: the pass over the batch has ended and its worker writes the cursor; the cursor it
      went by was empty or a parent of the first commit. */
  ghost predicate AppliedAt(s: State, steps: seq<Step>, id: JobID, batch: seq<Commit>, n: nat)
    requires Runs(s, steps)
  {
    && n < |steps| && steps[n].Advance? && Runs(s, steps[..n]) && batch != []
    && var p := PhaseOf(Run(s, steps[..n]), steps[n].w);
       p.Working? && p.hold.id == id && p.hold.kind == CommitJob(batch) && (p.read == "" || p.read in batch[0].parents)
  }

  /** Step n of the run: the job is given up because the cursor its worker read is one of its commits. */
  ghost predicate CoveredAt(s: State, steps: seq<Step>, id: JobID, batch: seq<Commit>, n: nat)
    requires Runs(s, steps)
  {
    && n < |steps| && steps[n].Retract? && Runs(s, steps[..n]) && batch != []
    && var p := PhaseOf(Run(s, steps[..n]), steps[n].w);
       && p.Decided? && p.hold.id == id && p.hold.kind == CommitJob(batch)
       && p.seen.cursor !in batch[0].parents && (exists i :: 0 <= i < |batch| && batch[i].sha == p.seen.cursor)
       && exists m: nat :: m < n && ReadAt(s, steps, steps[n].w, p.hold, p.seen, m)
  }

  ghost predicate Settled(s: State, steps: seq<Step>, id: JobID, batch: seq<Commit>)
    requires Runs(s, steps)
  {
    exists n: nat :: AppliedAt(s, steps, id, batch, n) || CoveredAt(s, steps, id, batch, n)
  }

  /** What stands behind a worker's phase. */
  ghost predicate Accounted(s: State, steps: seq<Step>, w: WorkerID, p: Phase)
    requires Runs(s, steps)
  {
    && (p.Decided? ==> exists m: nat :: ReadAt(s, steps, w, p.hold, p.seen, m))
    && ((p.Landed? || p.Finishing?) && p.result.Success? && p.hold.kind.CommitJob? ==> Settled(s, steps, p.hold.id, p.hold.kind.batch))
  }

  ghost predicate AllAccounted(s: State, steps: seq<Step>)
    requires Runs(s, steps)
  {
    && (forall w :: w in Run(s, steps).workers ==> Accounted(s, steps, w, Run(s, steps).workers[w]))
    && (forall id :: id in Run(s, steps).jobs && Run(s, steps).jobs[id].kind.CommitJob? && Run(s, steps).jobs[id].status.Done?
          ==> Settled(s, steps, id, Run(s, steps).jobs[id].kind.batch))
  }

  lemma StillRead(s: State, steps: seq<Step>, w: WorkerID, hold: Hold, seen: Repo, m: nat)
    requires steps != [] && Runs(s, steps) && ReadAt(s, Front(steps), w, hold, seen, m)
    ensures ReadAt(s, steps, w, hold, seen, m)
  {
    assert Front(steps)[..m] == steps[..m];
  }

  lemma StillCovered(s: State, steps: seq<Step>, id: JobID, batch: seq<Commit>, n: nat)
    requires steps != [] && Runs(s, steps) && CoveredAt(s, Front(steps), id, batch, n)
    ensures CoveredAt(s, steps, id, batch, n)
  {
    var front := Front(steps);
    assert front[..n] == steps[..n] && front[n] == steps[n];
    var p := PhaseOf(Run(s, front[..n]), front[n].w);
    var m: nat :| m < n && ReadAt(s, front, front[n].w, p.hold, p.seen, m);
    StillRead(s, steps, front[n].w, p.hold, p.seen, m);
  }

  lemma StillSettled(s: State, steps: seq<Step>, id: JobID, batch: seq<Commit>)
    requires steps != [] && Runs(s, steps) && Settled(s, Front(steps), id, batch)
    ensures Settled(s, steps, id, batch)
  {
    var front := Front(steps);
    var n: nat :| AppliedAt(s, front, id, batch, n) || CoveredAt(s, front, id, batch, n);
    if AppliedAt(s, front, id, batch, n) {
      assert front[..n] == steps[..n] && front[n] == steps[n];
      assert AppliedAt(s, steps, id, batch, n);
    } else {
      StillCovered(s, steps, id, batch, n);
    }
  }

  lemma StillAccounted(s: State, steps: seq<Step>, w: WorkerID, p: Phase)
    requires steps != [] && Runs(s, steps) && Accounted(s, Front(steps), w, p)
    ensures Accounted(s, steps, w, p)
  {
    if p.Decided? {
      var m: nat :| ReadAt(s, Front(steps), w, p.hold, p.seen, m);
      StillRead(s, steps, w, p.hold, p.seen, m);
    }
    if (p.Landed? || p.Finishing?) && p.result.Success? && p.hold.kind.CommitJob? {
      StillSettled(s, steps, p.hold.id, p.hold.kind.batch);
    }
  }

  lemma ReadIsAccounted(s: State, steps: seq<Step>)
    requires steps != [] && Runs(s, steps) && Last(steps).ReadRepo?
    ensures Accounted(s, steps, Last(steps).w, PhaseAfter(Run(s, Front(steps)), Last(steps)))
  {
    var q, n := PhaseAfter(Run(s, Front(steps)), Last(steps)), |steps| - 1;
    assert steps[..n] == Front(steps) && steps[n] == Last(steps);
    if Last(steps).ok {
      assert ReadAt(s, steps, Last(steps).w, q.hold, q.seen, n);
    }
  }

  lemma AdvanceIsAccounted(s: State, steps: seq<Step>)
    requires steps != [] && Runs(s, steps) && Last(steps).Advance? && Valid(Run(s, Front(steps)))
    ensures Accounted(s, steps, Last(steps).w, PhaseAfter(Run(s, Front(steps)), Last(steps)))
  {
    var p, n := PhaseOf(Run(s, Front(steps)), Last(steps).w), |steps| - 1;
    assert steps[..n] == Front(steps) && steps[n] == Last(steps);
    assert HoldsItsJob(Run(s, Front(steps)), p);
    assert AppliedAt(s, steps, p.hold.id, p.hold.kind.batch, n);
  }

  lemma RetractIsAccounted(s: State, steps: seq<Step>)
    requires steps != [] && Runs(s, steps) && Last(steps).Retract? && AllAccounted(s, Front(steps))
    ensures Accounted(s, steps, Last(steps).w, PhaseAfter(Run(s, Front(steps)), Last(steps)))
  {
    var p := PhaseOf(Run(s, Front(steps)), Last(steps).w);
    if p.Decided? && p.hold.kind.CommitJob? {
      RetractIsCovered(s, steps, p);
    }
  }

  /** Every other step of a worker takes an account along or needs none. */
  lemma OtherIsAccounted(s: State, steps: seq<Step>)
    requires steps != [] && Runs(s, steps) && Acts(Last(steps)) && AllAccounted(s, Front(steps))
    requires !Last(steps).ReadRepo? && !Last(steps).Advance? && !Last(steps).Retract?
    ensures Accounted(s, steps, Last(steps).w, PhaseAfter(Run(s, Front(steps)), Last(steps)))
  {
    var before, w := Run(s, Front(steps)), Last(steps).w;
    if w in before.workers {
      StillAccounted(s, steps, w, before.workers[w]);
    }
  }

  /** The worker of the last step. */
  lemma ActorIsAccounted(s: State, steps: seq<Step>)
    requires steps != [] && Runs(s, steps) && Valid(Run(s, Front(steps))) && AllAccounted(s, Front(steps)) && Acts(Last(steps))
    ensures Accounted(s, steps, Last(steps).w, PhaseAfter(Run(s, Front(steps)), Last(steps)))
  {
    if Last(steps).ReadRepo? {
      ReadIsAccounted(s, steps);
    } else if Last(steps).Advance? {
      AdvanceIsAccounted(s, steps);
    } else if Last(steps).Retract? {
      RetractIsAccounted(s, steps);
    } else {
      OtherIsAccounted(s, steps);
    }
  }

  lemma RetractIsCovered(s: State, steps: seq<Step>, p: Phase)
    requires steps != [] && Runs(s, steps) && Last(steps).Retract? && p == PhaseOf(Run(s, Front(steps)), Last(steps).w)
    requires p.Decided? && p.hold.kind.CommitJob? && Accounted(s, Front(steps), Last(steps).w, p)
    ensures CoveredAt(s, steps, p.hold.id, p.hold.kind.batch, |steps| - 1)
  {
    var n := |steps| - 1;
    assert steps[..n] == Front(steps) && steps[n] == Last(steps);
    CursorDecides(Run(s, Front(steps)), Last(steps));
    var m: nat :| ReadAt(s, Front(steps), Last(steps).w, p.hold, p.seen, m);
    StillRead(s, steps, Last(steps).w, p.hold, p.seen, m);
  }

  lemma WorkersAccounted(s: State, steps: seq<Step>)
    requires steps != [] && Runs(s, steps) && Valid(Run(s, Front(steps))) && AllAccounted(s, Front(steps))
    ensures forall w :: w in Run(s, steps).workers ==> Accounted(s, steps, w, Run(s, steps).workers[w])
  {
    forall w | w in Run(s, steps).workers ensures Accounted(s, steps, w, Run(s, steps).workers[w]) {
      if Acts(Last(steps)) && Last(steps).w == w {
        ActorIsAccounted(s, steps);
      } else {
        StillAccounted(s, steps, w, Run(s, Front(steps)).workers[w]);
      }
    }
  }

  lemma JobIsAccounted(s: State, steps: seq<Step>, id: JobID)
    requires steps != [] && Runs(s, steps) && Valid(Run(s, Front(steps))) && AllAccounted(s, Front(steps))
    requires id in Run(s, steps).jobs && Run(s, steps).jobs[id].kind.CommitJob? && Run(s, steps).jobs[id].status.Done?
    ensures Settled(s, steps, id, Run(s, steps).jobs[id].kind.batch)
  {
    var before, step := Run(s, Front(steps)), Last(steps);
    StepAddsJobs(before, step);
    if id in before.jobs {
      StepEvolvesJob(before, step, id);
      if before.jobs[id].status.Done? {
        StillSettled(s, steps, id, before.jobs[id].kind.batch);
      } else {
        var p := PhaseOf(before, step.w);
        assert step.w in before.workers && HoldsItsJob(before, p);
        StillAccounted(s, steps, step.w, p);
      }
    }
  }

  lemma {:induction false} RunIsAccounted(init: State, steps: seq<Step>)
    requires Init(init) && Runs(init, steps)
    ensures AllAccounted(init, steps)
    decreases |steps|
  {
    if steps != [] {
      RunIsAccounted(init, Front(steps));
      RunKeepsValid(init, Front(steps));
      WorkersAccounted(init, steps);
      forall id | id in Run(init, steps).jobs && Run(init, steps).jobs[id].kind.CommitJob? && Run(init, steps).jobs[id].status.Done?
        ensures Settled(init, steps, id, Run(init, steps).jobs[id].kind.batch)
      {
        JobIsAccounted(init, steps, id);
      }
    }
  }

  /** No batch is dropped: in every run a commit job that is done had its own batch applied, continuing the
      cursor its worker read, or the cursor its worker read was already one of its commits. */
  lemma DoneIsAppliedOrCovered(init: State, steps: seq<Step>, id: JobID)
    requires Init(init) && Runs(init, steps)
    requires id in Run(init, steps).jobs && Run(init, steps).jobs[id].kind.CommitJob? && Run(init, steps).jobs[id].status.Done?
    ensures Settled(init, steps, id, Run(init, steps).jobs[id].kind.batch)
  {
    RunIsAccounted(init, steps);
  }

  /** The write that ends a pass leaves the cursor at the batch's last commit, unless it fails, and is
      recorded as a landing of that batch. */
  lemma AppliedMovesCursor(s: State, steps: seq<Step>, id: JobID, batch: seq<Commit>, n: nat)
    requires Valid(s) && Runs(s, steps) && AppliedAt(s, steps, id, batch, n)
    ensures Runs(s, steps[..n + 1])
    ensures var before, after := Run(s, steps[..n]), Run(s, steps[..n + 1]);
            var repo := PhaseOf(before, steps[n].w).hold.repo;
            && repo in before.repos
            && after.repos == (if steps[n].ok then before.repos[repo := before.repos[repo].(cursor := batch[|batch| - 1].sha)] else before.repos)
            && |after.history| == |before.history| + (if steps[n].ok then 1 else 0)
            && (steps[n].ok ==> after.history[|before.history|].repo == repo && after.history[|before.history|].batch == batch
                                && after.history[|before.history|].prev == before.repos[repo].cursor)
  {
    RunOfPrefix(s, steps, n + 1);
    assert Front(steps[..n + 1]) == steps[..n] && Last(steps[..n + 1]) == steps[n];
  }

  lemma {:induction false} RunOfPrefix(s: State, steps: seq<Step>, n: nat)
    requires Runs(s, steps) && n <= |steps|
    ensures Runs(s, steps[..n])
    decreases |steps|
  {
    if n < |steps| {
      RunOfPrefix(s, Front(steps), n);
      assert Front(steps)[..n] == steps[..n];
    } else {
      assert steps[..n] == steps;
    }
  }
}
