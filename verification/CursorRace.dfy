/** A run in which two workers read the cursor before either claims the repository: why the parent
    chain of cursors needs its hypothesis. */
module CursorRace {
  import opened JobQueue

  const C0 := "c0"
  const C1 := "c1"
  const PUSHED := [Commit(C1, [C0])]
  const BODY := CommitJob(PUSHED)

  /** One repository whose cursor is C0. */
  function OneRepo(): State
  {
    State(0, 0, map[], map["r" := Repo(C0, "", Free)], map[], [])
  }

  /** The same batch C0 -> C1 was pushed twice and each copy is claimed. */
  function BothClaimed(): State
  {
    OneRepo().(
      next := 2,
      jobs := map[0 := Job("r", BODY, Running("v", 0)), 1 := Job("r", BODY, Running("w", 0))],
      workers := map["v" := Claimed(Hold(0, "r", BODY)), "w" := Claimed(Hold(1, "r", BODY))])
  }

  /** Both workers read the cursor before either claims the repository. */
  function BothHaveRead(): State
  {
    var seen := Repo(C0, "", Free);
    BothClaimed().(workers := map["v" := Decided(Hold(0, "r", BODY), seen), "w" := Decided(Hold(1, "r", BODY), seen)])
  }

  /** The first claims the repository, ... */
  function FirstHolds(): State
  {
    BothHaveRead().(
      repos := map["r" := Repo(C0, "", Held("v", REPO_CLAIM_TTL))],
      workers := BothHaveRead().workers["v" := Working(Hold(0, "r", BODY), C0, C0)])
  }

  /** ... writes the cursor, ... */
  function FirstHasWritten(): State
  {
    BothHaveRead().(
      repos := map["r" := Repo(C1, "", Held("v", REPO_CLAIM_TTL))],
      workers := BothHaveRead().workers["v" := Landed(Hold(0, "r", BODY), Success)],
      history := [Landing("r", C0, PUSHED, C0, C0)])
  }

  /** ... and lets go; the second still acts on what it read. */
  function FirstHasLanded(): State
  {
    FirstHasWritten().(
      repos := map["r" := Repo(C1, "", Free)],
      workers := BothHaveRead().workers["v" := Finishing(Hold(0, "r", BODY), Success)])
  }

  ghost predicate Reaches(s: State, steps: seq<Step>, t: State)
  {
    Runs(s, steps) && TimelyRun(s, steps) && Run(s, steps) == t
  }

  lemma Extend(s: State, steps: seq<Step>, t: State, step: Step) returns (longer: seq<Step>, u: State)
    requires Reaches(s, steps, t) && Enabled(t, step) && !step.Tick?
    ensures longer == steps + [step] && u == Apply(t, step) && Reaches(s, longer, u)
  {
    longer, u := steps + [step], Apply(t, step);
    assert Front(longer) == steps && Last(longer) == step;
  }

  /** Both copies wait in the queue. */
  function BothPushed(): State
  {
    OneRepo().(next := 2, jobs := map[0 := Job("r", BODY, Pending), 1 := Job("r", BODY, Pending)])
  }

  lemma ReachBothPushed() returns (steps: seq<Step>)
    ensures Reaches(OneRepo(), steps, BothPushed())
  {
    var s;
    steps, s := Extend(OneRepo(), [], OneRepo(), EnqueueCommits("r", PUSHED));
    steps, s := Extend(OneRepo(), steps, s, EnqueueCommits("r", PUSHED));
    assert s.jobs == BothPushed().jobs;
  }

  /** One copy is claimed. */
  function OneClaimed(): State
  {
    BothPushed().(
      jobs := map[0 := Job("r", BODY, Running("v", 0)), 1 := Job("r", BODY, Pending)],
      workers := map["v" := Claimed(Hold(0, "r", BODY))])
  }

  lemma OneClaims()
    ensures Enabled(BothPushed(), ClaimJob("v", 0)) && Apply(BothPushed(), ClaimJob("v", 0)) == OneClaimed()
  {
    var s, step := BothPushed(), ClaimJob("v", 0);
    assert Apply(s, step).jobs == OneClaimed().jobs;
    assert Apply(s, step).workers == OneClaimed().workers;
  }

  lemma OtherClaims()
    ensures Enabled(OneClaimed(), ClaimJob("w", 1)) && Apply(OneClaimed(), ClaimJob("w", 1)) == BothClaimed()
  {
    var s, step := OneClaimed(), ClaimJob("w", 1);
    assert Apply(s, step).jobs == BothClaimed().jobs;
    assert Apply(s, step).workers == BothClaimed().workers;
  }

  lemma ReachBothClaimed() returns (steps: seq<Step>)
    ensures Reaches(OneRepo(), steps, BothClaimed())
  {
    steps := ReachBothPushed();
    OneClaims();
    OtherClaims();
    var s;
    steps, s := Extend(OneRepo(), steps, BothPushed(), ClaimJob("v", 0));
    steps, s := Extend(OneRepo(), steps, OneClaimed(), ClaimJob("w", 1));
  }

  lemma ReachBothHaveRead() returns (steps: seq<Step>)
    ensures Reaches(OneRepo(), steps, BothHaveRead())
  {
    steps := ReachBothClaimed();
    var s;
    steps, s := Extend(OneRepo(), steps, BothClaimed(), ReadRepo("v", true));
    assert s.jobs == BothClaimed().jobs && s.repos == OneRepo().repos;
    steps, s := Extend(OneRepo(), steps, s, ReadRepo("w", true));
    assert s.workers == BothHaveRead().workers;
  }

  lemma FirstClaims()
    ensures Enabled(BothHaveRead(), ClaimRepo("v", true)) && Apply(BothHaveRead(), ClaimRepo("v", true)) == FirstHolds()
  {
    assert HasParent(PUSHED[0].parents, C0);
    var s, step := BothHaveRead(), ClaimRepo("v", true);
    assert PhaseAfter(s, step) == Working(Hold(0, "r", BODY), C0, C0);
    assert Apply(s, step).workers == FirstHolds().workers;
    assert ReposAfter(s, step) == FirstHolds().repos;
  }

  lemma FirstWrites()
    ensures Enabled(FirstHolds(), Advance("v", true)) && Apply(FirstHolds(), Advance("v", true)) == FirstHasWritten()
  {
    var s, step := FirstHolds(), Advance("v", true);
    assert Apply(s, step).workers == FirstHasWritten().workers;
    assert ReposAfter(s, step) == FirstHasWritten().repos;
  }

  lemma FirstLetsGo()
    ensures Enabled(FirstHasWritten(), ReleaseRepo("v", true)) && Apply(FirstHasWritten(), ReleaseRepo("v", true)) == FirstHasLanded()
  {
    var s, step := FirstHasWritten(), ReleaseRepo("v", true);
    assert Apply(s, step).workers == FirstHasLanded().workers;
    assert ReposAfter(s, step) == FirstHasLanded().repos;
  }

  lemma ReachFirstHasLanded() returns (steps: seq<Step>)
    ensures Reaches(OneRepo(), steps, FirstHasLanded())
  {
    steps := ReachBothHaveRead();
    FirstClaims();
    FirstWrites();
    FirstLetsGo();
    var s;
    steps, s := Extend(OneRepo(), steps, BothHaveRead(), ClaimRepo("v", true));
    steps, s := Extend(OneRepo(), steps, FirstHolds(), Advance("v", true));
    steps, s := Extend(OneRepo(), steps, FirstHasWritten(), ReleaseRepo("v", true));
  }

  function SecondHolds(): State
  {
    FirstHasLanded().(
      repos := map["r" := Repo(C1, "", Held("w", REPO_CLAIM_TTL))],
      workers := FirstHasLanded().workers["w" := Working(Hold(1, "r", BODY), C0, C1)])
  }

  lemma SecondClaims()
    ensures Enabled(FirstHasLanded(), ClaimRepo("w", true)) && Apply(FirstHasLanded(), ClaimRepo("w", true)) == SecondHolds()
  {
    assert HasParent(PUSHED[0].parents, C0);
    var s, step := FirstHasLanded(), ClaimRepo("w", true);
    assert PhaseAfter(s, step) == Working(Hold(1, "r", BODY), C0, C1);
    assert Apply(s, step).workers == SecondHolds().workers;
    assert ReposAfter(s, step) == SecondHolds().repos;
  }

  lemma SecondWrites()
    ensures Enabled(SecondHolds(), Advance("w", true))
    ensures Apply(SecondHolds(), Advance("w", true)).history
         == [Landing("r", C0, PUSHED, C0, C0), Landing("r", C1, PUSHED, C0, C1)]
  {
  }

  lemma ReachSecondLanding() returns (steps: seq<Step>, s: State)
    ensures Reaches(OneRepo(), steps, s)
    ensures s.history == [Landing("r", C0, PUSHED, C0, C0), Landing("r", C1, PUSHED, C0, C1)]
  {
    steps := ReachFirstHasLanded();
    SecondClaims();
    SecondWrites();
    steps, s := Extend(OneRepo(), steps, FirstHasLanded(), ClaimRepo("w", true));
    steps, s := Extend(OneRepo(), steps, SecondHolds(), Advance("w", true));
  }

  /** A timely run whose second landing replaces C1 by a batch whose only parent is C0. */
  lemma InterposedLandingBreaksChain() returns (steps: seq<Step>)
    ensures Init(OneRepo()) && Runs(OneRepo(), steps) && TimelyRun(OneRepo(), steps)
    ensures var h := Run(OneRepo(), steps).history;
            |h| == 2 && h[1] == Landing("r", C1, PUSHED, C0, C1) && !Chained(OneRepo(), h, 1)
  {
    var s;
    steps, s := ReachSecondLanding();
    assert !HasParent(PUSHED[0].parents, C1);
  }
}
