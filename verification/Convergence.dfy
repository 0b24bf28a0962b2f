/** Convergence when the active Job is still running at the start. */
module Convergence {
  import opened Wrappers
  import opened BundleTypes
  import opened Cluster
  import opened ReconcilePlan
  import opened Runs
  import opened Safety
  import opened Progress
  import opened Deployment

  predicate IsRunning(st: State) {
    FindsJob(st) && !st.jobs[ActiveKey(st)].Finished()
  }

  /** An unrecorded tag read while the active Job runs: nothing happens, whatever becomes of the writes. */
  lemma RunningJobIsWaitedFor(st: State, a: Answers, tags: seq<string>, outcomes: seq<WriteOutcome>)
    requires Healthy(st, a, tags) && SchemaAccepts(st.bundle.status) && !IsRecorded(st, tags) && IsRunning(st)
    ensures var (st', outcome) := Perform(PlanReconcile(st, a), st, outcomes);
            && outcome in {Returned(5_000_000_000), Errored}
            && st'.jobs == st.jobs && SameButNamespace(st'.bundle.status, st.bundle.status)
  {
    var before := st.bundle.status.(resolvedTargetNamespace := "");
    var q := (s: Status, outcome: Outcome) =>
      outcome in {Returned(JOB_RECHECK), Errored} && s.(resolvedTargetNamespace := "") == before;
    PollEnds(st, a, false, q);
    PerformEnds(PlanReconcile(st, a), st, outcomes, false, q);
    WaitingIsLaunchless(st, a, tags);
    LaunchlessKeepsJobs(PlanReconcile(st, a), st, outcomes);
  }

  lemma WaitingIsLaunchless(st: State, a: Answers, tags: seq<string>)
    requires Healthy(st, a, tags) && !IsRecorded(st, tags) && IsRunning(st)
    ensures Launchless(PlanReconcile(st, a))
  {
    var b := st.bundle.(finalizer := true);
    var settled := b.(status := b.status.(resolvedTargetNamespace := st.Target()));
    assert Launchless(PlanPoll(settled, st.history.listed, st.jobs, a));
    assert Launchless(PlanPoll(b, st.history.listed, st.jobs, a));
    assert Launchless(PlanValidated(b, st.history.listed, st.jobs, a));
    assert st.bundle.finalizer ==> b == st.bundle;
  }

  /** Any number of such polls. */
  lemma {:induction false} RunningJobIsWaitedForThroughout(st: State, polls: seq<Event>, tags: seq<string>)
    requires tags != [] && KeepsPolling(st, polls, tags)
    requires SchemaAccepts(st.bundle.status) && !IsRecorded(st, tags) && IsRunning(st)
    ensures var st' := Run(st, polls);
            && st'.jobs == st.jobs && SameButNamespace(st'.bundle.status, st.bundle.status)
            && st'.bundle.spec == st.bundle.spec && st'.bundle.namespace == st.bundle.namespace
            && st'.bundle.deleting == st.bundle.deleting
    decreases |polls|
  {
    hide PlanReconcile, Healthy;
    if polls != [] {
      var st' := Step(st, polls[0]);
      RunningJobIsWaitedFor(st, polls[0].answers, tags, polls[0].outcomes);
      PerformKeepsSpec(PlanReconcile(st, polls[0].answers), st, polls[0].outcomes);
      forall i | 0 <= i < |polls[1..]|
        ensures Healthy(st', polls[1..][i].answers, tags)
      {
        HealthyByBundle(st, st', polls[i + 1].answers, tags);
      }
      RunningJobIsWaitedForThroughout(st', polls[1..], tags);
    }
  }

  /** The Job under the key finishes, either way, or is removed. */
  predicate Stops(e: Event, key: JobKey) {
    match e
    case RunJob(k, succeeded, failed) => k == key && (succeeded > 0 || failed > 0)
    case RemoveJob(k) => k == key
    case _ => false
  }

  /**
   * From a running active Job: any number of polls while it runs, whose writes may fail; then it stops;
   * then three acknowledged reconciles, with Job moves in between, end Synced on the greatest tag.
   */
  lemma ConvergesOnceTheJobStops(st: State, tags: seq<string>, polls: seq<Event>, stop: Event,
                                 first: Answers, second: Answers, third: Answers,
                                 moves: seq<Event>, moves': seq<Event>)
    requires Inv(st) && !IsRecorded(st, tags) && IsRunning(st)
    requires KeepsPolling(st, polls, tags) && Stops(stop, ActiveKey(st))
    requires JobMoves(moves) && JobMoves(moves')
    requires Healthy(st, first, tags) && Healthy(st, second, tags) && Healthy(st, third, tags)
    ensures var three := Round(first, moves) + (Round(second, moves') + [Reconcile(third, [])]);
            SyncedOn(Run(st, polls + ([stop] + three)).bundle.status, tags)
  {
    hide PlanReconcile, Healthy, Inv, Round;
    var three := Round(first, moves) + (Round(second, moves') + [Reconcile(third, [])]);
    var st1 := Run(st, polls);
    var st2 := Step(st1, stop);
    HealthyHasTags(st, first, tags);
    InvIsConsistent(st);
    RunningJobIsWaitedForThroughout(st, polls, tags);
    RunKeeps(st, polls);
    StepKeeps(st1, stop);
    assert ActiveKey(st1) == ActiveKey(st);
    assert FindsJob(st2) ==> st2.jobs[ActiveKey(st2)].Finished();
    HealthyByBundle(st, st2, first, tags);
    HealthyByBundle(st, st2, second, tags);
    HealthyByBundle(st, st2, third, tags);
    ThreeReconcilesConverge(st2, tags, first, second, third, moves, moves');
    RunConcat(st, polls, [stop] + three);
    RunConcat(st1, [stop], three);
    RunOne(st1, stop);
  }
}
