/** Which answers lead to a Job, what becomes of a finished one, and which tags never get any. */
module Deployment {
  import opened Wrappers
  import opened BundleTypes
  import opened Cluster
  import opened ReconcilePlan
  import opened Runs
  import opened Safety
  import opened Progress
  import opened Retries

  /** The tag is new, no active Job stands in its way, and a Job under a free name could be built. */
  predicate Launches(st: State, a: Answers, tags: seq<string>) {
    && tags != [] && !IsRecorded(st, tags)
    && !FindsJob(st) && (st.bundle.status.activeJobName != "" ==> !a.jobUnreadable)
    && a.build.Built? && JobKey(st.Target(), a.build.name) !in st.jobs
  }

  /** The state in which a reconcile without write errors looks at a 200 answer. */
  function AtTags(st: State, a: Answers): State
    requires a.registry.Tags?
  {
    Polled(AtPoll(st), a.registry.tags)
  }

  function Working(st: State, a: Answers): Bundle
    requires a.registry.Tags?
  {
    var b := AtPoll(st).bundle;
    b.(status := b.status.(consecutiveFailures := 0, lastETag := a.registry.etag))
  }

  lemma PerformFromTags(st: State, a: Answers)
    requires Polls(st, a) && a.registry.Tags? && SchemaAccepts(st.bundle.status)
    ensures Perform(PlanReconcile(st, a), st, [])
            == Perform(PlanTags(Working(st, a), st.jobs, a.registry.tags, a), AtTags(st, a), [])
  {
    hide PlanReconcile, PlanTags;
    PerformFromPoll(st, a);
  }

  /** What launching leaves behind, whether or not a Job came of it. */
  ghost predicate Launched(before: State, st: State, latest: string, a: Answers) {
    var key := JobKey(before.Target(), if a.build.Built? then a.build.name else "job");
    var s := st.bundle.status;
    && s.lastAppliedTag == latest && s.consecutiveFailures == 0
    && (if a.build.Built? && key !in before.jobs then
          && st.jobs == before.jobs[key := Job(latest, 0, 0)]
          && st.history.created == before.history.created + 1
          && s.phase == PhaseSyncing && s.activeJobName == key.name && s.lastJobStatus == JobRunning
        else st.jobs == before.jobs && st.history.created == before.history.created)
  }

  lemma LaunchLaunches(b: Bundle, st: State, listed: Option<seq<string>>, latest: string, a: Answers)
    requires b.spec == st.bundle.spec && b.namespace == st.bundle.namespace
    requires b.status.consecutiveFailures == 0 && latest != ""
    ensures Launched(st, Perform(PlanLaunch(b, listed, latest, a), st, []).0, latest, a)
  {
    hide Launched, PlanCreate;
    var s := MarkSyncing(b.status, latest);
    var st1 := Stored(st, WriteAhead, s, listed);
    assert Perform(PlanLaunch(b, listed, latest, a), st, [])
        == Perform(PlanCreate(b.(status := s), listed, latest, a), st1, []);
    CreateLaunches(b.(status := s), st1, listed, latest, a);
    LaunchedFrom(st, st1, Perform(PlanCreate(b.(status := s), listed, latest, a), st1, []).0, latest, a);
  }

  lemma CreateLaunches(b: Bundle, st: State, listed: Option<seq<string>>, latest: string, a: Answers)
    requires b.spec == st.bundle.spec && b.namespace == st.bundle.namespace && b.status == st.bundle.status
    requires b.status.consecutiveFailures == 0 && b.status.lastAppliedTag == latest && b.status.phase == PhaseSyncing
    ensures Launched(st, Perform(PlanCreate(b, listed, latest, a), st, []).0, latest, a)
  {
    var plan := PlanCreate(b, listed, latest, a);
    match a.build {
      case Built(name) =>
        var key := JobKey(st.Target(), name);
        if key in st.jobs {
          assert Perform(plan, st, []) == Perform(plan.onFailed, st, []);
          PutThenStop(st, CreateFailure, plan.onFailed.status, listed, Returned(0));
        } else {
          var st' := Created(st, key, latest);
          assert Perform(plan, st, []) == Perform(plan.onCreated, st', []);
          PutThenStop(st', Tracking, plan.onCreated.status, listed, Returned(JOB_RECHECK));
        }
      case BuildError(_) =>
        PutThenStop(st, BuildFailure, plan.status, listed, Returned(0));
      case BuildPanic =>
    }
  }

  /**
   * With writes that succeed, an answer leads to one more Job exactly when it launches; that Job
   * carries the greatest tag, and the status tracks it.
   */
  lemma JobIsCreatedExactly(st: State, a: Answers)
    requires Polls(st, a) && a.registry.Tags? && SchemaAccepts(st.bundle.status)
    ensures var st' := Step(st, Reconcile(a, [])); var tags := a.registry.tags;
            if Launches(st, a, tags) then
              Launched(st, st', tags[|tags| - 1], a)
            else
              st'.jobs == st.jobs && st'.history.created == st.history.created
  {
    hide PlanLaunch, PlanReconcile, Polled, Launched;
    PerformFromTags(st, a);
    var tags, b, st1 := a.registry.tags, Working(st, a), AtTags(st, a);
    PolledKeepsJobs(AtPoll(st), tags);
    if tags != [] && !IsRecorded(st, tags) && !FindsJob(st)
       && (st.bundle.status.activeJobName != "" ==> !a.jobUnreadable) {
      var latest := tags[|tags| - 1];
      var idle := b.(status := b.status.(activeJobName := ""));
      assert b.status.activeJobName == "" ==> idle == b;
      LaunchLaunches(idle, st1, Some(tags), latest, a);
      assert PlanTags(b, st.jobs, tags, a) == PlanLaunch(idle, Some(tags), latest, a);
      LaunchedFrom(st, st1, Step(st, Reconcile(a, [])), latest, a);
    }
  }

  lemma PolledKeepsJobs(st: State, tags: seq<string>)
    ensures Polled(st, tags).jobs == st.jobs && Polled(st, tags).bundle == st.bundle
    ensures Polled(st, tags).history.created == st.history.created
  {
  }

  lemma LaunchedFrom(st: State, st1: State, st': State, latest: string, a: Answers)
    requires Launched(st1, st', latest, a)
    requires st1.jobs == st.jobs && st1.history.created == st.history.created && st1.Target() == st.Target()
    ensures Launched(st, st', latest, a)
    ensures !a.build.Built? || JobKey(st.Target(), a.build.name) in st.jobs ==>
              st'.jobs == st.jobs && st'.history.created == st.history.created
  {
  }

  /**
   * A finished active Job is reported and let go when another tag is read. If it succeeded, that
   * other tag is recorded as Synced, and no Job is created for it.
   */
  lemma FinishedJobIsReported(st: State, a: Answers, tags: seq<string>)
    requires Healthy(st, a, tags) && SchemaAccepts(st.bundle.status) && !IsRecorded(st, tags)
    requires FindsJob(st) && st.jobs[ActiveKey(st)].Finished()
    ensures var st' := Step(st, Reconcile(a, []));
            var s, s', job := st.bundle.status, st'.bundle.status, st.jobs[ActiveKey(st)];
            && st'.jobs == st.jobs && st'.history.created == st.history.created
            && s'.activeJobName == ""
            && s'.lastJobLogs == (if a.logs.Some? then a.logs.value else s.lastJobLogs)
            && s'.resolvedTargetNamespace == st.Target() && st'.bundle.finalizer
            && (if job.succeeded > 0 then
                  && s'.lastJobStatus == JobSucceeded && s'.phase == PhaseSynced
                  && s'.lastSyncTime == Some(a.now) && s'.lastAppliedTag == tags[|tags| - 1]
                else
                  && s'.lastJobStatus == JobFailed && s'.phase == PhaseFailed
                  && s'.lastSyncTime == s.lastSyncTime && s'.lastAppliedTag == s.lastAppliedTag)
  {
    hide Polled;
    PerformFromTags(st, a);
    PolledKeepsJobs(AtPoll(st), tags);
    assert PlanTags(Working(st, a), st.jobs, tags, a)
        == PlanMonitor(Working(st, a), Some(tags), st.jobs[ActiveKey(st)], tags[|tags| - 1], a);
  }

  // Whose tag a successful Job gets recorded.

  /** The controller looks for the active Job where it was created. */
  predicate InPlace(st: State) {
    st.history.trackedNamespace == st.Target()
  }

  /**
   * In every reachable state: the tag recorded for a Job found to have succeeded is the greatest one,
   * so the Job's own if and only if that is still the greatest; and this happens only after a retry
   * was stored since the Job was tracked, or the target namespace was moved.
   */
  lemma SuccessRecordsOwnTagExactly(start: State, events: seq<Event>, a: Answers, tags: seq<string>)
    requires Fresh(start)
    requires var st := Run(start, events);
             && Healthy(st, a, tags) && !IsRecorded(st, tags)
             && FindsJob(st) && st.jobs[ActiveKey(st)].succeeded > 0
    ensures var st := Run(start, events);
            var s', tag := Step(st, Reconcile(a, [])).bundle.status, st.jobs[ActiveKey(st)].tag;
            && s'.phase == PhaseSynced
            && s'.lastAppliedTag == tags[|tags| - 1]
            && (s'.lastAppliedTag == tag <==> tag == tags[|tags| - 1])
            && (s'.lastAppliedTag == tag ==> st.history.retried || !InPlace(st))
  {
    hide PlanReconcile, Healthy;
    var st := Run(start, events);
    HealthyHasTags(st, a, tags);
    TrackedJobCarriesRecordedTag(start, events);
    StoredStatusIsConsistent(start, events);
    FinishedJobIsReported(st, a, tags);
    assert InPlace(st) ==> Tracked(st) == ActiveKey(st);
  }

  /** And it is the Job's own in the following run: built and tracked, an error is retried, the Job succeeds. */
  lemma RetryLetsOwnTagBeRecorded(st: State, first: Answers, second: Answers, third: Answers, tags: seq<string>)
    requires Fresh(st) && Healthy(st, first, tags) && first.build.Built?
    requires SeesError(st, second) && Healthy(st, third, tags)
    requires tags[|tags| - 1] != RetryMessage(1, second.registry.text)
    ensures var key := JobKey(st.Target(), first.build.name);
            var end := Run(st, [Reconcile(first, []), Reconcile(second, []), RunJob(key, 1, 0)] + [Reconcile(third, [])]);
            && end.jobs == map[key := Job(tags[|tags| - 1], 1, 0)]
            && end.bundle.status.phase == PhaseSynced && end.bundle.status.lastJobStatus == JobSucceeded
            && end.bundle.status.lastAppliedTag == end.jobs[key].tag
  {
    hide PlanReconcile, Healthy;
    var key := JobKey(st.Target(), first.build.name);
    var e1, e2, e3, e4 := Reconcile(first, []), Reconcile(second, []), RunJob(key, 1, 0), Reconcile(third, []);
    var st1 := Step(st, e1);
    var st2 := Step(st1, e2);
    var st3 := Step(st2, e3);
    FirstJob(st, first, tags);
    SeesErrorByBundle(st, st1, second);
    RetryOverwritesTag(st1, second);
    PerformKeepsSpec(PlanReconcile(st1, second), st1, []);
    HealthyByBundle(st, st3, third, tags);
    FinishedJobIsReported(st3, third, tags);
    RunAfterThree(st, e1, e2, e3, [e4]);
    RunOne(st3, e4);
  }

  // A tag that is never deployed.

  /** Recorded as Synced, with nothing left to write. */
  predicate Settled(st: State, tags: seq<string>) {
    && IsRecorded(st, tags) && st.bundle.status.phase == PhaseSynced
    && st.bundle.finalizer && st.bundle.status.resolvedTargetNamespace == st.Target()
  }

  /** Any number of polls of the same tags, none of whose writes need succeed. */
  predicate KeepsPolling(st: State, events: seq<Event>, tags: seq<string>) {
    forall i :: 0 <= i < |events| ==> events[i].Reconcile? && Healthy(st, events[i].answers, tags)
  }

  lemma {:induction false} SettledForGood(st: State, events: seq<Event>, tags: seq<string>)
    requires Settled(st, tags) && KeepsPolling(st, events, tags)
    ensures Run(st, events).bundle == st.bundle && Run(st, events).jobs == st.jobs
    decreases |events|
  {
    hide PlanReconcile, Polled, Healthy;
    if events != [] {
      SettledIsLeftAlone(st, events[0].answers, tags, events[0].outcomes);
      PolledKeepsJobs(st, tags);
      var st' := Step(st, events[0]);
      forall i | 0 <= i < |events[1..]|
        ensures Healthy(st', events[1..][i].answers, tags)
      {
        HealthyByBundle(st, st', events[i + 1].answers, tags);
      }
      SettledForGood(st', events[1..], tags);
    }
  }

  /**
   * In every reachable state without such a retry: the tag recorded for a successful Job is another
   * than the Job's, no Job is created for it, and none will be while that tag stays the greatest.
   */
  lemma SuccessSkipsTag(start: State, events: seq<Event>, a: Answers, tags: seq<string>, later: seq<Event>)
    requires Fresh(start)
    requires var st := Run(start, events);
             && Healthy(st, a, tags) && !IsRecorded(st, tags) && InPlace(st) && !st.history.retried
             && FindsJob(st) && st.jobs[ActiveKey(st)].succeeded > 0
             && KeepsPolling(st, later, tags)
    ensures var st := Run(start, events); var end := Run(st, [Reconcile(a, [])] + later);
            && end.bundle.status.phase == PhaseSynced
            && end.bundle.status.lastAppliedTag == tags[|tags| - 1] != st.jobs[ActiveKey(st)].tag
            && end.jobs == st.jobs
  {
    hide PlanReconcile, Healthy;
    var st := Run(start, events);
    var st' := Step(st, Reconcile(a, []));
    HealthyHasTags(st, a, tags);
    SuccessRecordsOwnTagExactly(start, events, a, tags);
    StoredStatusIsConsistent(start, events);
    FinishedJobIsReported(st, a, tags);
    PerformKeepsSpec(PlanReconcile(st, a), st, []);
    forall i | 0 <= i < |later|
      ensures Healthy(st', later[i].answers, tags)
    {
      HealthyByBundle(st, st', later[i].answers, tags);
    }
    SettledForGood(st', later, tags);
    RunConcat(st, [Reconcile(a, [])], later);
    RunOne(st, Reconcile(a, []));
  }

  /**
   * A tag pushed before its predecessor's Job is seen to have succeeded is taken for deployed:
   * Synced is recorded for it, and no poll ever creates its Job.
   */
  lemma NewerTagIsNeverDeployed(st: State, first: Answers, second: Answers, older: seq<string>, newer: seq<string>,
                                later: seq<Event>)
    requires Fresh(st) && Healthy(st, first, older) && first.build.Built?
    requires Healthy(st, second, newer) && older[|older| - 1] != newer[|newer| - 1]
    requires KeepsPolling(st, later, newer)
    ensures var key := JobKey(st.Target(), first.build.name);
            var end := Run(st, [Reconcile(first, []), RunJob(key, 1, 0), Reconcile(second, [])] + later);
            && end.bundle.status.phase == PhaseSynced
            && end.bundle.status.lastAppliedTag == newer[|newer| - 1]
            && end.jobs == map[key := Job(older[|older| - 1], 1, 0)]
  {
    hide PlanReconcile, Healthy;
    var key := JobKey(st.Target(), first.build.name);
    var e1, e2, e3 := Reconcile(first, []), RunJob(key, 1, 0), Reconcile(second, []);
    var st1 := Step(st, e1);
    var st2 := Step(st1, e2);
    var st3 := Step(st2, e3);
    FirstJob(st, first, older);
    HealthyByBundle(st, st2, second, newer);
    FinishedJobIsReported(st2, second, newer);
    PerformKeepsSpec(PlanReconcile(st2, second), st2, []);
    forall i | 0 <= i < |later|
      ensures Healthy(st3, later[i].answers, newer)
    {
      HealthyByBundle(st, st3, later[i].answers, newer);
    }
    SettledForGood(st3, later, newer);
    RunAfterThree(st, e1, e2, e3, later);
  }

  lemma FirstJob(st: State, a: Answers, tags: seq<string>)
    requires Fresh(st) && Healthy(st, a, tags) && a.build.Built?
    ensures var st' := Step(st, Reconcile(a, []));
            && st'.jobs == map[JobKey(st.Target(), a.build.name) := Job(tags[|tags| - 1], 0, 0)]
            && st'.bundle.status.activeJobName == a.build.name
            && st'.bundle.status.lastAppliedTag == tags[|tags| - 1]
            && Consistent(st'.bundle.status) && st'.bundle.status.consecutiveFailures == 0
            && st'.bundle.spec == st.bundle.spec && st'.bundle.namespace == st.bundle.namespace
            && st'.bundle.deleting == st.bundle.deleting
  {
    hide PlanReconcile;
    assert tags[|tags| - 1] != "";
    JobIsCreatedExactly(st, a);
    PerformKeepsSpec(PlanReconcile(st, a), st, []);
    StoredStatusIsConsistent(st, [Reconcile(a, [])]);
    assert Run(Step(st, Reconcile(a, [])), [Reconcile(a, [])][1..]) == Step(st, Reconcile(a, []));
  }

  lemma RunAfterThree(st: State, e1: Event, e2: Event, e3: Event, later: seq<Event>)
    ensures Run(st, [e1, e2, e3] + later) == Run(Step(Step(Step(st, e1), e2), e3), later)
  {
    assert [e1, e2, e3] == [e1] + ([e2] + [e3]);
    RunConcat(st, [e1, e2, e3], later);
    RunConcat(st, [e1], [e2] + [e3]);
    RunConcat(Step(st, e1), [e2], [e3]);
    RunOne(st, e1);
    RunOne(Step(st, e1), e2);
    RunOne(Step(Step(st, e1), e2), e3);
  }

  /** A failed Job can be in the way of a newer tag, so that two reconciles do not always converge. */
  lemma FailedInTheWayIsReachable(st: State, first: Answers, older: seq<string>, newer: seq<string>)
    requires Fresh(st) && Healthy(st, first, older) && first.build.Built?
    requires newer != [] && older[|older| - 1] != newer[|newer| - 1]
    ensures var key := JobKey(st.Target(), first.build.name);
            FailedInTheWay(Run(st, [Reconcile(first, []), RunJob(key, 0, 1)]), newer)
  {
    hide PlanReconcile;
    var e1, e2 := Reconcile(first, []), RunJob(JobKey(st.Target(), first.build.name), 0, 1);
    FirstJob(st, first, older);
    RunConcat(st, [e1], [e2]);
    RunOne(st, e1);
    RunOne(Step(st, e1), e2);
    assert [e1] + [e2] == [e1, e2];
  }
}
