/**
 * What each branch of a reconcile leaves behind, field by field and in the controller's own words
 * and numbers, when its writes are acknowledged.
 */
module Branches {
  import opened Wrappers
  import opened BundleTypes
  import opened Cluster
  import opened ReconcilePlan
  import opened Runs
  import opened Safety
  import opened Progress
  import opened Retries
  import opened Deployment
  import opened Numerals
  import Backoff

  /** An acknowledged reconcile ends with this status, these Jobs and this result, the finalizer being set. */
  ghost predicate EndsWith(st: State, a: Answers, s: Status, jobs: map<JobKey, Job>, outcome: Outcome) {
    var (st', o) := Perform(PlanReconcile(st, a), st, []);
    && st'.bundle == st.bundle.(finalizer := true, status := s)
    && st'.jobs == jobs && o == outcome
  }

  /** Nothing is left to write before the registry is asked. */
  predicate IsQuiet(st: State) {
    st.bundle.finalizer && st.bundle.status.resolvedTargetNamespace == st.Target()
  }

  // Before the registry.

  predicate Present(st: State, a: Answers) {
    a.get.Found? && !st.bundle.deleting && SchemaAccepts(st.bundle.status)
  }

  lemma UnreadBundleIsLeftAlone(st: State, a: Answers, outcomes: seq<WriteOutcome>)
    requires !a.get.Found?
    ensures Perform(PlanReconcile(st, a), st, outcomes) == (st, if a.get.NotFound? then Returned(0) else Errored)
  {
  }

  /** A namespace other than the bundle's own is aimed at, and no ServiceAccount is named. */
  predicate IsInvalid(b: Bundle) {
    b.spec.targetNamespace != "" && b.spec.targetNamespace != b.namespace && b.spec.serviceAccountName == ""
  }

  lemma InvalidBundleFails(st: State, a: Answers)
    requires Present(st, a) && IsInvalid(st.bundle)
    ensures EndsWith(st, a,
                     st.bundle.status.(phase := PhaseFailed,
                                       lastErrorMessage := "serviceAccountName is required for cross-namespace deployment from "
                                                           + st.bundle.namespace + " to " + st.bundle.spec.targetNamespace),
                     st.jobs, Returned(0))
  {
    var b := st.bundle.(finalizer := true);
    assert ValidateCrossNamespaceDeployment(b.spec, b.namespace).Some?;
    assert Perform(PlanReconcile(st, a), st, [])
        == Perform(PlanValidated(b, st.history.listed, st.jobs, a), st.(bundle := b), []) by {
      if st.bundle.finalizer {
        assert st.(bundle := b) == st;
      }
    }
    var plan := PlanValidated(b, st.history.listed, st.jobs, a);
    PutThenStop(st.(bundle := b), Validation, plan.status, st.history.listed, Returned(0));
  }

  /** The ServiceAccount the bundle names is not there or cannot be read. */
  predicate LacksAccount(st: State, a: Answers) {
    st.bundle.spec.serviceAccountName != "" && a.account != AccountExists
  }

  /** Where Jobs go: the target namespace if one is given, and the bundle's own otherwise. */
  lemma TargetIsGivenOrOwn(st: State)
    ensures st.bundle.spec.targetNamespace != "" ==> st.Target() == st.bundle.spec.targetNamespace
    ensures st.bundle.spec.targetNamespace == "" ==> st.Target() == st.bundle.namespace
  {
  }

  /** A reconcile gets as far as the registry if and only if nothing stands in its way. */
  lemma PollsExactly(st: State, a: Answers)
    ensures Polls(st, a) <==>
            a.get.Found? && !st.bundle.deleting && !IsInvalid(st.bundle) && !LacksAccount(st, a)
  {
  }

  /** A plan of status writes that keep the tag list, and of nothing else. */
  ghost predicate OnlyStatus(plan: Plan, listed: Option<seq<string>>)
    decreases plan
  {
    match plan
    case Stop(_) => true
    case Put(site, _, behind, _, next) =>
      behind == listed && site != Retry && site != Tracking && OnlyStatus(next, listed)
    case Finalize(_, next) => OnlyStatus(next, listed)
    case Read(_, _) => false
    case Launch(_, _, _, _) => false
  }

  lemma {:induction false} OnlyStatusKeepsTheRest(plan: Plan, st: State, outcomes: seq<WriteOutcome>)
    requires OnlyStatus(plan, st.history.listed)
    ensures var st' := Perform(plan, st, outcomes).0; st'.jobs == st.jobs && st'.history == st.history
    decreases plan
  {
    match plan
    case Stop(_) =>
    case Put(site, s, listed, onError, next) =>
      var (st', ok) := PutStatus(st, NextOutcome(outcomes), site, s, listed);
      if ok {
        OnlyStatusKeepsTheRest(next, st', LaterOutcomes(outcomes));
      }
    case Finalize(present, next) =>
      var (st', ok) := PutFinalizer(st, NextOutcome(outcomes), present);
      if ok {
        OnlyStatusKeepsTheRest(next, st', LaterOutcomes(outcomes));
      }
  }

  /** Without its ServiceAccount no bundle is deployed or even polled, whatever becomes of the writes. */
  lemma LackingAccountStopsAll(st: State, a: Answers, outcomes: seq<WriteOutcome>)
    requires a.get.Found? && !st.bundle.deleting && LacksAccount(st, a)
    ensures var (st', outcome) := Perform(PlanReconcile(st, a), st, outcomes);
            && st'.jobs == st.jobs && st'.history == st.history
            && (IsQuiet(st) && !IsInvalid(st.bundle) ==> outcome == Returned(0))
  {
    hide PlanPoll;
    var b, listed := st.bundle.(finalizer := true), st.history.listed;
    var settled := b.(status := b.status.(resolvedTargetNamespace := st.Target()));
    assert AccountComplaint(settled, a.account).Some? && AccountComplaint(b, a.account).Some?;
    assert OnlyStatus(PlanAccount(settled, listed, st.jobs, a), listed);
    assert OnlyStatus(PlanAccount(b, listed, st.jobs, a), listed);
    assert OnlyStatus(PlanValidated(b, listed, st.jobs, a), listed);
    assert st.bundle.finalizer ==> b == st.bundle;
    OnlyStatusKeepsTheRest(PlanReconcile(st, a), st, outcomes);
  }

  lemma LackingAccountFails(st: State, a: Answers)
    requires Present(st, a) && !IsInvalid(st.bundle) && LacksAccount(st, a)
    ensures var name := st.bundle.spec.serviceAccountName;
            var message := if a.account.AccountMissing?
                           then "ServiceAccount '" + name + "' not found in namespace '" + st.Target() + "'"
                           else "failed to get ServiceAccount '" + name + "' in namespace '" + st.Target() + "': "
                                + a.account.cause;
            EndsWith(st, a,
                     st.bundle.status.(resolvedTargetNamespace := st.Target(),
                                       phase := PhaseFailed, lastErrorMessage := message),
                     st.jobs, Returned(0))
  {
    hide PlanPoll;
    var b := AtPoll(st).bundle;
    assert PlanAccount(b, st.history.listed, st.jobs, a).Put?;
    PerformFromAccount(st, a);
  }

  /** What comes before the ServiceAccount is asked for. */
  lemma PerformFromAccount(st: State, a: Answers)
    requires Present(st, a) && !IsInvalid(st.bundle)
    ensures Perform(PlanReconcile(st, a), st, [])
            == Perform(PlanAccount(AtPoll(st).bundle, st.history.listed, st.jobs, a), AtPoll(st), [])
  {
    hide PlanAccount;
    var b := st.bundle.(finalizer := true);
    var st1 := st.(bundle := b);
    assert Perform(PlanReconcile(st, a), st, [])
        == Perform(PlanValidated(b, st.history.listed, st.jobs, a), st1, []) by {
      if st.bundle.finalizer {
        assert st1 == st;
      }
    }
    if b.status.resolvedTargetNamespace != st.Target() {
      assert Stored(st1, Namespace, AtPoll(st).bundle.status, st.history.listed) == AtPoll(st);
    } else {
      assert AtPoll(st) == st1;
    }
  }

  // A deletion.

  lemma DeletionTakesFinalizerOff(st: State, a: Answers, outcomes: seq<WriteOutcome>)
    requires a.get.Found? && st.bundle.deleting
    ensures var gone := st.(bundle := st.bundle.(finalizer := false));
            Perform(PlanReconcile(st, a), st, outcomes)
            == if !st.bundle.finalizer || outcomes == [] || outcomes[0] == Acked then (gone, Returned(0))
               else if outcomes[0] == ReplyLost then (gone, Errored)
               else (st, Errored)
  {
    assert !st.bundle.finalizer ==> st.(bundle := st.bundle.(finalizer := false)) == st;
  }

  /** Once deletion is requested, no Job is created and no status is written, and a finalizer taken off stays off. */
  lemma {:induction false} DeletingRunDeploysNothing(st: State, events: seq<Event>)
    requires st.bundle.deleting
    ensures var st' := Run(st, events);
            && st'.bundle.deleting && st'.bundle.status == st.bundle.status
            && st'.history.created == st.history.created && st'.jobs.Keys <= st.jobs.Keys
            && (!st.bundle.finalizer ==> !st'.bundle.finalizer)
    decreases |events|
  {
    hide PlanReconcile;
    if events != [] {
      if events[0].Reconcile? {
        if events[0].answers.get.Found? {
          DeletionTakesFinalizerOff(st, events[0].answers, events[0].outcomes);
        } else {
          UnreadBundleIsLeftAlone(st, events[0].answers, events[0].outcomes);
        }
      }
      DeletingRunDeploysNothing(Step(st, events[0]), events[1..]);
    }
  }

  /** And one acknowledged reconcile that finds the bundle lets it go, whatever happens before and after. */
  lemma DeletionCompletes(st: State, before: seq<Event>, a: Answers, after: seq<Event>)
    requires a.get.Found?
    ensures var end := Run(st, [RequestDeletion] + (before + ([Reconcile(a, [])] + after)));
            !end.bundle.finalizer && end.history.created == st.history.created
  {
    hide PlanReconcile;
    var st1 := Step(st, RequestDeletion);
    var st2 := Run(st1, before);
    var st3 := Step(st2, Reconcile(a, []));
    RunConcat(st, [RequestDeletion], before + ([Reconcile(a, [])] + after));
    RunOne(st, RequestDeletion);
    RunConcat(st1, before, [Reconcile(a, [])] + after);
    RunConcat(st2, [Reconcile(a, [])], after);
    RunOne(st2, Reconcile(a, []));
    DeletingRunDeploysNothing(st1, before);
    DeletionTakesFinalizerOff(st2, a, []);
    DeletingRunDeploysNothing(st3, after);
  }

  // The registry's answer.

  function Minutes(n: nat): int {
    n * 60_000_000_000
  }

  const FIVE_SECONDS: int := 5_000_000_000

  /** The interval the specification sets, or a quarter of an hour if it sets none that can be read. */
  function Interval(spec: Spec): int {
    if spec.pollInterval.Every? then spec.pollInterval.nanoseconds else Minutes(15)
  }

  /** Within a tenth of the interval either way. */
  predicate IsNear(outcome: Outcome, interval: int) {
    && outcome.Returned?
    && interval - interval / 10 <= outcome.requeueAfter <= interval + interval / 10 - 1
  }

  predicate IsPollable(interval: int) {
    10 <= interval && interval + interval / 10 - 1 < 0x8000_0000_0000_0000
  }

  lemma NextPollIsNear(spec: Spec, draw: nat)
    requires IsPollable(Interval(spec))
    ensures IsNear(NextPoll(spec, draw), Interval(spec))
  {
    Backoff.JitterRange(IntervalOf(spec), draw);
  }

  /** A 304 changes nothing and is asked again in about an interval. */
  lemma NotModifiedWaits(st: State, a: Answers)
    requires Polls(st, a) && SchemaAccepts(st.bundle.status) && a.registry.NotModified?
    requires IsPollable(Interval(st.bundle.spec))
    ensures var outcome := OutcomeOf(st, a);
            && EndsWith(st, a, st.bundle.status.(resolvedTargetNamespace := st.Target()), st.jobs, outcome)
            && IsNear(outcome, Interval(st.bundle.spec))
  {
    hide PlanReconcile;
    PerformFromPoll(st, a);
    NextPollIsNear(st.bundle.spec, a.draw);
  }

  /** The delay after the n-th error in a row, for n up to five. */
  function RetryDelay(n: nat): int {
    if n == 1 then Minutes(1) else if n == 2 then Minutes(2) else if n == 3 then Minutes(4) else Minutes(8)
  }

  /** Up to the fifth error in a row is retried; its text takes the place of the tag. */
  lemma ErrorIsRetried(st: State, a: Answers)
    requires Polls(st, a) && a.registry.RegistryError? && st.bundle.status.consecutiveFailures < 5
    ensures var n := st.bundle.status.consecutiveFailures + 1;
            EndsWith(st, a,
                     st.bundle.status.(
                       resolvedTargetNamespace := st.Target(), consecutiveFailures := n, lastErrorTime := Some(a.now),
                       phase := PhaseSyncing, lastErrorMessage := "", lastSyncTime := None,
                       lastAppliedTag := "Registry error (attempt " + Decimal(n) + "/5): " + a.registry.text),
                     st.jobs, Returned(RetryDelay(n)))
  {
    hide PlanReconcile, Decimal, Backoff.CalculateBackoff;
    PerformFromPoll(st, a);
    Backoff.RetryBudget();
    var plan := PlanRetry(AtPoll(st).bundle, st.history.listed, a.registry.text, a);
    assert plan.Put? && plan.next.Stop?;
    assert Perform(plan, AtPoll(st), []) == (Stored(AtPoll(st), Retry, plan.status, st.history.listed), plan.next.outcome);
  }

  /** The sixth is not. */
  lemma SixthErrorFails(st: State, a: Answers)
    requires Polls(st, a) && a.registry.RegistryError? && st.bundle.status.consecutiveFailures == 5
    ensures EndsWith(st, a,
                     st.bundle.status.(
                       resolvedTargetNamespace := st.Target(), consecutiveFailures := 6, lastErrorTime := Some(a.now),
                       phase := PhaseFailed,
                       lastErrorMessage := "Registry error after 5 retries: " + a.registry.text),
                     st.jobs, Returned(0))
  {
    hide PlanReconcile;
    PerformFromPoll(st, a);
    var plan := PlanRetry(AtPoll(st).bundle, st.history.listed, a.registry.text, a);
    PutThenStop(AtPoll(st), Exhausted, plan.status, st.history.listed, Returned(0));
  }

  // A tag list.

  predicate Lists(st: State, a: Answers) {
    Polls(st, a) && SchemaAccepts(st.bundle.status) && a.registry.Tags?
  }

  /** An empty list moves a new or Failed bundle to Syncing, leaves others as they are, and is asked again. */
  lemma EmptyListWaits(st: State, a: Answers)
    requires Lists(st, a) && a.registry.tags == [] && IsPollable(Interval(st.bundle.spec))
    ensures var s, outcome := st.bundle.status.(resolvedTargetNamespace := st.Target()), OutcomeOf(st, a);
            && EndsWith(st, a,
                        if s.phase == PhaseNone || s.phase == PhaseFailed then
                          s.(consecutiveFailures := 0, lastETag := a.registry.etag, phase := PhaseSyncing,
                             lastErrorMessage := "", lastSyncTime := None)
                        else s,
                        st.jobs, outcome)
            && IsNear(outcome, Interval(st.bundle.spec))
  {
    hide PlanReconcile, NextPoll;
    PerformFromTags(st, a);
    NextPollIsNear(st.bundle.spec, a.draw);
    var plan := PlanTags(Working(st, a), st.jobs, a.registry.tags, a);
    if plan.Put? {
      PutThenStop(AtTags(st, a), NoTags, plan.status, Some(a.registry.tags), NextPoll(st.bundle.spec, a.draw));
    }
  }

  predicate Greatest(a: Answers, tag: string) {
    a.registry.Tags? && a.registry.tags != [] && a.registry.tags[|a.registry.tags| - 1] == tag
  }

  /** The recorded tag is marked Synced, unless it is already. */
  lemma RecordedTagIsSynced(st: State, a: Answers, tag: string)
    requires Lists(st, a) && Greatest(a, tag) && st.bundle.status.lastAppliedTag == tag
    ensures var s := st.bundle.status.(resolvedTargetNamespace := st.Target());
            EndsWith(st, a,
                     if s.phase == PhaseSynced then s
                     else s.(consecutiveFailures := 0, lastETag := a.registry.etag, phase := PhaseSynced,
                             lastErrorMessage := "", lastSyncTime := Some(a.now)),
                     st.jobs, Returned(0))
  {
    hide PlanReconcile;
    PerformFromTags(st, a);
    var plan := PlanTags(Working(st, a), st.jobs, a.registry.tags, a);
    if plan.Put? {
      PutThenStop(AtTags(st, a), UpToDate, plan.status, Some(a.registry.tags), Returned(0));
    }
  }

  // A new tag.

  /** A tag that is not recorded is read. */
  predicate ReadsNew(st: State, a: Answers, tag: string) {
    Lists(st, a) && Greatest(a, tag) && st.bundle.status.lastAppliedTag != tag
  }

  /** No Job is active, or the active one turns out to be gone. */
  predicate IsIdle(st: State, a: Answers) {
    || st.bundle.status.activeJobName == ""
    || (!a.jobUnreadable && JobKey(st.Target(), st.bundle.status.activeJobName) !in st.jobs)
  }

  /** What the write-ahead stores. */
  function Ahead(st: State, a: Answers, tag: string): Status
    requires a.registry.Tags?
  {
    st.bundle.status.(
      resolvedTargetNamespace := st.Target(), consecutiveFailures := 0, lastETag := a.registry.etag, activeJobName := "",
      phase := PhaseSyncing, lastAppliedTag := tag, lastErrorMessage := "", lastSyncTime := None)
  }

  /** The state once the write-ahead is stored. */
  function AfterAhead(st: State, a: Answers, tag: string): State
    requires a.registry.Tags?
  {
    Stored(AtTags(st, a), WriteAhead, Ahead(st, a, tag), Some(a.registry.tags))
  }

  lemma PerformFromAhead(st: State, a: Answers, tag: string)
    requires ReadsNew(st, a, tag) && IsIdle(st, a)
    ensures var st1 := AfterAhead(st, a, tag);
            Perform(PlanReconcile(st, a), st, [])
            == Perform(PlanCreate(st1.bundle, Some(a.registry.tags), tag, a), st1, [])
  {
    hide PlanReconcile, PlanCreate, Polled;
    PerformFromTags(st, a);
    PolledKeepsJobs(AtPoll(st), a.registry.tags);
    var idle := Working(st, a).(status := Working(st, a).status.(activeJobName := ""));
    assert st.bundle.status.activeJobName == "" ==> idle == Working(st, a);
    assert PlanTags(Working(st, a), st.jobs, a.registry.tags, a) == PlanLaunch(idle, Some(a.registry.tags), tag, a);
    assert tag != "";
    assert MarkSyncing(idle.status, tag) == Ahead(st, a, tag);
    assert AfterAhead(st, a, tag).bundle == idle.(status := Ahead(st, a, tag));
  }

  /** The Job is created under its tag and tracked. */
  lemma BuiltJobIsTracked(st: State, a: Answers, tag: string)
    requires ReadsNew(st, a, tag) && IsIdle(st, a)
    requires a.build.Built? && JobKey(st.Target(), a.build.name) !in st.jobs
    ensures EndsWith(st, a,
                     Ahead(st, a, tag).(activeJobName := a.build.name, lastJobStatus := JobRunning),
                     st.jobs[JobKey(st.Target(), a.build.name) := Job(tag, 0, 0)], Returned(FIVE_SECONDS))
  {
    hide PlanReconcile, Polled;
    PerformFromAhead(st, a, tag);
    PolledKeepsJobs(AtPoll(st), a.registry.tags);
    var st1, key := AfterAhead(st, a, tag), JobKey(st.Target(), a.build.name);
    var st2 := Created(st1, key, tag);
    var plan := PlanCreate(st1.bundle, Some(a.registry.tags), tag, a);
    assert Perform(plan, st1, []) == Perform(plan.onCreated, st2, []);
    PutThenStop(st2, Tracking, plan.onCreated.status, Some(a.registry.tags), Returned(JOB_RECHECK));
  }

  /** A Job that cannot be created ends in Failed, with the tag recorded all the same. */
  lemma UncreatedJobFails(st: State, a: Answers, tag: string)
    requires ReadsNew(st, a, tag) && IsIdle(st, a)
    requires a.build.Built? && JobKey(st.Target(), a.build.name) in st.jobs
    ensures EndsWith(st, a,
                     Ahead(st, a, tag).(phase := PhaseFailed,
                                        lastErrorMessage := "Failed to create Job: " + a.createError),
                     st.jobs, Returned(0))
  {
    hide PlanReconcile, Polled;
    PerformFromAhead(st, a, tag);
    PolledKeepsJobs(AtPoll(st), a.registry.tags);
    var st1 := AfterAhead(st, a, tag);
    var plan := PlanCreate(st1.bundle, Some(a.registry.tags), tag, a);
    assert Perform(plan, st1, []) == Perform(plan.onFailed, st1, []);
    PutThenStop(st1, CreateFailure, plan.onFailed.status, Some(a.registry.tags), Returned(0));
  }

  /** So does one that cannot be built; a panic of the build leaves the write-ahead. */
  lemma UnbuiltJobFails(st: State, a: Answers, tag: string)
    requires ReadsNew(st, a, tag) && IsIdle(st, a) && !a.build.Built?
    ensures a.build.BuildError? ==>
              EndsWith(st, a,
                       Ahead(st, a, tag).(phase := PhaseFailed, lastErrorMessage := "Failed to build Job: " + a.build.text),
                       st.jobs, Returned(0))
    ensures a.build.BuildPanic? ==> EndsWith(st, a, Ahead(st, a, tag), st.jobs, Panicked)
  {
    hide PlanReconcile, Polled;
    PerformFromAhead(st, a, tag);
    PolledKeepsJobs(AtPoll(st), a.registry.tags);
    var st1 := AfterAhead(st, a, tag);
    var plan := PlanCreate(st1.bundle, Some(a.registry.tags), tag, a);
    if a.build.BuildError? {
      PutThenStop(st1, BuildFailure, plan.status, Some(a.registry.tags), Returned(0));
    }
  }

  /** The active Job decides: unreadable, running, succeeded or failed. */
  lemma ActiveJobIsMonitored(st: State, a: Answers, tag: string)
    requires ReadsNew(st, a, tag) && st.bundle.status.activeJobName != "" && !IsIdle(st, a)
    ensures var s, key := st.bundle.status.(resolvedTargetNamespace := st.Target()),
                          JobKey(st.Target(), st.bundle.status.activeJobName);
            var released := s.(consecutiveFailures := 0, lastETag := a.registry.etag, activeJobName := "",
                               lastJobLogs := if a.logs.Some? then a.logs.value else s.lastJobLogs);
            if a.jobUnreadable then EndsWith(st, a, s, st.jobs, Errored)
            else if st.jobs[key].succeeded > 0 then
              EndsWith(st, a,
                       released.(lastJobStatus := JobSucceeded, phase := PhaseSynced, lastAppliedTag := tag,
                                 lastErrorMessage := "", lastSyncTime := Some(a.now)),
                       st.jobs, Returned(0))
            else if st.jobs[key].failed > 0 then
              EndsWith(st, a,
                       released.(lastJobStatus := JobFailed, phase := PhaseFailed,
                                 lastErrorMessage := "Job failed, see job logs for details"),
                       st.jobs, Returned(0))
            else EndsWith(st, a, s, st.jobs, Returned(FIVE_SECONDS))
  {
    hide PlanReconcile, PlanLaunch, Polled;
    PerformFromTags(st, a);
    PolledKeepsJobs(AtPoll(st), a.registry.tags);
    var plan := PlanTags(Working(st, a), st.jobs, a.registry.tags, a);
    if plan.Put? {
      PutThenStop(AtTags(st, a), plan.site, plan.status, Some(a.registry.tags), Returned(0));
    }
  }

  // The same when a write on the way to a new Job is lost.

  lemma PerformQuietly(st: State, a: Answers, tag: string, outcomes: seq<WriteOutcome>)
    requires ReadsNew(st, a, tag) && IsIdle(st, a) && IsQuiet(st)
    ensures Perform(PlanReconcile(st, a), st, outcomes)
            == Perform(Put(WriteAhead, Ahead(st, a, tag), Some(a.registry.tags), Errored,
                           PlanCreate(AfterAhead(st, a, tag).bundle, Some(a.registry.tags), tag, a)),
                       AtTags(st, a), outcomes)
  {
    hide PlanCreate, Polled;
    assert AtPoll(st) == st;
    PolledKeepsJobs(st, a.registry.tags);
    assert tag != "";
    var idle := Working(st, a).(status := Working(st, a).status.(activeJobName := ""));
    assert st.bundle.status.activeJobName == "" ==> idle == Working(st, a);
    assert PlanTags(Working(st, a), st.jobs, a.registry.tags, a) == PlanLaunch(idle, Some(a.registry.tags), tag, a);
    assert AfterAhead(st, a, tag).bundle == idle.(status := Ahead(st, a, tag));
    assert PlanReconcile(st, a) == PlanPoll(st.bundle, st.history.listed, st.jobs, a);
  }

  /** The reconcile ends with this status, these Jobs and this result. */
  ghost predicate EndsLosing(st: State, a: Answers, outcomes: seq<WriteOutcome>, s: Status, jobs: map<JobKey, Job>,
                             outcome: Outcome) {
    var (st', o) := Perform(PlanReconcile(st, a), st, outcomes);
    && st'.bundle == st.bundle.(status := s) && st'.jobs == jobs && o == outcome
  }

  /** Refused, the write-ahead leaves all as it was; its reply lost, the tag is recorded and no Job is created. */
  lemma LostWriteAhead(st: State, a: Answers, tag: string)
    requires ReadsNew(st, a, tag) && IsIdle(st, a) && IsQuiet(st)
    ensures EndsLosing(st, a, [Refused], st.bundle.status, st.jobs, Errored)
    ensures EndsLosing(st, a, [ReplyLost], Ahead(st, a, tag), st.jobs, Errored)
  {
    hide PlanReconcile, PlanCreate, Polled;
    PolledKeepsJobs(AtPoll(st), a.registry.tags);
    PerformQuietly(st, a, tag, [Refused]);
    PerformQuietly(st, a, tag, [ReplyLost]);
  }

  /** The reply to the creation lost, the Job exists, nothing tracks it, and the bundle is Failed. */
  lemma LostCreation(st: State, a: Answers, tag: string)
    requires ReadsNew(st, a, tag) && IsIdle(st, a) && IsQuiet(st)
    requires a.build.Built? && JobKey(st.Target(), a.build.name) !in st.jobs
    ensures EndsLosing(st, a, [Acked, ReplyLost],
                       Ahead(st, a, tag).(phase := PhaseFailed,
                                          lastErrorMessage := "Failed to create Job: " + a.createError),
                       st.jobs[JobKey(st.Target(), a.build.name) := Job(tag, 0, 0)], Returned(0))
  {
    hide PlanReconcile, Polled;
    PolledKeepsJobs(AtPoll(st), a.registry.tags);
    PerformQuietly(st, a, tag, [Acked, ReplyLost]);
    var st1 := AfterAhead(st, a, tag);
    var st2 := Created(st1, JobKey(st.Target(), a.build.name), tag);
    var plan := PlanCreate(st1.bundle, Some(a.registry.tags), tag, a);
    assert [Acked, ReplyLost][1..] == [ReplyLost] && [ReplyLost][1..] == [];
    assert Perform(plan, st1, [ReplyLost]) == Perform(plan.onFailed, st2, []);
    PutThenStop(st2, CreateFailure, plan.onFailed.status, Some(a.registry.tags), Returned(0));
  }

  /** The tracking write refused, the Job exists, nothing tracks it, and the reconcile errs. */
  lemma LostTracking(st: State, a: Answers, tag: string)
    requires ReadsNew(st, a, tag) && IsIdle(st, a) && IsQuiet(st)
    requires a.build.Built? && JobKey(st.Target(), a.build.name) !in st.jobs
    ensures EndsLosing(st, a, [Acked, Acked, Refused], Ahead(st, a, tag),
                       st.jobs[JobKey(st.Target(), a.build.name) := Job(tag, 0, 0)], Errored)
  {
    hide PlanReconcile, Polled;
    PolledKeepsJobs(AtPoll(st), a.registry.tags);
    PerformQuietly(st, a, tag, [Acked, Acked, Refused]);
    var st1 := AfterAhead(st, a, tag);
    var st2 := Created(st1, JobKey(st.Target(), a.build.name), tag);
    var plan := PlanCreate(st1.bundle, Some(a.registry.tags), tag, a);
    assert [Acked, Acked, Refused][1..] == [Acked, Refused] && [Acked, Refused][1..] == [Refused];
    assert Perform(plan, st1, [Acked, Refused]) == Perform(plan.onCreated, st2, [Refused]);
  }
}
