/** What single reconciles and chains of them achieve: requeues, resets, retries, convergence. */
module Progress {
  import opened Wrappers
  import opened BundleTypes
  import opened Cluster
  import opened ReconcilePlan
  import opened Runs
  import opened Safety
  import Backoff

  /**
   * Every way the plan can end, starting from the stored status s, satisfies q. A faultless plan
   * has all its writes acknowledged; a Job creation may fail even then, on a taken name.
   */
  ghost predicate Ends(plan: Plan, s: Status, faultless: bool, q: (Status, Outcome) -> bool)
    decreases plan
  {
    match plan
    case Stop(outcome) => q(s, outcome)
    case Put(_, t, _, onError, next) =>
      && (faultless || q(s, onError))
      && (if SchemaAccepts(t) then (faultless || q(t, onError)) && Ends(next, t, faultless, q) else q(s, onError))
    case Finalize(_, next) => (faultless || q(s, Errored)) && Ends(next, s, faultless, q)
    case Read(_, next) => Ends(next, s, faultless, q)
    case Launch(_, _, onCreated, onFailed) =>
      Ends(onCreated, s, faultless, q) && Ends(onFailed, s, faultless, q)
  }

  lemma {:induction false} PerformEnds(plan: Plan, st: State, outcomes: seq<WriteOutcome>, faultless: bool,
                                       q: (Status, Outcome) -> bool)
    requires Ends(plan, st.bundle.status, faultless, q)
    requires faultless ==> outcomes == []
    ensures var (st', outcome) := Perform(plan, st, outcomes); q(st'.bundle.status, outcome)
    decreases plan
  {
    match plan
    case Stop(_) =>
    case Put(site, s, listed, onError, next) =>
      var (st', ok) := PutStatus(st, NextOutcome(outcomes), site, s, listed);
      if ok {
        PerformEnds(next, st', LaterOutcomes(outcomes), faultless, q);
      }
    case Finalize(present, next) =>
      var (st', ok) := PutFinalizer(st, NextOutcome(outcomes), present);
      if ok {
        PerformEnds(next, st', LaterOutcomes(outcomes), faultless, q);
      }
    case Read(tags, next) => PerformEnds(next, Polled(st, tags), outcomes, faultless, q);
    case Launch(key, tag, onCreated, onFailed) =>
      var (st', ok) := CreateJob(st, NextOutcome(outcomes), key, tag);
      PerformEnds(if ok then onCreated else onFailed, st', LaterOutcomes(outcomes), faultless, q);
  }

  // Where a reconcile gets to.

  predicate Validated(b: Bundle) {
    ValidateCrossNamespaceDeployment(b.spec, b.namespace).None?
  }

  /** The reconcile reaches the registry. */
  predicate Polls(st: State, a: Answers) {
    && a.get.Found? && !st.bundle.deleting
    && Validated(st.bundle)
    && AccountComplaint(st.bundle, a.account).None?
  }

  /** From the registry's answer on, whatever has been written before. */
  lemma PollEnds(st: State, a: Answers, faultless: bool, q: (Status, Outcome) -> bool)
    requires Polls(st, a)
    requires !faultless ==> q(st.bundle.status, Errored)
                            && q(st.bundle.status.(resolvedTargetNamespace := st.Target()), Errored)
    requires SchemaAccepts(st.bundle.status)
    requires var s := st.bundle.status.(resolvedTargetNamespace := st.Target());
             Ends(PlanPoll(st.bundle.(finalizer := true, status := s), st.history.listed, st.jobs, a), s, faultless, q)
    ensures Ends(PlanReconcile(st, a), st.bundle.status, faultless, q)
  {
    var s := st.bundle.status.(resolvedTargetNamespace := st.Target());
    var b := st.bundle.(finalizer := true);
    var settled := b.(status := s);
    assert AccountComplaint(settled, a.account) == AccountComplaint(st.bundle, a.account);
    assert PlanAccount(settled, st.history.listed, st.jobs, a) == PlanPoll(settled, st.history.listed, st.jobs, a);
    assert Ends(PlanValidated(b, st.history.listed, st.jobs, a), b.status, faultless, q) by {
      if b.status.resolvedTargetNamespace == st.Target() {
        assert settled == b;
      }
    }
    if st.bundle.finalizer {
      assert b == st.bundle;
    }
  }

  // No stranded Syncing.

  predicate WaitsForNextPoll(a: Answers) {
    a.registry.NotModified? || (a.registry.Tags? && a.registry.tags == [])
  }

  predicate WakesUp(st: State, a: Answers) {
    && AccountComplaint(st.bundle, a.account).None?
    && (WaitsForNextPoll(a) ==>
          NextPoll(st.bundle.spec, a.draw).Returned? && NextPoll(st.bundle.spec, a.draw).requeueAfter > 0)
  }

  /** How a reconcile may end: Syncing is requeued exactly if it wakes up; only a poll or a build panics. */
  predicate Requeues(st: State, a: Answers, s: Status, outcome: Outcome) {
    && (outcome.Returned? && s.phase == PhaseSyncing ==> (outcome.requeueAfter > 0 <==> WakesUp(st, a)))
    && (outcome.Panicked? ==>
          && AccountComplaint(st.bundle, a.account).None?
          && (WaitsForNextPoll(a) ==> NextPoll(st.bundle.spec, a.draw).Panicked?))
  }

  /**
   * A reconcile that ends without error and leaves the bundle Syncing asks to be called again,
   * except when it dropped the error of its ServiceAccount write or drew no positive delay.
   */
  lemma SyncingIsRequeuedExactly(st: State, a: Answers, outcomes: seq<WriteOutcome>)
    requires a.get.Found? && !st.bundle.deleting && SchemaAccepts(st.bundle.status)
    ensures var (st', outcome) := Perform(PlanReconcile(st, a), st, outcomes);
            Requeues(st, a, st'.bundle.status, outcome)
  {
    var q := (s: Status, outcome: Outcome) => Requeues(st, a, s, outcome);
    hide PlanPoll, PlanReconcile;
    if Polls(st, a) {
      var s := st.bundle.status.(resolvedTargetNamespace := st.Target());
      var b := st.bundle.(finalizer := true, status := s);
      PollWakes(st, b, a, q);
      PollEnds(st, a, false, q);
    } else {
      RefusalWakes(st, a, q);
    }
    PerformEnds(PlanReconcile(st, a), st, outcomes, false, q);
  }

  lemma RefusalWakes(st: State, a: Answers, q: (Status, Outcome) -> bool)
    requires a.get.Found? && !st.bundle.deleting && !Polls(st, a)
    requires forall s, outcome :: q(s, outcome) <==> Requeues(st, a, s, outcome)
    ensures Ends(PlanReconcile(st, a), st.bundle.status, false, q)
  {
    hide PlanAccount, Requeues;
    var b := st.bundle.(finalizer := true);
    var settled := b.(status := b.status.(resolvedTargetNamespace := st.Target()));
    RefusalEnds(st, a, q);
    if Validated(st.bundle) {
      ComplaintWakes(st, b, a, q);
      ComplaintWakes(st, settled, a, q);
    }
    assert Ends(PlanValidated(b, st.history.listed, st.jobs, a), b.status, false, q);
    assert st.bundle.finalizer ==> b == st.bundle;
  }

  lemma RefusalEnds(st: State, a: Answers, q: (Status, Outcome) -> bool)
    requires forall s, outcome :: q(s, outcome) <==> Requeues(st, a, s, outcome)
    ensures forall s :: q(s, Errored)
    ensures forall s: Status :: s.phase != PhaseSyncing ==> q(s, Returned(0))
    ensures AccountComplaint(st.bundle, a.account).Some? ==> forall s :: q(s, Returned(0))
  {
  }

  lemma ComplaintWakes(st: State, b: Bundle, a: Answers, q: (Status, Outcome) -> bool)
    requires b.spec == st.bundle.spec && b.namespace == st.bundle.namespace
    requires AccountComplaint(st.bundle, a.account).Some?
    requires forall s, outcome :: q(s, outcome) <==> Requeues(st, a, s, outcome)
    ensures Ends(PlanAccount(b, st.history.listed, st.jobs, a), b.status, false, q)
  {
    hide PlanPoll, Requeues;
    RefusalEnds(st, a, q);
    assert AccountComplaint(b, a.account) == AccountComplaint(st.bundle, a.account);
  }

  lemma PollWakes(st: State, b: Bundle, a: Answers, q: (Status, Outcome) -> bool)
    requires b.spec == st.bundle.spec && AccountComplaint(st.bundle, a.account).None?
    requires forall s, outcome :: q(s, outcome) <==> Requeues(st, a, s, outcome)
    ensures Ends(PlanPoll(b, st.history.listed, st.jobs, a), b.status, false, q)
  {
    hide PlanJob;
    match a.registry
    case NotModified =>
    case RegistryError(text) =>
      if b.status.consecutiveFailures + 1 <= 5 {
        Backoff.BackoffIsIdeal(b.status.consecutiveFailures + 1);
      }
    case Tags(tags, etag) =>
      var polled := b.(status := b.status.(consecutiveFailures := 0, lastETag := etag));
      if tags != [] && polled.status.lastAppliedTag != tags[|tags| - 1] {
        JobWakes(st, b.status, polled, tags, a, q);
      }
      assert Ends(PlanTags(polled, st.jobs, tags, a), b.status, false, q);
  }

  lemma JobWakes(st: State, s: Status, b: Bundle, tags: seq<string>, a: Answers, q: (Status, Outcome) -> bool)
    requires tags != [] && WakesUp(st, a) && !WaitsForNextPoll(a)
    requires forall s, outcome :: q(s, outcome) <==> Requeues(st, a, s, outcome)
    ensures Ends(PlanJob(b, Some(tags), st.jobs, tags[|tags| - 1], a), s, false, q)
  {
    var latest := tags[|tags| - 1];
    var b' := b.(status := b.status.(activeJobName := ""));
    LaunchWakes(st, s, b, tags, a, q);
    LaunchWakes(st, s, b', tags, a, q);
  }

  lemma LaunchWakes(st: State, s: Status, b: Bundle, tags: seq<string>, a: Answers, q: (Status, Outcome) -> bool)
    requires tags != [] && WakesUp(st, a) && !WaitsForNextPoll(a)
    requires forall s, outcome :: q(s, outcome) <==> Requeues(st, a, s, outcome)
    ensures Ends(PlanLaunch(b, Some(tags), tags[|tags| - 1], a), s, false, q)
  {
    var latest := tags[|tags| - 1];
    var t := MarkSyncing(b.status, latest);
    if a.build.Built? {
      var failed := MarkFailed(t, "Failed to create Job: " + a.createError);
      assert Ends(Put(CreateFailure, failed, Some(tags), Errored, Stop(Returned(0))), t, false, q);
    }
    assert Ends(PlanCreate(b.(status := t), Some(tags), latest, a), t, false, q);
  }

  // A 200 answer: what it resets and what it records.

  function ActiveKey(st: State): JobKey {
    JobKey(st.Target(), st.bundle.status.activeJobName)
  }

  /** The controller finds a Job under the active name in the target namespace. */
  predicate FindsJob(st: State) {
    st.bundle.status.activeJobName != "" && ActiveKey(st) in st.jobs
  }

  predicate IsRecorded(st: State, tags: seq<string>) {
    tags != [] && st.bundle.status.lastAppliedTag == tags[|tags| - 1]
  }

  /** The branches that return without writing anything although the status is not Synced and done. */
  predicate WritesNothing(st: State, tags: seq<string>) {
    if tags == [] then st.bundle.status.phase == PhaseSyncing || st.bundle.status.phase == PhaseSynced
    else !IsRecorded(st, tags) && FindsJob(st) && !st.jobs[ActiveKey(st)].Finished()
  }

  /** Synced is recorded for the greatest tag when it was recorded before, or when some Job succeeded. */
  predicate RecordsSynced(st: State, tags: seq<string>) {
    IsRecorded(st, tags) || (tags != [] && FindsJob(st) && st.jobs[ActiveKey(st)].succeeded > 0)
  }

  /** The status in which a reconcile that polled successfully returns. */
  predicate AnsweredWell(st: State, tags: seq<string>, s: Status) {
    && (s.consecutiveFailures == 0 <==> st.bundle.status.consecutiveFailures == 0 || !WritesNothing(st, tags))
    && (tags != [] ==>
          (s.phase == PhaseSynced && s.lastAppliedTag == tags[|tags| - 1] <==> RecordsSynced(st, tags)))
  }

  /**
   * A 200 resets the stored failure counter except on the branches that write nothing, and marks
   * its greatest tag Synced in exactly two cases, only the second of which looks at a Job.
   */
  lemma AnswerIsRecordedExactly(st: State, a: Answers, outcomes: seq<WriteOutcome>)
    requires Consistent(st.bundle.status) && Polls(st, a) && a.registry.Tags?
    ensures var (st', outcome) := Perform(PlanReconcile(st, a), st, outcomes);
            outcome.Returned? ==> AnsweredWell(st, a.registry.tags, st'.bundle.status)
  {
    var tags := a.registry.tags;
    var q := (s: Status, outcome: Outcome) => outcome.Returned? ==> AnsweredWell(st, tags, s);
    var s := st.bundle.status.(resolvedTargetNamespace := st.Target());
    var b := st.bundle.(finalizer := true, status := s);
    var polled := b.(status := s.(consecutiveFailures := 0, lastETag := a.registry.etag));
    assert Ends(PlanTags(polled, st.jobs, tags, a), s, false, q) by {
      if tags != [] && !IsRecorded(st, tags) {
        JobAnswers(st, s, polled, tags, a, q);
      }
    }
    PollEnds(st, a, false, q);
    PerformEnds(PlanReconcile(st, a), st, outcomes, false, q);
  }

  lemma JobAnswers(st: State, s: Status, b: Bundle, tags: seq<string>, a: Answers, q: (Status, Outcome) -> bool)
    requires forall s, outcome :: q(s, outcome) <==> (outcome.Returned? ==> AnsweredWell(st, tags, s))
    requires tags != [] && !IsRecorded(st, tags)
    requires s == st.bundle.status.(resolvedTargetNamespace := st.Target())
    requires b.spec == st.bundle.spec && b.namespace == st.bundle.namespace
    requires b.status == s.(consecutiveFailures := 0, lastETag := b.status.lastETag)
    ensures Ends(PlanJob(b, Some(tags), st.jobs, tags[|tags| - 1], a), s, false, q)
  {
    hide PlanLaunch;
    if !FindsJob(st) {
      LaunchAnswers(st, s, b, tags, a, q);
      LaunchAnswers(st, s, b.(status := b.status.(activeJobName := "")), tags, a, q);
    }
  }

  lemma LaunchAnswers(st: State, s: Status, b: Bundle, tags: seq<string>, a: Answers, q: (Status, Outcome) -> bool)
    requires forall s, outcome :: q(s, outcome) <==> (outcome.Returned? ==> AnsweredWell(st, tags, s))
    requires tags != [] && b.status.consecutiveFailures == 0
    requires !RecordsSynced(st, tags) && !WritesNothing(st, tags)
    ensures Ends(PlanLaunch(b, Some(tags), tags[|tags| - 1], a), s, false, q)
  {
    var t := MarkSyncing(b.status, tags[|tags| - 1]);
    if a.build.Built? {
      var failed := MarkFailed(t, "Failed to create Job: " + a.createError);
      assert Ends(Put(CreateFailure, failed, Some(tags), Errored, Stop(Returned(0))), t, false, q);
    }
    assert Ends(PlanCreate(b.(status := t), Some(tags), tags[|tags| - 1], a), t, false, q);
  }

  // Convergence: the same tag list, answered often enough.

  /** Nothing but the Jobs stands between the bundle and a deployment of the listed tags. */
  predicate Healthy(st: State, a: Answers, tags: seq<string>) {
    Polls(st, a) && a.registry.Tags? && a.registry.tags == tags && tags != [] && !a.jobUnreadable
  }

  /** A reconcile changes no specification and deletes nothing. */
  lemma {:induction false} PerformKeepsSpec(plan: Plan, st: State, outcomes: seq<WriteOutcome>)
    ensures Perform(plan, st, outcomes).0.bundle
            == st.bundle.(status := Perform(plan, st, outcomes).0.bundle.status,
                          finalizer := Perform(plan, st, outcomes).0.bundle.finalizer)
    decreases plan
  {
    match plan
    case Stop(_) =>
    case Put(site, s, listed, onError, next) =>
      var (st', ok) := PutStatus(st, NextOutcome(outcomes), site, s, listed);
      if ok {
        PerformKeepsSpec(next, st', LaterOutcomes(outcomes));
      }
    case Finalize(present, next) =>
      var (st', ok) := PutFinalizer(st, NextOutcome(outcomes), present);
      if ok {
        PerformKeepsSpec(next, st', LaterOutcomes(outcomes));
      }
    case Read(tags, next) => PerformKeepsSpec(next, Polled(st, tags), outcomes);
    case Launch(key, tag, onCreated, onFailed) =>
      var (st', ok) := CreateJob(st, NextOutcome(outcomes), key, tag);
      PerformKeepsSpec(if ok then onCreated else onFailed, st', LaterOutcomes(outcomes));
  }

  /** Once the tag is recorded, one reconcile marks it Synced, whatever its Job is doing. */
  lemma RecordedBecomesSynced(st: State, a: Answers, tags: seq<string>)
    requires Healthy(st, a, tags) && Consistent(st.bundle.status) && IsRecorded(st, tags)
    ensures var s := Step(st, Reconcile(a, [])).bundle.status;
            s.phase == PhaseSynced && s.lastAppliedTag == tags[|tags| - 1] && s.consecutiveFailures == 0
  {
    var q := (s: Status, outcome: Outcome) =>
      s.phase == PhaseSynced && s.lastAppliedTag == tags[|tags| - 1] && s.consecutiveFailures == 0;
    PollEnds(st, a, true, q);
    PerformEnds(PlanReconcile(st, a), st, [], true, q);
  }

  /** With no active Job, one reconcile records the tag, even if no Job comes of it. */
  lemma IdleBecomesRecorded(st: State, a: Answers, tags: seq<string>)
    requires Healthy(st, a, tags) && Consistent(st.bundle.status)
    requires st.bundle.status.activeJobName == ""
    ensures IsRecorded(Step(st, Reconcile(a, [])), tags)
  {
    var latest := tags[|tags| - 1];
    var q := (s: Status, outcome: Outcome) => s.lastAppliedTag == latest;
    var s := st.bundle.status.(resolvedTargetNamespace := st.Target());
    var b := st.bundle.(finalizer := true,
                        status := s.(consecutiveFailures := 0, lastETag := a.registry.etag));
    LaunchRecords(s, b, tags, a, q);
    PollEnds(st, a, true, q);
    PerformEnds(PlanReconcile(st, a), st, [], true, q);
  }

  lemma LaunchRecords(s: Status, b: Bundle, tags: seq<string>, a: Answers, q: (Status, Outcome) -> bool)
    requires tags != [] && tags[|tags| - 1] != "" && b.status.consecutiveFailures == 0
    requires forall t: Status, outcome :: t.lastAppliedTag == tags[|tags| - 1] && t.phase != PhaseSynced ==> q(t, outcome)
    ensures Ends(PlanLaunch(b, Some(tags), tags[|tags| - 1], a), s, true, q)
  {
    var t := MarkSyncing(b.status, tags[|tags| - 1]);
    if a.build.Built? {
      var failed := MarkFailed(t, "Failed to create Job: " + a.createError);
      assert Ends(Put(CreateFailure, failed, Some(tags), Errored, Stop(Returned(0))), t, true, q);
    }
    assert Ends(PlanCreate(b.(status := t), Some(tags), tags[|tags| - 1], a), t, true, q);
  }

  /** An active Job that is not running is let go or makes room for a new one. */
  lemma StoppedBecomesIdle(st: State, a: Answers, tags: seq<string>)
    requires Healthy(st, a, tags) && Consistent(st.bundle.status)
    requires FindsJob(st) ==> st.jobs[ActiveKey(st)].Finished()
    ensures var st' := Step(st, Reconcile(a, [])); IsRecorded(st', tags) || st'.bundle.status.activeJobName == ""
  {
    var latest := tags[|tags| - 1];
    var q := (s: Status, outcome: Outcome) => s.lastAppliedTag == latest || s.activeJobName == "";
    var s := st.bundle.status.(resolvedTargetNamespace := st.Target());
    var b := st.bundle.(finalizer := true,
                        status := s.(consecutiveFailures := 0, lastETag := a.registry.etag));
    LaunchRecords(s, b, tags, a, q);
    LaunchRecords(s, b.(status := b.status.(activeJobName := "")), tags, a, q);
    PollEnds(st, a, true, q);
    PerformEnds(PlanReconcile(st, a), st, [], true, q);
  }

  /** The Jobs run and disappear as they like. */
  predicate JobMoves(events: seq<Event>) {
    forall i :: 0 <= i < |events| ==> events[i].RunJob? || events[i].RemoveJob?
  }

  lemma {:induction false} JobMovesKeepBundle(st: State, events: seq<Event>)
    requires JobMoves(events)
    ensures Run(st, events).bundle == st.bundle
    decreases |events|
  {
    if events != [] {
      JobMovesKeepBundle(Step(st, events[0]), events[1..]);
    }
  }

  /** A healthy reconcile, then Job moves. */
  function Round(a: Answers, moves: seq<Event>): seq<Event> {
    [Reconcile(a, [])] + moves
  }

  lemma RoundKeeps(st: State, a: Answers, moves: seq<Event>)
    requires Inv(st) && JobMoves(moves)
    ensures Run(st, Round(a, moves)) == Run(Step(st, Reconcile(a, [])), moves)
    ensures Run(st, Round(a, moves)).bundle == Step(st, Reconcile(a, [])).bundle
    ensures Inv(Run(st, Round(a, moves)))
    ensures forall a', tags :: Healthy(st, a', tags) ==> Healthy(Run(st, Round(a, moves)), a', tags)
  {
    hide Inv, PlanReconcile;
    RunConcat(st, [Reconcile(a, [])], moves);
    RunOne(st, Reconcile(a, []));
    JobMovesKeepBundle(Step(st, Reconcile(a, [])), moves);
    RunKeeps(st, Round(a, moves));
    PerformKeepsSpec(PlanReconcile(st, a), st, []);
    forall a', tags | Healthy(st, a', tags)
      ensures Healthy(Run(st, Round(a, moves)), a', tags)
    {
      HealthyByBundle(st, Run(st, Round(a, moves)), a', tags);
    }
  }

  lemma HealthyByBundle(st: State, st': State, a: Answers, tags: seq<string>)
    requires Healthy(st, a, tags)
    requires st'.bundle.spec == st.bundle.spec && st'.bundle.namespace == st.bundle.namespace
    requires st'.bundle.deleting == st.bundle.deleting
    ensures Healthy(st', a, tags)
  {
    assert AccountComplaint(st'.bundle, a.account) == AccountComplaint(st.bundle, a.account);
  }

  /** Synced on the greatest tag with the counter reset. */
  predicate SyncedOn(s: Status, tags: seq<string>) {
    tags != [] && s.phase == PhaseSynced && s.lastAppliedTag == tags[|tags| - 1] && s.consecutiveFailures == 0
  }

  /**
   * Eventual consistency: when the tracked Job is not running, three acknowledged reconciles of
   * the same tag list end Synced on its greatest tag, whatever becomes of builds, creations and
   * Jobs, also between the reconciles.
   */
  lemma ThreeReconcilesConverge(st: State, tags: seq<string>, first: Answers, second: Answers, third: Answers,
                                moves: seq<Event>, moves': seq<Event>)
    requires Inv(st) && JobMoves(moves) && JobMoves(moves')
    requires Healthy(st, first, tags) && Healthy(st, second, tags) && Healthy(st, third, tags)
    requires FindsJob(st) ==> st.jobs[ActiveKey(st)].Finished()
    ensures SyncedOn(Run(st, Round(first, moves) + (Round(second, moves') + [Reconcile(third, [])])).bundle.status, tags)
  {
    hide PlanReconcile, Inv, Healthy, Round;
    var st1 := Run(st, Round(first, moves));
    var st2 := Run(st1, Round(second, moves'));
    assert Consistent(st.bundle.status) by { InvIsConsistent(st); }
    StoppedBecomesIdle(st, first, tags);
    RoundKeeps(st, first, moves);
    RoundKeeps(st1, second, moves');
    InvIsConsistent(st1);
    InvIsConsistent(st2);
    assert tags != [] by { HealthyHasTags(st, first, tags); }
    if IsRecorded(st1, tags) {
      RecordedBecomesSynced(st1, second, tags);
    } else {
      IdleBecomesRecorded(st1, second, tags);
    }
    RecordedBecomesSynced(st2, third, tags);
    RunConcat(st, Round(first, moves), Round(second, moves') + [Reconcile(third, [])]);
    RunConcat(st1, Round(second, moves'), [Reconcile(third, [])]);
    RunOne(st2, Reconcile(third, []));
  }

  lemma InvIsConsistent(st: State)
    requires Inv(st)
    ensures Consistent(st.bundle.status)
  {
  }

  lemma HealthyHasTags(st: State, a: Answers, tags: seq<string>)
    requires Healthy(st, a, tags)
    ensures tags != []
  {
  }

  /** The case that costs a third reconcile: the newest tag is unrecorded and the active Job has failed. */
  predicate FailedInTheWay(st: State, tags: seq<string>) {
    && !IsRecorded(st, tags) && FindsJob(st)
    && st.jobs[ActiveKey(st)].failed > 0 && st.jobs[ActiveKey(st)].succeeded == 0
  }

  lemma UnlessFailedBecomesRecorded(st: State, a: Answers, tags: seq<string>)
    requires Healthy(st, a, tags) && Consistent(st.bundle.status)
    requires FindsJob(st) ==> st.jobs[ActiveKey(st)].Finished()
    requires !FailedInTheWay(st, tags)
    ensures IsRecorded(Step(st, Reconcile(a, [])), tags)
  {
    var latest := tags[|tags| - 1];
    var q := (s: Status, outcome: Outcome) => s.lastAppliedTag == latest;
    var s := st.bundle.status.(resolvedTargetNamespace := st.Target());
    var b := st.bundle.(finalizer := true,
                        status := s.(consecutiveFailures := 0, lastETag := a.registry.etag));
    LaunchRecords(s, b, tags, a, q);
    LaunchRecords(s, b.(status := b.status.(activeJobName := "")), tags, a, q);
    PollEnds(st, a, true, q);
    PerformEnds(PlanReconcile(st, a), st, [], true, q);
  }

  lemma FailedIsReleased(st: State, a: Answers, tags: seq<string>)
    requires Healthy(st, a, tags) && Consistent(st.bundle.status) && FailedInTheWay(st, tags)
    ensures var st' := Step(st, Reconcile(a, [])); !IsRecorded(st', tags) && st'.bundle.status.activeJobName == ""
  {
    var q := (s: Status, outcome: Outcome) =>
      s.activeJobName == "" && s.lastAppliedTag == st.bundle.status.lastAppliedTag;
    PollEnds(st, a, true, q);
    PerformEnds(PlanReconcile(st, a), st, [], true, q);
  }

  /** Recording a tag is one reconcile short of Synced. */
  lemma IdleIsNotYetSynced(st: State, a: Answers, tags: seq<string>)
    requires Healthy(st, a, tags) && Consistent(st.bundle.status) && !IsRecorded(st, tags)
    requires st.bundle.status.activeJobName == ""
    ensures Step(st, Reconcile(a, [])).bundle.status.phase != PhaseSynced
  {
    var q := (s: Status, outcome: Outcome) => s.phase != PhaseSynced;
    var s := st.bundle.status.(resolvedTargetNamespace := st.Target());
    var b := st.bundle.(finalizer := true,
                        status := s.(consecutiveFailures := 0, lastETag := a.registry.etag));
    LaunchRecords(s, b, tags, a, q);
    PollEnds(st, a, true, q);
    PerformEnds(PlanReconcile(st, a), st, [], true, q);
  }

  /** Two reconciles are enough exactly when no failed Job is in the way. */
  lemma TwoReconcilesConvergeExactly(st: State, tags: seq<string>, first: Answers, second: Answers, moves: seq<Event>)
    requires Inv(st) && JobMoves(moves)
    requires Healthy(st, first, tags) && Healthy(st, second, tags)
    requires FindsJob(st) ==> st.jobs[ActiveKey(st)].Finished()
    ensures SyncedOn(Run(st, Round(first, moves) + [Reconcile(second, [])]).bundle.status, tags)
            <==> !FailedInTheWay(st, tags)
  {
    hide PlanReconcile, Inv, Healthy, Round;
    var st1 := Run(st, Round(first, moves));
    InvIsConsistent(st);
    RoundKeeps(st, first, moves);
    InvIsConsistent(st1);
    HealthyHasTags(st, first, tags);
    if FailedInTheWay(st, tags) {
      FailedIsReleased(st, first, tags);
      IdleIsNotYetSynced(st1, second, tags);
    } else {
      UnlessFailedBecomesRecorded(st, first, tags);
      RecordedBecomesSynced(st1, second, tags);
    }
    RunConcat(st, Round(first, moves), [Reconcile(second, [])]);
    RunOne(st1, Reconcile(second, []));
  }

  /** And then nothing is written any more: a settled bundle is left alone, whatever would have failed. */
  lemma SettledIsLeftAlone(st: State, a: Answers, tags: seq<string>, outcomes: seq<WriteOutcome>)
    requires Healthy(st, a, tags) && IsRecorded(st, tags)
    requires st.bundle.status.phase == PhaseSynced && st.bundle.finalizer
    requires st.bundle.status.resolvedTargetNamespace == st.Target()
    ensures Perform(PlanReconcile(st, a), st, outcomes) == (Polled(st, tags), Returned(0))
  {
  }

  // Synced says nothing about a Job.

  /** A plan that never reaches a Job creation. */
  ghost predicate Launchless(plan: Plan)
    decreases plan
  {
    match plan
    case Stop(_) => true
    case Put(_, _, _, _, next) => Launchless(next)
    case Finalize(_, next) => Launchless(next)
    case Read(_, next) => Launchless(next)
    case Launch(_, _, _, _) => false
  }

  lemma {:induction false} LaunchlessKeepsJobs(plan: Plan, st: State, outcomes: seq<WriteOutcome>)
    requires Launchless(plan)
    ensures Perform(plan, st, outcomes).0.jobs == st.jobs
    ensures Perform(plan, st, outcomes).0.history.created == st.history.created
    decreases plan
  {
    match plan
    case Stop(_) =>
    case Put(site, s, listed, onError, next) =>
      var (st', ok) := PutStatus(st, NextOutcome(outcomes), site, s, listed);
      if ok {
        LaunchlessKeepsJobs(next, st', LaterOutcomes(outcomes));
      }
    case Finalize(present, next) =>
      var (st', ok) := PutFinalizer(st, NextOutcome(outcomes), present);
      if ok {
        LaunchlessKeepsJobs(next, st', LaterOutcomes(outcomes));
      }
    case Read(tags, next) => LaunchlessKeepsJobs(next, Polled(st, tags), outcomes);
  }

  /** A failed build leaves the tag recorded, and the next poll calls it Synced: no Job ever existed. */
  lemma SyncedWithoutAnyJob(st: State, tags: seq<string>, first: Answers, second: Answers)
    requires Fresh(st)
    requires Healthy(st, first, tags) && first.build.BuildError?
    requires Healthy(st, second, tags)
    ensures var end := Run(st, [Reconcile(first, []), Reconcile(second, [])]);
            && end.bundle.status.phase == PhaseSynced
            && end.bundle.status.lastAppliedTag == tags[|tags| - 1]
            && end.jobs == map[] && end.history.created == 0
  {
    hide PlanReconcile;
    var e1, e2 := Reconcile(first, []), Reconcile(second, []);
    var st1 := Step(st, e1);
    BuildErrorIsLaunchless(st, first);
    LaunchlessKeepsJobs(PlanReconcile(st, first), st, []);
    PerformKeepsSpec(PlanReconcile(st, first), st, []);
    IdleBecomesRecorded(st, first, tags);
    StepKeeps(st, e1);
    assert Launchless(PlanReconcile(st1, second)) by {
      RecordedIsLaunchless(st1, second, tags);
    }
    LaunchlessKeepsJobs(PlanReconcile(st1, second), st1, []);
    RecordedBecomesSynced(st1, second, tags);
    assert [e1, e2][1..] == [e2] && [e2][1..] == [];
    assert Run(st1, [e2]) == Run(Step(st1, e2), []);
  }

  lemma BuildErrorIsLaunchless(st: State, a: Answers)
    requires a.build.BuildError?
    ensures Launchless(PlanReconcile(st, a))
  {
    hide PlanPoll;
    var b, listed, jobs := st.bundle.(finalizer := true), st.history.listed, st.jobs;
    var settled := b.(status := b.status.(resolvedTargetNamespace := st.Target()));
    PollIsLaunchless(b, listed, jobs, a);
    PollIsLaunchless(settled, listed, jobs, a);
    assert Launchless(PlanAccount(b, listed, jobs, a));
    assert Launchless(PlanAccount(settled, listed, jobs, a));
    assert Launchless(PlanValidated(b, listed, jobs, a));
    assert st.bundle.finalizer ==> b == st.bundle;
  }

  lemma PollIsLaunchless(b: Bundle, listed: Option<seq<string>>, jobs: map<JobKey, Job>, a: Answers)
    requires a.build.BuildError?
    ensures Launchless(PlanPoll(b, listed, jobs, a))
  {
    hide PlanTags;
    if a.registry.Tags? {
      var s := b.status.(consecutiveFailures := 0, lastETag := a.registry.etag);
      TagsAreLaunchless(b.(status := s), jobs, a.registry.tags, a);
    }
  }

  lemma TagsAreLaunchless(b: Bundle, jobs: map<JobKey, Job>, tags: seq<string>, a: Answers)
    requires a.build.BuildError?
    ensures Launchless(PlanTags(b, jobs, tags, a))
  {
    forall b, listed, latest
      ensures Launchless(PlanLaunch(b, listed, latest, a))
    {
      assert Launchless(PlanCreate(b.(status := MarkSyncing(b.status, latest)), listed, latest, a));
    }
  }

  lemma RecordedIsLaunchless(st: State, a: Answers, tags: seq<string>)
    requires Healthy(st, a, tags) && IsRecorded(st, tags)
    ensures Launchless(PlanReconcile(st, a))
  {
    var s := st.bundle.status.(resolvedTargetNamespace := st.Target());
    assert Launchless(PlanPoll(st.bundle.(finalizer := true, status := s), st.history.listed, st.jobs, a));
    assert Launchless(PlanPoll(st.bundle.(finalizer := true), st.history.listed, st.jobs, a));
    assert Launchless(PlanValidated(st.bundle.(finalizer := true), st.history.listed, st.jobs, a));
  }
}
