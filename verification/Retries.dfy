/** Registry errors and unchanged answers: the retry chain ends, and what a 304 leaves behind stays behind. */
module Retries {
  import opened Wrappers
  import opened BundleTypes
  import opened Cluster
  import opened ReconcilePlan
  import opened Runs
  import opened Safety
  import opened Progress
  import Backoff

  // The retry chain.

  predicate SeesError(st: State, a: Answers) {
    Polls(st, a) && a.registry.RegistryError?
  }

  /** The outcome of a reconcile whose writes are all acknowledged. */
  function OutcomeOf(st: State, a: Answers): Outcome {
    Perform(PlanReconcile(st, a), st, []).1
  }

  /** By a delay or, as the manager calls again after an error, by an error. */
  predicate AsksForMore(st: State, a: Answers) {
    OutcomeOf(st, a).Errored? || (OutcomeOf(st, a).Returned? && OutcomeOf(st, a).requeueAfter > 0)
  }

  /**
   * A run in which writes succeed, the registry never answers 200, and every reconcile but a last
   * one was asked for by the one before. The environment may move in between.
   */
  ghost predicate SelfRequeued(st: State, events: seq<Event>)
    decreases |events|
  {
    events == [] ||
    (&& (events[0].Reconcile? ==>
           && events[0].outcomes == []
           && !events[0].answers.registry.Tags?
           && (events[1..] != [] ==> AsksForMore(st, events[0].answers)))
     && SelfRequeued(Step(st, events[0]), events[1..]))
  }

  ghost function ErrorsSeen(st: State, events: seq<Event>): nat
    decreases |events|
  {
    if events == [] then 0
    else
      (if events[0].Reconcile? && SeesError(st, events[0].answers) then 1 else 0)
      + ErrorsSeen(Step(st, events[0]), events[1..])
  }

  /** Total of the delays the erring reconciles asked for. */
  ghost function DelayAsked(st: State, events: seq<Event>): int
    decreases |events|
  {
    if events == [] then 0
    else
      (if events[0].Reconcile? && SeesError(st, events[0].answers) && OutcomeOf(st, events[0].answers).Returned?
       then OutcomeOf(st, events[0].answers).requeueAfter else 0)
      + DelayAsked(Step(st, events[0]), events[1..])
  }

  /** What one reconcile without a 200 does to the counter c. */
  ghost predicate Counts(c: nat, sees: bool, s: Status, outcome: Outcome) {
    if !sees then s.consecutiveFailures == c
    else
      && s.consecutiveFailures == c + 1
      && (if c < 5 then outcome == Returned(Backoff.CalculateBackoff(c + 1)) && s.phase == PhaseSyncing
          else outcome == Returned(0) && s.phase == PhaseFailed)
  }

  lemma ReconcileCounts(st: State, a: Answers)
    requires SchemaAccepts(st.bundle.status) && st.bundle.status.consecutiveFailures <= 5
    requires !a.registry.Tags?
    ensures var (st', outcome) := Perform(PlanReconcile(st, a), st, []);
            Counts(st.bundle.status.consecutiveFailures, SeesError(st, a), st'.bundle.status, outcome)
  {
    var c, sees := st.bundle.status.consecutiveFailures, SeesError(st, a);
    var q := (s: Status, outcome: Outcome) => Counts(c, sees, s, outcome);
    if Polls(st, a) {
      var s := st.bundle.status.(resolvedTargetNamespace := st.Target());
      var b := st.bundle.(finalizer := true, status := s);
      assert Ends(PlanPoll(b, st.history.listed, st.jobs, a), s, true, q);
      PollEnds(st, a, true, q);
    } else if a.get.Found? && !st.bundle.deleting {
      var b := st.bundle.(finalizer := true);
      assert Ends(PlanValidated(b, st.history.listed, st.jobs, a), b.status, true, q);
      assert st.bundle.finalizer ==> b == st.bundle;
    }
    PerformEnds(PlanReconcile(st, a), st, [], true, q);
  }

  /** The last event is a reconcile that asks for nothing. */
  ghost predicate EndsForGood(st: State, events: seq<Event>) {
    var n := |events|;
    && n > 0 && events[n - 1].Reconcile?
    && OutcomeOf(Run(st, events[..n - 1]), events[n - 1].answers) == Returned(0)
  }

  lemma EndsForGoodStep(st: State, events: seq<Event>)
    requires events != [] && EndsForGood(Step(st, events[0]), events[1..])
    ensures EndsForGood(st, events)
  {
    var n := |events|;
    assert events[..n - 1][0] == events[0] && events[..n - 1][1..] == events[1..][..n - 2];
    assert Run(st, events[..n - 1]) == Run(Step(st, events[0]), events[..n - 1][1..]);
  }

  /**
   * From counter c at most 6 - c reconciles of the chain see an error, for at most the delays
   * still in the budget; the one that uses it up stores Failed, asks for nothing and is the last.
   */
  lemma {:induction false} RetryChainEnds(st: State, events: seq<Event>)
    requires SchemaAccepts(st.bundle.status) && st.bundle.status.consecutiveFailures <= 5
    requires SelfRequeued(st, events)
    ensures var c := st.bundle.status.consecutiveFailures;
            && ErrorsSeen(st, events) <= 6 - c
            && DelayAsked(st, events) <= Backoff.TotalDelay(c + 1, 5) <= 1380 * Backoff.SECOND
            && (ErrorsSeen(st, events) == 6 - c ==>
                  var s := Run(st, events).bundle.status; s.phase == PhaseFailed && s.consecutiveFailures == 6)
            && (ErrorsSeen(st, events) == 6 - c ==> EndsForGood(st, events))
            && (ErrorsSeen(st, events) < 6 - c ==>
                  Run(st, events).bundle.status.consecutiveFailures == c + ErrorsSeen(st, events))
    decreases |events|
  {
    hide PlanReconcile;
    var c := st.bundle.status.consecutiveFailures;
    Backoff.RetryBudget();
    Backoff.TotalDelayShrinks(c + 1, 5);
    if events != [] {
      var e, rest := events[0], events[1..];
      var st' := Step(st, e);
      if e.Reconcile? {
        ReconcileCounts(st, e.answers);
        if SeesError(st, e.answers) && c == 5 {
          assert !AsksForMore(st, e.answers);
          assert rest == [];
          assert events[..0] == [];
        } else {
          RetryChainEnds(st', rest);
          if EndsForGood(st', rest) {
            EndsForGoodStep(st, events);
          }
        }
      } else {
        RetryChainEnds(st', rest);
        if EndsForGood(st', rest) {
          EndsForGoodStep(st, events);
        }
      }
    }
  }

  // A hidden tag stays hidden while the registry answers 304.

  /** No write of the plan touches what a 304 leaves in place. */
  ghost predicate Inert(plan: Plan, s: Status, listed: Option<seq<string>>)
    decreases plan
  {
    match plan
    case Stop(_) => true
    case Put(site, t, behind, _, next) =>
      && t.lastAppliedTag == s.lastAppliedTag
      && behind == listed
      && Inert(next, s, listed)
    case Finalize(_, next) => Inert(next, s, listed)
    case Read(_, _) => false
    case Launch(_, _, _, _) => false
  }

  ghost predicate Untouched(st: State, st': State) {
    && st'.bundle.status.lastAppliedTag == st.bundle.status.lastAppliedTag
    && st'.history.listed == st.history.listed
    && st'.history.created == st.history.created
  }

  lemma {:induction false} InertPlanTouchesNothing(plan: Plan, st: State, outcomes: seq<WriteOutcome>)
    requires Inert(plan, st.bundle.status, st.history.listed)
    ensures Untouched(st, Perform(plan, st, outcomes).0)
    decreases plan
  {
    match plan
    case Stop(_) =>
    case Put(site, s, listed, onError, next) =>
      var (st', ok) := PutStatus(st, NextOutcome(outcomes), site, s, listed);
      if ok {
        InertAgrees(next, st.bundle.status, s, listed);
        InertPlanTouchesNothing(next, st', LaterOutcomes(outcomes));
      }
    case Finalize(present, next) =>
      var (st', ok) := PutFinalizer(st, NextOutcome(outcomes), present);
      if ok {
        InertPlanTouchesNothing(next, st', LaterOutcomes(outcomes));
      }
  }

  lemma {:induction false} InertAgrees(plan: Plan, s: Status, t: Status, listed: Option<seq<string>>)
    requires Inert(plan, s, listed) && t.lastAppliedTag == s.lastAppliedTag
    ensures Inert(plan, t, listed)
    decreases plan
  {
    match plan
    case Stop(_) =>
    case Put(_, _, _, _, next) => InertAgrees(next, s, t, listed);
    case Finalize(_, next) => InertAgrees(next, s, t, listed);
  }

  /** Only 304 answers; all else may happen, edits and the request for deletion included. */
  predicate Unchanging(events: seq<Event>) {
    forall i :: 0 <= i < |events| && events[i].Reconcile? ==> events[i].answers.registry.NotModified?
  }

  lemma NotModifiedIsInert(st: State, a: Answers)
    requires a.registry.NotModified?
    ensures Inert(PlanReconcile(st, a), st.bundle.status, st.history.listed)
  {
    var b, s, listed := st.bundle.(finalizer := true), st.bundle.status, st.history.listed;
    var settled := b.(status := s.(resolvedTargetNamespace := st.Target()));
    assert Inert(PlanAccount(settled, listed, st.jobs, a), s, listed);
    assert Inert(PlanAccount(b, listed, st.jobs, a), s, listed);
    assert Inert(PlanValidated(b, listed, st.jobs, a), s, listed);
    assert st.bundle.finalizer ==> b == st.bundle;
  }

  /** Nor does a reconcile that does not get to the registry. */
  lemma NotPollingIsInert(st: State, a: Answers)
    requires !Polls(st, a)
    ensures Inert(PlanReconcile(st, a), st.bundle.status, st.history.listed)
  {
    hide PlanPoll;
    var b, s, listed := st.bundle.(finalizer := true), st.bundle.status, st.history.listed;
    var settled := b.(status := s.(resolvedTargetNamespace := st.Target()));
    if a.get.Found? && !st.bundle.deleting {
      assert AccountComplaint(settled, a.account) == AccountComplaint(b, a.account)
          == AccountComplaint(st.bundle, a.account);
      if Validated(st.bundle) {
        assert Inert(PlanAccount(settled, listed, st.jobs, a), s, listed);
        assert Inert(PlanAccount(b, listed, st.jobs, a), s, listed);
      }
      assert Inert(PlanValidated(b, listed, st.jobs, a), s, listed);
      assert st.bundle.finalizer ==> b == st.bundle;
    }
  }

  lemma {:induction false} HiddenTagStaysHidden(st: State, events: seq<Event>)
    requires Unchanging(events)
    ensures Untouched(st, Run(st, events))
    decreases |events|
  {
    if events != [] {
      if events[0].Reconcile? {
        NotModifiedIsInert(st, events[0].answers);
        InertPlanTouchesNothing(PlanReconcile(st, events[0].answers), st, events[0].outcomes);
      }
      HiddenTagStaysHidden(Step(st, events[0]), events[1..]);
    }
  }

  /** The state in which a reconcile without write errors consults the registry. */
  function AtPoll(st: State): State {
    st.(bundle := st.bundle.(finalizer := true,
                             status := st.bundle.status.(resolvedTargetNamespace := st.Target())))
  }

  lemma PerformFromPoll(st: State, a: Answers)
    requires Polls(st, a) && SchemaAccepts(st.bundle.status)
    ensures Perform(PlanReconcile(st, a), st, [])
            == Perform(PlanPoll(AtPoll(st).bundle, st.history.listed, st.jobs, a), AtPoll(st), [])
  {
    var b := st.bundle.(finalizer := true);
    var st1 := st.(bundle := b);
    var p := PlanPoll(AtPoll(st).bundle, st.history.listed, st.jobs, a);
    assert Perform(PlanReconcile(st, a), st, []) == Perform(PlanValidated(b, st.history.listed, st.jobs, a), st1, []) by {
      if st.bundle.finalizer {
        assert st1 == st;
      }
    }
    assert AccountComplaint(AtPoll(st).bundle, a.account).None?;
    if b.status.resolvedTargetNamespace != st.Target() {
      assert Stored(st1, Namespace, AtPoll(st).bundle.status, st.history.listed) == AtPoll(st);
    } else {
      assert AtPoll(st) == st1;
    }
  }

  lemma PutThenStop(st: State, site: Site, s: Status, listed: Option<seq<string>>, outcome: Outcome)
    requires SchemaAccepts(s)
    ensures Perform(Put(site, s, listed, Errored, Stop(outcome)), st, []) == (Stored(st, site, s, listed), outcome)
  {
  }

  /**
   * The way into the failed-Job exception: the active Job has failed when a newer tag is read.
   * The ETag of that list is stored, its tag is not.
   */
  lemma FailedJobHidesTag(st: State, a: Answers, tags: seq<string>)
    requires Healthy(st, a, tags) && Consistent(st.bundle.status) && !IsRecorded(st, tags)
    requires FindsJob(st) && st.jobs[ActiveKey(st)].failed > 0 && st.jobs[ActiveKey(st)].succeeded == 0
    ensures var st' := Step(st, Reconcile(a, []));
            && st'.history.listed == Some(tags)
            && st'.bundle.status.lastAppliedTag != tags[|tags| - 1]
            && st'.bundle.status.lastJobStatus == JobFailed
  {
    hide PlanReconcile, Polled;
    PerformFromPoll(st, a);
    var polled := Polled(AtPoll(st), tags);
    var s := AtPoll(st).bundle.status.(consecutiveFailures := 0, lastETag := a.registry.etag);
    var b := AtPoll(st).bundle.(status := s);
    var plan := PlanMonitor(b, Some(tags), st.jobs[ActiveKey(st)], tags[|tags| - 1], a);
    assert PlanTags(b, st.jobs, tags, a) == plan;
    assert Step(st, Reconcile(a, [])) == Perform(plan, polled, []).0;
    PutThenStop(polled, JobFailure, plan.status, Some(tags), Returned(0));
  }

  /** The way into the retry exception: the error text takes the place of the recorded tag. */
  lemma RetryOverwritesTag(st: State, a: Answers)
    requires SeesError(st, a) && Consistent(st.bundle.status) && st.bundle.status.consecutiveFailures < 5
    ensures var st' := Step(st, Reconcile(a, []));
            && st'.history.listed == st.history.listed
            && st'.bundle.status.lastAppliedTag
               == RetryMessage(st.bundle.status.consecutiveFailures + 1, a.registry.text)
            && st'.bundle.status.lastErrorMessage == ""
            && st'.bundle.status.consecutiveFailures == st.bundle.status.consecutiveFailures + 1
            && st'.bundle.status.activeJobName == st.bundle.status.activeJobName
            && st'.jobs == st.jobs && st'.history.retried && st'.history.retries == st.history.retries + 1
  {
    hide PlanReconcile;
    PerformFromPoll(st, a);
    var plan := PlanRetry(AtPoll(st).bundle, st.history.listed, a.registry.text, a);
    assert Perform(plan, AtPoll(st), []).0 == Stored(AtPoll(st), Retry, plan.status, st.history.listed);
  }

  /** The recorded tag is a new one, and no listed one. */
  predicate ForeignTag(st: State, st': State, a: Answers) {
    && st'.bundle.status.lastAppliedTag != st.bundle.status.lastAppliedTag
    && !(a.registry.Tags? && st'.bundle.status.lastAppliedTag in a.registry.tags)
  }

  /** A retryable error is met, and its message is not recorded already. */
  predicate RetriesAnew(st: State, a: Answers) {
    && SeesError(st, a)
    && var failures := st.bundle.status.consecutiveFailures;
       && failures < 5
       && st.bundle.status.lastAppliedTag != RetryMessage(failures + 1, a.registry.text)
  }

  /** Whatever becomes of the writes: something that is no listed tag is recorded by stored retries only. */
  lemma ForeignTagIsAStoredRetryExactly(st: State, a: Answers, outcomes: seq<WriteOutcome>)
    requires Consistent(st.bundle.status)
    ensures var st' := Step(st, Reconcile(a, outcomes));
            ForeignTag(st, st', a) <==> RetriesAnew(st, a) && st'.history.retries == st.history.retries + 1
  {
    hide PlanReconcile;
    if a.registry.NotModified? || !Polls(st, a) {
      if Polls(st, a) {
        NotModifiedIsInert(st, a);
      } else {
        NotPollingIsInert(st, a);
      }
      InertPlanTouchesNothing(PlanReconcile(st, a), st, outcomes);
    } else if a.registry.Tags? {
      TagsRecordOnlyTags(st, a, outcomes);
    } else if st.bundle.status.consecutiveFailures < 5 {
      var message := RetryMessage(st.bundle.status.consecutiveFailures + 1, a.registry.text);
      ErrorMovesTagInRetryOnly(st, a);
      PerformMovesTagInRetryOnly(PlanReconcile(st, a), st, outcomes, st.bundle.status.lastAppliedTag, message);
    } else {
      LastErrorsKeepTag(st, a, outcomes);
    }
  }

  /** With acknowledged writes every retryable error is such a retry. */
  lemma ForeignTagIsARetryExactly(st: State, a: Answers)
    requires Consistent(st.bundle.status)
    ensures ForeignTag(st, Step(st, Reconcile(a, [])), a) <==> RetriesAnew(st, a)
  {
    hide PlanReconcile;
    ForeignTagIsAStoredRetryExactly(st, a, []);
    if RetriesAnew(st, a) {
      RetryOverwritesTag(st, a);
    }
  }

  /** No write but the retry, and it the last, moves the recorded tag, and that to the message. */
  ghost predicate MovesTagInRetryOnly(plan: Plan, tag: string, message: string)
    decreases plan
  {
    match plan
    case Stop(_) => true
    case Put(site, s, _, _, next) =>
      if site == Retry then s.lastAppliedTag == message && next.Stop?
      else s.lastAppliedTag == tag && MovesTagInRetryOnly(next, tag, message)
    case Finalize(_, next) => MovesTagInRetryOnly(next, tag, message)
    case Read(_, _) => false
    case Launch(_, _, _, _) => false
  }

  lemma {:induction false} PerformMovesTagInRetryOnly(plan: Plan, st: State, outcomes: seq<WriteOutcome>,
                                                      tag: string, message: string)
    requires MovesTagInRetryOnly(plan, tag, message) && st.bundle.status.lastAppliedTag == tag
    ensures var st' := Perform(plan, st, outcomes).0;
            || (st'.history.retries == st.history.retries && st'.bundle.status.lastAppliedTag == tag)
            || (st'.history.retries == st.history.retries + 1 && st'.bundle.status.lastAppliedTag == message)
    decreases plan
  {
    match plan
    case Stop(_) =>
    case Put(site, s, listed, onError, next) =>
      var (st', ok) := PutStatus(st, NextOutcome(outcomes), site, s, listed);
      if ok && site != Retry {
        PerformMovesTagInRetryOnly(next, st', LaterOutcomes(outcomes), tag, message);
      }
    case Finalize(present, next) =>
      var (st', ok) := PutFinalizer(st, NextOutcome(outcomes), present);
      if ok {
        PerformMovesTagInRetryOnly(next, st', LaterOutcomes(outcomes), tag, message);
      }
  }

  lemma ErrorMovesTagInRetryOnly(st: State, a: Answers)
    requires SeesError(st, a) && st.bundle.status.consecutiveFailures < 5
    ensures MovesTagInRetryOnly(PlanReconcile(st, a), st.bundle.status.lastAppliedTag,
                                RetryMessage(st.bundle.status.consecutiveFailures + 1, a.registry.text))
  {
    hide RetryMessage;
    var tag := st.bundle.status.lastAppliedTag;
    var message := RetryMessage(st.bundle.status.consecutiveFailures + 1, a.registry.text);
    var b, listed := st.bundle.(finalizer := true), st.history.listed;
    var settled := b.(status := b.status.(resolvedTargetNamespace := st.Target()));
    assert AccountComplaint(settled, a.account) == AccountComplaint(b, a.account)
        == AccountComplaint(st.bundle, a.account);
    assert MovesTagInRetryOnly(PlanAccount(settled, listed, st.jobs, a), tag, message);
    assert MovesTagInRetryOnly(PlanAccount(b, listed, st.jobs, a), tag, message);
    assert MovesTagInRetryOnly(PlanValidated(b, listed, st.jobs, a), tag, message);
    assert st.bundle.finalizer ==> b == st.bundle;
  }

  lemma TagsRecordOnlyTags(st: State, a: Answers, outcomes: seq<WriteOutcome>)
    requires Consistent(st.bundle.status) && Polls(st, a) && a.registry.Tags?
    ensures !ForeignTag(st, Step(st, Reconcile(a, outcomes)), a)
  {
    hide PlanReconcile, PlanTags;
    var tags, tag := a.registry.tags, st.bundle.status.lastAppliedTag;
    var q := (s: Status, outcome: Outcome) =>
      s.lastAppliedTag == tag || (tags != [] && s.lastAppliedTag == tags[|tags| - 1]);
    var s := st.bundle.status.(resolvedTargetNamespace := st.Target());
    var b := st.bundle.(finalizer := true, status := s.(consecutiveFailures := 0, lastETag := a.registry.etag));
    TagsKeepOrRecord(s, b, st.jobs, tags, a, q);
    PollEnds(st, a, false, q);
    PerformEnds(PlanReconcile(st, a), st, outcomes, false, q);
  }

  lemma TagsKeepOrRecord(s: Status, b: Bundle, jobs: map<JobKey, Job>, tags: seq<string>, a: Answers,
                         q: (Status, Outcome) -> bool)
    requires b.status.consecutiveFailures == 0 && b.status.lastAppliedTag == s.lastAppliedTag
    requires tags != [] ==> tags[|tags| - 1] != ""
    requires forall t: Status, outcome :: t.lastAppliedTag == s.lastAppliedTag ==> q(t, outcome)
    requires forall t: Status, outcome :: tags != [] && t.lastAppliedTag == tags[|tags| - 1] ==> q(t, outcome)
    ensures Ends(PlanTags(b, jobs, tags, a), s, false, q)
  {
    hide PlanLaunch, NextPoll;
    if tags != [] {
      LaunchKeepsOrRecords(s, b, tags, a, q);
      LaunchKeepsOrRecords(s, b.(status := b.status.(activeJobName := "")), tags, a, q);
    }
  }

  lemma LaunchKeepsOrRecords(s: Status, b: Bundle, tags: seq<string>, a: Answers, q: (Status, Outcome) -> bool)
    requires tags != [] && tags[|tags| - 1] != "" && b.status.consecutiveFailures == 0
    requires forall t: Status, outcome :: t.lastAppliedTag == tags[|tags| - 1] ==> q(t, outcome)
    requires forall outcome :: q(s, outcome)
    ensures Ends(PlanLaunch(b, Some(tags), tags[|tags| - 1], a), s, false, q)
  {
    var t := MarkSyncing(b.status, tags[|tags| - 1]);
    if a.build.Built? {
      var failed := MarkFailed(t, "Failed to create Job: " + a.createError);
      assert Ends(Put(CreateFailure, failed, Some(tags), Errored, Stop(Returned(0))), t, false, q);
    }
    assert Ends(PlanCreate(b.(status := t), Some(tags), tags[|tags| - 1], a), t, false, q);
  }

  /** The sixth error gives up and further ones are refused; neither touches the recorded tag. */
  lemma LastErrorsKeepTag(st: State, a: Answers, outcomes: seq<WriteOutcome>)
    requires Consistent(st.bundle.status) && SeesError(st, a) && st.bundle.status.consecutiveFailures >= 5
    ensures Step(st, Reconcile(a, outcomes)).bundle.status.lastAppliedTag == st.bundle.status.lastAppliedTag
  {
    var q := (s: Status, outcome: Outcome) => s.lastAppliedTag == st.bundle.status.lastAppliedTag;
    PollEnds(st, a, false, q);
    PerformEnds(PlanReconcile(st, a), st, outcomes, false, q);
  }

  lemma SeesErrorByBundle(st: State, st': State, a: Answers)
    requires SeesError(st, a)
    requires st'.bundle.spec == st.bundle.spec && st'.bundle.namespace == st.bundle.namespace
    requires st'.bundle.deleting == st.bundle.deleting
    ensures SeesError(st', a)
  {
    assert AccountComplaint(st'.bundle, a.account) == AccountComplaint(st.bundle, a.account);
  }
}
