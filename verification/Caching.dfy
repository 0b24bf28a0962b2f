/** What is remembered of a tag list, and when a list is remembered whose greatest tag is not recorded. */
module Caching {
  import opened Wrappers
  import opened BundleTypes
  import opened Cluster
  import opened ReconcilePlan
  import opened Runs
  import opened Safety
  import opened Progress
  import opened Retries
  import opened Deployment

  /** The stored ETag and the tag list it came with. */
  datatype Known = Known(etag: string, listed: Option<seq<string>>)

  function KnownTo(st: State): Known {
    Known(st.bundle.status.lastETag, st.history.listed)
  }

  /** The three branches of a 200 that write nothing: no tags, nothing to do, and a running Job. */
  predicate Silent(st: State, tags: seq<string>) {
    WritesNothing(st, tags) || (IsRecorded(st, tags) && st.bundle.status.phase == PhaseSynced)
  }

  /** Every way the plan ends without error leaves the target known, `known` being known before. */
  ghost predicate EndsKnowing(plan: Plan, known: Known, target: Known)
    decreases plan
  {
    match plan
    case Stop(outcome) => outcome.Errored? || known == target
    case Put(_, s, listed, onError, next) =>
      onError.Errored? && SchemaAccepts(s) && EndsKnowing(next, Known(s.lastETag, listed), target)
    case Finalize(_, next) => EndsKnowing(next, known, target)
    case Read(_, next) => EndsKnowing(next, known, target)
    case Launch(_, _, onCreated, onFailed) =>
      EndsKnowing(onCreated, known, target) && EndsKnowing(onFailed, known, target)
  }

  lemma {:induction false} PerformEndsKnowing(plan: Plan, st: State, outcomes: seq<WriteOutcome>, target: Known)
    requires EndsKnowing(plan, KnownTo(st), target)
    ensures var (st', outcome) := Perform(plan, st, outcomes); outcome.Errored? || KnownTo(st') == target
    decreases plan
  {
    match plan
    case Stop(_) =>
    case Put(site, s, listed, onError, next) =>
      var (st', ok) := PutStatus(st, NextOutcome(outcomes), site, s, listed);
      if ok {
        PerformEndsKnowing(next, st', LaterOutcomes(outcomes), target);
      }
    case Finalize(present, next) =>
      var (st', ok) := PutFinalizer(st, NextOutcome(outcomes), present);
      if ok {
        PerformEndsKnowing(next, st', LaterOutcomes(outcomes), target);
      }
    case Read(tags, next) => PerformEndsKnowing(next, Polled(st, tags), outcomes, target);
    case Launch(key, tag, onCreated, onFailed) =>
      var (st', ok) := CreateJob(st, NextOutcome(outcomes), key, tag);
      PerformEndsKnowing(if ok then onCreated else onFailed, st', LaterOutcomes(outcomes), target);
  }

  lemma LaunchEndsKnowing(b: Bundle, known: Known, tags: seq<string>, latest: string, a: Answers)
    requires b.status.consecutiveFailures == 0
    ensures EndsKnowing(PlanLaunch(b, Some(tags), latest, a), known, Known(b.status.lastETag, Some(tags)))
  {
    var s := MarkSyncing(b.status, latest);
    var target := Known(b.status.lastETag, Some(tags));
    var plan := PlanCreate(b.(status := s), Some(tags), latest, a);
    if a.build.Built? {
      assert EndsKnowing(plan.onCreated, target, target) && EndsKnowing(plan.onFailed, target, target);
    }
    assert EndsKnowing(plan, target, target);
  }

  /**
   * A 200 that ends without error leaves its ETag and its list stored if and only if it is not
   * silent; a silent one leaves what was stored before.
   */
  lemma AnswerIsRememberedExactly(st: State, a: Answers, outcomes: seq<WriteOutcome>)
    requires SchemaAccepts(st.bundle.status) && Polls(st, a) && a.registry.Tags?
    ensures var (st', outcome) := Perform(PlanReconcile(st, a), st, outcomes);
            !outcome.Errored? ==>
              KnownTo(st') == if Silent(st, a.registry.tags) then KnownTo(st)
                              else Known(a.registry.etag, Some(a.registry.tags))
  {
    hide PlanPoll;
    var tags, known := a.registry.tags, KnownTo(st);
    var target := if Silent(st, tags) then known else Known(a.registry.etag, Some(tags));
    var b := st.bundle.(finalizer := true);
    var settled := b.(status := b.status.(resolvedTargetNamespace := st.Target()));
    assert AccountComplaint(settled, a.account) == AccountComplaint(b, a.account)
        == AccountComplaint(st.bundle, a.account);
    PollEndsKnowing(st, b, a);
    PollEndsKnowing(st, settled, a);
    assert EndsKnowing(PlanValidated(b, st.history.listed, st.jobs, a), known, target);
    assert st.bundle.finalizer ==> b == st.bundle;
    PerformEndsKnowing(PlanReconcile(st, a), st, outcomes, target);
  }

  lemma PollEndsKnowing(st: State, b: Bundle, a: Answers)
    requires a.registry.Tags? && b.spec == st.bundle.spec && b.namespace == st.bundle.namespace
    requires b.status == st.bundle.status.(resolvedTargetNamespace := b.status.resolvedTargetNamespace)
    ensures var tags := a.registry.tags;
            EndsKnowing(PlanPoll(b, st.history.listed, st.jobs, a), KnownTo(st),
                        if Silent(st, tags) then KnownTo(st) else Known(a.registry.etag, Some(tags)))
  {
    hide PlanLaunch;
    var tags := a.registry.tags;
    var polled := b.(status := b.status.(consecutiveFailures := 0, lastETag := a.registry.etag));
    if tags != [] && !IsRecorded(st, tags) && !FindsJob(st) {
      LaunchEndsKnowing(polled, KnownTo(st), tags, tags[|tags| - 1], a);
      LaunchEndsKnowing(polled.(status := polled.status.(activeJobName := "")), KnownTo(st), tags, tags[|tags| - 1], a);
    }
    var target := if Silent(st, tags) then KnownTo(st) else Known(a.registry.etag, Some(tags));
    assert EndsKnowing(PlanTags(polled, st.jobs, tags, a), KnownTo(st), target);
  }

  // When the list comes to be known but not its greatest tag.

  /** The stored list is this one, and its greatest tag is not recorded. */
  predicate Hides(st: State, tags: seq<string>) {
    tags != [] && st.history.listed == Some(tags) && !IsRecorded(st, tags)
  }

  /** The one state of affairs in which a reconcile comes to hide the tags it is told. */
  predicate MeetsFailedJob(st: State, a: Answers)
    requires a.registry.Tags?
  {
    Polls(st, a) && !a.jobUnreadable && a.registry.tags != [] && FailedInTheWay(st, a.registry.tags)
  }

  /** Every write of the plan that stores the list also records its greatest tag. */
  ghost predicate RecordsWhatItLists(plan: Plan, tags: seq<string>)
    requires tags != []
    decreases plan
  {
    match plan
    case Stop(_) => true
    case Put(_, s, listed, _, next) =>
      (listed == Some(tags) ==> s.lastAppliedTag == tags[|tags| - 1]) && RecordsWhatItLists(next, tags)
    case Finalize(_, next) => RecordsWhatItLists(next, tags)
    case Read(_, next) => RecordsWhatItLists(next, tags)
    case Launch(_, _, onCreated, onFailed) => RecordsWhatItLists(onCreated, tags) && RecordsWhatItLists(onFailed, tags)
  }

  lemma {:induction false} PerformHidesNothing(plan: Plan, st: State, outcomes: seq<WriteOutcome>, tags: seq<string>)
    requires tags != [] && RecordsWhatItLists(plan, tags) && !Hides(st, tags)
    ensures !Hides(Perform(plan, st, outcomes).0, tags)
    decreases plan
  {
    match plan
    case Stop(_) =>
    case Put(site, s, listed, onError, next) =>
      var (st', ok) := PutStatus(st, NextOutcome(outcomes), site, s, listed);
      if ok {
        PerformHidesNothing(next, st', LaterOutcomes(outcomes), tags);
      }
    case Finalize(present, next) =>
      var (st', ok) := PutFinalizer(st, NextOutcome(outcomes), present);
      if ok {
        PerformHidesNothing(next, st', LaterOutcomes(outcomes), tags);
      }
    case Read(read, next) => PerformHidesNothing(next, Polled(st, read), outcomes, tags);
    case Launch(key, tag, onCreated, onFailed) =>
      var (st', ok) := CreateJob(st, NextOutcome(outcomes), key, tag);
      PerformHidesNothing(if ok then onCreated else onFailed, st', LaterOutcomes(outcomes), tags);
  }

  /** Whatever becomes of the writes, a reconcile comes to hide the tags it is told only if it meets a failed Job. */
  lemma HidingNeedsFailedJob(st: State, a: Answers, outcomes: seq<WriteOutcome>)
    requires a.registry.Tags? && st.history.listed != Some(a.registry.tags)
    ensures Hides(Step(st, Reconcile(a, outcomes)), a.registry.tags) ==> MeetsFailedJob(st, a)
  {
    hide PlanReconcile;
    if a.registry.tags != [] && !MeetsFailedJob(st, a) {
      ReconcileRecordsWhatItLists(st, a);
      PerformHidesNothing(PlanReconcile(st, a), st, outcomes, a.registry.tags);
    }
  }

  lemma ReconcileRecordsWhatItLists(st: State, a: Answers)
    requires a.registry.Tags? && a.registry.tags != [] && st.history.listed != Some(a.registry.tags)
    requires !MeetsFailedJob(st, a)
    ensures RecordsWhatItLists(PlanReconcile(st, a), a.registry.tags)
  {
    hide PlanPoll;
    var tags, listed := a.registry.tags, st.history.listed;
    var b := st.bundle.(finalizer := true);
    var settled := b.(status := b.status.(resolvedTargetNamespace := st.Target()));
    assert AccountComplaint(settled, a.account) == AccountComplaint(b, a.account)
        == AccountComplaint(st.bundle, a.account);
    if Polls(st, a) {
      PollRecordsWhatItLists(st, b, a);
      PollRecordsWhatItLists(st, settled, a);
    }
    if a.get.Found? && !st.bundle.deleting {
      if Validated(st.bundle) {
        assert RecordsWhatItLists(PlanAccount(b, listed, st.jobs, a), tags);
        assert RecordsWhatItLists(PlanAccount(settled, listed, st.jobs, a), tags);
      }
      assert RecordsWhatItLists(PlanValidated(b, listed, st.jobs, a), tags);
      assert st.bundle.finalizer ==> b == st.bundle;
    }
  }

  lemma PollRecordsWhatItLists(st: State, b: Bundle, a: Answers)
    requires Polls(st, a) && a.registry.Tags? && a.registry.tags != [] && !MeetsFailedJob(st, a)
    requires b.spec == st.bundle.spec && b.namespace == st.bundle.namespace
    requires b.status == st.bundle.status.(resolvedTargetNamespace := b.status.resolvedTargetNamespace)
    ensures RecordsWhatItLists(PlanPoll(b, st.history.listed, st.jobs, a), a.registry.tags)
  {
    hide PlanLaunch;
    var tags := a.registry.tags;
    assert tags[|tags| - 1] != "";
    var polled := b.(status := b.status.(consecutiveFailures := 0, lastETag := a.registry.etag));
    LaunchRecordsWhatItLists(polled, tags, a);
    LaunchRecordsWhatItLists(polled.(status := polled.status.(activeJobName := "")), tags, a);
    assert RecordsWhatItLists(PlanTags(polled, st.jobs, tags, a), tags);
  }

  lemma LaunchRecordsWhatItLists(b: Bundle, tags: seq<string>, a: Answers)
    requires tags != [] && tags[|tags| - 1] != ""
    ensures RecordsWhatItLists(PlanLaunch(b, Some(tags), tags[|tags| - 1], a), tags)
  {
    var s := MarkSyncing(b.status, tags[|tags| - 1]);
    var plan := PlanCreate(b.(status := s), Some(tags), tags[|tags| - 1], a);
    if a.build.Built? {
      assert RecordsWhatItLists(plan.onCreated, tags) && RecordsWhatItLists(plan.onFailed, tags);
    }
    assert RecordsWhatItLists(plan, tags);
  }

  /** With acknowledged writes it comes to hide them whenever it meets one. */
  lemma HidingStartsExactly(st: State, a: Answers)
    requires Consistent(st.bundle.status)
    requires a.registry.Tags? && st.history.listed != Some(a.registry.tags)
    ensures Hides(Step(st, Reconcile(a, [])), a.registry.tags) <==> MeetsFailedJob(st, a)
  {
    hide PlanReconcile;
    HidingNeedsFailedJob(st, a, []);
    if MeetsFailedJob(st, a) {
      FailedJobHidesTag(st, a, a.registry.tags);
    }
  }
}
