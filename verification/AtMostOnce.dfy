/** The deployment budget: exactly one Job for a tag that stays, and no smaller budget in general. */
module AtMostOnce {
  import opened Wrappers
  import opened BundleTypes
  import opened Cluster
  import opened ReconcilePlan
  import opened Runs
  import opened Safety
  import opened Progress
  import opened Retries

  /** Every non-empty tag list ends in `tag`; there may be 304s and errors. */
  predicate Steady(events: seq<Event>, tag: string) {
    forall i :: 0 <= i < |events| && events[i].Reconcile? ==> SteadyAnswer(events[i].answers.registry, tag)
  }

  predicate SteadyAnswer(answer: RegistryAnswer, tag: string) {
    match answer
    case NotModified => true
    case RegistryError(_) => true
    case Tags(tags, _) => tags == [] || tags[|tags| - 1] == tag
  }

  ghost predicate SteadyPlan(plan: Plan, tag: string)
    decreases plan
  {
    match plan
    case Stop(_) => true
    case Put(_, _, _, _, next) => SteadyPlan(next, tag)
    case Finalize(_, next) => SteadyPlan(next, tag)
    case Read(tags, next) => (tags == [] || tags[|tags| - 1] == tag) && SteadyPlan(next, tag)
    case Launch(_, _, onCreated, onFailed) => SteadyPlan(onCreated, tag) && SteadyPlan(onFailed, tag)
  }

  /** No other tag has been the greatest. */
  ghost predicate NoOtherTag(h: History, tag: string) {
    h.newTags == 0 && (h.newest == None || h.newest == Some(tag))
  }

  lemma {:induction false} SteadyPlanKeepsTag(plan: Plan, st: State, outcomes: seq<WriteOutcome>, tag: string)
    requires SteadyPlan(plan, tag) && NoOtherTag(st.history, tag)
    ensures NoOtherTag(Perform(plan, st, outcomes).0.history, tag)
    decreases plan
  {
    match plan
    case Stop(_) =>
    case Put(site, s, listed, onError, next) =>
      var (st', ok) := PutStatus(st, NextOutcome(outcomes), site, s, listed);
      if ok {
        SteadyPlanKeepsTag(next, st', LaterOutcomes(outcomes), tag);
      }
    case Finalize(present, next) =>
      var (st', ok) := PutFinalizer(st, NextOutcome(outcomes), present);
      if ok {
        SteadyPlanKeepsTag(next, st', LaterOutcomes(outcomes), tag);
      }
    case Read(tags, next) => SteadyPlanKeepsTag(next, Polled(st, tags), outcomes, tag);
    case Launch(key, jobTag, onCreated, onFailed) =>
      var (st', ok) := CreateJob(st, NextOutcome(outcomes), key, jobTag);
      SteadyPlanKeepsTag(if ok then onCreated else onFailed, st', LaterOutcomes(outcomes), tag);
  }

  lemma JobPlanIsSteady(b: Bundle, jobs: map<JobKey, Job>, tags: seq<string>, a: Answers, tag: string)
    ensures SteadyPlan(PlanTags(b, jobs, tags, a), tag)
  {
    forall b, listed, latest
      ensures SteadyPlan(PlanLaunch(b, listed, latest, a), tag)
    {
      var plan := PlanCreate(b.(status := MarkSyncing(b.status, latest)), listed, latest, a);
      if a.build.Built? {
        assert SteadyPlan(plan.onCreated, tag) && SteadyPlan(plan.onFailed, tag);
      }
      assert SteadyPlan(plan, tag);
    }
  }

  lemma ReconcileIsSteady(st: State, a: Answers, tag: string)
    requires SteadyAnswer(a.registry, tag)
    ensures SteadyPlan(PlanReconcile(st, a), tag)
  {
    hide PlanPoll;
    var b, listed, jobs := st.bundle.(finalizer := true), st.history.listed, st.jobs;
    var settled := b.(status := b.status.(resolvedTargetNamespace := st.Target()));
    PollIsSteady(b, listed, jobs, a, tag);
    PollIsSteady(settled, listed, jobs, a, tag);
    assert SteadyPlan(PlanAccount(b, listed, jobs, a), tag);
    assert SteadyPlan(PlanAccount(settled, listed, jobs, a), tag);
    assert SteadyPlan(PlanValidated(b, listed, jobs, a), tag);
    assert st.bundle.finalizer ==> b == st.bundle;
  }

  lemma PollIsSteady(b: Bundle, listed: Option<seq<string>>, jobs: map<JobKey, Job>, a: Answers, tag: string)
    requires SteadyAnswer(a.registry, tag)
    ensures SteadyPlan(PlanPoll(b, listed, jobs, a), tag)
  {
    hide PlanTags;
    if a.registry.Tags? {
      var s := b.status.(consecutiveFailures := 0, lastETag := a.registry.etag);
      JobPlanIsSteady(b.(status := s), jobs, a.registry.tags, a, tag);
    }
  }

  lemma {:induction false} SteadyRunKeepsTag(st: State, events: seq<Event>, tag: string)
    requires NoOtherTag(st.history, tag) && Steady(events, tag)
    ensures NoOtherTag(Run(st, events).history, tag)
    decreases |events|
  {
    if events != [] {
      if events[0].Reconcile? {
        ReconcileIsSteady(st, events[0].answers, tag);
        SteadyPlanKeepsTag(PlanReconcile(st, events[0].answers), st, events[0].outcomes, tag);
      }
      SteadyRunKeepsTag(Step(st, events[0]), events[1..], tag);
    }
  }

  /**
   * One tag: one Job and one more for each stored retry, so one at most without stored retries, even
   * if its tracking write is lost or it is deleted.
   */
  lemma SteadyTagDeploysOnce(start: State, events: seq<Event>, tag: string)
    requires Fresh(start) && Steady(events, tag)
    ensures var h := Run(start, events).history;
            h.created <= 1 + h.retries && (h.retries == 0 ==> h.created <= 1)
  {
    SteadyRunKeepsTag(start, events, tag);
    DeploymentIsAtMostOnce(start, events);
  }

  // The budget of 1 + changes of the newest tag + retries can be used up, whatever the two numbers.

  function Name(length: nat): JobName {
    seq(length + 1, _ => 'j')
  }

  function FlippingTag(n: nat): Tag {
    if n % 2 == 0 then "a" else "b"
  }

  /** A healthy reconcile that reads one tag. */
  function Reading(tag: Tag, name: JobName): Answers {
    Answers(Found, AccountExists, Tags([tag], ""), false, None, Built(name), "", 0, 0)
  }

  const UNCHANGED: Answers := Answers(Found, AccountExists, NotModified, false, None, BuildPanic, "", 0, 0)

  /** A reconcile that meets a registry error. */
  const ERRING: Answers := Answers(Found, AccountExists, RegistryError(""), false, None, BuildPanic, "", 0, 0)

  /** The tracking write, third in line, is lost. */
  const LOSE_TRACKING: seq<WriteOutcome> := [Acked, Acked, Refused]

  ghost predicate Primed(st: State) {
    && st.bundle.finalizer && !st.bundle.deleting && Validated(st.bundle)
    && st.bundle.status.resolvedTargetNamespace == st.Target()
    && st.bundle.status.activeJobName == ""
    && st.bundle.status.consecutiveFailures == 0
  }

  lemma LosingTrackingCreates(st: State, tag: Tag, name: JobName)
    requires Primed(st.(bundle := st.bundle.(status := st.bundle.status.(consecutiveFailures := 0))))
    requires SchemaAccepts(st.bundle.status) && st.bundle.status.lastAppliedTag != tag
    requires JobKey(st.Target(), name) !in st.jobs
    ensures var st' := Step(st, Reconcile(Reading(tag, name), LOSE_TRACKING));
            && Primed(st') && st'.Target() == st.Target()
            && st'.bundle.status.lastAppliedTag == tag
            && st'.history == Polled(st, [tag]).history.(created := st.history.created + 1, listed := Some([tag]))
            && st'.jobs.Keys == st.jobs.Keys + {JobKey(st.Target(), name)}
  {
    var a := Reading(tag, name);
    var st1 := Polled(st, [tag]);
    var b := st.bundle.(status := st.bundle.status.(consecutiveFailures := 0, lastETag := ""));
    var s := MarkSyncing(b.status, tag);
    assert PlanReconcile(st, a) == Read([tag], PlanLaunch(b, Some([tag]), tag, a));
    var st2 := Stored(st1, WriteAhead, s, Some([tag]));
    var st3 := Created(st2, JobKey(st.Target(), name), tag);
    var plan := PlanCreate(b.(status := s), Some([tag]), tag, a);
    assert LaterOutcomes(LOSE_TRACKING) == [Acked, Refused] && LaterOutcomes([Acked, Refused]) == [Refused];
    assert Perform(plan, st2, [Acked, Refused]) == Perform(plan.onCreated, st3, [Refused]);
    assert Perform(plan.onCreated, st3, [Refused]).0 == st3;
    assert Perform(PlanLaunch(b, Some([tag]), tag, a), st1, LOSE_TRACKING) == Perform(plan, st2, [Acked, Refused]);
    assert Step(st, Reconcile(a, LOSE_TRACKING)) == st3;
  }

  /** A retry overwrites the recorded tag, so the same tag is deployed once more. */
  lemma RetryCosts(st: State, tag: Tag, name: JobName)
    requires Primed(st) && st.bundle.status.lastAppliedTag == tag && st.history.newest == Some(tag)
    requires JobKey(st.Target(), name) !in st.jobs && tag != RetryMessage(1, "")
    ensures var st' := Step(Step(st, Reconcile(ERRING, [])), Reconcile(Reading(tag, name), LOSE_TRACKING));
            && Primed(st') && st'.Target() == st.Target()
            && st'.bundle.status.lastAppliedTag == tag && st'.history.newest == Some(tag)
            && st'.history.created == st.history.created + 1
            && st'.history.retries == st.history.retries + 1
            && st'.history.newTags == st.history.newTags
            && st'.jobs.Keys == st.jobs.Keys + {JobKey(st.Target(), name)}
  {
    hide PlanReconcile;
    var st1 := Step(st, Reconcile(ERRING, []));
    RetryStores(st);
    LosingTrackingCreates(st1, tag, name);
  }

  lemma RetryStores(st: State)
    requires Primed(st)
    ensures var s := st.bundle.status.(consecutiveFailures := 1, lastErrorTime := Some(0));
            Step(st, Reconcile(ERRING, []))
            == Stored(st, Retry, MarkSyncing(s, RetryMessage(1, "")), st.history.listed)
  {
    PerformFromPoll(st, ERRING);
    assert AtPoll(st) == st;
    var s := st.bundle.status.(consecutiveFailures := 1, lastErrorTime := Some(0));
    var t := MarkSyncing(s, RetryMessage(1, ""));
    var plan := PlanRetry(st.bundle, st.history.listed, "", ERRING);
    assert plan.status == t && plan.next.Stop?;
    assert Perform(plan, st, []).0 == Stored(st, Retry, t, st.history.listed);
  }

  lemma MessageIsNoFlippingTag(n: nat)
    ensures FlippingTag(n) != RetryMessage(1, "")
  {
    assert RetryMessage(1, "")[0] == 'R';
  }

  /** What the two lemmas below build up: n changes of the tag, r retries, and a Job for each and one more. */
  ghost predicate UsedUp(st: State, n: nat, r: nat) {
    && st.history.created == 1 + n + r && st.history.newTags == n && st.history.retries == r
    && st.history.newest == Some(FlippingTag(n))
    && Primed(st) && st.bundle.status.lastAppliedTag == FlippingTag(n)
    && (forall key :: key in st.jobs ==> |key.name| <= n + r + 1)
  }

  lemma {:induction false} TagsAreUsedUp(start: State, n: nat) returns (events: seq<Event>)
    requires Fresh(start) && !start.bundle.deleting && Validated(start.bundle)
    ensures UsedUp(Run(start, events), n, 0)
  {
    hide PlanReconcile;
    if n == 0 {
      var first := Reconcile(UNCHANGED, []);
      var st := Step(start, first);
      Prime(start);
      events := [first] + [Reconcile(Reading(FlippingTag(0), Name(0)), LOSE_TRACKING)];
      LosingTrackingCreates(st, FlippingTag(0), Name(0));
      RunConcat(start, [first], [events[1]]);
      RunOne(start, first);
      RunOne(st, events[1]);
    } else {
      var earlier := TagsAreUsedUp(start, n - 1);
      var last := Reconcile(Reading(FlippingTag(n), Name(n)), LOSE_TRACKING);
      LosingTrackingCreates(Run(start, earlier), FlippingTag(n), Name(n));
      events := earlier + [last];
      RunConcat(start, earlier, [last]);
      RunOne(Run(start, earlier), last);
    }
  }

  /** For every number of tag changes and of retries some run creates all the Jobs the budget allows. */
  lemma {:induction false} BudgetIsUsedUp(start: State, n: nat, r: nat) returns (events: seq<Event>)
    requires Fresh(start) && !start.bundle.deleting && Validated(start.bundle)
    ensures UsedUp(Run(start, events), n, r)
  {
    hide PlanReconcile;
    if r == 0 {
      events := TagsAreUsedUp(start, n);
    } else {
      var earlier := BudgetIsUsedUp(start, n, r - 1);
      var st := Run(start, earlier);
      var retry, again := Reconcile(ERRING, []), Reconcile(Reading(FlippingTag(n), Name(n + r)), LOSE_TRACKING);
      MessageIsNoFlippingTag(n);
      RetryCosts(st, FlippingTag(n), Name(n + r));
      events := earlier + ([retry] + [again]);
      RunConcat(start, earlier, [retry] + [again]);
      RunConcat(st, [retry], [again]);
      RunOne(st, retry);
      RunOne(Step(st, retry), again);
    }
  }

  lemma Prime(start: State)
    requires Fresh(start) && !start.bundle.deleting && Validated(start.bundle)
    ensures var st := Step(start, Reconcile(UNCHANGED, []));
            Primed(st) && st.jobs == map[] && st.history == NO_HISTORY && st.bundle.status.lastAppliedTag == ""
  {
    PerformFromPoll(start, UNCHANGED);
  }
}
