/** When a bundle can be left Syncing with nobody to look at it again, over all draws of the jitter. */
module Stranding {
  import opened Wrappers
  import opened BundleTypes
  import opened Cluster
  import opened ReconcilePlan
  import opened Progress
  import Backoff

  /** Plans with the same writes; they may differ in the delay they return in the end. */
  ghost predicate SameWrites(plan: Plan, other: Plan)
    decreases plan
  {
    match (plan, other)
    case (Stop(outcome), Stop(outcome')) => outcome.Errored? <==> outcome'.Errored?
    case (Put(site, s, listed, onError, next), Put(site', s', listed', onError', next')) =>
      site == site' && s == s' && listed == listed' && onError == onError' && SameWrites(next, next')
    case (Finalize(present, next), Finalize(present', next')) => present == present' && SameWrites(next, next')
    case (Read(tags, next), Read(tags', next')) => tags == tags' && SameWrites(next, next')
    case (Launch(_, _, _, _), Launch(_, _, _, _)) => plan == other
    case _ => false
  }

  lemma {:induction false} SameWritesSameState(plan: Plan, other: Plan, st: State, outcomes: seq<WriteOutcome>)
    requires SameWrites(plan, other)
    ensures Perform(plan, st, outcomes).0 == Perform(other, st, outcomes).0
    ensures Perform(plan, st, outcomes).1.Errored? <==> Perform(other, st, outcomes).1.Errored?
    decreases plan
  {
    match plan
    case Stop(_) =>
    case Put(site, s, listed, onError, next) =>
      var (st', ok) := PutStatus(st, NextOutcome(outcomes), site, s, listed);
      if ok {
        SameWritesSameState(next, other.next, st', LaterOutcomes(outcomes));
      }
    case Finalize(present, next) =>
      var (st', ok) := PutFinalizer(st, NextOutcome(outcomes), present);
      if ok {
        SameWritesSameState(next, other.next, st', LaterOutcomes(outcomes));
      }
    case Read(tags, next) => SameWritesSameState(next, other.next, Polled(st, tags), outcomes);
    case Launch(_, _, _, _) =>
  }

  lemma {:induction false} SameWritesAsItself(plan: Plan)
    ensures SameWrites(plan, plan)
    decreases plan
  {
    match plan
    case Stop(_) =>
    case Put(_, _, _, _, next) => SameWritesAsItself(next);
    case Finalize(_, next) => SameWritesAsItself(next);
    case Read(_, next) => SameWritesAsItself(next);
    case Launch(_, _, _, _) =>
  }

  lemma DrawChangesNoTagWrite(b: Bundle, jobs: map<JobKey, Job>, tags: seq<string>, a: Answers, draw: nat)
    ensures SameWrites(PlanTags(b, jobs, tags, a), PlanTags(b, jobs, tags, a.(draw := draw)))
  {
    if tags != [] && b.status.lastAppliedTag != tags[|tags| - 1] {
      var plan := PlanJob(b, Some(tags), jobs, tags[|tags| - 1], a);
      assert plan == PlanJob(b, Some(tags), jobs, tags[|tags| - 1], a.(draw := draw));
      SameWritesAsItself(plan);
    }
  }

  lemma DrawChangesNoPollWrite(b: Bundle, listed: Option<seq<string>>, jobs: map<JobKey, Job>, a: Answers, draw: nat)
    ensures SameWrites(PlanPoll(b, listed, jobs, a), PlanPoll(b, listed, jobs, a.(draw := draw)))
  {
    hide PlanTags;
    if a.registry.Tags? {
      var s := b.status.(consecutiveFailures := 0, lastETag := a.registry.etag);
      DrawChangesNoTagWrite(b.(status := s), jobs, a.registry.tags, a, draw);
    }
  }

  lemma DrawChangesNoWrite(st: State, a: Answers, draw: nat)
    ensures SameWrites(PlanReconcile(st, a), PlanReconcile(st, a.(draw := draw)))
  {
    hide PlanPoll, AccountComplaint, ValidateCrossNamespaceDeployment, MarkFailed;
    var b, listed, jobs := st.bundle.(finalizer := true), st.history.listed, st.jobs;
    var settled := b.(status := b.status.(resolvedTargetNamespace := st.Target()));
    DrawChangesNoPollWrite(b, listed, jobs, a, draw);
    DrawChangesNoPollWrite(settled, listed, jobs, a, draw);
    assert SameWrites(PlanAccount(b, listed, jobs, a), PlanAccount(b, listed, jobs, a.(draw := draw)));
    assert SameWrites(PlanAccount(settled, listed, jobs, a), PlanAccount(settled, listed, jobs, a.(draw := draw)));
    assert SameWrites(PlanValidated(b, listed, jobs, a), PlanValidated(b, listed, jobs, a.(draw := draw)));
    assert st.bundle.finalizer ==> b == st.bundle;
  }

  /** The reconcile ends without error and the bundle is Syncing. */
  predicate LeavesSyncing(st: State, a: Answers, outcomes: seq<WriteOutcome>) {
    var (st', outcome) := Perform(PlanReconcile(st, a), st, outcomes);
    !outcome.Errored? && st'.bundle.status.phase == PhaseSyncing
  }

  /** It asks to be called again; a panic of the Job's build is not a matter of delays. */
  predicate AsksAgain(st: State, a: Answers, outcomes: seq<WriteOutcome>) {
    var outcome := Perform(PlanReconcile(st, a), st, outcomes).1;
    if outcome.Returned? then outcome.requeueAfter > 0 else outcome.Panicked? && !WaitsForNextPoll(a)
  }

  lemma AsksAgainOnDraw(st: State, a: Answers, outcomes: seq<WriteOutcome>, draw: nat)
    requires a.get.Found? && !st.bundle.deleting && SchemaAccepts(st.bundle.status)
    requires LeavesSyncing(st, a, outcomes)
    ensures AsksAgain(st, a.(draw := draw), outcomes)
            <==> var delay := Backoff.AddJitter(IntervalOf(st.bundle.spec), draw);
                 && AccountComplaint(st.bundle, a.account).None?
                 && (WaitsForNextPoll(a) ==> delay.Some? && delay.value > 0)
  {
    hide PlanReconcile;
    DrawChangesNoWrite(st, a, draw);
    SameWritesSameState(PlanReconcile(st, a), PlanReconcile(st, a.(draw := draw)), st, outcomes);
    SyncingIsRequeuedExactly(st, a.(draw := draw), outcomes);
  }

  /**
   * A bundle left Syncing is requeued, whatever is drawn, if and only if there is no complaint
   * about the ServiceAccount and the poll interval, where it decides, is pollable.
   */
  lemma SyncingIsNeverStrandedExactly(st: State, a: Answers, outcomes: seq<WriteOutcome>)
    requires a.get.Found? && !st.bundle.deleting && SchemaAccepts(st.bundle.status)
    requires LeavesSyncing(st, a, outcomes)
    ensures (forall draw: nat :: AsksAgain(st, a.(draw := draw), outcomes))
            <==> AccountComplaint(st.bundle, a.account).None?
                 && (WaitsForNextPoll(a) ==> Backoff.Pollable(IntervalOf(st.bundle.spec)))
  {
    hide AsksAgain, LeavesSyncing, Backoff.AddJitter, Backoff.Pollable;
    var interval := IntervalOf(st.bundle.spec);
    forall draw: nat
      ensures AsksAgain(st, a.(draw := draw), outcomes)
              <==> AccountComplaint(st.bundle, a.account).None?
                   && (WaitsForNextPoll(a) ==>
                         Backoff.AddJitter(interval, draw).Some? && Backoff.AddJitter(interval, draw).value > 0)
    {
      AsksAgainOnDraw(st, a, outcomes, draw);
    }
    Backoff.JitterIsPositiveExactlyWhenPollable(interval);
    if forall draw: nat :: AsksAgain(st, a.(draw := draw), outcomes) {
      assert AsksAgain(st, a.(draw := 0), outcomes);
      forall draw: nat | WaitsForNextPoll(a)
        ensures Backoff.AddJitter(interval, draw).Some? && Backoff.AddJitter(interval, draw).value > 0
      {
        assert AsksAgain(st, a.(draw := draw), outcomes);
      }
    }
  }
}
