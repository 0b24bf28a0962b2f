/** What every run keeps, whatever is lost, refused or deleted on the way. */
module Safety {
  import opened Wrappers
  import opened BundleTypes
  import opened Cluster
  import opened ReconcilePlan
  import opened Runs

  // The parts of the invariant.

  /** Which combinations of status fields can be stored. */
  ghost predicate Consistent(s: Status) {
    && (s.phase == PhaseFailed <==> s.lastErrorMessage != "")
    && (s.phase == PhaseSynced ==> s.consecutiveFailures == 0 && s.lastSyncTime.Some?)
    && (s.phase == PhaseSyncing ==> s.lastSyncTime.None?)
    && (s.activeJobName != "" ==> s.lastJobStatus == JobRunning)
    && s.consecutiveFailures <= 6
    && (s.consecutiveFailures == 6 ==> s.phase == PhaseFailed)
    && (s.consecutiveFailures > 0 ==> s.phase == PhaseSyncing || s.phase == PhaseFailed)
  }

  /** The greatest tag behind the ETag is recorded, or its Job failed, or the registry is being retried. */
  ghost predicate ETagSafe(s: Status, listed: Option<seq<string>>) {
    listed.Some? && listed.value != [] ==>
      || s.lastAppliedTag == listed.value[|listed.value| - 1]
      || s.lastJobStatus == JobFailed
      || s.consecutiveFailures > 0
  }

  /** One when the newest tag is the recorded one: a Job has then been spent on it. */
  function Recorded(st: State): nat {
    if st.history.newest == Some(st.bundle.status.lastAppliedTag) then 1 else 0
  }

  ghost predicate JobsPaidFor(st: State) {
    st.history.created <= st.history.retries + st.history.newTags + Recorded(st)
  }

  ghost function Unfinished(st: State): set<JobKey> {
    set key | key in st.jobs && !st.jobs[key].Finished()
  }

  function Tracked(st: State): JobKey {
    JobKey(st.history.trackedNamespace, st.bundle.status.activeJobName)
  }

  ghost function Untracked(st: State): set<JobKey> {
    Unfinished(st) - {Tracked(st)}
  }

  /** One when the tracked Job runs in a namespace the controller no longer looks at. */
  ghost function OutOfSight(st: State): nat {
    if Tracked(st) in Unfinished(st) && st.history.trackedNamespace != st.Target() then 1 else 0
  }

  ghost predicate StraysPaidFor(st: State) {
    && st.history.tracked <= st.history.created
    && |Untracked(st)| + OutOfSight(st) <= st.history.created - st.history.tracked + st.history.retargets
    && forall key :: key in st.jobs ==> key.name != ""
  }

  /** The tracked Job carries the recorded tag, until a retry overwrites that tag. */
  ghost predicate TracksRecorded(st: State) {
    st.bundle.status.activeJobName != "" && Tracked(st) in st.jobs && !st.history.retried ==>
      st.jobs[Tracked(st)].tag == st.bundle.status.lastAppliedTag
  }

  ghost predicate Inv(st: State) {
    && Consistent(st.bundle.status)
    && ETagSafe(st.bundle.status, st.history.listed)
    && JobsPaidFor(st)
    && StraysPaidFor(st)
    && TracksRecorded(st)
  }

  // Which single writes keep the invariant.

  /** The active Job is let go although no unfinished Job of that name is where the controller looks. */
  ghost predicate Releases(st: State, s: Status) {
    s.activeJobName == "" && JobKey(st.Target(), st.bundle.status.activeJobName) !in Unfinished(st)
  }

  ghost predicate StartsTracking(st: State, s: Status) {
    && st.bundle.status.activeJobName == ""
    && st.history.tracked < st.history.created
    && JobKey(st.Target(), s.activeJobName) in Unfinished(st)
    && st.jobs[JobKey(st.Target(), s.activeJobName)].tag == s.lastAppliedTag
  }

  ghost predicate MayPut(st: State, site: Site, s: Status, listed: Option<seq<string>>) {
    && Consistent(s)
    && ETagSafe(s, listed)
    && (site == Retry
        || s.lastAppliedTag == st.bundle.status.lastAppliedTag
        || st.history.newest == Some(s.lastAppliedTag))
    && (if site == Tracking then StartsTracking(st, s)
        else s.activeJobName == st.bundle.status.activeJobName || Releases(st, s))
    && (s.activeJobName != "" && site != Tracking && site != Retry ==>
          s.lastAppliedTag == st.bundle.status.lastAppliedTag)
  }

  /** The next Job is still within the budget. */
  ghost predicate MayLaunch(st: State, key: JobKey) {
    && st.history.created + 1 <= st.history.retries + st.history.newTags + Recorded(st)
    && key.name != ""
    && st.bundle.status.activeJobName == ""
  }

  lemma PutKeeps(st: State, site: Site, s: Status, listed: Option<seq<string>>)
    requires Inv(st) && MayPut(st, site, s, listed)
    ensures Inv(Stored(st, site, s, listed))
  {
    PutKeepsStrays(st, site, s, listed);
    assert JobsPaidFor(Stored(st, site, s, listed));
  }

  lemma PutKeepsStrays(st: State, site: Site, s: Status, listed: Option<seq<string>>)
    requires StraysPaidFor(st)
    requires if site == Tracking then StartsTracking(st, s)
             else s.activeJobName == st.bundle.status.activeJobName || Releases(st, s)
    ensures StraysPaidFor(Stored(st, site, s, listed))
  {
    var st' := Stored(st, site, s, listed);
    assert Unfinished(st') == Unfinished(st);
    if site == Tracking {
      assert Tracked(st) !in Unfinished(st);
      OneFewer(Unfinished(st), Tracked(st), Tracked(st'));
    } else if s.activeJobName != st.bundle.status.activeJobName {
      assert Tracked(st') !in Unfinished(st);
      if Tracked(st) in Unfinished(st) {
        OneFewer(Unfinished(st), Tracked(st'), Tracked(st));
      } else {
        assert Untracked(st') == Untracked(st);
      }
    }
  }

  lemma OneFewer<K>(unfinished: set<K>, outside: K, inside: K)
    requires outside !in unfinished && inside in unfinished
    ensures |unfinished - {outside}| == |unfinished - {inside}| + 1
  {
    assert unfinished - {outside} == unfinished - {inside} + {inside};
  }

  lemma CreateKeeps(st: State, key: JobKey, tag: string)
    requires Inv(st) && MayLaunch(st, key) && key !in st.jobs
    ensures Inv(Created(st, key, tag))
  {
    CreateKeepsStrays(st, key, tag);
  }

  lemma CreateKeepsStrays(st: State, key: JobKey, tag: string)
    requires StraysPaidFor(st) && key.name != "" && key !in st.jobs
    ensures StraysPaidFor(Created(st, key, tag))
  {
    UnfinishedAfterCreation(st, key, tag);
    OneMore(Unfinished(st), key, Tracked(st));
  }

  /** A new unfinished Job either becomes one more stray or is the one being tracked, not both. */
  lemma OneMore<K>(unfinished: set<K>, key: K, tracked: K)
    requires key !in unfinished
    ensures |unfinished + {key} - {tracked}| == |unfinished - {tracked}| + if key == tracked then 0 else 1
  {
    if key == tracked {
      assert unfinished + {key} - {tracked} == unfinished - {tracked};
    } else {
      assert unfinished + {key} - {tracked} == unfinished - {tracked} + {key};
    }
  }

  lemma UnfinishedAfterCreation(st: State, key: JobKey, tag: string)
    requires key !in st.jobs
    ensures key !in Unfinished(st)
    ensures Unfinished(Created(st, key, tag)) == Unfinished(st) + {key}
  {
  }

  lemma FinalizerKeeps(st: State, present: bool)
    requires Inv(st)
    ensures Inv(st.(bundle := st.bundle.(finalizer := present)))
  {
    assert Unfinished(st.(bundle := st.bundle.(finalizer := present))) == Unfinished(st);
  }

  lemma PolledKeeps(st: State, tags: seq<string>)
    requires Inv(st)
    ensures Inv(Polled(st, tags))
  {
    assert Unfinished(Polled(st, tags)) == Unfinished(st);
  }

  // A whole plan keeps it when each of its writes does, in the state it is made in.

  ghost predicate Allowed(plan: Plan, st: State)
    decreases plan
  {
    match plan
    case Stop(_) => true
    case Put(site, s, listed, _, next) =>
      SchemaAccepts(s) ==> MayPut(st, site, s, listed) && Allowed(next, Stored(st, site, s, listed))
    case Finalize(present, next) => Allowed(next, st.(bundle := st.bundle.(finalizer := present)))
    case Read(tags, next) => Allowed(next, Polled(st, tags))
    case Launch(key, tag, onCreated, onFailed) =>
      && MayLaunch(st, key)
      && Allowed(onFailed, st)
      && (key !in st.jobs ==>
            Allowed(onCreated, Created(st, key, tag)) && Allowed(onFailed, Created(st, key, tag)))
  }

  lemma {:induction false} PerformKeeps(plan: Plan, st: State, outcomes: seq<WriteOutcome>)
    requires Inv(st) && Allowed(plan, st)
    ensures Inv(Perform(plan, st, outcomes).0)
    decreases plan
  {
    hide Inv, MayPut, MayLaunch;
    match plan
    case Stop(_) =>
    case Put(site, s, listed, onError, next) =>
      if SchemaAccepts(s) {
        PutKeeps(st, site, s, listed);
        PerformKeeps(next, Stored(st, site, s, listed), LaterOutcomes(outcomes));
      }
    case Finalize(present, next) =>
      FinalizerKeeps(st, present);
      PerformKeeps(next, st.(bundle := st.bundle.(finalizer := present)), LaterOutcomes(outcomes));
    case Read(tags, next) =>
      PolledKeeps(st, tags);
      PerformKeeps(next, Polled(st, tags), outcomes);
    case Launch(key, tag, onCreated, onFailed) =>
      PerformKeeps(onFailed, st, LaterOutcomes(outcomes));
      if key !in st.jobs {
        CreateKeeps(st, key, tag);
        PerformKeeps(onCreated, Created(st, key, tag), LaterOutcomes(outcomes));
        PerformKeeps(onFailed, Created(st, key, tag), LaterOutcomes(outcomes));
      }
  }

  // The controller's plan is allowed, piece by piece. `st` is the stored state and b the working
  // copy; they differ in status fields the controller has changed but not yet written.

  ghost predicate SameSpec(st: State, b: Bundle) {
    b.spec == st.bundle.spec && b.namespace == st.bundle.namespace
  }

  lemma MonitorAllowed(st: State, b: Bundle, tags: seq<string>, a: Answers)
    requires Inv(st) && SameSpec(st, b) && tags != []
    requires st.history.newest == Some(tags[|tags| - 1])
    requires b.status.activeJobName == st.bundle.status.activeJobName
    requires b.status.lastAppliedTag == st.bundle.status.lastAppliedTag
    requires b.status.consecutiveFailures == 0
    requires JobKey(st.Target(), b.status.activeJobName) in st.jobs
    ensures Allowed(PlanMonitor(b, Some(tags), st.jobs[JobKey(st.Target(), b.status.activeJobName)],
                                tags[|tags| - 1], a), st)
  {
  }

  lemma CreateAllowed(st: State, b: Bundle, tags: seq<string>, a: Answers)
    requires Consistent(st.bundle.status) && st.history.tracked <= st.history.created
    requires SameSpec(st, b) && tags != []
    requires st.bundle.status == b.status && b.status.activeJobName == ""
    requires b.status.lastAppliedTag == tags[|tags| - 1]
    requires b.status.phase == PhaseSyncing && b.status.consecutiveFailures == 0
    requires st.history.created + 1 <= st.history.retries + st.history.newTags + Recorded(st)
    ensures Allowed(PlanCreate(b, Some(tags), tags[|tags| - 1], a), st)
  {
    if a.build.Built? {
      var key := JobKey(st.Target(), a.build.name);
      var tag := tags[|tags| - 1];
      var s := b.status.(activeJobName := a.build.name, lastJobStatus := JobRunning);
      var failed := MarkFailed(b.status, "Failed to create Job: " + a.createError);
      assert failed.lastErrorMessage != "";
      assert MayPut(st, CreateFailure, failed, Some(tags));
      if key !in st.jobs {
        var st' := Created(st, key, tag);
        assert key in Unfinished(st');
        assert StartsTracking(st', s);
        assert MayPut(st', Tracking, s, Some(tags));
        assert MayPut(st', CreateFailure, failed, Some(tags));
      }
    }
  }

  lemma LaunchAllowed(st: State, b: Bundle, tags: seq<string>, a: Answers)
    requires Inv(st) && SameSpec(st, b) && tags != []
    requires st.history.newest == Some(tags[|tags| - 1])
    requires st.bundle.status.lastAppliedTag != tags[|tags| - 1] && tags[|tags| - 1] != ""
    requires b.status.activeJobName == ""
    requires b.status.consecutiveFailures == 0
    requires st.bundle.status.activeJobName == "" || Releases(st, b.status)
    ensures Allowed(PlanLaunch(b, Some(tags), tags[|tags| - 1], a), st)
  {
    hide PlanCreate;
    var latest := tags[|tags| - 1];
    var s := MarkSyncing(b.status, latest);
    assert MayPut(st, WriteAhead, s, Some(tags));
    PutKeeps(st, WriteAhead, s, Some(tags));
    var st' := Stored(st, WriteAhead, s, Some(tags));
    CreateAllowed(st', b.(status := s), tags, a);
  }

  lemma TagsAllowed(st: State, b: Bundle, tags: seq<string>, a: Answers)
    requires Inv(st) && SameSpec(st, b)
    requires tags != [] ==> st.history.newest == Some(tags[|tags| - 1]) && tags[|tags| - 1] != ""
    requires b.status == st.bundle.status.(consecutiveFailures := 0, lastETag := b.status.lastETag)
    ensures Allowed(PlanTags(b, st.jobs, tags, a), st)
  {
    hide PlanLaunch, PlanMonitor;
    if tags != [] && b.status.lastAppliedTag != tags[|tags| - 1] {
      var key := JobKey(st.Target(), b.status.activeJobName);
      if b.status.activeJobName == "" {
        LaunchAllowed(st, b, tags, a);
      } else if key in st.jobs {
        MonitorAllowed(st, b, tags, a);
      } else {
        LaunchAllowed(st, b.(status := b.status.(activeJobName := "")), tags, a);
      }
    }
  }

  lemma RetryAllowed(st: State, b: Bundle, text: string, a: Answers)
    requires Inv(st) && SameSpec(st, b) && b.status == st.bundle.status
    ensures Allowed(PlanRetry(b, st.history.listed, text, a), st)
  {
  }

  lemma PollAllowed(st: State, b: Bundle, a: Answers)
    requires Inv(st) && SameSpec(st, b) && b.status == st.bundle.status
    ensures Allowed(PlanPoll(b, st.history.listed, st.jobs, a), st)
  {
    hide PlanTags, PlanRetry;
    match a.registry
    case NotModified =>
    case RegistryError(text) => RetryAllowed(st, b, text, a);
    case Tags(tags, etag) =>
      PolledKeeps(st, tags);
      TagsAllowed(Polled(st, tags), b.(status := b.status.(consecutiveFailures := 0, lastETag := etag)), tags, a);
  }

  lemma AccountAllowed(st: State, b: Bundle, a: Answers)
    requires Inv(st) && SameSpec(st, b) && b.status == st.bundle.status
    ensures Allowed(PlanAccount(b, st.history.listed, st.jobs, a), st)
  {
    hide PlanPoll;
    if AccountComplaint(b, a.account).None? {
      PollAllowed(st, b, a);
    }
  }

  lemma NamespaceMayBePut(st: State, target: string)
    requires Inv(st)
    ensures var s := st.bundle.status.(resolvedTargetNamespace := target);
            MayPut(st, Namespace, s, st.history.listed) && Inv(Stored(st, Namespace, s, st.history.listed))
  {
    PutKeeps(st, Namespace, st.bundle.status.(resolvedTargetNamespace := target), st.history.listed);
  }

  lemma ComplaintMayBePut(st: State, message: string)
    requires Inv(st) && message != ""
    ensures MayPut(st, Validation, MarkFailed(st.bundle.status, message), st.history.listed)
  {
  }

  lemma ValidatedAllowed(st: State, b: Bundle, a: Answers)
    requires Inv(st) && SameSpec(st, b) && b.status == st.bundle.status
    ensures Allowed(PlanValidated(b, st.history.listed, st.jobs, a), st)
  {
    hide PlanAccount, Inv, MayPut;
    var target := GetTargetNamespace(b.spec, b.namespace);
    var complaint := ValidateCrossNamespaceDeployment(b.spec, b.namespace);
    if complaint.Some? {
      ComplaintMayBePut(st, complaint.value);
    } else {
      if b.status.resolvedTargetNamespace != target {
        var s := b.status.(resolvedTargetNamespace := target);
        NamespaceMayBePut(st, target);
        AccountAllowed(Stored(st, Namespace, s, st.history.listed), b.(status := s), a);
      } else {
        AccountAllowed(st, b, a);
      }
    }
  }

  lemma ReconcileAllowed(st: State, a: Answers)
    requires Inv(st)
    ensures Allowed(PlanReconcile(st, a), st)
  {
    hide PlanValidated;
    if a.get.Found? && !st.bundle.deleting {
      if st.bundle.finalizer {
        ValidatedAllowed(st, st.bundle, a);
      } else {
        var b := st.bundle.(finalizer := true);
        FinalizerKeeps(st, true);
        ValidatedAllowed(st.(bundle := b), b, a);
      }
    }
  }

  // Whole runs.

  lemma RemovalKeepsStrays(st: State, st': State)
    requires StraysPaidFor(st)
    requires st'.bundle.status == st.bundle.status && st'.Target() == st.Target() && st'.history == st.history
    requires Unfinished(st') <= Unfinished(st) && st'.jobs.Keys <= st.jobs.Keys
    ensures StraysPaidFor(st')
  {
    assert |Untracked(st')| <= |Untracked(st)| by {
      Smaller(Untracked(st'), Untracked(st));
    }
  }

  lemma Smaller<T>(a: set<T>, b: set<T>)
    requires a <= b
    ensures |a| <= |b|
  {
    assert b == a + (b - a);
  }

  /** The environment finishes, changes or removes Jobs, and never the tag of one. */
  lemma JobMoveKeeps(st: State, st': State)
    requires Inv(st)
    requires st'.bundle.status == st.bundle.status && st'.Target() == st.Target() && st'.history == st.history
    requires Unfinished(st') <= Unfinished(st) && st'.jobs.Keys <= st.jobs.Keys
    requires forall key :: key in st'.jobs ==> st'.jobs[key].tag == st.jobs[key].tag
    ensures Inv(st')
  {
    hide StraysPaidFor, ETagSafe, Consistent;
    RemovalKeepsStrays(st, st');
  }

  lemma EditKeeps(st: State, spec: Spec)
    requires Inv(st)
    ensures Inv(Step(st, EditSpec(spec)))
  {
    hide ETagSafe, Consistent;
    assert Unfinished(Step(st, EditSpec(spec))) == Unfinished(st);
  }

  lemma StepKeeps(st: State, e: Event)
    requires Inv(st)
    ensures Inv(Step(st, e))
  {
    hide PlanReconcile, Inv, Perform;
    match e
    case Reconcile(a, outcomes) =>
      ReconcileAllowed(st, a);
      PerformKeeps(PlanReconcile(st, a), st, outcomes);
    case EditSpec(spec) => EditKeeps(st, spec);
    case RunJob(key, _, _) => JobMoveKeeps(st, Step(st, e));
    case RemoveJob(key) => JobMoveKeeps(st, Step(st, e));
    case RequestDeletion => JobMoveKeeps(st, Step(st, e));
  }

  lemma {:induction false} RunKeeps(st: State, events: seq<Event>)
    requires Inv(st)
    ensures Inv(Run(st, events))
    decreases |events|
  {
    if events != [] {
      StepKeeps(st, events[0]);
      RunKeeps(Step(st, events[0]), events[1..]);
    }
  }

  lemma ReachableInv(start: State, events: seq<Event>)
    requires Fresh(start)
    ensures Inv(Run(start, events))
  {
    RunKeeps(start, events);
  }

  // The theorems.

  /** Only consistent statuses are ever stored, whichever writes were lost on the way. */
  lemma StoredStatusIsConsistent(start: State, events: seq<Event>)
    requires Fresh(start)
    ensures Consistent(Run(start, events).bundle.status)
  {
    ReachableInv(start, events);
  }

  /** The Job the status tracks carries the recorded tag, unless a retry was stored since it was tracked. */
  lemma TrackedJobCarriesRecordedTag(start: State, events: seq<Event>)
    requires Fresh(start)
    ensures TracksRecorded(Run(start, events))
  {
    ReachableInv(start, events);
  }

  /** Write-ahead makes deployment at most once per newest tag and per stored retry. */
  lemma DeploymentIsAtMostOnce(start: State, events: seq<Event>)
    requires Fresh(start)
    ensures var h := Run(start, events).history; h.created <= 1 + h.retries + h.newTags
  {
    ReachableInv(start, events);
  }

  /** Every unfinished Job but the tracked one is owed to a lost tracking write or a moved target. */
  lemma UnfinishedJobsAreBounded(start: State, events: seq<Event>)
    requires Fresh(start)
    ensures var st := Run(start, events);
            && st.history.tracked <= st.history.created
            && |Unfinished(st) - {Tracked(st)}|
               <= (st.history.created - st.history.tracked) + st.history.retargets
            && |Unfinished(st)| <= 1 + (st.history.created - st.history.tracked) + st.history.retargets
  {
    ReachableInv(start, events);
    var st := Run(start, events);
    Smaller(Unfinished(st), Untracked(st) + {Tracked(st)});
  }

  /**
   * A 304 says that the registry still lists what came with the stored ETag. Its greatest tag can
   * go unrecorded only behind a failed Job or an unfinished retry.
   */
  lemma NotModifiedHidesNothing(start: State, events: seq<Event>, current: seq<string>)
    requires Fresh(start)
    requires current != [] && Run(start, events).history.listed == Some(current)
    ensures var s := Run(start, events).bundle.status;
            || s.lastAppliedTag == current[|current| - 1]
            || s.lastJobStatus == JobFailed
            || s.consecutiveFailures > 0
  {
    ReachableInv(start, events);
  }
}
