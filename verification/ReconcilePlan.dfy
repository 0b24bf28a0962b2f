/**
 * What a reconcile sets out to do, with the faults left out: a plan of writes in order.
 * `Perform` carries a plan out against the API server and stops at the first write that fails.
 */
module ReconcilePlan {
  import opened Wrappers
  import opened BundleTypes
  import opened Cluster
  import opened Numerals
  import Backoff

  const DEFAULT_POLL_INTERVAL: Backoff.Duration := 900 * Backoff.SECOND
  const MAX_CONSECUTIVE_FAILURES: int := 5
  const JOB_RECHECK: int := 5 * Backoff.SECOND

  /** ctrl.Result with a nil error, an error, or a panic. */
  datatype Outcome = Returned(requeueAfter: int) | Errored | Panicked

  datatype GetAnswer = Found | NotFound | GetError

  datatype AccountAnswer = AccountExists | AccountMissing | AccountUnreadable(cause: string)

  /** A tag as the OCI distribution grammar allows it, at least in not being empty. */
  type Tag = tag: string | tag != "" witness "latest"

  /** A 200 with the sorted tag list, a 304, or anything else. */
  datatype RegistryAnswer = Tags(tags: seq<Tag>, etag: string) | NotModified | RegistryError(text: string)

  type JobName = name: string | name != "" witness "job"

  datatype BuildAnswer = Built(name: JobName) | BuildError(text: string) | BuildPanic

  /** Everything the outside says during one reconcile. */
  datatype Answers = Answers(
    get: GetAnswer,
    account: AccountAnswer,
    registry: RegistryAnswer,
    jobUnreadable: bool,
    logs: Option<string>,
    build: BuildAnswer,
    createError: string,
    now: int,
    draw: nat)

  datatype Plan =
    | Stop(outcome: Outcome)
    | Put(site: Site, status: Status, listed: Option<seq<string>>, onError: Outcome, next: Plan)
    | Finalize(present: bool, next: Plan)
    | Read(tags: seq<string>, next: Plan)
    | Launch(key: JobKey, tag: string, onCreated: Plan, onFailed: Plan)

  function Perform(plan: Plan, st: State, outcomes: seq<WriteOutcome>): (State, Outcome)
    decreases plan
  {
    match plan
    case Stop(outcome) => (st, outcome)
    case Put(site, s, listed, onError, next) =>
      var (st', ok) := PutStatus(st, NextOutcome(outcomes), site, s, listed);
      if ok then Perform(next, st', LaterOutcomes(outcomes)) else (st', onError)
    case Finalize(present, next) =>
      var (st', ok) := PutFinalizer(st, NextOutcome(outcomes), present);
      if ok then Perform(next, st', LaterOutcomes(outcomes)) else (st', Errored)
    case Read(tags, next) => Perform(next, Polled(st, tags), outcomes)
    case Launch(key, tag, onCreated, onFailed) =>
      var (st', ok) := CreateJob(st, NextOutcome(outcomes), key, tag);
      Perform(if ok then onCreated else onFailed, st', LaterOutcomes(outcomes))
  }

  // The three status transitions.

  function MarkSyncing(s: Status, tag: string): Status {
    s.(phase := PhaseSyncing,
       lastAppliedTag := if tag != "" then tag else s.lastAppliedTag,
       lastErrorMessage := "",
       lastSyncTime := None)
  }

  function MarkSynced(s: Status, tag: string, now: int): Status {
    s.(phase := PhaseSynced, lastAppliedTag := tag, lastErrorMessage := "", lastSyncTime := Some(now))
  }

  function MarkFailed(s: Status, message: string): Status {
    s.(phase := PhaseFailed, lastErrorMessage := message)
  }

  // Messages. Only that they are not empty matters to the properties.

  function AccountComplaint(b: Bundle, answer: AccountAnswer): (complaint: Option<string>)
    ensures complaint.Some? ==> complaint.value != ""
  {
    var name, target := b.spec.serviceAccountName, GetTargetNamespace(b.spec, b.namespace);
    if name == "" then None
    else
      match answer
      case AccountExists => None
      case AccountMissing => Some("ServiceAccount '" + name + "' not found in namespace '" + target + "'")
      case AccountUnreadable(cause) =>
        Some("failed to get ServiceAccount '" + name + "' in namespace '" + target + "': " + cause)
  }

  function RetryMessage(failures: nat, text: string): (message: string)
    ensures message != ""
  {
    "Registry error (attempt " + Decimal(failures) + "/5): " + text
  }

  function IntervalOf(spec: Spec): Backoff.Duration {
    if spec.pollInterval.Every? then spec.pollInterval.nanoseconds else DEFAULT_POLL_INTERVAL
  }

  function NextPoll(spec: Spec, draw: nat): Outcome {
    match Backoff.AddJitter(IntervalOf(spec), draw)
    case Some(delay) => Returned(delay)
    case None => Panicked
  }

  // The plan, from the end of the controller back to its entry point. In each function b.status
  // is the working copy and `listed` the tag list behind its ETag.

  function PlanMonitor(b: Bundle, listed: Option<seq<string>>, job: Job, latest: string, a: Answers): Plan {
    var logs := if a.logs.Some? then a.logs.value else b.status.lastJobLogs;
    if job.succeeded > 0 then
      var s := b.status.(lastJobStatus := JobSucceeded, activeJobName := "", lastJobLogs := logs);
      Put(JobSuccess, MarkSynced(s, latest, a.now), listed, Errored, Stop(Returned(0)))
    else if job.failed > 0 then
      var s := b.status.(lastJobStatus := JobFailed, activeJobName := "", lastJobLogs := logs);
      Put(JobFailure, MarkFailed(s, "Job failed, see job logs for details"), listed, Errored, Stop(Returned(0)))
    else Stop(Returned(JOB_RECHECK))
  }

  function PlanCreate(b: Bundle, listed: Option<seq<string>>, latest: string, a: Answers): Plan {
    match a.build
    case BuildPanic => Stop(Panicked)
    case BuildError(text) =>
      Put(BuildFailure, MarkFailed(b.status, "Failed to build Job: " + text), listed, Errored, Stop(Returned(0)))
    case Built(name) =>
      Launch(JobKey(GetTargetNamespace(b.spec, b.namespace), name), latest,
             Put(Tracking, b.status.(activeJobName := name, lastJobStatus := JobRunning), listed, Errored,
                 Stop(Returned(JOB_RECHECK))),
             Put(CreateFailure, MarkFailed(b.status, "Failed to create Job: " + a.createError), listed, Errored,
                 Stop(Returned(0))))
  }

  function PlanLaunch(b: Bundle, listed: Option<seq<string>>, latest: string, a: Answers): Plan {
    var s := MarkSyncing(b.status, latest);
    Put(WriteAhead, s, listed, Errored, PlanCreate(b.(status := s), listed, latest, a))
  }

  function PlanJob(b: Bundle, listed: Option<seq<string>>, jobs: map<JobKey, Job>, latest: string, a: Answers): Plan {
    var key := JobKey(GetTargetNamespace(b.spec, b.namespace), b.status.activeJobName);
    if b.status.activeJobName == "" then PlanLaunch(b, listed, latest, a)
    else if a.jobUnreadable then Stop(Errored)
    else if key in jobs then PlanMonitor(b, listed, jobs[key], latest, a)
    else PlanLaunch(b.(status := b.status.(activeJobName := "")), listed, latest, a)
  }

  function PlanTags(b: Bundle, jobs: map<JobKey, Job>, tags: seq<string>, a: Answers): Plan {
    if tags == [] then
      if b.status.phase == PhaseNone || b.status.phase == PhaseFailed then
        Put(NoTags, MarkSyncing(b.status, ""), Some(tags), Errored, Stop(NextPoll(b.spec, a.draw)))
      else Stop(NextPoll(b.spec, a.draw))
    else
      var latest := tags[|tags| - 1];
      if b.status.lastAppliedTag == latest then
        if b.status.phase != PhaseSynced then
          Put(UpToDate, MarkSynced(b.status, latest, a.now), Some(tags), Errored, Stop(Returned(0)))
        else Stop(Returned(0))
      else PlanJob(b, Some(tags), jobs, latest, a)
  }

  function PlanRetry(b: Bundle, listed: Option<seq<string>>, text: string, a: Answers): Plan {
    var failures := b.status.consecutiveFailures + 1;
    var s := b.status.(consecutiveFailures := failures, lastErrorTime := Some(a.now));
    if failures > MAX_CONSECUTIVE_FAILURES then
      Put(Exhausted, MarkFailed(s, "Registry error after 5 retries: " + text), listed, Errored, Stop(Returned(0)))
    else
      Put(Retry, MarkSyncing(s, RetryMessage(failures, text)), listed, Errored,
          Stop(Returned(Backoff.CalculateBackoff(failures))))
  }

  function PlanPoll(b: Bundle, listed: Option<seq<string>>, jobs: map<JobKey, Job>, a: Answers): Plan {
    match a.registry
    case NotModified => Stop(NextPoll(b.spec, a.draw))
    case RegistryError(text) => PlanRetry(b, listed, text, a)
    case Tags(tags, etag) =>
      Read(tags, PlanTags(b.(status := b.status.(consecutiveFailures := 0, lastETag := etag)), jobs, tags, a))
  }

  function PlanAccount(b: Bundle, listed: Option<seq<string>>, jobs: map<JobKey, Job>, a: Answers): Plan {
    match AccountComplaint(b, a.account)
    case Some(message) =>
      // The caller drops the error of this write.
      Put(Account, MarkFailed(b.status, message), listed, Returned(0), Stop(Returned(0)))
    case None => PlanPoll(b, listed, jobs, a)
  }

  function PlanValidated(b: Bundle, listed: Option<seq<string>>, jobs: map<JobKey, Job>, a: Answers): Plan {
    var target := GetTargetNamespace(b.spec, b.namespace);
    match ValidateCrossNamespaceDeployment(b.spec, b.namespace)
    case Some(message) =>
      Put(Validation, MarkFailed(b.status, message), listed, Errored, Stop(Returned(0)))
    case None =>
      if b.status.resolvedTargetNamespace != target then
        var s := b.status.(resolvedTargetNamespace := target);
        Put(Namespace, s, listed, Errored, PlanAccount(b.(status := s), listed, jobs, a))
      else PlanAccount(b, listed, jobs, a)
  }

  function PlanReconcile(st: State, a: Answers): Plan {
    var b, listed := st.bundle, st.history.listed;
    match a.get
    case NotFound => Stop(Returned(0))
    case GetError => Stop(Errored)
    case Found =>
      if b.deleting then
        if b.finalizer then Finalize(false, Stop(Returned(0))) else Stop(Returned(0))
      else if !b.finalizer then Finalize(true, PlanValidated(b.(finalizer := true), listed, st.jobs, a))
      else PlanValidated(b, listed, st.jobs, a)
  }
}
