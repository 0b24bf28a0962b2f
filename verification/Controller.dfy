/**
 * The reconciler (controllers/werfbundle_controller.go): methods that change a working copy of the
 * bundle step by step and write it back between the steps. Each is proved to do exactly what
 * performing its plan does, for every outcome of every write.
 */
module Controller {
  import opened Wrappers
  import opened BundleTypes
  import opened Cluster
  import opened ReconcilePlan
  import Backoff

  /** The working copy a reconcile fetches and mutates. */
  class WerfBundle {
    const name: string
    const namespace: string
    const uid: string
    const spec: Spec
    const deleting: bool
    var finalizer: bool
    var status: Status
    /** The tag list behind status.lastETag. */
    ghost var listed: Option<seq<string>>

    constructor (stored: Bundle, ghost listed: Option<seq<string>>)
      ensures Value() == stored && this.listed == listed
    {
      name, namespace, uid := stored.name, stored.namespace, stored.uid;
      spec, deleting := stored.spec, stored.deleting;
      finalizer, status := stored.finalizer, stored.status;
      this.listed := listed;
    }

    function Value(): Bundle
      reads this
    {
      Bundle(name, namespace, uid, spec, deleting, finalizer, status)
    }

    /** The namespace its Jobs run in. */
    function Target(): string {
      GetTargetNamespace(spec, namespace)
    }
  }

  class ApiServer {
    var bundle: Bundle
    var jobs: map<JobKey, Job>
    /** How the writes to come will end. */
    var outcomes: seq<WriteOutcome>
    ghost var history: History

    constructor (st: State, outcomes: seq<WriteOutcome>)
      ensures Snapshot() == st && this.outcomes == outcomes
    {
      bundle, jobs, this.outcomes, history := st.bundle, st.jobs, outcomes, st.history;
    }

    ghost function Snapshot(): State
      reads this
    {
      State(bundle, jobs, history)
    }

    method TakeOutcome() returns (outcome: WriteOutcome)
      modifies this`outcomes
      ensures outcome == NextOutcome(old(outcomes)) && outcomes == LaterOutcomes(old(outcomes))
    {
      outcome := NextOutcome(outcomes);
      outcomes := LaterOutcomes(outcomes);
    }

    /** Status().Update: the Boolean is the absence of an error. */
    method UpdateStatus(b: WerfBundle, ghost site: Site) returns (ok: bool)
      modifies this
      ensures (Snapshot(), ok) == PutStatus(old(Snapshot()), NextOutcome(old(outcomes)), site, b.status, b.listed)
      ensures outcomes == LaterOutcomes(old(outcomes))
    {
      var outcome := TakeOutcome();
      if outcome == Refused || !SchemaAccepts(b.status) {
        return false;
      }
      history := Stored(Snapshot(), site, b.status, b.listed).history;
      bundle := bundle.(status := b.status);
      return outcome == Acked;
    }

    method UpdateFinalizers(b: WerfBundle) returns (ok: bool)
      modifies this
      ensures (Snapshot(), ok) == PutFinalizer(old(Snapshot()), NextOutcome(old(outcomes)), b.finalizer)
      ensures outcomes == LaterOutcomes(old(outcomes))
    {
      var outcome := TakeOutcome();
      if outcome == Refused {
        return false;
      }
      bundle := bundle.(finalizer := b.finalizer);
      return outcome == Acked;
    }

    method Create(key: JobKey, tag: string) returns (ok: bool)
      modifies this
      ensures (Snapshot(), ok) == CreateJob(old(Snapshot()), NextOutcome(old(outcomes)), key, tag)
      ensures outcomes == LaterOutcomes(old(outcomes))
    {
      var outcome := TakeOutcome();
      if outcome == Refused || key in jobs {
        return false;
      }
      jobs := jobs[key := Job(tag, 0, 0)];
      history := history.(created := history.created + 1);
      return outcome == Acked;
    }

    ghost method NoteTags(tags: seq<string>)
      modifies this`history
      ensures Snapshot() == Polled(old(Snapshot()), tags)
    {
      history := Polled(Snapshot(), tags).history;
    }
  }

  class WerfBundleReconciler {
    const api: ApiServer

    constructor (api: ApiServer)
      ensures this.api == api
    {
      this.api := api;
    }

    method UpdateStatusSyncing(b: WerfBundle, tag: string, ghost site: Site) returns (ok: bool)
      modifies b`status, api
      ensures b.status == MarkSyncing(old(b.status), tag)
      ensures (api.Snapshot(), ok)
              == PutStatus(old(api.Snapshot()), NextOutcome(old(api.outcomes)), site, b.status, b.listed)
      ensures api.outcomes == LaterOutcomes(old(api.outcomes))
    {
      b.status := b.status.(phase := PhaseSyncing);
      if tag != "" {
        b.status := b.status.(lastAppliedTag := tag);
      }
      b.status := b.status.(lastErrorMessage := "");
      b.status := b.status.(lastSyncTime := None);
      ok := api.UpdateStatus(b, site);
    }

    method UpdateStatusSynced(b: WerfBundle, tag: string, now: int, ghost site: Site) returns (ok: bool)
      modifies b`status, api
      ensures b.status == MarkSynced(old(b.status), tag, now)
      ensures (api.Snapshot(), ok)
              == PutStatus(old(api.Snapshot()), NextOutcome(old(api.outcomes)), site, b.status, b.listed)
      ensures api.outcomes == LaterOutcomes(old(api.outcomes))
    {
      b.status := b.status.(phase := PhaseSynced);
      b.status := b.status.(lastAppliedTag := tag);
      b.status := b.status.(lastErrorMessage := "");
      b.status := b.status.(lastSyncTime := Some(now));
      ok := api.UpdateStatus(b, site);
    }

    method UpdateStatusFailed(b: WerfBundle, message: string, ghost site: Site) returns (ok: bool)
      modifies b`status, api
      ensures b.status == MarkFailed(old(b.status), message)
      ensures (api.Snapshot(), ok)
              == PutStatus(old(api.Snapshot()), NextOutcome(old(api.outcomes)), site, b.status, b.listed)
      ensures api.outcomes == LaterOutcomes(old(api.outcomes))
    {
      b.status := b.status.(phase := PhaseFailed);
      b.status := b.status.(lastErrorMessage := message);
      ok := api.UpdateStatus(b, site);
    }

    method MonitorJobCompletion(b: WerfBundle, job: Job, latest: string, a: Answers) returns (outcome: Outcome)
      modifies b`status, api
      ensures (api.Snapshot(), outcome)
              == Perform(PlanMonitor(old(b.Value()), b.listed, job, latest, a),
                         old(api.Snapshot()), old(api.outcomes))
    {
      if job.succeeded > 0 {
        b.status := b.status.(lastJobStatus := JobSucceeded);
        b.status := b.status.(activeJobName := "");
        if a.logs.Some? {
          b.status := b.status.(lastJobLogs := a.logs.value);
        }
        var ok := UpdateStatusSynced(b, latest, a.now, JobSuccess);
        if !ok {
          return Errored;
        }
        return Returned(0);
      }
      if job.failed > 0 {
        b.status := b.status.(lastJobStatus := JobFailed);
        b.status := b.status.(activeJobName := "");
        if a.logs.Some? {
          b.status := b.status.(lastJobLogs := a.logs.value);
        }
        var ok := UpdateStatusFailed(b, "Job failed, see job logs for details", JobFailure);
        if !ok {
          return Errored;
        }
        return Returned(0);
      }
      return Returned(JOB_RECHECK);
    }

    /** The second half of ensureJobExists, after the write-ahead. */
    method CreateAndTrack(b: WerfBundle, latest: string, a: Answers) returns (outcome: Outcome)
      modifies b`status, api
      ensures (api.Snapshot(), outcome)
              == Perform(PlanCreate(old(b.Value()), b.listed, latest, a), old(api.Snapshot()), old(api.outcomes))
    {
      match a.build {
        case BuildPanic =>
          return Panicked;
        case BuildError(text) =>
          var ok := UpdateStatusFailed(b, "Failed to build Job: " + text, BuildFailure);
          if !ok {
            return Errored;
          }
          return Returned(0);
        case Built(name) =>
          ghost var plan := PlanCreate(b.Value(), b.listed, latest, a);
          var created := api.Create(JobKey(b.Target(), name), latest);
          assert Perform(plan, old(api.Snapshot()), old(api.outcomes))
              == Perform(if created then plan.onCreated else plan.onFailed, api.Snapshot(), api.outcomes);
          if !created {
            var ok := UpdateStatusFailed(b, "Failed to create Job: " + a.createError, CreateFailure);
            if !ok {
              return Errored;
            }
            return Returned(0);
          }
          outcome := Track(b, name);
      }
    }

    /** The Job just created becomes the active one. */
    method Track(b: WerfBundle, name: JobName) returns (outcome: Outcome)
      modifies b`status, api
      ensures b.status == old(b.status).(activeJobName := name, lastJobStatus := JobRunning)
      ensures (api.Snapshot(), outcome)
              == Perform(Put(Tracking, b.status, b.listed, Errored, Stop(Returned(JOB_RECHECK))),
                         old(api.Snapshot()), old(api.outcomes))
    {
      b.status := b.status.(activeJobName := name);
      b.status := b.status.(lastJobStatus := JobRunning);
      var ok := api.UpdateStatus(b, Tracking);
      if !ok {
        return Errored;
      }
      return Returned(JOB_RECHECK);
    }

    method EnsureJobExists(b: WerfBundle, latest: string, a: Answers) returns (outcome: Outcome)
      modifies b`status, api
      ensures (api.Snapshot(), outcome)
              == Perform(PlanJob(old(b.Value()), b.listed, old(api.jobs), latest, a),
                         old(api.Snapshot()), old(api.outcomes))
    {
      if b.status.activeJobName != "" {
        var key := JobKey(b.Target(), b.status.activeJobName);
        if a.jobUnreadable {
          return Errored;
        }
        if key in api.jobs {
          outcome := MonitorJobCompletion(b, api.jobs[key], latest, a);
          return;
        }
        b.status := b.status.(activeJobName := "");
      }
      var ok := UpdateStatusSyncing(b, latest, WriteAhead);
      if !ok {
        return Errored;
      }
      outcome := CreateAndTrack(b, latest, a);
    }

    method HandleRegistryError(b: WerfBundle, a: Answers) returns (outcome: Outcome)
      requires !a.registry.Tags?
      modifies b`status, api
      ensures (api.Snapshot(), outcome)
              == Perform(PlanPoll(old(b.Value()), b.listed, old(api.jobs), a), old(api.Snapshot()), old(api.outcomes))
    {
      if a.registry.NotModified? {
        return NextPoll(b.spec, a.draw);
      }
      b.status := b.status.(consecutiveFailures := b.status.consecutiveFailures + 1);
      b.status := b.status.(lastErrorTime := Some(a.now));
      if b.status.consecutiveFailures > MAX_CONSECUTIVE_FAILURES {
        var ok := UpdateStatusFailed(b, "Registry error after 5 retries: " + a.registry.text, Exhausted);
        if !ok {
          return Errored;
        }
        return Returned(0);
      }
      var backoff := Backoff.CalculateBackoff(b.status.consecutiveFailures);
      var ok := UpdateStatusSyncing(b, RetryMessage(b.status.consecutiveFailures, a.registry.text), Retry);
      if !ok {
        return Errored;
      }
      return Returned(backoff);
    }

    /** Whether the reconcile may go on; a failed write is not told apart from a missing account. */
    method ValidateServiceAccount(b: WerfBundle, a: Answers) returns (ok: bool)
      modifies b`status, api
      ensures ok <==> AccountComplaint(old(b.Value()), a.account).None?
      ensures ok ==> b.status == old(b.status) && api.Snapshot() == old(api.Snapshot())
                     && api.outcomes == old(api.outcomes)
      ensures !ok ==> (api.Snapshot(), Returned(0))
                      == Perform(PlanAccount(old(b.Value()), b.listed, old(api.jobs), a),
                                 old(api.Snapshot()), old(api.outcomes))
    {
      var complaint := AccountComplaint(b.Value(), a.account);
      if complaint.Some? {
        var written := UpdateStatusFailed(b, complaint.value, Account);
        return false;
      }
      return true;
    }

    /** The tail of Reconcile, once the tag list is in. */
    method Deploy(b: WerfBundle, tags: seq<string>, a: Answers) returns (outcome: Outcome)
      requires b.listed == Some(tags)
      modifies b`status, api
      ensures (api.Snapshot(), outcome)
              == Perform(PlanTags(old(b.Value()), old(api.jobs), tags, a),
                         old(api.Snapshot()), old(api.outcomes))
    {
      hide PlanJob;
      if |tags| == 0 {
        if b.status.phase == PhaseNone || b.status.phase == PhaseFailed {
          var ok := UpdateStatusSyncing(b, "", NoTags);
          if !ok {
            return Errored;
          }
        }
        return NextPoll(b.spec, a.draw);
      }
      var latest := tags[|tags| - 1];
      if b.status.lastAppliedTag == latest {
        if b.status.phase != PhaseSynced {
          var ok := UpdateStatusSynced(b, latest, a.now, UpToDate);
          if !ok {
            return Errored;
          }
        }
        return Returned(0);
      }
      outcome := EnsureJobExists(b, latest, a);
    }

    /** From the registry poll to the end. */
    method PollAndDeploy(b: WerfBundle, a: Answers) returns (outcome: Outcome)
      modifies b, api
      ensures (api.Snapshot(), outcome)
              == Perform(PlanPoll(old(b.Value()), old(b.listed), old(api.jobs), a),
                         old(api.Snapshot()), old(api.outcomes))
    {
      hide PlanTags;
      if !a.registry.Tags? {
        outcome := HandleRegistryError(b, a);
        return;
      }
      var tags := a.registry.tags;
      api.NoteTags(tags);
      if b.status.consecutiveFailures > 0 {
        b.status := b.status.(consecutiveFailures := 0);
      }
      b.status := b.status.(lastETag := a.registry.etag);
      b.listed := Some(tags);
      outcome := Deploy(b, tags, a);
    }

    /** From the validation of the specification to the end. */
    method ValidateAndDeploy(b: WerfBundle, a: Answers) returns (outcome: Outcome)
      modifies b, api
      ensures (api.Snapshot(), outcome)
              == Perform(PlanValidated(old(b.Value()), old(b.listed), old(api.jobs), a),
                         old(api.Snapshot()), old(api.outcomes))
    {
      hide PlanPoll;
      var complaint := ValidateCrossNamespaceDeployment(b.spec, b.namespace);
      if complaint.Some? {
        var ok := UpdateStatusFailed(b, complaint.value, Validation);
        if !ok {
          return Errored;
        }
        return Returned(0);
      }
      if b.status.resolvedTargetNamespace != b.Target() {
        b.status := b.status.(resolvedTargetNamespace := b.Target());
        var ok := api.UpdateStatus(b, Namespace);
        if !ok {
          return Errored;
        }
      }
      if b.spec.serviceAccountName != "" {
        var ok := ValidateServiceAccount(b, a);
        if !ok {
          return Returned(0);
        }
      }
      outcome := PollAndDeploy(b, a);
    }

    /** Reconcile: the stored state moves as the plan says, write by write. */
    method Reconcile(a: Answers) returns (outcome: Outcome)
      modifies api
      ensures (api.Snapshot(), outcome)
              == Perform(PlanReconcile(old(api.Snapshot()), a), old(api.Snapshot()), old(api.outcomes))
    {
      hide PlanValidated;
      match a.get {
        case NotFound => return Returned(0);
        case GetError => return Errored;
        case Found =>
      }
      var b := new WerfBundle(api.bundle, api.history.listed);
      if b.deleting {
        if b.finalizer {
          b.finalizer := false;
          var ok := api.UpdateFinalizers(b);
          if !ok {
            return Errored;
          }
        }
        return Returned(0);
      }
      if !b.finalizer {
        b.finalizer := true;
        var ok := api.UpdateFinalizers(b);
        if !ok {
          return Errored;
        }
      }
      outcome := ValidateAndDeploy(b, a);
    }
  }
}
