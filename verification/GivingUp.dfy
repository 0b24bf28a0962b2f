/** What the sixth registry error in a row leads to: a bundle that is not given up but errs for good. */
module GivingUp {
  import opened Wrappers
  import opened BundleTypes
  import opened Cluster
  import opened ReconcilePlan
  import opened Runs
  import opened Safety
  import opened Progress
  import opened Retries

  // Getting there.

  /** Reconciles with acknowledged writes, one for each of the answers. */
  function InTurn(answers: seq<Answers>): seq<Event> {
    seq(|answers|, i requires 0 <= i < |answers| => Reconcile(answers[i], []))
  }

  lemma {:induction false} ErrorsAddUp(st: State, answers: seq<Answers>)
    requires st.bundle.status.consecutiveFailures + |answers| <= 6
    requires forall i :: 0 <= i < |answers| ==> SeesError(st, answers[i])
    ensures Run(st, InTurn(answers)).bundle.status.consecutiveFailures
            == st.bundle.status.consecutiveFailures + |answers|
    ensures Run(st, InTurn(answers)).bundle.spec == st.bundle.spec
            && Run(st, InTurn(answers)).bundle.deleting == st.bundle.deleting
    decreases |answers|
  {
    hide PlanReconcile, SeesError;
    if answers != [] {
      var a, rest := answers[0], answers[1..];
      var st' := Step(st, Reconcile(a, []));
      ReconcileCounts(st, a) by {
        SeesNoTags(st, a);
      }
      PerformKeepsSpec(PlanReconcile(st, a), st, []);
      forall i | 0 <= i < |rest|
        ensures SeesError(st', rest[i])
      {
        SeesErrorByBundle(st, st', answers[i + 1]);
      }
      assert InTurn(answers)[0] == Reconcile(a, []) && InTurn(answers)[1..] == InTurn(rest);
      ErrorsAddUp(st', rest);
    }
  }

  lemma SeesNoTags(st: State, a: Answers)
    requires SeesError(st, a)
    ensures !a.registry.Tags?
  {
  }

  /** Six registry errors in a row from a fresh bundle get there. */
  lemma SixErrorsGiveUp(start: State, answers: seq<Answers>)
    requires Fresh(start) && |answers| == 6
    requires forall i :: 0 <= i < 6 ==> SeesError(start, answers[i])
    ensures var s := Run(start, InTurn(answers)).bundle.status; s.consecutiveFailures == 6 && s.phase == PhaseFailed
  {
    hide SeesError;
    ErrorsAddUp(start, answers);
    StoredStatusIsConsistent(start, InTurn(answers));
  }

  // Being there.

  /** An unrecorded tag meets an active Job that cannot be read. */
  predicate CannotReadJob(st: State, a: Answers) {
    && a.registry.Tags? && a.registry.tags != [] && !IsRecorded(st, a.registry.tags)
    && st.bundle.status.activeJobName != "" && a.jobUnreadable
  }

  /**
   * Giving up is not what happens: the seventh error is refused by the schema. With acknowledged
   * writes a reconcile at counter 6 errs if and only if the bundle cannot be read, the registry
   * errs, or an active Job cannot be read.
   */
  lemma GivenUpErrsExactly(st: State, a: Answers)
    requires Consistent(st.bundle.status) && st.bundle.status.consecutiveFailures == 6
    ensures OutcomeOf(st, a).Errored?
            <==> a.get.GetError? || SeesError(st, a) || (Polls(st, a) && CannotReadJob(st, a))
  {
    var errs := a.get.GetError? || SeesError(st, a) || (Polls(st, a) && CannotReadJob(st, a));
    var q := (s: Status, outcome: Outcome) => outcome.Errored? <==> errs;
    if Polls(st, a) {
      var s := st.bundle.status.(resolvedTargetNamespace := st.Target());
      PollErrs(st, st.bundle.(finalizer := true, status := s), a, q);
      PollEnds(st, a, true, q);
    } else if a.get.Found? && !st.bundle.deleting {
      NotPollingErrs(st, a, q);
    }
    PerformEnds(PlanReconcile(st, a), st, [], true, q);
  }

  lemma NotPollingErrs(st: State, a: Answers, q: (Status, Outcome) -> bool)
    requires a.get.Found? && !st.bundle.deleting && !Polls(st, a) && SchemaAccepts(st.bundle.status)
    requires forall s: Status, outcome: Outcome :: !outcome.Errored? ==> q(s, outcome)
    ensures Ends(PlanReconcile(st, a), st.bundle.status, true, q)
  {
    hide PlanPoll;
    var b := st.bundle.(finalizer := true);
    var settled := b.(status := b.status.(resolvedTargetNamespace := st.Target()));
    assert AccountComplaint(settled, a.account) == AccountComplaint(b, a.account)
        == AccountComplaint(st.bundle, a.account);
    if Validated(st.bundle) {
      assert Ends(PlanAccount(settled, st.history.listed, st.jobs, a), settled.status, true, q);
      assert Ends(PlanAccount(b, st.history.listed, st.jobs, a), b.status, true, q);
    }
    assert Ends(PlanValidated(b, st.history.listed, st.jobs, a), b.status, true, q);
    assert st.bundle.finalizer ==> b == st.bundle;
  }

  lemma PollErrs(st: State, b: Bundle, a: Answers, q: (Status, Outcome) -> bool)
    requires Polls(st, a) && st.bundle.status.consecutiveFailures == 6
    requires b.spec == st.bundle.spec && b.namespace == st.bundle.namespace
    requires b.status == st.bundle.status.(resolvedTargetNamespace := st.Target())
    requires forall s, outcome: Outcome :: q(s, outcome) <==>
               (outcome.Errored? <==> SeesError(st, a) || CannotReadJob(st, a))
    ensures Ends(PlanPoll(b, st.history.listed, st.jobs, a), b.status, true, q)
  {
    hide PlanLaunch;
    if a.registry.Tags? {
      var tags := a.registry.tags;
      var polled := b.(status := b.status.(consecutiveFailures := 0, lastETag := a.registry.etag));
      if tags != [] && !CannotReadJob(st, a) {
        LaunchDoesNotErr(b.status, polled, tags, a, q);
        LaunchDoesNotErr(b.status, polled.(status := polled.status.(activeJobName := "")), tags, a, q);
      }
      assert Ends(PlanTags(polled, st.jobs, tags, a), b.status, true, q);
    }
  }

  lemma LaunchDoesNotErr(s: Status, b: Bundle, tags: seq<string>, a: Answers, q: (Status, Outcome) -> bool)
    requires tags != [] && b.status.consecutiveFailures == 0
    requires forall t: Status, outcome: Outcome :: !outcome.Errored? ==> q(t, outcome)
    ensures Ends(PlanLaunch(b, Some(tags), tags[|tags| - 1], a), s, true, q)
  {
    var t := MarkSyncing(b.status, tags[|tags| - 1]);
    if a.build.Built? {
      var failed := MarkFailed(t, "Failed to create Job: " + a.createError);
      assert Ends(Put(CreateFailure, failed, Some(tags), Errored, Stop(Returned(0))), t, true, q);
    }
    assert Ends(PlanCreate(b.(status := t), Some(tags), tags[|tags| - 1], a), t, true, q);
  }

  // Staying there.

  /** A further registry error ends in an error, whatever becomes of the writes. */
  lemma GivenUpKeepsErring(st: State, a: Answers, outcomes: seq<WriteOutcome>)
    requires SeesError(st, a) && st.bundle.status.consecutiveFailures == 6
    ensures var (st', outcome) := Perform(PlanReconcile(st, a), st, outcomes);
            outcome == Errored && SameButNamespace(st'.bundle.status, st.bundle.status)
  {
    var before := st.bundle.status.(resolvedTargetNamespace := "");
    var q := (s: Status, outcome: Outcome) => outcome == Errored && s.(resolvedTargetNamespace := "") == before;
    PollEnds(st, a, false, q);
    PerformEnds(PlanReconcile(st, a), st, outcomes, false, q);
  }

  /** Every reconcile that takes place meets a registry error; all else may happen in between. */
  ghost predicate MeetsErrorsOnly(st: State, events: seq<Event>)
    decreases |events|
  {
    events == [] ||
    ((events[0].Reconcile? ==> SeesError(st, events[0].answers)) && MeetsErrorsOnly(Step(st, events[0]), events[1..]))
  }

  ghost predicate ErrsThroughout(st: State, events: seq<Event>)
    decreases |events|
  {
    events == [] ||
    (&& (events[0].Reconcile? ==>
           Perform(PlanReconcile(st, events[0].answers), st, events[0].outcomes).1 == Errored)
     && ErrsThroughout(Step(st, events[0]), events[1..]))
  }

  /**
   * So does every one in a run, and the status stays as it is, also through edits of the
   * specification and whatever the Jobs do.
   */
  lemma {:induction false} GivenUpErrsThroughout(st: State, events: seq<Event>)
    requires st.bundle.status.consecutiveFailures == 6 && MeetsErrorsOnly(st, events)
    ensures ErrsThroughout(st, events)
    ensures SameButNamespace(Run(st, events).bundle.status, st.bundle.status)
    decreases |events|
  {
    hide PlanReconcile, SeesError;
    if events != [] {
      if events[0].Reconcile? {
        GivenUpKeepsErring(st, events[0].answers, events[0].outcomes);
      }
      GivenUpErrsThroughout(Step(st, events[0]), events[1..]);
    }
  }
}
