/** Runs: reconciles and moves of the environment, in any order and number. */
module Runs {
  import opened Wrappers
  import opened BundleTypes
  import opened Cluster
  import opened ReconcilePlan

  datatype Event =
    | Reconcile(answers: Answers, outcomes: seq<WriteOutcome>)
    | EditSpec(spec: Spec)
    | RunJob(key: JobKey, succeeded: nat, failed: nat)
    | RemoveJob(key: JobKey)
    | RequestDeletion

  function Step(st: State, e: Event): State {
    match e
    case Reconcile(a, outcomes) => Perform(PlanReconcile(st, a), st, outcomes).0
    case EditSpec(spec) =>
      var moved := GetTargetNamespace(spec, st.bundle.namespace) != st.Target();
      st.(bundle := st.bundle.(spec := spec),
          history := st.history.(retargets := st.history.retargets + if moved then 1 else 0))
    case RunJob(key, succeeded, failed) =>
      // A finished Job stays finished.
      if key in st.jobs && !st.jobs[key].Finished() then
        st.(jobs := st.jobs[key := st.jobs[key].(succeeded := succeeded, failed := failed)])
      else st
    case RemoveJob(key) => st.(jobs := st.jobs - {key})
    case RequestDeletion => st.(bundle := st.bundle.(deleting := true))
  }

  function Run(st: State, events: seq<Event>): State
    decreases |events|
  {
    if events == [] then st else Run(Step(st, events[0]), events[1..])
  }

  lemma {:induction false} RunConcat(st: State, earlier: seq<Event>, later: seq<Event>)
    ensures Run(st, earlier + later) == Run(Run(st, earlier), later)
    decreases |earlier|
  {
    if earlier == [] {
      assert earlier + later == later;
    } else {
      assert (earlier + later)[0] == earlier[0] && (earlier + later)[1..] == earlier[1..] + later;
      RunConcat(Step(st, earlier[0]), earlier[1..], later);
    }
  }

  lemma RunOne(st: State, e: Event)
    ensures Run(st, [e]) == Step(st, e)
  {
    assert [e][1..] == [];
  }

  /** A bundle nobody has reconciled yet. */
  predicate Fresh(st: State) {
    st.bundle.status == EMPTY_STATUS && st.jobs == map[] && st.history == NO_HISTORY
  }
}
