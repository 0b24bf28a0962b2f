/**
 * The API server as one reconcile sees it: the stored bundle, the Jobs, and writes that may be
 * refused or whose reply may be lost. A crash of the operator before a write is a refusal and a
 * crash after it a lost reply, so arbitrary outcomes also cover arbitrary crash points.
 */
module Cluster {
  import opened Wrappers
  import opened BundleTypes

  datatype JobKey = JobKey(namespace: string, name: string)

  datatype Job = Job(tag: string, succeeded: nat, failed: nat) {
    predicate Finished() {
      succeeded > 0 || failed > 0
    }
  }

  datatype WriteOutcome = Acked | Refused | ReplyLost

  /** Which statement of the controller writes the status. */
  datatype Site =
    | Validation
    | Namespace
    | Account
    | Exhausted
    | Retry
    | NoTags
    | UpToDate
    | WriteAhead
    | BuildFailure
    | CreateFailure
    | Tracking
    | JobSuccess
    | JobFailure

  /**
   * What has happened to the bundle so far.
   * created: Jobs that came to exist; tracked: stored writes of the Job just created;
   * retries: stored writes of a retryable registry error; newest: greatest tag of the last
   * non-empty tag list; newTags: how often that tag changed; retargets: edits that moved the
   * target namespace; trackedNamespace: where the Job in activeJobName was created; retried: whether
   * a retry was stored since that Job was tracked;
   * listed: the tag list that came with the stored ETag.
   */
  datatype History = History(
    created: nat,
    tracked: nat,
    retries: nat,
    newest: Option<string>,
    newTags: nat,
    retargets: nat,
    trackedNamespace: string,
    retried: bool,
    listed: Option<seq<string>>)

  const NO_HISTORY: History := History(0, 0, 0, None, 0, 0, "", false, None)

  datatype State = State(bundle: Bundle, jobs: map<JobKey, Job>, history: History) {
    function Target(): string {
      GetTargetNamespace(bundle.spec, bundle.namespace)
    }
  }

  function NextOutcome(outcomes: seq<WriteOutcome>): WriteOutcome {
    if outcomes == [] then Acked else outcomes[0]
  }

  function LaterOutcomes(outcomes: seq<WriteOutcome>): seq<WriteOutcome> {
    if outcomes == [] then [] else outcomes[1..]
  }

  /** The state once the server has stored a status. */
  function Stored(st: State, site: Site, s: Status, listed: Option<seq<string>>): State {
    var h := st.history;
    st.(bundle := st.bundle.(status := s),
        history := h.(retries := h.retries + if site == Retry then 1 else 0,
                      tracked := h.tracked + if site == Tracking then 1 else 0,
                      retried := site == Retry || (h.retried && site != Tracking),
                      trackedNamespace := if site == Tracking then st.Target() else h.trackedNamespace,
                      listed := listed))
  }

  /** One status write; the Boolean is the absence of an error. */
  function PutStatus(st: State, outcome: WriteOutcome, site: Site, s: Status, listed: Option<seq<string>>): (State, bool)
  {
    if outcome == Refused || !SchemaAccepts(s) then (st, false)
    else (Stored(st, site, s, listed), outcome == Acked)
  }

  function Created(st: State, key: JobKey, tag: string): State {
    st.(jobs := st.jobs[key := Job(tag, 0, 0)],
        history := st.history.(created := st.history.created + 1))
  }

  /** One Job creation; a name already taken in the namespace is refused. */
  function CreateJob(st: State, outcome: WriteOutcome, key: JobKey, tag: string): (State, bool) {
    if outcome == Refused || key in st.jobs then (st, false)
    else (Created(st, key, tag), outcome == Acked)
  }

  function PutFinalizer(st: State, outcome: WriteOutcome, present: bool): (State, bool) {
    if outcome == Refused then (st, false)
    else (st.(bundle := st.bundle.(finalizer := present)), outcome == Acked)
  }

  /** A non-empty tag list was read; its last element is the greatest tag. */
  function Polled(st: State, tags: seq<string>): State {
    if tags == [] then st
    else
      var h := st.history;
      var tag := tags[|tags| - 1];
      st.(history := h.(newest := Some(tag),
                        newTags := h.newTags + if h.newest.Some? && h.newest.value != tag then 1 else 0))
  }
}
