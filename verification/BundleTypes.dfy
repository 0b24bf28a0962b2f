/** The WerfBundle resource (api/v1alpha1/werfbundle_types.go). */
module BundleTypes {
  import opened Wrappers
  import Backoff

  datatype Phase = PhaseNone | PhaseSyncing | PhaseSynced | PhaseFailed

  datatype JobStatus = JobNone | JobRunning | JobSucceeded | JobFailed

  /** How `time.ParseDuration` reads spec.registry.pollInterval; the duration is in nanoseconds. */
  datatype PollInterval = Unset | Malformed | Every(nanoseconds: Backoff.Duration)

  /** Exactly one of the two references is meant to be set; the code also meets both and neither. */
  datatype ValuesSource = ValuesSource(configMapRef: Option<string>, secretRef: Option<string>, optional: bool)

  type Int32 = n: int | -0x8000_0000 <= n < 0x8000_0000

  datatype Resources = Resources(cpu: string, memory: string)

  datatype Spec = Spec(
    registryURL: string,
    pollInterval: PollInterval,
    serviceAccountName: string,
    targetNamespace: string,
    resourceLimits: Option<Resources>,
    logRetentionDays: Option<Int32>,
    valuesFrom: seq<ValuesSource>)

  datatype Status = Status(
    phase: Phase,
    lastAppliedTag: string,
    lastSyncTime: Option<int>,
    lastErrorMessage: string,
    lastETag: string,
    consecutiveFailures: nat,
    lastErrorTime: Option<int>,
    activeJobName: string,
    lastJobStatus: JobStatus,
    lastJobLogs: string,
    resolvedTargetNamespace: string)

  const EMPTY_STATUS: Status :=
    Status(PhaseNone, "", None, "", "", 0, None, "", JobNone, "", "")

  /** The two statuses differ in the resolved target namespace at most. */
  predicate SameButNamespace(s: Status, t: Status) {
    s.(resolvedTargetNamespace := "") == t.(resolvedTargetNamespace := "")
  }

  datatype Bundle = Bundle(
    name: string,
    namespace: string,
    uid: string,
    spec: Spec,
    deleting: bool,
    finalizer: bool,
    status: Status)

  /** The upper bound the schema puts on the failure counter; its lower bound is the type of the field. */
  predicate SchemaAccepts(s: Status) {
    s.consecutiveFailures <= 6
  }

  function GetTargetNamespace(spec: Spec, bundleNamespace: string): string {
    if spec.targetNamespace != "" then spec.targetNamespace else bundleNamespace
  }

  /** The complaint about a cross-namespace bundle that names no ServiceAccount, if there is one. */
  function ValidateCrossNamespaceDeployment(spec: Spec, bundleNamespace: string): (complaint: Option<string>)
    ensures complaint.Some? ==> complaint.value != ""
    ensures complaint.Some? <==>
            GetTargetNamespace(spec, bundleNamespace) != bundleNamespace && spec.serviceAccountName == ""
  {
    if spec.targetNamespace == "" || spec.targetNamespace == bundleNamespace then None
    else if spec.serviceAccountName == "" then
      Some("serviceAccountName is required for cross-namespace deployment from "
           + bundleNamespace + " to " + spec.targetNamespace)
    else None
  }
}
