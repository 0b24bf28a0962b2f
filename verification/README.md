# A verified model of the werf operator

The werf operator watches a registry for new tags of a bundle and deploys each through a Kubernetes Job that runs
`werf converge`. This project models two parts of it in Dafny and proves what they guarantee, and exactly when they do
not:

- **The reconcile machine**: the controller, its status and its backoff arithmetic.
- **The values pipeline**: from ConfigMaps and Secrets to the `--set` arguments of a Job, and back.

`dafny verify dfyconfig.toml` checks everything.

## How it is organised

| files | content |
|---|---|
| `BundleTypes`, `Cluster`, `ReconcilePlan`, `Runs` | the status and its schema, the API server with writes that fail, what a reconcile sets out to do, runs of reconciles and environment moves |
| `Controller` | the reconciler as classes whose methods change a working copy and write it back |
| `Safety`, `AtMostOnce` | what every run keeps; how many Jobs there can be |
| `Progress`, `Convergence`, `Stranding` | requeues, resets, convergence |
| `Retries`, `GivingUp` | the retry chain, and what comes after its end |
| `Branches` | what each branch of a reconcile leaves behind, field by field; deletion |
| `Deployment`, `Caching` | which tags get a Job and which never do; what is remembered of a tag list |
| `Backoff` | delays and jitter on wrapping 64-bit nanoseconds |
| `YamlTree`, `PathEncoding`, `FlattenOrders`, `Merging` | flattening documents to path keys in any order of iteration, and last-wins merging |
| `Unflattening`, `NestedMaps` | the inverse, as a function on trees and as mutation of linked nodes |
| `Escaping`, `SetFlags`, `Resolving`, `ConvergeJob` | escaping, flags, source resolution, and the Job with its name |
| `Wrappers`, `Numerals`, `Strings` | results, printed numbers, and the string operations the others need |

The reconcile machine has two descriptions. A *plan* (`ReconcilePlan`) lists the writes of one reconcile in order, and
`Perform` carries a plan out against a list of write outcomes. The *methods* of `Controller` change the fields of a
working copy one by one, and each is proved to have the effect of performing its plan, for every list of outcomes.
The theorems about runs are about `Perform`. `Branches` states what comes of it on every branch in plain fields, texts and
numbers, without the functions the plan is made of.

A write is acknowledged, refused, or stored with its reply lost. A crash before a write has the effect of a refusal and
a crash after it that of a lost reply, so the theorems hold for arbitrary crash points. A status whose failure counter is
above 6 is refused by the schema. Between reconciles Jobs finish or disappear, the specification is edited, and deletion
is requested, in any order. `History` remembers what no status field does: the Jobs created, the tracking and retry
writes that were stored, how often the greatest tag changed, whether a retry was stored since the active Job was
tracked, and the tag list that came with the stored ETag.

Go fixes no order of iteration over a map. `FlattenIn` and `ObjectIn` are therefore functions of an order, the methods
are proved to compute one of their values, and independence of the order is a statement about all orders.

Assumptions: a reconcile reads one consistent snapshot of the cluster, and a conflicting edit in the middle of one shows
as a refused write. A registry that answers 304 still has the list that came with the ETag it was sent, as sections
13.1.2 and 15.4.5 of RFC 9110 require; `NotModifiedHidesNothing` states this as a premise. A finished Job stays
finished. Tags are not empty, as the OCI distribution grammar has it, and names of Jobs are not empty.

## What does not hold

The model follows the code. Where its documentation or intention says something else, a lemma shows the failure.

- `LastAppliedTag` is documented as the last successfully deployed tag (api/v1alpha1/werfbundle_types.go:181). It is
  written before the Job exists, and a bundle is marked Synced on its account without a look at any Job:
  `SyncedWithoutAnyJob`, `RecordedBecomesSynced`.
- When an active Job is found to have succeeded, the tag just read is recorded as Synced. It is the Job's own only if
  that is still the greatest, and that only after a retry was stored since the Job was tracked or the target namespace was
  moved: `SuccessRecordsOwnTagExactly`, with a run in which it is in `RetryLetsOwnTagBeRecorded`. Without such a retry
  it is another tag, for which no Job is created then or by any later poll while it stays the greatest:
  `SuccessSkipsTag`, and from a fresh bundle `NewerTagIsNeverDeployed`.
- A retried registry error passes its message as the tag of the status write (controllers/werfbundle_controller.go:301).
  It overwrites `LastAppliedTag` and clears `LastErrorMessage`. Whatever becomes of the writes, a reconcile records
  something that is no listed tag if and only if it stores such a retry: `RetryOverwritesTag`,
  `ForeignTagIsAStoredRetryExactly`. This is why every stored retry may cost one more Job: `BudgetIsUsedUp`.
- The ETag of a list comes to be stored without its greatest tag being recorded only if the active Job has failed,
  whatever becomes of the writes, and always then if they are acknowledged: `HidingNeedsFailedJob`,
  `HidingStartsExactly`. From then on every 304 hides that tag: `HiddenTagStaysHidden`. Editing the specification does not
  bring it back, although it is documented to reset the ETag (docs/configuration.md:389).
- After the sixth error the bundle is documented to be given up (docs/configuration.md:397). Six errors in a row lead
  there: `SixErrorsGiveUp`. The next one would be counted as the seventh, which the schema refuses, so the reconcile
  returns an error: `GivenUpErrsExactly`. In a run of nothing but registry errors every reconcile does, whatever becomes of
  the writes and of the Jobs and also after edits of the specification, which are documented to reset the counter
  (docs/configuration.md:400): `GivenUpErrsThroughout`.
- Retries are documented to start at 30 seconds (README.md:209, docs/configuration.md:398). The counter is incremented
  first, so the delays are 1, 2, 4, 8 and 8 minutes: `RetryBudget`.
- The counter is documented to be reset on success (api/v1alpha1/werfbundle_types.go:199). A 304 leaves it alone, and so
  do two branches of a 200: no tags, and a Job still running (`ReconcileCounts`, `AnswerIsRecordedExactly`). On these two
  and on the branch of a bundle already Synced nothing is written, so the new ETag is lost: `AnswerIsRememberedExactly`.
- A bundle can be left Syncing with nothing scheduled: when the status write after a missing ServiceAccount fails, the
  error is dropped, and a poll interval of under 10 ns, or one that overflows, does not give a positive delay on every
  draw: `SyncingIsNeverStrandedExactly`.
- Jitter panics on intervals of 1 to 9 nanoseconds: `JitterPanicsExactly`.
- A Job cannot be named when the tag's hash has a zero leading digit: `NamingPanicsExactly`, with the tag `f8` as an
  instance in `UnnameableTag`.
- Flattening depends on the order of map iteration if and only if some key is printed for two texts:
  `OrderIndependentExactly`. A dotted key beside a nested object is enough: `DottedKeysGiveTwoResults`.
- The resolved values depend on the order of iteration if and only if the last source that defines some key gives it two
  texts: `ReadingDoesNotMatterExactly`. One key in two documents of an object is enough: `TwoDocumentsCollide`.
- Days of log retention wrap around in 32 bits from 24856 on: `RetentionIsKeptExactly`.
- A key with `=` does not survive the `--set` arguments: `ArgsCarryTheValuesExactly`.

## Model

| member | source | states |
|---|---|---|
| `Safety.StoredStatusIsConsistent` | controllers/werfbundle_controller.go:276-306 | After any run, however writes fail: Failed exactly with an error message; Synced only with counter 0 and a sync time; Syncing only without one; an active Job only with status Running; counter at most 6, 6 only in Failed, positive only in Syncing or Failed |
| `Safety.DeploymentIsAtMostOnce` | controllers/werfbundle_controller.go:348-387 | Over any run at most 1 Job + one per stored retry write + one per change of the greatest tag is created, whatever is lost, crashes, or is deleted |
| `Safety.TrackedJobCarriesRecordedTag` | controllers/werfbundle_controller.go:382-385 | After any run the Job the status tracks, if it still exists, carries the recorded tag, unless a retry was stored since it was tracked |
| `Safety.UnfinishedJobsAreBounded` | controllers/werfbundle_controller.go:325-346 | Besides the Job the status tracks, unfinished Jobs number at most the Jobs whose tracking write was never stored plus the edits that moved the target namespace |
| `Safety.NotModifiedHidesNothing` | controllers/werfbundle_controller.go:267-274 | While the registry still lists what came with the stored ETag, its greatest tag is recorded, or a Job failed, or a retry is under way |
| `Safety.StepKeeps` | controllers/werfbundle_controller.go:99-223 | The invariant behind the four theorems is kept by a reconcile with arbitrary answers and write outcomes, and by every move of the environment |
| `Safety.PerformKeeps` | controllers/werfbundle_controller.go:99-223 | A plan each of whose writes is allowed in the state it meets keeps the invariant at every point where it may be cut short |
| `Safety.ReconcileAllowed` | controllers/werfbundle_controller.go:99-223 | Every write the controller can attempt is allowed in the state it meets |
| `Safety.PutKeeps` | controllers/werfbundle_controller.go:466-508 | A status write keeps the invariant if the new status is consistent and ETag-safe, moves the recorded tag only to the greatest one or in a retry, and swaps the active Job only when it may |
| `Safety.CreateKeeps` | controllers/werfbundle_controller.go:369-387 | A Job creation within the budget keeps the bound on Jobs and the bound on untracked ones |
| `AtMostOnce.SteadyTagDeploysOnce` | controllers/werfbundle_controller.go:207-222 | With one greatest tag throughout at most one Job and one more per stored retry is ever created, so at most one without stored retries, even if its tracking write is lost or it is deleted |
| `AtMostOnce.BudgetIsUsedUp` | controllers/werfbundle_controller.go:348-387 | The bound is the best possible: for all n and r some run has n tag changes, r stored retries and 1 + n + r Jobs |
| `AtMostOnce.RetryCosts` | controllers/werfbundle_controller.go:297-305 | A stored retry and a reconcile of the tag already deployed create one more Job for it |
| `AtMostOnce.LosingTrackingCreates` | controllers/werfbundle_controller.go:382-387 | A reconcile whose tracking write is lost has recorded the tag and created a Job nothing tracks, and can be repeated with the next tag |
| `Progress.SyncingIsRequeuedExactly` | controllers/werfbundle_controller.go:158-222 | For each draw: a reconcile that returns no error and leaves the bundle Syncing asks for a requeue if and only if it dropped no ServiceAccount error and, where the poll interval decides, the draw gave a positive delay; only polling and building a Job can panic |
| `Stranding.SyncingIsNeverStrandedExactly` | controllers/werfbundle_controller.go:158-222 | A reconcile that leaves the bundle Syncing without error asks for a requeue on every draw of the jitter if and only if there is no complaint about the ServiceAccount and the poll interval, where it decides, is at least 10 ns and does not overflow |
| `Stranding.DrawChangesNoWrite` | controllers/werfbundle_controller.go:202-204 | The draw of the jitter changes no write of a reconcile |
| `Progress.AnswerIsRecordedExactly` | controllers/werfbundle_controller.go:184-222 | After a 200 and no error the stored counter is 0 if and only if it was before or the branch is not one of the two that skip the reset; the greatest tag is stored as Synced if and only if it was recorded before or the active Job had succeeded |
| `Caching.AnswerIsRememberedExactly` | controllers/werfbundle_controller.go:190-222 | After a 200 and no error the stored ETag and the list behind it are those of the answer, except on the three branches that write nothing (no tags, already Synced, Job running), where they are as before |
| `Caching.HidingNeedsFailedJob` | controllers/werfbundle_controller.go:184-222 | For every outcome of every write: the list behind the ETag becomes one whose greatest tag is unrecorded only if the registry is reached and the active Job found has failed and not succeeded while that tag is not recorded |
| `Caching.HidingStartsExactly` | controllers/werfbundle_controller.go:432-456 | With acknowledged writes it does so if and only if that is the case |
| `Progress.ThreeReconcilesConverge` | controllers/werfbundle_controller.go:207-222 | When no tracked Job is running, three reconciles of the same tags with acknowledged writes end Synced on the greatest tag with counter 0, whatever builds and creations do and however Jobs run and disappear in between |
| `Progress.TwoReconcilesConvergeExactly` | controllers/werfbundle_controller.go:207-222 | Under the same conditions two reconciles are enough if and only if no failed active Job is in the way of an unrecorded tag |
| `Convergence.RunningJobIsWaitedFor` | controllers/werfbundle_controller.go:459-461 | An unrecorded tag read while the active Job runs changes neither Jobs nor status, up to the resolved namespace, for every outcome of every write, and asks for a recheck or returns an error |
| `Convergence.ConvergesOnceTheJobStops` | controllers/werfbundle_controller.go:207-222 | From a running active Job: after any number of such polls and the end or removal of the Job, three acknowledged reconciles with Job moves in between end Synced on the greatest tag |
| `Deployment.FailedInTheWayIsReachable` | controllers/werfbundle_controller.go:432-456 | A run from a fresh bundle gets there |
| `Progress.RecordedBecomesSynced` | controllers/werfbundle_controller.go:211-218 | A recorded tag is marked Synced by the next acknowledged reconcile, with no regard to any Job |
| `Progress.IdleBecomesRecorded` | controllers/werfbundle_controller.go:348-367 | Without an active Job the greatest tag is recorded by the next reconcile, even if building or creating the Job fails |
| `Progress.StoppedBecomesIdle` | controllers/werfbundle_controller.go:325-346 | An active Job that is finished or gone is let go, or the tag is recorded |
| `Progress.SettledIsLeftAlone` | controllers/werfbundle_controller.go:211-218 | A Synced bundle whose greatest tag is recorded is neither written nor requeued |
| `Progress.SyncedWithoutAnyJob` | controllers/werfbundle_controller.go:348-367 | A failed build followed by one poll of the same tags stores Synced although no Job ever existed |
| `Progress.PerformEnds` | controllers/werfbundle_controller.go:99-223 | A property of all the ways a plan may end holds of its performance, with or without write failures |
| `Progress.PollEnds` | controllers/werfbundle_controller.go:98-181 | For a reconcile that reaches the registry, the ways to end are those from the registry's answer on, whatever the earlier writes did |
| `Deployment.JobIsCreatedExactly` | controllers/werfbundle_controller.go:313-392 | With acknowledged writes a 200 leads to one more Job exactly when its greatest tag is not recorded, no active Job is found, and a Job under a free name could be built; that Job carries the tag and is the one tracked |
| `Deployment.FinishedJobIsReported` | controllers/werfbundle_controller.go:405-457 | A finished active Job met by another tag is released with its outcome, logs and phase; on success the other tag is recorded as Synced and no Job is created |
| `Deployment.SettledForGood` | controllers/werfbundle_controller.go:207-219 | Any number of further polls of the same tags, with writes failing at will, change neither a settled bundle nor any Job |
| `Deployment.SuccessRecordsOwnTagExactly` | controllers/werfbundle_controller.go:405-430 | In every reachable state: the tag recorded for an active Job found to have succeeded is the greatest one read, so the Job's own if and only if its tag is that one, which happens only after a retry was stored since it was tracked or the target namespace was moved |
| `Deployment.RetryLetsOwnTagBeRecorded` | controllers/werfbundle_controller.go:405-430 | A run in which it is the Job's own: tracked, a registry error retried, the Job succeeds, the same tags read again |
| `Deployment.SuccessSkipsTag` | controllers/werfbundle_controller.go:405-430 | In every reachable state without such a retry: the tag recorded as Synced is another than the Job's, and neither that reconcile nor any number of polls of the same tags creates a Job |
| `Deployment.NewerTagIsNeverDeployed` | controllers/werfbundle_controller.go:405-430 | From a fresh bundle: a tag read after its predecessor's Job succeeded ends Synced, and however often it is polled the only Job is the predecessor's |
| `Retries.RetryChainEnds` | controllers/werfbundle_controller.go:267-305 | In a run without a 200 in which each reconcile asked for the next by a delay or an error, from counter c up to 5 at most 6 - c reconciles see an error; the one that reaches 6 stores Failed, returns without error or requeue, and is the last event; the delays asked for total at most 1380 seconds |
| `GivingUp.SixErrorsGiveUp` | controllers/werfbundle_controller.go:276-292 | Six reconciles of a fresh bundle that meet registry errors, with acknowledged writes, end at counter 6 in Failed |
| `GivingUp.GivenUpErrsExactly` | controllers/werfbundle_controller.go:276-305 | At counter 6 a reconcile with acknowledged writes returns an error if and only if the bundle cannot be read, the registry errs, or an unrecorded tag meets an active Job that cannot be read |
| `GivingUp.GivenUpKeepsErring` | controllers/werfbundle_controller.go:276-292 | At counter 6 a registry error ends in an error for every outcome of every write, with the status as it was up to the resolved namespace |
| `GivingUp.GivenUpErrsThroughout` | controllers/werfbundle_controller.go:276-292 | In any run from counter 6 whose reconciles all meet registry errors, with Job moves and edits in between, every reconcile returns an error and the status stays as it was up to the resolved namespace |
| `Retries.ReconcileCounts` | controllers/werfbundle_controller.go:276-305 | One reconcile without a 200 leaves the counter or adds one, returns the backoff of the new count up to 5 and stores Failed after that |
| `Retries.RetryOverwritesTag` | controllers/werfbundle_controller.go:297-305 | A retried error replaces the recorded tag by its message, clears the error message, and keeps the tag list behind the ETag |
| `Retries.ForeignTagIsAStoredRetryExactly` | controllers/werfbundle_controller.go:297-305 | For every outcome of every write: the recorded tag becomes one that is neither the old one nor a listed one if and only if a registry error is met with the counter below 5, its message is not recorded already, and the retry is stored |
| `Retries.ForeignTagIsARetryExactly` | controllers/werfbundle_controller.go:297-305 | With acknowledged writes the retry is always stored |
| `Retries.NotPollingIsInert` | controllers/werfbundle_controller.go:99-164 | Nor does any write of a reconcile that does not reach the registry touch the recorded tag or the list behind the ETag |
| `Retries.FailedJobHidesTag` | controllers/werfbundle_controller.go:432-456 | A failed active Job met by a newer tag leaves that tag's ETag stored and the tag unrecorded |
| `Retries.HiddenTagStaysHidden` | controllers/werfbundle_controller.go:267-274 | As long as the registry answers 304, nothing changes the recorded tag or the list behind the ETag or creates a Job: no reconcile, no edit of the specification, no request for deletion, no Job |
| `Retries.NotModifiedIsInert` | controllers/werfbundle_controller.go:267-274 | No write of a reconcile that gets a 304 touches the recorded tag or the list behind the ETag |
| `Retries.PerformFromPoll` | controllers/werfbundle_controller.go:98-181 | With acknowledged writes, all a reconcile does before it asks the registry is to set the finalizer and the resolved namespace |
| `Controller.WerfBundleReconciler.Reconcile` | controllers/werfbundle_controller.go:99-223 | The stored state and the returned result are those of performing the plan, for every outcome of every write |
| `Branches.UnreadBundleIsLeftAlone` | controllers/werfbundle_controller.go:102-111 | A bundle that is not there ends the reconcile without error, one that cannot be read with an error; nothing changes |
| `Branches.DeletionTakesFinalizerOff` | controllers/werfbundle_controller.go:113-124 | A bundle being deleted loses its finalizer and nothing else, without error if the write is acknowledged; refused, it keeps it and the reconcile errs; without a finalizer nothing happens |
| `Branches.DeletingRunDeploysNothing` | controllers/werfbundle_controller.go:113-124 | In any run of a bundle being deleted no Job is created, the status stays, and a finalizer taken off stays off |
| `Branches.DeletionCompletes` | controllers/werfbundle_controller.go:113-124 | After the request for deletion one acknowledged reconcile that finds the bundle takes the finalizer off for good, whatever happens before and after |
| `Branches.InvalidBundleFails` | controllers/werfbundle_controller.go:135-144 | A bundle aimed at a foreign namespace without a ServiceAccount ends in Failed with the message that names both namespaces, and without requeue |
| `Branches.PollsExactly` | controllers/werfbundle_controller.go:113-164 | The registry is reached if and only if the bundle is found, not being deleted, not invalid, and names no ServiceAccount or one that exists |
| `Branches.LackingAccountStopsAll` | controllers/werfbundle_controller.go:156-164 | With a ServiceAccount named that is missing or unreadable no Job is created, no poll is made and no list is stored, for every outcome of every write |
| `Branches.LackingAccountFails` | controllers/werfbundle_controller.go:240-252 | With acknowledged writes the bundle then ends in Failed, with the message that tells the two cases apart, and without requeue |
| `Branches.NotModifiedWaits` | controllers/werfbundle_controller.go:267-274 | A 304 changes nothing but the resolved namespace and is asked again within a tenth of the interval set, or of 15 minutes |
| `Branches.ErrorIsRetried` | controllers/werfbundle_controller.go:276-305 | Up to the fifth error in a row: counter, time, phase, tag and messages as stored, and a delay of 1, 2, 4, 8 and 8 minutes |
| `Branches.SixthErrorFails` | controllers/werfbundle_controller.go:283-293 | The sixth: Failed at counter 6 with the error text and without requeue |
| `Branches.EmptyListWaits` | controllers/werfbundle_controller.go:193-205 | An empty list moves a new or Failed bundle to Syncing and leaves others as they are; the next poll is within a tenth of the interval |
| `Branches.RecordedTagIsSynced` | controllers/werfbundle_controller.go:207-219 | The recorded tag is marked Synced with ETag, counter and time, unless the bundle is Synced already |
| `Branches.BuiltJobIsTracked` | controllers/werfbundle_controller.go:348-391 | A new tag without an active Job: the Job is created in the target namespace under that tag and tracked, every status field being stated, and looked at again in 5 seconds |
| `Branches.UncreatedJobFails` | controllers/werfbundle_controller.go:369-379 | A Job that cannot be created ends in Failed with the reason, the tag being recorded all the same |
| `Branches.UnbuiltJobFails` | controllers/werfbundle_controller.go:354-367 | So does one that cannot be built; a panic of the build leaves what the write-ahead stored |
| `Branches.ActiveJobIsMonitored` | controllers/werfbundle_controller.go:325-346 | A new tag with an active Job: an error if that cannot be read, a look in 5 seconds while it runs, and otherwise every status field for success and failure |
| `Branches.LostWriteAhead` | controllers/werfbundle_controller.go:348-352 | Refused, the write-ahead leaves all as it was; its reply lost, the tag is recorded and no Job created; both end in an error |
| `Branches.LostCreation` | controllers/werfbundle_controller.go:369-379 | When the reply to the creation is lost the Job exists, nothing tracks it, and the bundle is Failed |
| `Branches.LostTracking` | controllers/werfbundle_controller.go:382-387 | When the tracking write is refused the Job exists, nothing tracks it, and the reconcile errs |
| `Controller.WerfBundleReconciler.ValidateAndDeploy` | controllers/werfbundle_controller.go:135-164 | The same from the validation of the specification on |
| `Controller.WerfBundleReconciler.ValidateServiceAccount` | controllers/werfbundle_controller.go:228-254 | Goes on exactly when there is no complaint about the account, then with nothing changed; otherwise ends the reconcile without error even if its write failed |
| `Controller.WerfBundleReconciler.PollAndDeploy` | controllers/werfbundle_controller.go:177-205 | The same from the registry's answer on; counter and ETag change in the working copy only |
| `Controller.WerfBundleReconciler.Deploy` | controllers/werfbundle_controller.go:193-222 | The same once the tag list is in |
| `Controller.WerfBundleReconciler.HandleRegistryError` | controllers/werfbundle_controller.go:259-306 | The same for a 304 or an error: wait, retry with backoff, or give up |
| `Controller.WerfBundleReconciler.EnsureJobExists` | controllers/werfbundle_controller.go:313-352 | The same for a tag that is not recorded: monitor the active Job, or write ahead and create one |
| `Controller.WerfBundleReconciler.CreateAndTrack` | controllers/werfbundle_controller.go:354-392 | The same from the build of the Job to its tracking write |
| `Controller.WerfBundleReconciler.Track` | controllers/werfbundle_controller.go:382-391 | The Job just created becomes the active one with status Running, in the one write that may be lost |
| `Controller.WerfBundleReconciler.MonitorJobCompletion` | controllers/werfbundle_controller.go:397-462 | The same for an active Job that has succeeded, failed, or is still running |
| `Controller.WerfBundleReconciler.UpdateStatusSyncing` | controllers/werfbundle_controller.go:466-479 | The working copy becomes Syncing with the tag if there is one and without error and sync time, and is the status written |
| `Controller.WerfBundleReconciler.UpdateStatusSynced` | controllers/werfbundle_controller.go:483-495 | The working copy becomes Synced on the tag at the time, and is the status written |
| `Controller.WerfBundleReconciler.UpdateStatusFailed` | controllers/werfbundle_controller.go:499-508 | The working copy becomes Failed with the message and is otherwise as it was, and is the status written |
| `Backoff.BackoffIsIdeal` | internal/registry/backoff.go:17-33 | Up to 28 failures the wrapping computation equals the least of eight minutes and 30 s times the power of two, and is positive |
| `Backoff.BackoffGrows` | internal/registry/backoff.go:17-33 | Up to 28 failures more failures never give a shorter delay |
| `Backoff.BackoffWraps` | internal/registry/backoff.go:25-28 | At 29 failures the delay is negative, and from 54 on it is zero |
| `Backoff.RetryBudget` | internal/registry/backoff.go:17-33 | The five delays the controller asks for are 1, 2, 4, 8 and 8 minutes, 1380 seconds in all |
| `Backoff.TotalDelayClosedForm` | internal/registry/backoff.go:17-33 | The first n delays, for n up to 28, total 30 s times 2^(n+1) - 2 up to the third, and 420 s plus eight minutes for each further one |
| `Backoff.JitterIsPositiveExactlyWhenPollable` | internal/registry/backoff.go:41-54 | Every draw gives a positive delay if and only if the interval is at least 10 ns and its upper end does not overflow |
| `Backoff.JitterPanicsExactly` | internal/registry/backoff.go:42-51 | Drawing panics if and only if the interval is 1 to 9 ns; intervals of zero or less are returned as they are |
| `Backoff.JitterRange` | internal/registry/backoff.go:46-53 | Jitter stays within a tenth below and one less than a tenth above |
| `Backoff.JitterReachesWholeRange` | internal/registry/backoff.go:46-53 | Every delay in that range is drawn by some random number |
| `BundleTypes.ValidateCrossNamespaceDeployment` | api/v1alpha1/werfbundle_types.go:264-283 | There is a complaint, never an empty one, if and only if the bundle deploys outside its own namespace without a ServiceAccount |
| `YamlTree.FlattenValue` | internal/values/yaml.go:32-65 | The shared map becomes what some order of iteration gives; in every order it gains exactly the printed paths of the scalar leaves, each with the text of a leaf printed there, and is otherwise as before |
| `YamlTree.FlattenAdds` | internal/values/yaml.go:32-65 | Every order takes in every leaf and nothing else |
| `YamlTree.FlattenFields` | internal/values/yaml.go:34-42 | The same for an object, each of whose keys is met once, in any order |
| `YamlTree.FlattenItems` | internal/values/yaml.go:43-48 | The same for a list, by index |
| `YamlTree.ObjectEmits` | internal/values/yaml.go:34-42 | An object prints a key exactly when one of its fields does below the extended prefix |
| `YamlTree.ListEmits` | internal/values/yaml.go:43-48 | A list prints a key exactly when one of its items does below the indexed prefix |
| `YamlTree.PathNotation` | internal/values/yaml.go:34-48 | Keys are joined by dots, and indices follow in brackets |
| `Numerals.DigitsReadBack` | internal/values/yaml.go:46 | The digits printed for a number, read from the left, give the number |
| `PathEncoding.RenderInjective` | internal/values/yaml.go:32-48 | Distinct paths whose keys are non-empty and free of `.` and `[` print differently |
| `PathEncoding.FlatteningIsExact` | internal/values/yaml.go:32-65 | For such documents a map is a flattening if and only if it has one entry for each scalar leaf, with its text, and no other |
| `PathEncoding.FlatteningIsUnique` | internal/values/yaml.go:32-65 | For such documents the result does not depend on the order of map iteration |
| `PathEncoding.OnlyFlatteningExactly` | internal/values/yaml.go:32-65 | A map that takes in the document is the only such map if and only if no key is printed for two different texts |
| `FlattenOrders.LeafMayWin` | internal/values/yaml.go:34-48 | For every leaf some order of iteration leaves its text under its printed key, whatever the map held before |
| `FlattenOrders.EntryCarriesText` | internal/values/yaml.go:49-64 | In a well-keyed document and every order the entry of a leaf is its text; `true` or `false` exactly as the truth value is; and empty for null |
| `FlattenOrders.OrderIndependentExactly` | internal/values/yaml.go:32-65 | For all documents every order of iteration gives the same map if and only if no key is printed for two different texts |
| `FlattenOrders.WellKeyedIsOrderIndependent` | internal/values/yaml.go:32-65 | For documents whose keys are non-empty and free of `.` and `[` any two orders of iteration give the same map |
| `FlattenOrders.DottedKeysGiveTwoResults` | internal/values/yaml.go:35-41 | For a dotted key beside a nested object two orders give two different maps |
| `PathEncoding.DottedKeysCollide` | internal/values/yaml.go:35-41 | A dotted key beside a nested object is printed for two texts |
| `Merging.MergeMaps` | internal/values/merge.go:7-15 | The result is the left fold in which later maps override, for every order in which the maps are walked |
| `Merging.LastDefinitionWins` | internal/values/merge.go:7-15 | A key is there if and only if some map has it, with the value of the last map that does |
| `Merging.LeafOfMerge` | internal/values/merge.go:7-15 | At every path the merged document has the second document's leaf, or else the first's |
| `Merging.MergeCommutesWithFlatten` | internal/values/merge.go:7-15 | Merging two flattened documents is flattening their merge by key and index, if no path is a leaf or one kind of container in one and another in the other |
| `Merging.FlatMergeIsADocumentExactly` | internal/values/merge.go:7-15 | The merged flat map is the flattening of a well-keyed document if and only if that condition holds |
| `Merging.MergeAllCommutesWithFlatten` | internal/values/merge.go:7-15 | The same for any number of documents that are mergeable in pairs |
| `Merging.FlatMergesAreADocumentExactly` | internal/values/merge.go:7-15 | The flat map merged from any number of documents is the flattening of a well-keyed document if and only if they are mergeable in pairs |
| `Unflattening.LeafOfInsert` | internal/testing/values.go:319-335 | Inserting a dotted key puts its leaf in place, removes what overlaps its path, and leaves all other leaves |
| `Unflattening.BuiltLeaf` | internal/testing/values.go:316-338 | Every leaf that comes out belongs to a key that went in, at its place and with its text |
| `Unflattening.LeafIsKept` | internal/testing/values.go:316-338 | If no key's segments begin another's, no order of insertion loses a leaf |
| `Unflattening.FlattenUndoesUnflattenExactly` | internal/testing/values.go:316-338 | Flattening the nested form gives the map back, in every order, if and only if no key begins with a dot and no key's segments are a proper prefix of another's |
| `Unflattening.UnflattenUndoesFlattenExactly` | internal/testing/values.go:316-338 | Unflattening gives the document back, in every order, if and only if it is an object of text leaves under dot-free keys, without lists and empty sub-maps, and with at most a leaf under the empty top key |
| `NestedMaps.Node.Enter` | internal/testing/values.go:326-334 | The nested map under a part is entered, created, or put in place of a text; nothing else changes |
| `NestedMaps.Node.Put` | internal/testing/values.go:320-335 | The loop that moves a pointer down the linked maps leaves them representing the old tree with the value inserted at its chain of keys |
| `NestedMaps.Unflatten` | internal/testing/values.go:316-338 | The linked maps represent the insertion of every key of the flat map in some order |
| `Escaping.EscapeIsOnePass` | internal/values/cli.go:27-38 | The five ordered replacements equal one pass that puts a backslash before each special character |
| `Escaping.EscapeOneChar` | internal/values/cli.go:27-38 | Of single characters the backslash, comma, equals sign and brackets get a backslash, and no others |
| `Escaping.UnescapeUndoesEscape` | internal/values/cli.go:27-38 | Reading a backslash as "the next character" gives the value back |
| `Escaping.EscapeInjective` | internal/values/cli.go:27-38 | Different values are escaped differently |
| `Escaping.EscapedIsPassedOver` | internal/values/cli.go:27-38 | A backslash-aware scan passes over an escaped value whole, whatever follows it |
| `Escaping.EscapedListSplitsBack` | internal/values/cli.go:27-38 | Escaped values joined by a special character other than the backslash split back into themselves |
| `SetFlags.CollectSortedKeys` | internal/values/helpers.go:28-33 | The keys come out strictly increasing, all of them and no others, whatever order they come in |
| `SetFlags.GenerateSetFlags` | internal/values/helpers.go:23-43 | The arguments are those of the sorted keys, two a key, and the same for every way of sorting them |
| `SetFlags.SortedKeysUnique` | internal/values/helpers.go:28-33 | A set of keys has only one strictly increasing order |
| `Strings.FirstDifferenceDecides` | internal/values/helpers.go:33 | Of two keys the one with the smaller character at the first difference comes first |
| `Strings.PrefixIsBefore` | internal/values/helpers.go:33 | A proper prefix comes first |
| `SetFlags.FlagsAreCanonical` | internal/values/helpers.go:23-43 | One map gives one list of arguments, twice its size, alternating `--set` and the key, an equals sign and the escaped value, in key order |
| `SetFlags.ExtractSetFlags` | internal/testing/values.go:213-234 | The index loop computes the recursive reading of the first container's arguments, and nothing for a missing Job or container |
| `SetFlags.ExtractReads` | internal/testing/values.go:222-231 | After `--set` an argument with an equals sign adds its key and value, cut at the first one, and one without is passed over, as are all other arguments and a last `--set` |
| `SetFlags.FlagsExtractBack` | internal/testing/values.go:213-234 | Keys without `=` are read back with exactly their escaped values |
| `SetFlags.ExtractUndoesGenerateExactly` | internal/testing/values.go:213-234 | After arguments without the flag, reading and unescaping gives the map back if and only if no key contains `=` |
| `Resolving.ParseYAML` | internal/values/yaml.go:15-28 | Fails exactly on malformed text, gives the empty map for empty text, and otherwise what some order gives for the document |
| `Resolving.ParseAndMerge` | internal/values/fetch.go:146-156 | Succeeds exactly when every document of the object is well formed; the result is what some order of the files and of each document gives |
| `Resolving.EveryReadingRepresents` | internal/values/fetch.go:146-156 | In every such order an object has exactly the keys of its documents, each with a text some document gives it |
| `Resolving.TextMayWin` | internal/values/fetch.go:146-156 | Every text some document gives a key is the one of some such order |
| `Resolving.Fetch` | internal/values/fetch.go:20-73 | An object of the bundle namespace decides if there is one; else one of the target namespace if that is given and has one; deciding means its data, a parse error or an API error; with neither the error is that of an absent object |
| `Resolving.ResolveValues` | internal/values/implementation.go:27-71 | Succeeds if and only if every source names an object that decides and can be read and parsed, or is optional and absent from both namespaces; otherwise the error is of the first source that does not, and tells a missing reference and an empty name; the result is the merge of what the sources give in some order, and each key comes from the last source that defines it |
| `Resolving.SourceGivesExactly` | internal/values/implementation.go:37-66 | A ConfigMap reference goes before a Secret reference and each reads its own kind; a source gives the data of the object that decides, also when only the target namespace has one; being optional excuses absence and neither an unreadable nor a malformed object |
| `Resolving.BundleNamespaceShadows` | internal/values/fetch.go:20-73 | Target-namespace objects with the kind and name of a bundle-namespace object never influence the outcome |
| `Resolving.DisjointDocumentsAreDeterminate` | internal/values/fetch.go:146-156 | An object of well-keyed documents that share no key gives each key one text only |
| `Resolving.ResolutionIsUnique` | internal/values/implementation.go:27-71 | If the last source that defines a key gives it one text, there is one way only to resolve the sources |
| `Resolving.ReadingDoesNotMatterExactly` | internal/values/implementation.go:27-71 | All orders of iteration over files and documents give the same values if and only if the last source that defines a key gives it one text |
| `Resolving.DisjointDocumentsReadAlike` | internal/values/implementation.go:27-71 | If the documents of each object are well keyed and share no key, any two orders of iteration over files and documents give the same values |
| `Resolving.TwoDocumentsCollide` | internal/values/fetch.go:146-156 | With one key in two documents of an object two orders give two different values |
| `ConvergeJob.NamingPanicsExactly` | internal/converge/job.go:182-186 | Naming a Job panics if and only if the tag's hash is below 2^28 |
| `ConvergeJob.NameHasThreeParts` | internal/converge/job.go:188-212 | Otherwise the name is the bundle's name cut at 235, eight hash digits and eight random digits; the last resort is never reached |
| `ConvergeJob.NameParsesBack` | internal/converge/job.go:182-212 | From fixed positions at the end of a name of at most 253 characters, random part, hash and bundle prefix are read back |
| `ConvergeJob.NameInjective` | internal/converge/job.go:182-212 | Equal names come from equal hashes, random bytes and cut bundle names |
| `ConvergeJob.NameWithoutRandomness` | internal/converge/job.go:189-193 | When no randomness is to be had the name is the bundle's name and the hash |
| `ConvergeJob.HexReadsBack` | internal/converge/job.go:194 | Each pair of digits of the random part, read as hexadecimal, gives its byte |
| `ConvergeJob.LastByteDecides` | internal/converge/job.go:184-186 | Texts that differ in the last byte only have different hashes |
| `ConvergeJob.UnnameableTag` | internal/converge/job.go:183-186 | The tag `f8` can never be named |
| `ConvergeJob.Builder.Build` | internal/converge/job.go:48-177 | Panics exactly on unnameable tags and, once the values resolve, on malformed resource limits; each refusal has its exact condition; succeeds exactly when bundle, name, sources, limits and owner type are in order; every field of the Job is given in plain values, the arguments being `converge`, `--log-color=false` and registry URL, colon and tag, followed by the flags of the resolved values |
| `ConvergeJob.Builder.AppendValues` | internal/converge/job.go:65-84 | The flags of the resolved values follow the arguments, or there is an error exactly when a needed resolver is missing or a source fails |
| `ConvergeJob.RetentionIsKeptExactly` | internal/converge/job.go:216-227 | The seconds a finished Job is kept are the days asked for if and only if these are at most 24855; one more day makes them negative |
| `ConvergeJob.PrefixHasNoFlag` | internal/converge/job.go:59-63 | None of the fixed arguments can be taken for a flag, whatever the registry URL and tag |
| `ConvergeJob.ReferenceReadsBack` | internal/converge/job.go:62 | For tags without colons the last colon of the third argument separates registry URL and tag |
| `ConvergeJob.ArgsTellTags` | internal/converge/job.go:59-84 | Jobs with the same arguments have the same registry URL, tag and flags, for tags without colons |
| `ConvergeJob.ArgsCarryTheValuesExactly` | internal/converge/job.go:59-84 | Reading the arguments of the Job and undoing the escapes gives exactly the resolved values if and only if none of their keys contains `=` |
| `ConvergeJob.BuildAndExtract` | internal/testing/values.go:213-234 | For a Job that is built, the flags extracted from it and unescaped are the resolved values if and only if no key of these contains `=` |

## Left out

- BackoffIsIdeal: the counts from 29 to 53 are not characterised one by one; the schema keeps the controller at 1 to 5.
- NotModifiedHidesNothing: the registry's honesty about 304 is a premise, since the registry is outside the operator.
- ParseAndMerge: which of two documents of one object wins for a key both define is left open, as the code leaves it.
- ParseYAML: parsing starts from the parsed document, and how numbers are printed as text is a parameter of each leaf.
- Fetch: one method stands for the ConfigMap and the Secret version; Secrets come decoded, and error texts are reduced to their kind.
- Build: quantities stay text, and which texts the Kubernetes quantity parser accepts is a parameter; group and version of the owner's type come printed.
- FlattenValue: strings, here and elsewhere, are sequences of characters and not of UTF-8 bytes; tags are ASCII for the same reason.
- Inside the reconcile machine the result of building a Job is an arbitrary answer; `ConvergeJob` models the building itself.
- The HTTP client, registry library and ETag transport: the registry is an answer of 200, 304 or an error.
- Pod log capture and its ConfigMap: an arbitrary choice of text that touches the stored logs only.
- The Kubernetes client, caches, watch predicates, events and RBAC manifests.
- Helm's and werf's own reading of `--set`, which are not part of the repository.
- The made-up ETag of the registry client, which is not injective on tag lists.
- Documented behaviour that is not implemented: registry credentials, semantic versions, drift detection, the ETag reset on edits.
