# RabbitMQ Cluster Operator: a Dafny model

The operator drives a RabbitMQ cluster on Kubernetes towards what a `RabbitmqCluster` object asks for. This project
models the parts of it that are protocols or in-place algorithms, and proves what they keep over whole runs.

The API server is abstract. In `Api` every call is answered by an oracle: it may succeed, fail without effect (also by a conflict), or
take effect although the caller is told it failed, and a pending deletion may complete at any call. A statement for
all oracles is a statement about failing, or stopping, at any call. `Annotations` and `CliMarkers` add versions: a
write based on an old version is rejected, and other writers may come in between any two calls. Quantities are
integers, parsed ini files are lists of keys.

Most components come twice: as a function or a transition system that says what happens, about which the results are
proved, and as the class or method with the loops and the updates in place of the original, proved equal to it.

| file | component |
|---|---|
| `ApiServer.dfy`, `Decimal.dfy`, `Text.dfy`, `Wrappers.dfy` | the API server; decimal text and names; small helpers |
| `PersistenceScaling.dfy`, `PersistenceScaler.dfy` | expansion of claims while the StatefulSet is deleted |
| `ReplicaScaling.dfy`, `Reconciler.dfy` | the reconcile step around the StatefulSet: guards, scale to and from zero, claims, write |
| `RestartStamps.dfy` | restart of the StatefulSet by comparing two time stamps |
| `Annotations.dfy` | read-modify-write of annotations under optimistic concurrency |
| `CliMarkers.dfy` | marker annotations and the commands they ask for |
| `Quorum.dfy` | the concurrent quorum check |
| `Conditions.dfy` | status conditions and their transition times |
| `ServicePorts.dfy`, `PodSpecOverride.dfy`, `ContainerOrder.dfy` | port lists, pod-spec overrides, swapping loops |
| `ServerConfig.dfy`, `IniCodec.dfy`, `Plugins.dfy` | configuration files, the restart decision, the plugin list |

## What does not hold without conditions

Several properties one might expect are false of the code. For each there is a failing input and an exact condition.

- *Apart from zero, the node count never shrinks.* The condition is on what a step starts with: the StatefulSet, the
  claims, the annotation, the last count written, the spec, and the copies in the cache the step decides on
  (`ReplicaScaling.HealthyStepIsGoodIff` for a healthy server, `StepIsSafeIff` for whatever the server replies). With
  an up-to-date cache and a healthy server it goes wrong in three cases (`CurrentLossIff`). The StatefulSet is missing,
  so the guard is skipped (`GuardSkippedIsReal`); a claim expansion that failed half-way leaves the cluster like that.
  Or the spec is raised from zero to less than what is running while the count is being saved: saving reads the cluster
  again into the object the builders use, and the later write takes its count from there (`SpecMovedIsReal`). Or a
  restore from zero asks for other storage: the saved count is removed before the storage is refused, if it is less, or
  before the update is rejected, if it is more and no claim needs to grow, since then the StatefulSet is not deleted and
  its claim template cannot change (`OtherStorageDropsSavedCount`). The next step may then start fewer nodes. When calls
  may fail, every restore is at risk in the same way (`SavedCountDroppedIsReal`), and so are steps during which a
  pending deletion completes (`CurrentRiskIff`). Old copies in the cache open more: `OldCopyIsReal`,
  `OldAnnotationsAreReal`.
- *A finished step leaves every claim large enough.* Claims are expanded for as many pods as the spec counts, while an
  override of the replicas may run more. `FinishedStepConverges` has the exact condition, and
  `OverrideLeavesClaimSmall` the input. In the same way `rabbitmq-plugins set` misses the pods an override adds
  (`CliMarkers.PluginsReachRunningPodsIff`, `OverrideLeavesPodsUnset`).
- *A marker stays until its commands have run.* The marker of a new StatefulSet goes with the StatefulSet when it is
  recreated, and marking the new one may fail (`CliMarkers.MarkedStepRunsBeforeMarkerGoes`, `RecreationLosesMark`). A
  changed list of plugins whose marking fails is not acted upon (`ChangeIsActedUponIff`, `LostMarkIsReal`).
- *A change of the server configuration restarts the nodes, once.* The stamp on the ConfigMap is a separate write. If it
  fails, the next step finds the ConfigMap up to date and sets no stamp (`RestartStamps.LostStampIsReal`). And whenever
  the StatefulSet is recreated, as for claim expansion, its template has no stamp, so it is restarted again: there is
  no bound on the restarts that does not count the recreations (`EachRecreationRestarts`), nor one that does not count
  the decisions made on an old copy (`OldCopyRestartsAgain`). `SettledMeansRestarted` says exactly when a change reaches
  the template, `AtMostTwoRestarts` how often it can be stamped.
- *A retried update of the ConfigMap asks for the restart it needs.* The builder's flag is never set again, so an earlier
  attempt that found the map up to date hides it (`ServerConfig.RetryLosesRestartIff`, `RetryLosesRestartIsReal`).
- *The quorum status text does not depend on timing.* It does as soon as two pods are critical
  (`Quorum.SameTallySameText`, `TextDependsOnOrder`).
- *The three well-known environment variables end in front.* The loop swaps in the list it ranges over. It works
  exactly when the variables are not in one of three arrangements (`ContainerOrder.SortEnvWorksIff`,
  `MisplacedIsReal`), and it panics exactly on certain lists of one or two entries (`SortEnvPanicsIff`).
- *Stamps compare as times.* They compare by local time and then by zone text (`RestartStamps.ZonedOrder`);
  `ZoneChangeBreaksOrder` gives two stamps around the end of summer time that compare the wrong way.

## Model

| member | source | states |
|---|---|---|
| PersistenceScaling.ScaleIsGuaranteed | internal/scaling/scaling.go:32-74 | Whatever the API server replies: no claim shrinks, only claims of the cluster's pods below the count that are too small can change and then request exactly the desired capacity, every resize comes after the StatefulSet was seen to be gone and before it is written again, a nil result means no claim is too small, and a refused shrink or ephemeral-to-persistent change alters nothing. |
| PersistenceScaling.RunNeverShrinks | internal/scaling/scaling.go:32-192 | Over every run of calls with arbitrary capacities, failing or stopping anywhere, mixed with other controllers creating claims and writing the StatefulSet, no claim's request ever decreases, and before every resize in the history the StatefulSet was seen to be gone with nobody writing it in between. |
| PersistenceScaling.RetryConverges | internal/scaling/scaling.go:56-73 | Retrying one request after failures never adds a too-small claim, and from the first nil result on there is none. |
| PersistenceScaling.HealthyScaleSucceeds | internal/scaling/scaling.go:42-73 | With a server that answers every call, a request fails only by being refused. |
| PersistenceScaling.NilIsNotRefused | internal/scaling/scaling.go:42-54 | After a nil result the StatefulSet left behind, if any, is one for which the request would not be refused. |
| PersistenceScaling.NothingToDoKeepsSts | internal/scaling/scaling.go:61-64 | When no claim is too small the StatefulSet is left alone. |
| PersistenceScaling.GetClusterPvcsReads | internal/scaling/scaling.go:76-98 | A successful read lists exactly the existing claims of pods 0..n-1, each once, with its current request, and changes nothing. |
| PersistenceScaling.PickedAreTooSmall | internal/scaling/scaling.go:100-112 | The claims picked for resizing are exactly those of the cluster's pods that are too small. |
| PersistenceScaling.DeleteStsIsQuiet | internal/scaling/scaling.go:134-168 | Deleting the StatefulSet touches no claim and no annotation; success means it was seen to be gone. |
| PersistenceScaling.ScaleUpPvcsResizes | internal/scaling/scaling.go:170-192 | Only listed claims change, each strictly grows to the desired capacity, and success means all did. |
| PersistenceScaling.ScaleUpPvcsInOrder | internal/scaling/scaling.go:170-192 | The claims resized are the first ones of the list, one after the other in its order, up to the first error, and all of them on success. |
| PersistenceScaling.ScaleRefusesIff | internal/scaling/scaling.go:42-54 | A request is refused exactly when the StatefulSet was read and the request would give claims to a cluster without any, or asks for less than the claims were created with. |
| PersistenceScaling.AwaitAbsentIff | internal/scaling/scaling.go:194-203 | Waiting succeeds exactly when one of the polls is answered and finds the StatefulSet gone; an unanswered poll, or one that still finds it, does not end the wait. |
| PersistenceScaling.DeleteStsIff | internal/scaling/scaling.go:134-168 | In terms of the replies only: deleting succeeds exactly when the StatefulSet was gone at the read, or the deletion is accepted while it is there and one of ten polls is answered after it completed. |
| Scaler.PersistenceScaler.ReadClusterPvcs | internal/scaling/scaling.go:76-98 | The loop over pod indices returns and leaves what the specification says, including the error return. |
| Scaler.PersistenceScaler.PvcsNeedingScaling | internal/scaling/scaling.go:100-112 | The loop returns the claims below the desired capacity in their order. |
| Scaler.PersistenceScaler.RetryUntilAbsent | internal/scaling/scaling.go:194-203 | The bounded retry stops at the first poll that sees the StatefulSet gone; errors use up a poll. |
| Scaler.PersistenceScaler.DeleteStatefulSet | internal/scaling/scaling.go:134-168 | Reads, deletes unless already gone, and polls; every error return leaves what the specification says. |
| Scaler.PersistenceScaler.ResizePvcs | internal/scaling/scaling.go:170-192 | The loop reads each claim again and writes it, stopping at the first error. |
| Scaler.PersistenceScaler.ScaleCluster | internal/scaling/scaling.go:32-74 | The whole procedure, in the order of the original, has exactly the specified effect and result. |
| Decimal.PvcNameInjective | api/v1beta1/rabbitmqcluster_types.go:533-535 | No two pods, of one cluster or of two, share a claim name. |
| Decimal.ParsePrint | internal/controller/reconcile_scale_zero.go:45-56 | The decimal text of an integer parses back to it exactly when it is an int32, and is rejected otherwise. |
| ReplicaScaling.HealthyStepIsGoodIff | internal/controller/rabbitmqcluster_controller.go:211-259 | From a world where the running count is the last nonzero one written, or is saved in the annotation, and counts never shrank, one step with a healthy server, deciding on whatever the cache holds, keeps this if and only if its inputs are not lossy: the write lands and shrinks or forgets, or does not land and leaves zero without the saved count. |
| ReplicaScaling.CurrentLossIff | internal/controller/rabbitmqcluster_controller.go:211-259 | With an up-to-date cache the lossy inputs are exactly three: a missing StatefulSet, a spec raised from zero while the count is saved, and a restore whose storage is refused or stuck in the claim template. |
| ReplicaScaling.HealthyFinish | internal/resource/statefulset.go:55-78 | With a healthy server the write lands exactly when the storage is not refused and does not change the claim template of a StatefulSet that claim expansion left in place. |
| ReplicaScaling.RefusedIff | internal/controller/rabbitmqcluster_controller.go:221-243 | A step is refused exactly when the copy it read runs more nodes than the nonzero count asked for, or is at zero and the saved text is not that of the count asked for; then nothing changes, as after a failed first read. |
| ReplicaScaling.HealthyStepDoes | internal/controller/rabbitmqcluster_controller.go:211-259 | With a healthy server and an up-to-date cache: which text is saved and when, when it is removed, that a step not refused finishes exactly when its write lands, which count is written, once and last, and that otherwise the StatefulSet and the history are untouched. |
| ReplicaScaling.FifthAttemptDecides | internal/controller/rabbitmqcluster_controller.go:252-259 | An update that meets up to four conflicts and is then accepted is done; with a fifth conflict nothing is written. |
| ReplicaScaling.GoneAfterConflictFails | internal/controller/rabbitmqcluster_controller.go:252-259 | A StatefulSet that goes away after a first conflict is not created by the next attempt, whose object carries a resource version. |
| ReplicaScaling.OldCopyKeepsSavedCount | internal/controller/utils.go:20-32 | Removing the saved count is a write without a fresh read: with an old copy of the cluster it fails and the annotations stay. |
| ReplicaScaling.StepIsSafeIff | internal/controller/rabbitmqcluster_controller.go:211-259 | From such a world a step keeps it for all replies, any edit of the spec during the step and whatever the cache holds, if and only if its inputs cannot lose; otherwise there are replies with which it does. |
| ReplicaScaling.CurrentRiskIff | internal/controller/rabbitmqcluster_controller.go:211-259 | With an up-to-date cache the inputs that can lose are exactly: a StatefulSet missing or going away, a spec raised from zero while the count is saved whose write can land, and every restore. |
| ReplicaScaling.HealthyRunIsGoodIff | internal/controller/rabbitmqcluster_controller.go:211-259 | With a healthy server a whole run stays good at every point exactly when no step of it starts with a lossy input. |
| ReplicaScaling.RunIsSafeIff | internal/controller/rabbitmqcluster_controller.go:211-259 | Over all replies in all steps, a run stays good at every point exactly when no step can ever start with an input that may lose; and then any actual run is good. |
| ReplicaScaling.CalmRunIsGood | internal/controller/rabbitmqcluster_controller.go:221-243 | With a healthy server, an up-to-date cache, no edit of the spec during a step, a StatefulSet that is there if there ever was one, and restores that ask for storage with which the write lands, nonzero counts never decrease over any run, and at zero the annotation parses to the last count. |
| ReplicaScaling.GuardSkippedIsReal | internal/controller/rabbitmqcluster_controller.go:219-221 | After the StatefulSet went away, a step writes any smaller number of nodes. |
| ReplicaScaling.SpecMovedIsReal | internal/controller/reconcile_scale_zero.go:72-80 | A spec edited from zero to fewer nodes while the count is saved makes a single step write the smaller count. |
| ReplicaScaling.OldCopyIsReal | internal/controller/rabbitmqcluster_controller.go:214-231 | A guard that decides on an old copy of the StatefulSet lets a step write fewer nodes. |
| ReplicaScaling.OldAnnotationsAreReal | internal/controller/reconcile_scale_zero.go:40-43 | A step that decides on a copy of the cluster without the saved count starts fewer nodes than ran before. |
| ReplicaScaling.SavedCountDroppedIsReal | internal/controller/rabbitmqcluster_controller.go:236-249 | A restore that fails after removing the saved count lets the next step start fewer nodes than ran before. |
| ReplicaScaling.OtherStorageDropsSavedCount | internal/controller/rabbitmqcluster_controller.go:236-259 | So does a restore that asks for other storage, with a healthy server: the saved count is removed before less storage is refused, or before more is rejected as a change of the claim template. |
| ReplicaScaling.FinishedStepConverges | internal/controller/rabbitmqcluster_controller.go:245-259 | A step that finishes, whatever it saw, leaves a StatefulSet of the desired size and capacity and no claim too small among the pods the spec counts; no claim of a running pod is too small exactly when before the step none belonged to a pod that only an override adds, so always if it adds none. |
| ReplicaScaling.OverrideLeavesClaimSmall | internal/scaling/scaling.go:76-98 | With the replicas overridden to more and the storage raised, a finished step leaves the claim of a running pod too small. |
| ReplicaScaling.ConvergedIsStable | internal/controller/rabbitmqcluster_controller.go:211-259 | Once converged, a further step with a healthy server and an up-to-date cache changes neither StatefulSet, claims nor annotations. |
| Reconcilers.Reconciler.ReconcileStatefulSet | internal/controller/rabbitmqcluster_controller.go:211-259 | Guard, save, refusals, removal of the saved count, claim expansion and write, in that order and with every early return, deciding on the copies in the cache, have exactly the specified effect. |
| Reconcilers.Reconciler.CreateOrUpdate | internal/controller/rabbitmqcluster_controller.go:252-259 | The retry loop around read and create-or-update has the specified effect: it writes at most once, also when the reply is lost, never changes a claim template, and gives up after the last conflict. |
| Reconcilers.Reconciler.FinishStep | internal/controller/rabbitmqcluster_controller.go:245-268 | Claim expansion followed by create-or-update has the specified effect, also when the write fails or its reply is lost. |
| RestartStamps.ZonedOrder | internal/controller/reconcile_rabbitmq_configurations.go:101-101 | For four-digit years and no fraction, formatted stamps (section 5.6 of RFC 3339) compare as strings by their local date-time fields, and for equal fields by their zone texts. |
| RestartStamps.FormatOrder | internal/controller/reconcile_rabbitmq_configurations.go:101-101 | With one zone text, comparing formatted stamps as strings is comparing their date-time fields. |
| RestartStamps.FormatText | internal/controller/reconcile_rabbitmq_configurations.go:101-101 | A stamp has year, month, day, hour, minute and second at the places RFC 3339 (section 5.6) gives them, then the zone. |
| RestartStamps.PadValue | internal/controller/reconcile_rabbitmq_configurations.go:101-101 | The digits of a field stand for its number. |
| RestartStamps.LaterText | internal/controller/reconcile_rabbitmq_configurations.go:101-101 | With one zone text, the text of a clock that does not go back does not go back. |
| RestartStamps.ZoneChangeBreaksOrder | internal/controller/reconcile_rabbitmq_configurations.go:101-101 | With two zone texts a later stamp can be the smaller string. |
| RestartStamps.AtMostTwoRestarts | internal/controller/reconcile_rabbitmq_configurations.go:88-115 | Over every run in which the clock's text never goes back, the template's stamp takes at most two new values since the config stamp or the last recreation of the StatefulSet, whichever is later, and since the config stamp at most two more than there were recreations; to both comes at most one for each step that decided on an old copy of the template. |
| RestartStamps.OldConfigAsksLess | internal/controller/reconcile_rabbitmq_configurations.go:88-101 | A step that reads an old config stamp decides to restart only if it would with the current one. |
| RestartStamps.OldCopyRestartsAgain | internal/controller/reconcile_rabbitmq_configurations.go:94-115 | A step that decides on an old copy of the template sets a stamp although no restart is due. |
| RestartStamps.EachRecreationRestarts | internal/resource/statefulset.go:60-78 | Every recreation of the StatefulSet loses the stamp and brings a restart of its own, any number of times after one config stamp. |
| RestartStamps.SettledMeansReplaced | internal/controller/reconcile_rabbitmq_configurations.go:47-76 | Once the restart step is a no-op, the template was replaced since the configuration changed if and only if the change was stamped, a restart was already due, the StatefulSet was recreated, or a step restarted it because of an old copy. |
| RestartStamps.SettledMeansRestarted | internal/controller/reconcile_rabbitmq_configurations.go:47-76 | Once the restart step is a no-op, the template differs from every template there was before the configuration changed, if and only if the change was stamped, or with an older config stamp a restart was due, the StatefulSet was recreated or an old copy was acted upon and not all stamps fell into one second used before, or without one a recreation lost a stamp. |
| RestartStamps.LostStampIsReal | internal/controller/reconcile_rabbitmq_configurations.go:67-72 | On a cluster without a config stamp, a change whose stamp fails leaves the template alone when the restart step runs. |
| RestartStamps.SameSecondIsReal | internal/controller/reconcile_rabbitmq_configurations.go:100-115 | A restart in the second of an earlier one gives a recreated StatefulSet the template it had before. |
| RestartStamps.LandedRestartSettles | internal/controller/reconcile_rabbitmq_configurations.go:100-115 | A restart that lands settles the matter unless it falls into the very second of the config stamp. |
| RestartStamps.Stamps.AnnotateServerConf | internal/controller/reconcile_rabbitmq_configurations.go:47-67 | Stamping sets the one annotation to the current time and leaves the others. |
| RestartStamps.Stamps.RestartStatefulSetIfNeeded | internal/controller/reconcile_rabbitmq_configurations.go:81-129 | The step does nothing without a config stamp or when the copy it decides on has a newer stamp, else sets the stamp of the current template, leaving other annotations. |
| RestartStamps.MergeWithFilter | internal/metadata/annotation.go:22-37 | In any order of map iteration the result is the base with exactly the extra entries the filter lets through laid over it. |
| RestartStamps.Stamps.RebuildTemplate | internal/resource/statefulset.go:656 | Rebuilding the pod template over its previous annotations keeps the restart stamp, so a rebuild is never a restart. |
| RestartStamps.Stamps.RecreateStatefulSet | internal/resource/statefulset.go:60-78 | A StatefulSet that is not found is built with the default annotations only, so its stamp is gone. |
| Annotations.CallsSetOneKey | internal/controller/utils.go:34-58 | In every interleaving of callers and other writers, with old reads, a call that succeeds produced exactly the version before its own with its one key set, once; a call that fails wrote nothing unless its own reply was lost. |
| Annotations.WrittenValueSurvives | internal/controller/utils.go:34-58 | A value once written stays, whatever callers working on other keys do with old reads. |
| Annotations.FifthAttemptSucceeds | internal/controller/utils.go:34-58 | After up to four conflicts an accepted attempt succeeds and adds exactly one version, with the one key set. |
| Annotations.FifthConflictFails | internal/controller/utils.go:34-58 | A fifth conflict ends the call, with nothing written. |
| Annotations.OtherErrorsEndTheCall | internal/controller/utils.go:34-58 | A read that does not find the object uses up an attempt; any other error ends the call at once. |
| Annotations.Object.UpdateAnnotation | internal/controller/utils.go:34-54 | The retry loop, with any writes by others between its calls, succeeds exactly when the first of its five attempts that does not fail by a conflict or a missing object is accepted; it writes at most once, on top of the then current version, and only its own key. |
| CliMarkers.MarkedStepRunsBeforeMarkerGoes | internal/controller/reconcile_cli.go:18-118 | Over every run with failures, crashes, repeated markings, edits of the spec, concurrent changes and recreations: a marker that was set is gone if and only if, after that marking and with none since, a pass that began after it, with all replicas ready and one revision, ran every command it asks for and removed it, or, for the marker of a new StatefulSet, the StatefulSet was recreated. |
| CliMarkers.RecreationLosesMark | internal/controller/reconcile_rabbitmq_configurations.go:57-72 | When the StatefulSet is recreated and its new marking fails, the marker is gone and no command was run. |
| CliMarkers.ChangeIsActedUponIff | internal/controller/reconcile_rabbitmq_configurations.go:40-72 | Once the marker is gone, with no marking after a change of the object, a pass begun after the change has run the commands if and only if the change was marked or an earlier marking was still standing. |
| CliMarkers.LostMarkIsReal | internal/controller/reconcile_rabbitmq_configurations.go:67-72 | A changed list of plugins whose marking fails is not set by a pass that reads it. |
| CliMarkers.PluginsReachRunningPodsIff | internal/controller/reconcile_cli.go:87-103 | A pass that removed the plugins marker set the plugins on every pod that ran exactly when no more pods ran than its spec counts, which for a StatefulSet written from this spec means no override adds pods. |
| CliMarkers.OverrideLeavesPodsUnset | internal/controller/reconcile_cli.go:87-103 | With the replicas overridden from one to more, the marker goes although the plugins were set on the first pod only. |
| CliMarkers.JobDoesWhatIsNeeded | internal/controller/reconcile_cli.go:87-118 | The commands of a job are exactly those the marker needs: one per pod for plugins, one for the other two. |
| CliMarkers.UndisturbedPassClearsAll | internal/controller/reconcile_cli.go:18-118 | From any state, a pass that begins with current copies and all replicas ready and on one revision, and is not disturbed, can run to its end by its own moves, with all three markers gone. |
| CliMarkers.MarkedObject.RunJob | internal/controller/reconcile_cli.go:87-103 | The loop over pods followed by the version-checked removal stops at the first command that fails, removes the marker only when earned and never when the object was written again since the pass began, and does remove it when all commands succeed on a current copy and the server accepts. |
| Quorum.EveryRunIsLive | internal/controller/reconcile_status.go:163-186 | In every interleaving no send blocks or meets a closed channel, and no run is infinite. |
| Quorum.StuckMeansReturned | internal/controller/reconcile_status.go:163-193 | In every interleaving something can happen until the results have been drained. |
| Quorum.EveryRunCollectsAll | internal/controller/reconcile_status.go:163-193 | In every interleaving exactly one result per endpoint is collected. |
| Quorum.StatusIsOrderFree | internal/controller/reconcile_status.go:188-202 | Any two runs of the same checks agree on the verdict, the counts, and the critical pods up to order. |
| Quorum.SameTallySameText | internal/controller/reconcile_status.go:204-222 | With at most one critical pod the text does not depend on the arrival order. |
| Quorum.TextDependsOnOrder | internal/controller/reconcile_status.go:163-222 | With two critical pods of different names there are two runs of the same checks with different texts. |
| Quorum.TallyIsComplete | internal/controller/reconcile_status.go:193-202 | Ok, critical and unavailable add up to the number of endpoints. |
| Quorum.TallyCounts | internal/controller/reconcile_status.go:193-202 | Each counter is the number of results with its status, and the critical pods are listed in the order of their results. |
| Quorum.StatusMeans | internal/controller/reconcile_status.go:163-222 | The text of every complete run, in terms of the checks: the critical pods in some order if there are any, else ok if some node is healthy, both followed by the number of unavailable nodes if there are some, else unavailable. |
| Quorum.TextTellsVerdict | internal/controller/reconcile_status.go:204-222 | The status text tells which of the three verdicts was reached. |
| Quorum.Aggregate | internal/controller/reconcile_status.go:188-222 | The counting loop and the formatting yield the text of the tally. |
| Conditions.TransitionTimesAreTrue | api/v1beta1/rabbitmqcluster_status.go:67-114 | After any series of calls each condition's transition time is the time of the last change of its state an observer could see, or of its creation. |
| Conditions.AlwaysFour | api/v1beta1/rabbitmqcluster_status.go:97-114 | There are no conditions until the first computation and from then on exactly four, in fixed order. |
| Conditions.ClusterStatus.SetConditions | api/v1beta1/rabbitmqcluster_status.go:67-103 | The scan for old conditions and the rebuilding of the list have the specified effect. |
| Conditions.ClusterStatus.SetCondition | api/v1beta1/rabbitmqcluster_status.go:105-114 | Updates the first condition of the type only, its time only if its state changes. |
| Conditions.Compute | internal/status/all_replicas_ready.go:22-73 | The loop with its early exits yields the judged state, and a new transition time exactly when the state is new. |
| Conditions.ReadyMeans | internal/status/all_replicas_ready.go:30-63 | AllReplicasReady is true exactly when the StatefulSet wants some replicas and has as many ready, unknown exactly when it is missing. |
| Conditions.AvailableMeans | internal/status/cluster_available.go:34-56 | ClusterAvailable is true exactly when some endpoint has an address, unknown exactly when there is no slice. |
| Conditions.WarningMeans | internal/status/no_warnings.go:28-50 | NoWarnings is false exactly when memory limit and request are both set and differ. |
| Conditions.ReadyReason | internal/status/all_replicas_ready.go:30-63 | The reason and message that go with each state, with the counts of ready and wanted pods. |
| Conditions.AvailableReason | internal/status/cluster_available.go:34-56 | The reason and message that go with each state. |
| Conditions.WarningReason | internal/status/no_warnings.go:28-50 | The reason and message that go with each state. |
| Conditions.SetOneSets | api/v1beta1/rabbitmqcluster_status.go:105-114 | Setting a condition gives it the new state, reason and message and leaves the other three alone. |
| Conditions.SetAllSays | api/v1beta1/rabbitmqcluster_status.go:67-103 | Computing the conditions makes the first three say what was judged, keeps ReconcileSuccess as it was, and creates it as unknown when there were no conditions. |
| Conditions.SetAllSets | api/v1beta1/rabbitmqcluster_status.go:67-103 | In terms of the resources only: when each of the first three conditions is true, false or unknown after the computation, and that the fourth is kept. |
| ServicePorts.UpdateIsCorrect | internal/resource/service.go:295-313 | For every existing list and every order of map iteration the result has each desired port exactly once and nothing else, with the node port of the first existing namesake; survivors come first in their old order. |
| ServicePorts.UpdateIsIdempotent | internal/resource/service.go:295-313 | Updating the result returns the identical list. |
| ServicePorts.ClearedUpdateIsIdempotent | internal/resource/service.go:70-76 | For a ClusterIP service too, a second reconcile changes nothing. |
| ServicePorts.UpdatePorts | internal/resource/service.go:295-313 | The two loops return a list the specification allows. |
| ServicePorts.ClearNodePorts | internal/resource/service.go:72-76 | The loop zeroes the node ports in place and nothing else. |
| ServicePorts.GeneratedIsWellKeyed | internal/resource/service.go:123-293 | Whatever the table of ports and the cluster's settings, every generated port is filed under its own name, without a node port. |
| ServicePorts.GeneratedIffWanted | internal/resource/service.go:123-293 | A port of a name is generated exactly when some entry of that name applies to the cluster. |
| ServicePorts.GeneratedPort | internal/resource/service.go:123-293 | It has the number and protocol of the last such entry, since later insertions overwrite earlier ones. |
| PodSpecOverride.AcceptedIffUnchanged | internal/resource/statefulset.go:229-295 | The admission check accepts an override exactly when the normaliser leaves it unchanged. |
| PodSpecOverride.SanitizedIsAccepted | internal/resource/statefulset.go:229-295 | The normaliser's output is always accepted, and normalising it again changes nothing. |
| PodSpecOverride.RewritesExactlyViolations | internal/resource/statefulset.go:247-270 | In a security context the normaliser rewrites exactly the fields the admission check complains about, each to the one value it has for that field, and leaves the rest. |
| PodSpecOverride.SanitizedKeepsRest | internal/resource/statefulset.go:229-295 | After normalising, the three host flags are off and no service account is set; there are as many containers, in the same order, with everything but their security contexts as it was. |
| PodSpecOverride.RemainingVolumes | internal/resource/statefulset.go:237-245 | The volumes kept are exactly those without a host path, in their old order. |
| PodSpecOverride.Override.Sanitize | internal/resource/statefulset.go:229-295 | The in-place rewriting, with the volume array reused, has the specified effect. |
| PodSpecOverride.ValidatePodSpecOverride | internal/webhook/v1beta1/rabbitmqcluster_webhook.go:79-158 | The error list names exactly the forbidden settings; a missing override is accepted. |
| ContainerOrder.SortEnvWorksIff | internal/resource/statefulset.go:400-414 | With each of the three variables once, the loop permutes the list and brings them to 0, 1, 2 exactly when they do not start in one of three arrangements. |
| ContainerOrder.MisplacedIsReal | internal/resource/statefulset.go:400-414 | One such arrangement, and the wrong order the loop leaves. |
| ContainerOrder.EmittedOrderIsSorted | internal/resource/statefulset.go:858-883 | In the order the operator emits them, the variables always end in front. |
| ContainerOrder.SortEnvPanicsIff | internal/resource/statefulset.go:400-414 | The lists on which the loop indexes beyond the end. |
| ContainerOrder.SortEnvVar | internal/resource/statefulset.go:400-414 | The swapping loop on the array has the specified effect or panics when specified. |
| ContainerOrder.SortMountsWorks | internal/resource/statefulset.go:420-430 | With exactly one cookie mount it ends first, and if there is any persistence mount one ends second; the list is permuted. |
| ContainerOrder.SortMountsPermutes | internal/resource/statefulset.go:420-430 | The loop permutes every list, and panics exactly on a lone persistence mount. |
| ContainerOrder.SortVolumeMounts | internal/resource/statefulset.go:420-430 | The swapping loop on the array has the specified effect or panics when specified. |
| ServerConfig.RestartIffChanged | internal/resource/configmap.go:87-104 | One update on a new builder asks for no restart exactly when the maps before and after agree after dropping the size hints. |
| ServerConfig.ReplicasNeverRestart | internal/resource/configmap.go:303-341 | For a map produced by an update, changing only the replicas, or nothing, succeeds and asks for no restart. |
| ServerConfig.RetryLosesRestartIff | internal/controller/rabbitmqcluster_controller.go:252-259 | When the update is retried after conflicts with one builder, it fails to ask for a restart the last attempt needs exactly when an earlier attempt had read a map that was up to date but for size hints. |
| ServerConfig.RetryLosesRestartIsReal | internal/controller/rabbitmqcluster_controller.go:252-259 | A first attempt that changes only the size hint hides that the user's file was removed before the second. |
| IniCodec.LineCodecIsFaithful | internal/resource/configmap.go:322-341 | There is a codec that meets what the restart decision assumes about reading and writing configuration text. |
| ServerConfig.UserConfPrecedence | internal/resource/configmap.go:126-289 | Whatever the generated keys, in the user's file a key has the user's value if set, else that of the TLS defaults, else the generated one; no other key appears. |
| ServerConfig.AuthNeverMixes | internal/resource/configmap.go:107-124 | The operator's defaults configure SASL mechanisms exactly when the user configures none. |
| ServerConfig.DefaultsSay | internal/resource/configmap.go:87-104 | The operator's file gives the number of replicas as the size hint and the cluster's name. |
| ServerConfig.UpdateLeaves | internal/resource/configmap.go:268-299 | After a successful update each optional file is present with its setting, or absent when that is empty; the user's file is the text of a configuration with the stated precedence; the operator's file reads back with size hint and name. |
| ServerConfig.UpdateKeepsOthers | internal/resource/configmap.go:268-303 | A successful update makes the cluster the owner and touches no other entry. |
| ServerConfig.UpdateFailsIff | internal/resource/configmap.go:106-315 | An update fails exactly when the additional configuration cannot be read, the environment file has a command substitution, another owner controls the map, or the old defaults cannot be read; the first of these decides the error. |
| ServerConfig.AreAuthMechanismsConfigured | internal/resource/configmap.go:361-374 | The loop finds a key with the prefix if and only if there is one. |
| ServerConfig.RemoveSizeHints | internal/resource/configmap.go:329-334 | Deleting while ranging over a snapshot removes exactly the keys with the prefix. |
| ServerConfig.ServerConfigMapBuilder.UpdateConfigMap | internal/resource/configmap.go:268-315 | The update in place has the specified data, owner, error and restart flag; an error leaves the flag. |
| ServerConfig.ServerConfigMapBuilder.Attempt | internal/resource/configmap.go:310-312 | An attempt on a copy read anew can clear the flag but never sets it. |
| ServerConfig.HeadroomIsBoundedAndMonotone | internal/resource/configmap.go:353-359 | The headroom is the smaller of a fifth and 2 GiB, the rest stays between 0 and the limit, and a larger limit never leaves less. |
| Plugins.DesiredIsOrdered | internal/resource/rabbitmq_plugins.go:70-94 | Required plugins first, no duplicates, the members of both lists, in the order of first mention. |
| Plugins.DesiredCanBeReadBack | internal/resource/rabbitmq_plugins.go:96-98 | For names of word characters, splitting the joined text recovers the list. |
| Plugins.FileChangesIffPluginsDo | internal/resource/rabbitmq_plugins.go:100-103 | The file's text changes exactly when the list without duplicates does. |
| Plugins.DesiredPlugins | internal/resource/rabbitmq_plugins.go:82-94 | The loop with its map of seen names returns the first occurrences. |

## Left out

- Reconcilers.Reconciler.ReconcileStatefulSet: saving and removing the count are single calls; the retry loop for annotations is modelled in `Annotations`. What the cache holds is any pair of copies, not only ones that existed.
- Reconcilers.Reconciler.CreateOrUpdate: an update that would change nothing is written all the same.
- RestartStamps.Stamps.RestartStatefulSetIfNeeded: the ConfigMap and the StatefulSet exist; the ten-second requeue when one is missing is not modelled.
- RestartStamps.Stamps.RebuildTemplate: annotations from a user's override of the pod template or from Vault settings are not modelled; one that sets the stamp itself would replace it.
- CliMarkers.MarkedStepRunsBeforeMarkerGoes: commands do not carry the list of plugins they set; the two-second wait after an update of the plugins ConfigMap is not modelled, since a pass may start late at any time anyway; nor is the nil dereference when that ConfigMap is missing.
- ServerConfig.RestartIffChanged: ini text is related to key lists by an abstract codec; the round trip is assumed only for the operator's own defaults and for what was read from a map, without size hints. Sections, comments and keys without a value are not modelled.
- PodSpecOverride.AcceptedIffUnchanged: fields neither layer looks at are one opaque text, and containers are assumed not to share a security context in memory.
- Conditions.Compute: the resources' other fields, and a StatefulSet without containers, are not modelled.
- ServicePorts.GeneratedIsWellKeyed: the table of port names and numbers, like the table of generated configuration keys, is a parameter; its literals would only add easy members.
- Strategic merge patching, JSON, version constraints, random passwords: library behaviour.
- Process setup, the command executor, the HTTP client and the kubectl plugin: plumbing without state of its own.
- Role, role binding, service account, cookie, headless service, the literal pod template, probes and Vault templates: constant records that would only add easy members.
- Events, logging, requeue delays and the finalizer's waiting loop.
