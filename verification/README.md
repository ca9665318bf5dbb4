# k8s-aibom controller: verified model

The controller watches workloads, inventories the AI components they run and keeps one AIBOM object
per workload. This project models its state machines and its order-sensitive algorithms in Dafny and
proves what they keep over every run or every input. Check it with `dafny verify dfyconfig.toml`.

| file | what it models |
|---|---|
| `CrdLifecycle.dfy` | one supervised kind under the apply loop: specification and whole-run properties |
| `CrdDiscovery.dfy` | the CRD worker, and the protocol of cluster, worker, slot, allowlist, runner and apply |
| `WatchSupervisor.dfy`, `WatchHealth.dfy` | the apply loop and the health registry as objects, proved against `CrdLifecycle` |
| `Ownership.dfy` | upward owner walk, downward descendant closure, and their agreement |
| `Reconcile.dfy` | the per-workload reconcile machine: fast path, sinks, hash, error count, conditions |
| `ConfigMachine.dfy` | configuration loads, last-known-good, ownership of sinks |
| `Outcome.dfy`, `VerifyCache.dfy` | signature outcome rules; single-flight cache under a hot-reloaded policy |
| `StableSort.dfy`, `DigestVote.dfy`, `Merge.dfy`, `Components.dfy` | deterministic inventory: order, digest vote, merge and cap |
| `BomRefs.dfy`, `BomBuilder.dfy` | the document's reference tree and the builder |
| `WorkloadKinds.dfy`, `Text.dfy` | the workload-kind parser and printer and the allowlist |
| `CycloneDx.dfy` | the document as the builder writes it and the search reads it |
| `Find.dfy` | the three-valued search of `kubectl aibom find` |
| `Common.dfy` | `Option`, `Result` and object identities |

State machines come in two layers. Code that updates fields is a class whose methods are proved equal
to a specification function of the old state (`Apply` against `ApplyKind`, `Reconcile` against
`ReconcilePass` or `Turn`, `ReadCrd` against `Absorb` and `Classify`, `Enter`/`Finish` against
`Begin`/`AfterFinish`). Runs are sequences of steps over those functions, and the theorems quantify
over all of them. A step that is not possible in a state leaves it unchanged, so every sequence of
steps is an interleaving.

Environment assumptions: CRD UIDs are never reused and deletion is never undone; a runner reports only
while it is running; clocks do not go backwards; hashes and configuration keys do not collide. API
reads and writes, scrapes, deliveries, cryptography and regular expressions may give any result: they
are parameters of a step or uninterpreted functions.

## Where the code does not do what one might expect

Each item has a lemma with the exact condition, or a concrete run.

- A removal can be overwritten in the observation slot before apply reads it. If the replacement is
  already unservable when apply looks, the old generation's runner keeps running and repeated applies
  change nothing (`CrdDiscovery.OverwrittenRemovalStrands`). Apply agrees with the newest observation
  exactly under the condition of `CrdLifecycle.ApplyCatchesUp`; a CRD that becomes Ready always
  recovers (`CrdDiscovery.ReadyConverges`).
- A DaemonSet with an absorbing owner is suppressed, but DaemonSets are not among the kinds the owner
  lists, so no document records it (`Ownership.DaemonSetVanishes`, and for a NIMService
  `Ownership.DaemonSetOfNimServiceUnreported`).
- Deployments, StatefulSets, DaemonSets and Jobs absorb what they control but build no descendant list,
  so a Deployment controlled by another Deployment is suppressed and recorded nowhere
  (`Ownership.OperandOfDeploymentUnreported`). In an acyclic namespace every workload of a reported kind
  is reported exactly when every suppressed one has only listed kinds on its chain and every absorbing
  owner that passes the gate builds a list or is recorded by a root above it
  (`Ownership.AllReportedExactly`).
- A pod's walk to its root checks no UID, so a reference to an earlier object of the same name enqueues
  the present one (`Ownership.StaleReferenceEnqueues`, exact condition in `Ownership.NamedOwnsPod`).
- The verification cache is keyed by signature reference and trust epoch, but the outcome also reads
  the model identity and the declared digest. A claim whose digest contradicts the signature can be
  answered Verified from another claim's entry (`VerifyCache.CachedAnswerIgnoresDigest`). Over all
  interleavings, callers get the answers of their own claims exactly when the claims that share a
  reference agree on both (`VerifyCache.OwnAnswersExactly`).
- A status-write conflict returns before the observation is recorded, so the config-health bit can stay
  set after the configuration is valid again (`ConfigMachine.ConflictLeavesBitSet`). The bit is wrong
  exactly when an unrecorded load was overtaken by loads of the class recorded before it and one of the
  two classes is invalid (`ConfigMachine.HealthBitExact`).
- The fast path copies conditions, so Ready repeats the verdict of the last full or failed pass
  (`Reconcile.ReadyExact`).
- An AIBOM that was created by a pass which then lost its status write is taken for one whose status is
  still on its way: no later pass emits or takes the fast path until a pass deletes it
  (`Reconcile.DeferralBegins`, `Reconcile.DeferredForGood`).

Two results are about one function alone, on inputs its callers do not give it:

- `deduplicateComponents` joins the parts of its key with `|` unquoted, so two components of one type,
  source and locator whose names or versions contain it would share a key (`Merge.ContainersCollide`,
  `Merge.KeysIdentifyExactly`). No scraper emits two components for one locator of one source with
  different names.
- A load result without a snapshot would schedule the live sinks for closing while they stay live
  (`ConfigMachine.NilSnapshotSchedulesLiveSinks`). The loader never returns one.

## Model

| member | source | states |
|---|---|---|
| `CrdLifecycle.ApplySettles` | internal/controller/watch_supervisor.go:298-427 | after every completed apply a runner exists exactly for a Ready, allowed kind, for the recorded generation; the kind is activated and tracked exactly while its CRD is Ready or Unservable |
| `CrdLifecycle.ApplyQuiets` | internal/controller/watch_supervisor.go:298-377 | an apply leaves nothing further to do for its observation and allowlist |
| `CrdLifecycle.ApplyIdempotent` | internal/controller/watch_supervisor.go:298-377 | applying the same observation and allowlist again changes no runner, health entry, tracked kind and adds no sweep |
| `CrdLifecycle.ApplyLife` | internal/controller/watch_supervisor.go:317-358 | the generation acted on after an apply depends on the previous one and the observation only, never on the allowlist |
| `CrdLifecycle.ApplyCatchesUp` | internal/controller/watch_supervisor.go:317-358 | apply agrees with the newest observation if and only if that is Ready, is about the generation acted on, or the kind is not present |
| `CrdLifecycle.ReadyTakesOver` | internal/controller/watch_supervisor.go:317-376 | a Ready observation ends with that generation recorded, and its runner running exactly when allowed |
| `CrdLifecycle.PlayKeepsOrder` | internal/controller/watch_supervisor.go:298-482 | over every sequence of applies and reports: every started generation is running, or stopped and still owed a sweep that the next disable performs, or stopped and swept |
| `CrdLifecycle.SweptBetweenGenerations` | internal/controller/watch_supervisor.go:324-482 | in every run, between starts of two different generations the first runner is stopped and awaited and a sweep follows the stop, even through unservable or excluded periods |
| `CrdLifecycle.RemovalSweepsFollowRetirement` | internal/controller/watch_supervisor.go:446-482 | every crd-removed sweep comes after a retirement with only the runner's stop between |
| `CrdLifecycle.HealthyIsRunning` | internal/controller/watch_health.go:135-233 | over every play a healthy kind has a running watch, so an unservable, removed or never seen kind is not healthy; it is disabled as removed only while its CRD is gone |
| `CrdLifecycle.DisabledByConfigExactly` | internal/controller/watch_supervisor.go:391-412 | after every apply a kind is disabled by configuration if and only if its CRD is present and it is not allowed |
| `CrdLifecycle.UnservableIsUnhealthy` | internal/controller/watch_supervisor.go:432-437 | a CRD that stops serving an allowed kind leaves it stopped and unhealthy with the reason, one failure more |
| `CrdLifecycle.LagIsUnhealthy` | internal/controller/watch_supervisor.go:310-316 | a new lag report makes a kind that is not running unhealthy with its error, and changes nothing else |
| `CrdLifecycle.ApplyLag` | internal/controller/watch_supervisor.go:310-316 | a lag report is taken note of once, by its number |
| `CrdLifecycle.HeardIsHealth` | internal/controller/watch_supervisor.go:679-728 | a sync or clean probe of a running watch makes it healthy, an error unhealthy with one failure more; a stopped watch is not heard |
| `CrdLifecycle.LateStartAnnounced` | internal/controller/watch_supervisor.go:334-347 | a kind first seen Ready by a late observation is started and announced by its first sync |
| `CrdDiscovery.CrdWorker.ReadCrd` | internal/controller/watch_discovery.go:313-415 | one read does the two publications of the specification, in that order, and is retried exactly on a read error or an unresolved mapping |
| `CrdDiscovery.CrdWorker.RemoveObserved` | internal/controller/watch_discovery.go:419-424 | publishes the removal of the tracked generation and forgets it |
| `CrdDiscovery.CrdWorker.JudgeReadiness` | internal/controller/watch_discovery.go:366-415 | readiness of a present CRD: Unservable only after Ready, a lag report once per generation, late only on evidence of absence |
| `CrdDiscovery.RunKeeps` | internal/controller/watch_discovery.go:313-424 | the protocol invariant over every interleaving: what the worker, the slot and apply believe is covered by full reads |
| `CrdDiscovery.RetiredOnlyWhenGone` | internal/controller/watch_supervisor.go:317-332 | in every interleaving a generation is retired only if an earlier full read showed it absent, replaced or being deleted, and it is no longer live |
| `CrdDiscovery.RemovalSweepsConfirmed` | internal/controller/watch_supervisor.go:446-482 | every crd-removed sweep in every interleaving belongs to a retirement confirmed by such a read |
| `CrdDiscovery.GoneForGood` | internal/controller/watch_discovery.go:313-358 | a generation shown gone stays gone in every continuation |
| `CrdDiscovery.AnnouncedOnlyIfInstalledLater` | internal/controller/watch_discovery.go:136-146 | a watch start is announced only for a CRD that was not installed when the supervisor started |
| `CrdDiscovery.RunIsPlay` | internal/controller/watch_discovery.go:497-505 | what apply does in the protocol is a play of its turns, so whole-run properties of apply hold in every interleaving |
| `CrdDiscovery.RunMirrors` | internal/controller/watch_discovery.go:497-505 | in every reachable state the slot carries the worker's latest conclusion and generation |
| `CrdDiscovery.ReadyConverges` | internal/controller/watch_discovery.go:313-415 | from every reachable state with an installed, ready CRD: after the read in hand, one more read and one apply, exactly that generation is recorded and running exactly when allowed |
| `CrdDiscovery.GoneConverges` | internal/controller/watch_supervisor.go:317-332 | from every reachable state between reads with a CRD that is gone: one read and one apply retire the kind if and only if apply acts on the generation the worker last tracked |
| `CrdDiscovery.UnreadyConverges` | internal/controller/watch_discovery.go:366-382 | from every reachable state between reads with a running watch and a CRD no longer ready: one read and one apply stop the watch, keep the kind tracked, and an allowed kind is unhealthy with the reason |
| `CrdDiscovery.LagConverges` | internal/controller/watch_discovery.go:389-408 | from every reachable state with a ready CRD that discovery does not resolve in time: one read and one apply make the kind unhealthy with that error and start nothing |
| `CrdDiscovery.EvidenceExact` | internal/controller/watch_discovery.go:313-358 | absence or removal shown by a read is remembered for good, and so is the first generation found |
| `CrdDiscovery.LateInstallAnnounced` | internal/controller/watch_discovery.go:128-146 | from every reachable state whose reads had shown the CRD absent: one read, one apply and the first sync start and announce the new CRD |
| `CrdDiscovery.OverwrittenRemovalStrands` | internal/controller/watch_discovery.go:497-505 | a concrete run in which the removal is overwritten and the old runner stays |
| `WatchSupervisor.Supervisor.Apply` | internal/controller/watch_supervisor.go:298-377 | takes every watched kind through exactly one `ApplyKind` on its own observation and allowlist entry |
| `WatchSupervisor.Supervisor.ApplyOne` | internal/controller/watch_supervisor.go:302-376 | one iteration equals `ApplyKind` on its kind and leaves every other kind's state alone |
| `WatchSupervisor.Supervisor.Advance` | internal/controller/watch_supervisor.go:334-360 | life transitions of the kind, with activation, late start and unservable stop; other kinds unchanged |
| `WatchSupervisor.Supervisor.Retire` | internal/controller/watch_supervisor.go:446-456 | stop, untrack, disable as removed, forget, in that order; other kinds unchanged |
| `WatchSupervisor.Supervisor.ApplyAllowlist` | internal/controller/watch_supervisor.go:391-412 | starts, stops and disables according to the allowlist; other kinds unchanged |
| `WatchSupervisor.Supervisor.Disable` | internal/controller/watch_supervisor.go:463-482 | sweeps exactly on the transition into the disabled state |
| `WatchSupervisor.Supervisor.StopRunner` | internal/controller/watch_supervisor.go:417-427 | an existing runner is stopped and its pending start dropped |
| `WatchSupervisor.Supervisor.MarkUnservable` | internal/controller/watch_supervisor.go:432-437 | the kind is unhealthy with the recorded reason |
| `WatchSupervisor.Supervisor.Activate` | internal/controller/watch_discovery.go:589-599 | registers and tracks the kind once per activation and says whether it was the first |
| `WatchSupervisor.Supervisor.ReportLag` | internal/controller/watch_supervisor.go:310-316 | each lag report reaches the health entry once |
| `WatchSupervisor.Supervisor.Publish` | internal/controller/watch_discovery.go:497-505 | overwrites the kind's observation and nothing else |
| `WatchSupervisor.Supervisor.FirstSync` | internal/controller/watch_supervisor.go:681-692 | the first sync marks the kind healthy, takes the pending start and announces it exactly on the transition |
| `WatchSupervisor.Supervisor.Hear` | internal/controller/watch_supervisor.go:679-728 | a sync, a clean probe or an error of a running watch equals `CrdLifecycle.Hear`; other kinds unchanged |
| `WatchHealth.Health.Register` | internal/controller/watch_health.go:104-111 | a new kind starts, a known kind is left as it is |
| `WatchHealth.Health.MarkHealthy` | internal/controller/watch_health.go:135-158 | clears the error and the disabled mark; notifies exactly when the kind was not healthy |
| `WatchHealth.Health.MarkUnhealthy` | internal/controller/watch_health.go:162-186 | counts the failure; notifies exactly when the kind was not already degraded |
| `WatchHealth.Health.MarkDisabled` | internal/controller/watch_health.go:194-217 | reports and notifies exactly the transition into the disabled state |
| `WatchHealth.Health.MarkStarting` | internal/controller/watch_health.go:222-233 | back to the starting state without a notice |
| `Ownership.ResolveTrackedOwner` | internal/controller/ownership_rollup.go:179-217 | the walk: no controller, the tracked owner, or unresolved on a bad reference, a failed read, a UID mismatch or the depth bound |
| `Ownership.WalkFindsNearest` | internal/controller/ownership_rollup.go:179-217 | an owner found is the nearest ancestor of an absorbing kind, within the bound, with the referred UID |
| `Ownership.NearestIsFound` | internal/controller/ownership_rollup.go:179-217 | a nearest absorbing ancestor within the bound is found |
| `Ownership.ControllerExact` | internal/controller/ownership_rollup.go:179-217 | the controller is the first reference with the flag; there is none exactly when no reference has it |
| `Ownership.UpExact` | internal/controller/ownership_rollup.go:186-208 | the owner one hop up is the readable object the controlling reference names and whose UID it has |
| `Ownership.NoOwnerEnds` | internal/controller/ownership_rollup.go:179-217 | a walk that finds no owner came to an uncontrolled object within the bound |
| `Ownership.EndsIsNoOwner` | internal/controller/ownership_rollup.go:179-217 | a chain that ends within the bound has no owner |
| `Ownership.PassesExactly` | internal/controller/workload_reconciler.go:225-248 | a workload passes the gate if and only if none of its six nearest resolvable ancestors is of an absorbing kind |
| `Ownership.UncontrolledPasses` | internal/controller/ownership_rollup.go:179-347 | a workload without a controlling reference passes the gate and is in no root's descendant set |
| `Ownership.RootDescendants` | internal/controller/ownership_rollup.go:314-333 | the fixpoint ends and, for every iteration order, is exactly the set of objects whose controller chain reaches the root |
| `Ownership.SuppressedIffRecorded` | internal/controller/ownership_rollup.go:179-347 | a suppressed workload is in the absorbing owner's descendant set if and only if every object on its chain below the owner is of a listed kind |
| `Ownership.ChainSuppresses` | internal/controller/ownership_rollup.go:179-217 | an absorbing ancestor within the bound suppresses |
| `Ownership.EveryWorkloadReported` | internal/controller/workload_reconciler.go:225-248 | in every acyclic namespace whose suppressed workloads have listed chains and whose passing absorbers build or are recorded, every workload of a reported kind passes the owner gate or lies in the descendant set of a building ancestor that passes it |
| `Ownership.AllReportedExactly` | internal/controller/ownership_rollup.go:179-347 | in every acyclic namespace: every workload of a reported kind is reported if and only if every suppressed one has only listed kinds below its absorbing owner, and every absorbing owner that passes the gate builds a list or is recorded by a passing root above it |
| `Ownership.OrdinaryNamespaceCovered` | cmd/manager/main.go:281-287 | a Deployment with its ReplicaSet and pod meets those hypotheses, whatever is listed and built |
| `Ownership.ChainReportedOnce` | internal/controller/workload_reconciler.go:225-248 | of two reported kinds on one chain within the bound, the lower never passes the gate |
| `Ownership.ShrinkingNeverSuppresses` | internal/controller/ownership_rollup.go:132-143 | a smaller allowlist never newly suppresses a workload |
| `Ownership.DaemonSetVanishes` | internal/controller/ownership_rollup.go:261-312 | a suppressed DaemonSet is in no root's descendant set, whichever of the lists succeed |
| `Ownership.DaemonSetOfNimServiceUnreported` | internal/controller/ownership_rollup.go:261-312 | the DaemonSet of a NIMService is not reported, though the NIMService passes the gate and builds |
| `Ownership.OperandOfDeploymentUnreported` | cmd/manager/main.go:281-287 | the Deployment controlled by a Deployment is not reported, though its owner passes the gate and its chain is listed |
| `Ownership.EnqueueRootForPod` | internal/controller/ownership_rollup.go:381-409 | the walk from a pod to the root of a kind |
| `Ownership.FoundIsNamed` | internal/controller/ownership_rollup.go:381-409 | a name found is one the references give within the bound |
| `Ownership.NamedIsFound` | internal/controller/ownership_rollup.go:381-409 | a name the references give within the bound is found |
| `Ownership.NamedOwnsPod` | internal/controller/ownership_rollup.go:381-409 | the name found is that of the pod's nearest owner of the kind if and only if every reference followed still means the object it was made for |
| `Ownership.PodEnqueuesRoot` | internal/controller/ownership_rollup.go:381-409 | a pod whose resolvable chain meets a root of the kind within the bound enqueues that root |
| `Ownership.StaleReferenceEnqueues` | internal/controller/ownership_rollup.go:381-409 | a stale reference enqueues a root that does not own the pod |
| `Reconcile.WorkloadReconciler.Reconcile` | internal/controller/workload_reconciler.go:185-459 | one pass over the persisted AIBOM, with every read, write, scrape, build and delivery free to fail, equals `ReconcilePass` |
| `Reconcile.WorkloadReconciler.Publish` | internal/controller/workload_reconciler.go:372-458 | the full pass: emit, create or update, write the status, retry after a failed sink |
| `Reconcile.WorkloadReconciler.PersistFailure` | internal/controller/workload_reconciler.go:585-606 | Ready=False and one more error on an existing AIBOM; never creates one |
| `Reconcile.HashMeansDelivered` | internal/controller/workload_reconciler.go:298-458 | over every run, a non-empty persisted input hash means a pass with that hash delivered to every sink of its snapshot |
| `Reconcile.HashExact` | internal/controller/workload_reconciler.go:298-458 | over every run the persisted hash is that of the last written full pass since creation if it delivered everywhere, and empty otherwise |
| `Reconcile.FailedSinkRetries` | internal/controller/workload_reconciler.go:404-458 | a pass with a failed sink persists no hash, is not recognized as unchanged next time, and ends in a requeue or error |
| `Reconcile.EmitsExactly` | internal/controller/workload_reconciler.go:185-459 | a pass emits if and only if it is admitted and read, the persisted hash is empty or another, no first status is awaited, and the document builds; exact conditions likewise for the fast path, a deletion and a recorded failure |
| `Reconcile.EmitsWhenUnpublished` | internal/controller/workload_reconciler.go:298-363 | over every run: a pass that builds on a written AIBOM emits if and only if its hash is not the one last published |
| `Reconcile.EndsExactly` | internal/controller/workload_reconciler.go:185-459 | exactly when a pass is done, requeues at once or later |
| `Reconcile.StampedExactly` | internal/controller/status.go:141-196 | exactly the passes that write a status stamp it with their time and generation |
| `Reconcile.DeferralBegins` | internal/controller/workload_reconciler.go:413-458 | from no AIBOM, a pass leaves one that awaits its status if and only if it emitted, created it and lost the status write |
| `Reconcile.DeferredForGood` | internal/controller/workload_reconciler.go:330-363 | in every continuation, until a pass deletes the AIBOM, every pass is idle or a recorded failure and the AIBOM still awaits its status |
| `Reconcile.EmitToSinks` | internal/controller/workload_reconciler.go:650-715 | results come back in configured order whatever order the sinks finish in |
| `Reconcile.KeepTransitionTimes` | internal/controller/workload_reconciler.go:568-574 | in place, each time is carried over exactly for an unchanged status |
| `Reconcile.TransitionTimesExact` | internal/controller/workload_reconciler.go:317-412 | over full, fast and failure passes, a condition's transition time moves, to the time of the pass, exactly when its status does |
| `Reconcile.ErrorsCounted` | internal/controller/workload_reconciler.go:490-517 | over every run with a fixed threshold, ConsecutiveErrors is the length of the trailing run of erring passes (32-bit), and Stale=True implies at least the threshold |
| `Reconcile.StaleExact` | internal/controller/workload_reconciler.go:490-517 | over every run with a fixed threshold Stale is exactly what the log of written passes gives |
| `Reconcile.StaleMeans` | internal/controller/workload_reconciler.go:490-517 | below 2^31 passes: Stale if and only if the last written pass erred and the run of errors had then reached the threshold, 3 by default |
| `Reconcile.SinkConditionsExact` | internal/controller/status.go:272-347 | over every run SinkFailed holds if and only if some sink of the last written full pass failed, and Synced if and only if none did |
| `Reconcile.FailureNamed` | internal/controller/workload_reconciler.go:585-606 | a recorded failure says whether the scrape or the build failed |
| `Reconcile.ReadyExact` | internal/controller/status.go:180-196 | over every run Ready is the verdict of the last full or failed pass |
| `Reconcile.FirstSuccessful` | internal/controller/status.go:258-270 | the first delivered result with a URL and the wanted mode, or none exists |
| `Reconcile.BuildDocumentRef` | internal/controller/status.go:198-253 | inline exactly when it fits; otherwise the first sink that serves it back, write-only sinks last; truncated exactly when no sink took it |
| `ConfigMachine.Reconciler.Reconcile` | internal/controller/aibomcontrollerconfig_reconciler.go:253-368 | a failed read changes nothing and is an error; any other load is one turn of the machine; a status conflict requeues |
| `ConfigMachine.Reconciler.Store` | internal/controller/aibomcontrollerconfig_reconciler.go:296-337 | what is stored, scheduled for closing and kept as last known good |
| `ConfigMachine.Reconciler.Report` | internal/controller/aibomcontrollerconfig_reconciler.go:339-368 | events, health bit and observation, with the early returns on status-write failures |
| `ConfigMachine.ParseSpec` | internal/config/loader.go:96-167 | all or nothing: any error gives defaults and closes every constructed sink, otherwise the spec with all its sinks and none closed |
| `ConfigMachine.SpecValidExactly` | internal/config/loader.go:96-167 | a spec is valid if and only if no field and no shape is wrong and every sink was built; then its sinks are all of them in order |
| `ConfigMachine.SinksExact` | internal/config/client_factory.go:75-108 | the sinks constructed are exactly those whose build succeeded, in order |
| `ConfigMachine.BuildErrorsExact` | internal/config/client_factory.go:75-108 | the errors are exactly those of the builds that failed, in order |
| `ConfigMachine.LastValidIsLive` | internal/config/snapshot.go:223-236 | after any history the most recent valid load since the CR was last missing is live, marked last-known-good exactly when a later load was invalid |
| `ConfigMachine.OtherwiseDefaults` | internal/controller/aibomcontrollerconfig_reconciler.go:265-337 | without such a load the compiled defaults are live |
| `ConfigMachine.SinksConserved` | internal/controller/aibomcontrollerconfig_reconciler.go:296-337 | over every history, live, scheduled and loader-closed sinks together are exactly the sinks ever constructed |
| `ConfigMachine.EachSinkInOnePlace` | internal/config/loader.go:131-167 | each distinct sink is in exactly one place, never scheduled twice or while live |
| `ConfigMachine.NilSnapshotSchedulesLiveSinks` | internal/config/snapshot.go:180-191 | on a result without a snapshot, ownership is kept if and only if the live snapshot has no sinks |
| `ConfigMachine.HealthBitIsNews` | internal/controller/aibomcontrollerconfig_reconciler.go:339-368 | over every history, with any status-write results: the observation is the class last recorded, and the bit says whether the last load that differed from it was invalid |
| `ConfigMachine.HealthBitExact` | internal/controller/aibomcontrollerconfig_reconciler.go:437-503 | over every history the bit agrees with the latest load, except exactly when an unrecorded load was overtaken by loads of the class recorded before it and one of the two was invalid |
| `ConfigMachine.RecordedBitExact` | internal/controller/aibomcontrollerconfig_reconciler.go:354-366 | the bit is exact in every history without a conflicting or failed status write |
| `ConfigMachine.EventsExact` | internal/controller/aibomcontrollerconfig_reconciler.go:437-503 | over every history a load gives events exactly when its class is not the recorded one, and those of that change; an invalid load is announced as keeping the last known good exactly when a valid load is still in effect |
| `ConfigMachine.ConflictLeavesBitSet` | internal/controller/aibomcontrollerconfig_reconciler.go:354-366 | valid, invalid with a conflict, valid: the bit stays set |
| `Outcome.IdentityMatches` | verifier/outcome.go:124-138 | true exactly when some constraint accepts issuer and subject |
| `Outcome.VerdictExactly` | verifier/outcome.go:63-122 | the exact condition of each of the seven verdicts; Verified if and only if signed, logged, signer bound, and digest or else name corresponds |
| `Outcome.RulingExactly` | verifier/outcome.go:63-122 | the reason, the note of a renamed model, the facts and the time of a ruling |
| `Outcome.ClaimsDistinguished` | verifier/outcome.go:63-147 | two claims get equal answers on all findings that can be gathered if and only if identity and digest agree |
| `VerifyCache.ResultCache.Enter` | verifier/cache.go:74-88 | first critical section: fresh entry, leader to wait for, or the lead |
| `VerifyCache.ResultCache.Finish` | verifier/cache.go:90-103 | second critical section: stores with the result's time to live and gives up the lead |
| `VerifyCache.RunKeeps` | internal/sigverify/adapter.go:60-121 | the invariant of caches, leads, waiters and results over every interleaving and policy reload |
| `VerifyCache.OneComputationPerKey` | verifier/cache.go:74-103 | at most one computation per verifier and key is in flight |
| `VerifyCache.ReturnedIsDecided` | verifier/rekor.go:135-158 | every returned result is the decision under exactly the policy the call loaded, for the same signature reference, younger than its time to live (one minute for errors) |
| `VerifyCache.ReturnedUnderPolicy` | verifier/rekor.go:64-90 | over every run a result was decided under the call's own identities, source and mode, and was younger than the policy's own time to live, a day by default, a minute for errors |
| `VerifyCache.VerifiedUnderPolicy` | verifier/outcome.go:87-105 | over every run a Verified answer has a logged chain whose signer one of the call's own constraints admits, or without constraints the policy's own trust root |
| `VerifyCache.LookUpExactly` | verifier/cache.go:74-88 | a lookup returns exactly on an unexpired entry, waits exactly for whoever computes the key, and otherwise computes |
| `VerifyCache.ResolveExactly` | verifier/rekor.go:135-151 | a call is keyed by reference and trust epoch once that is known, and apart until then |
| `VerifyCache.EpochStays` | verifier/rekor.go:93-131 | over every continuation a verifier's resolved epoch and its configuration stay |
| `VerifyCache.UnsourcedNotVerified` | verifier/rekor.go:64-90 | a self-hosted trust root without a source builds no verifier |
| `VerifyCache.ReturnedWasComputed` | verifier/rekor.go:135-158 | every returned result goes back to one computation step of a leading call, from that call's own claim, policy and findings |
| `VerifyCache.WaiterGetsLeaders` | verifier/cache.go:74-103 | a waiter returns its leader's result, stored after the waiter looked |
| `VerifyCache.WaiterCanFinish` | verifier/cache.go:74-103 | in every reachable state a waiter's leader can still finish, and then the waiter returns |
| `VerifyCache.OwnAnswersExactly` | verifier/rekor.go:135-158 | over every interleaving and policy reload that invokes only claims of a set: every returned answer is the caller's own decision on its findings, if and only if claims of the set with one reference agree on identity and digest |
| `VerifyCache.OwnAnswersUnderPolicy` | verifier/rekor.go:64-158 | the same under one fixed policy: if and only if no verifier can be built, no signer satisfies the policy, or the claims agree |
| `VerifyCache.CachedAnswerIgnoresDigest` | verifier/rekor.go:151-151 | a run in which a claim with the wrong digest is answered Verified from the cache |
| `StableSort.SortedByKeySubsequences` | internal/scraper/inference.go:244-259 | two sorted sequences with equal per-key subsequences are equal: a stable sort is unique |
| `StableSort.SortedComponentsStable` | internal/scraper/inference.go:244-259 | sorting orders by type, name, locator and keeps the order of equal keys |
| `StableSort.SortInPlace` | internal/scraper/inference.go:244-254 | one level: the array ends up as the stable sort of what it held |
| `StableSort.SortComponents` | internal/scraper/inference.go:244-259 | the array and the children of every component, at every depth, end up sorted as `SortedTree` |
| `StableSort.SortedTreeStable` | internal/scraper/inference.go:244-259 | ordered at every depth, and at each level the stable sort of the components with sorted children |
| `StableSort.OrderExact` | internal/scraper/inference.go:244-254 | sorted means by type, then name, then locator |
| `StableSort.SortHolds` | internal/scraper/inference.go:244-259 | sorting loses and adds nothing |
| `StableSort.ExtractModels` | internal/scraper/inference_extract.go:520-553 | one model per declaring annotation, each once, in some iteration order of the map |
| `StableSort.DeclaresExact` | internal/scraper/inference_extract.go:520-533 | which annotations declare a model |
| `StableSort.Truncate` | internal/scraper/inference_extract.go:508-518 | at most the bound, and unchanged when it fits |
| `StableSort.OnlyModel` | internal/scraper/inference_extract.go:520-553 | each sort key has at most one annotation model |
| `StableSort.IterationOrderIrrelevant` | internal/scraper/inference.go:145-177 | for any iteration orders of both annotation maps: identical capped component sequence and dropped count |
| `StableSort.ScrapeExact` | internal/scraper/inference.go:145-177 | a scrape keeps the first part of the sorted components, at most 256, and kept and dropped are everything found |
| `StableSort.DeclaredIsScraped` | internal/scraper/inference_extract.go:520-553 | without a drop every declaring annotation has its model, with the value as name, its locator and the verification's properties |
| `StableSort.ContainerIsScraped` | internal/scraper/inference.go:145-177 | without a drop every other component found is there, unchanged but for the order of its children |
| `DigestVote.ResolveDigest` | internal/scraper/inference_extract.go:149-195 | the reference's digest, else the most-reported digest of matching statuses, lowest on ties, else none without votes |
| `DigestVote.CountVotes` | internal/scraper/inference_extract.go:155-183 | the counts are exactly the votes |
| `DigestVote.BallotsExact` | internal/scraper/inference_extract.go:155-183 | the votes for a digest are exactly the statuses of the wanted list, container name and image name that report it, each counted once |
| `DigestVote.VotesPermuted` | internal/scraper/inference_extract.go:155-183 | reordering the pods changes no count |
| `DigestVote.DigestOrderIndependent` | internal/scraper/inference_extract.go:149-195 | digest and source are the same for every permutation of pods and every iteration order |
| `Merge.DeduplicateComponents` | internal/scraper/types.go:266-284 | equals the recursive specification `Dedup` |
| `Merge.FirstsExact` | internal/scraper/types.go:266-284 | the kept positions are exactly the first of each key, ascending |
| `Merge.DedupKeepsFirsts` | internal/scraper/types.go:266-284 | deduplication keeps exactly those positions, children deduplicated likewise |
| `Merge.DedupKeys` | internal/scraper/types.go:266-284 | no key is lost |
| `Merge.DedupSize` | internal/scraper/types.go:266-284 | as many are kept as there are distinct keys |
| `Merge.ContainersCollide` | internal/scraper/types.go:274-276 | two containers with one source and locator and different names share a key |
| `Merge.KeysIdentifyExactly` | internal/scraper/types.go:274-276 | over an alphabet for names and versions, equal keys of emitted components mean equal coordinates if and only if the separator is not in it |
| `Merge.DeduplicateServices` | internal/scraper/types.go:286-299 | equals the specification `FirstServices` |
| `Merge.ServicesExact` | internal/scraper/types.go:286-299 | exactly the first service of each name is kept, in order |
| `Merge.ContainerComponents` | internal/scraper/multi.go:122-130 | equals the specification `Containers` |
| `Merge.ContainersExact` | internal/scraper/multi.go:122-130 | exactly the components of container type, in the order of the list |
| `Merge.MultiScrape` | internal/scraper/multi.go:31-119 | at most 256 components; a prefix of everything contributed; kept plus dropped equals contributed plus the contributors' own drops; every contributor's provenance in order, the recognizing ones' errors and services; confidence and best category |
| `Merge.EverythingExact` | internal/scraper/multi.go:43-97 | the document has exactly the keys of the recognizing scrapers' components and the other scrapers' containers |
| `Merge.KeptExact` | internal/scraper/multi.go:43-97 | exactly whose provenance, errors and services are kept |
| `Merge.PriorityOrder` | internal/scraper/multi.go:141-149 | the order of the categories |
| `Merge.Finish` | internal/scraper/multi.go:88-119 | carried containers first, deduplicated when merged, capped, drops counted |
| `BomBuilder.BuildComponents` | internal/bom/builder.go:214-269 | refused if and only if some component at any depth has a hash of an unknown algorithm; otherwise a tree determined by components, redaction and parent alone, whatever the map iteration orders |
| `BomBuilder.BuiltFaithfully` | internal/bom/builder.go:230-269 | a built component has the redacted name, version and package URL of its source, its mapped type, and its children built below its own reference |
| `BomBuilder.BuiltHashes` | internal/bom/builder.go:329-346 | exactly the hashes of the source |
| `BomBuilder.BuiltProperties` | internal/bom/builder.go:250-260 | exactly the non-empty values of the evidence trail and of the redacted properties |
| `BomBuilder.AlgorithmsExact` | internal/bom/builder.go:358-373 | the five algorithms known and their names |
| `BomBuilder.BuiltRefsDistinct` | internal/bom/builder.go:214-269 | the references of a built document, the workload's included, are pairwise distinct |
| `BomBuilder.MapHashes` | internal/bom/builder.go:329-346 | fails if and only if some key is unknown; otherwise one hash per key in key order |
| `BomBuilder.SortedKeys` | internal/bom/builder.go:395-405 | the map's keys, each once, in lexical order |
| `BomBuilder.ListingUnique` | internal/bom/builder.go:395-405 | a set of keys has only one such listing |
| `BomRefs.PlacesDiffer` | internal/bom/builder.go:417-423 | a reference lies below one sibling position only, whatever the names |
| `BomRefs.RefSpelling` | internal/bom/builder.go:410-423 | how references are spelled |
| `BomRefs.DecimalWrites` | internal/bom/builder.go:417-423 | the position is written in decimal |
| `BomRefs.SiblingRefsDistinct` | internal/bom/builder.go:214-269 | for every forest, the references below a parent are pairwise distinct |
| `BomRefs.DocumentRefsDistinct` | internal/bom/builder.go:410-423 | all references of a document, the workload's included, are pairwise distinct |
| `WorkloadKinds.FormatParsed` | internal/config/workloadkinds.go:136-158 | printing a parsed kind gives back every accepted entry |
| `WorkloadKinds.ParseFormatted` | internal/config/workloadkinds.go:136-158 | parsing a printed kind gives it back if and only if its parts are well formed, the kind non-empty and the group not "core" |
| `WorkloadKinds.ParsedExactly` | internal/config/workloadkinds.go:145-158 | exactly which strings parse to which kind |
| `WorkloadKinds.ErrorsExact` | internal/config/workloadkinds.go:182-210 | each index yields exactly one error or one kind |
| `WorkloadKinds.VerdictExact` | internal/config/workloadkinds.go:182-210 | an entry names its kind if and only if it parses, is known and is the first; otherwise the error that says why |
| `WorkloadKinds.AllowsExactly` | internal/config/workloadkinds.go:67-82 | which kinds a parsed list allows |
| `WorkloadKinds.Validate` | internal/config/workloadkinds.go:182-210 | the loop's errors are exactly those; a non-empty error-free list gives exactly the set written, each once |
| `WorkloadKinds.ParseAll` | internal/config/workloadkinds.go:182-210 | the same over the entry strings and the known kinds |
| `Find.InlineContainers` | cmd/kubectl-aibom/find.go:80-141 | availability of the document and exactly the facts a readable one states |
| `Find.DigestHit` | cmd/kubectl-aibom/find.go:163-179 | a full digest matches as it is, a shorter one as a prefix, an empty one never |
| `Find.ImageHit` | cmd/kubectl-aibom/find.go:257-268 | some image contains the part |
| `Find.ModelHit` | cmd/kubectl-aibom/find.go:229-240 | some named model contains the part |
| `Find.SignedHit` | cmd/kubectl-aibom/find.go:241-252 | some model is in the state, none counting as unsigned |
| `Find.ContainsExact` | cmd/kubectl-aibom/find.go:257-268 | a string contains another if and only if it is that one between two others |
| `Find.FindMatch` | cmd/kubectl-aibom/find.go:210-276 | a row left out silently fails the filter for every document it could have; a shown readable row satisfies it |
| `Find.RunFind` | cmd/kubectl-aibom/find.go:335-391 | every row is shown, named in the warning, or left out with that meaning; the three lists are exact and in order |
| `Find.LeftOutExactly` | cmd/kubectl-aibom/find.go:210-276 | for a digest filter accepted up front, a row is left out silently if and only if no document it could have states facts that satisfy the filter |

## Left out

- controller-runtime wiring, informers, predicates and per-kind `Reconcile` adapters: plumbing; reads are atomic snapshots that may fail.
- Context cancellation during an apply and a supervisor without a client: apply runs to completion with a client present.
- The sweep's own listing and deletes: a sweep is one attempted event.
- The aggregate discovery health entry, the grace period for absence-shaped runner errors and the namespace fan-out.
- Health reports that arrive after a runner was stopped.
- Stale cache reads between a pass's fetch and its write: one pass sees one persisted AIBOM.
- Event texts, condition messages, metrics, logs and timestamps other than condition times.
- The delay before scheduled sinks are closed, measured against passes still using them.
- Sink shape rules, verification settings and selector parsing: a load's field and shape errors are given.
- Trust-root fetching, bundle fetching and cryptography: arbitrary findings; the adapter's held verifier is a value in the state machine, not an object.
- Truncated hashes and configuration keys: taken to be injective.
- Image-reference and digest parsing, case folding, redaction and regular expressions: uninterpreted functions.
- The library's stable sort is modelled by an insertion sort: by `StableSort.SortedByKeySubsequences` every stable sort gives the same sequence.
- Document metadata and services of the builder, and which redaction classes apply: redacted text and the redaction note are arbitrary functions.
- The field extractors of the individual scrapers: single-branch mappings.
