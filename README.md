# WebApp operator reconcile pass, modelled in Dafny

This project models the core of the platform-operator blueprint: the `WebApp` custom resource (API group `app.54b3r.io`, version `v1alpha1`) and one pass of the controller that reconciles it.

A reconciliation pass is modelled as an imperative method over an in-memory object store.

- **The store.** `ClusterStore.Store` is a class holding WebApps, Deployments and Services, keyed by namespace and name. It also keeps a log of every write that landed.
- **Fetch.** The pass fetches the WebApp. A missing WebApp is no work at all.
- **Deletion.** If deletion was requested, the operator's finalizer gates it: cleanup runs first, then the finalizer is removed and persisted.
- **Registration.** On the first pass the finalizer is added, and an immediate requeue is requested.
- **Steady state.** Otherwise the pass does four things in order:
  - it marks the WebApp `Progressing`;
  - it creates or selectively updates the Deployment, then the Service, each owned by the WebApp;
  - it projects the Deployment's available replicas and the `Available`, `Progressing` and `Degraded` conditions into the status;
  - it asks to be requeued after one minute.

Store calls can fail. Every store call site of the pass is a `Controller.Step`, and a failure oracle (`Controller.Faults`, a set of steps) says which calls fail in a given pass. A failed call changes nothing.

Each imperative method of `Controller` is verified against a pure function of the store state it starts from. For example, `Controller.Reconcile` ensures that its new store state and its outcome equal `ReconcileSpec(old state, key, faults)`. The properties of a pass are then proved about these functions, in module `ReconcileProperties`.

Files:

- `kube.dfy` (`Kube`): the Kubernetes object model slice the operator uses: identities, owner references, conditions, Deployments and Services.
- `status_conditions.dfy` (`StatusConditions`): conditions as a list-map keyed by type, and the upsert by type.
- `webapp_types.dfy` (`WebAppTypes`): spec, status, the condition-type constants, and the schema bounds and defaults as a validity predicate and an admission function.
- `children.dfy` (`Children`): labels, the desired Deployment and Service, and the selective merges.
- `store.dfy` (`ClusterStore`): the store class, its pure transitions, and the store invariant.
- `controller.dfy` (`Controller`): the specification functions of the pass and the imperative pass itself.
- `reconcile_properties.dfy` (`ReconcileProperties`): the properties of a pass.

## Model

| member | source | states |
|---|---|---|
| StatusConditions.Upsert | internal/controller/webapp_controller.go:303-309 | An upsert replaces the first condition of the new condition's type in place, or appends it when that type is absent. The length grows only in the second case, and every other entry keeps its value and position. |
| StatusConditions.Find | internal/controller/webapp_controller.go:303-309 | The lookup by type finds a condition exactly when one of that type is present, and what it finds is of that type and in the list. |
| StatusConditions.FindAfterUpsert | internal/controller/webapp_controller.go:303-309 | After an upsert, the lookup of the new condition's type yields the new condition. The lookup of every other type is unchanged. |
| StatusConditions.UpsertKeepsUniqueTypes | api/v1alpha1/webapp_types.go:110-115 | An upsert keeps at most one condition per type. The types present grow by exactly the upserted type. |
| StatusConditions.UpsertKeepsObservedAtMost | internal/controller/webapp_controller.go:303-309 | Upserting a condition stamped with generation g or earlier keeps every condition stamped with g or earlier. |
| StatusConditions.UpsertFound | internal/controller/webapp_controller.go:303-309 | Upserting the very condition already recorded for its type changes nothing. |
| StatusConditions.UpsertPresent | internal/controller/webapp_controller.go:303-309 | In a list with unique types, upserting a condition already present changes nothing. |
| StatusConditions.UpsertOverrides | internal/controller/webapp_controller.go:303-309 | Two upserts of the same type equal the later upsert alone. |
| StatusConditions.UpsertKeepsOthers | internal/controller/webapp_controller.go:303-309 | A condition of another type survives an upsert. |
| WebAppTypes.ConditionTypesDistinct | api/v1alpha1/webapp_types.go:119-128 | "Available", "Progressing" and "Degraded" are pairwise distinct. |
| WebAppTypes.ApplyDefaults | api/v1alpha1/webapp_types.go:33-46 | A missing replica count defaults to 1 and a missing port to 8080. Given fields and the image are kept. |
| WebAppTypes.Admit | api/v1alpha1/webapp_types.go:27-46 | A manifest is admitted iff the image is given, the replica count is unset or a non-negative int32, and the port is unset or in 1..65535. An admitted spec is valid and is exactly the manifest with defaults applied: the given image, the given replica count or 1, and the given port or 8080. A rejection lists at least one error. |
| WebAppTypes.Violations | api/v1alpha1/webapp_types.go:27-46 | Each schema error is reported exactly when its rule is broken: no image; a replica count below 0; a replica count outside int32; no port or a port outside 1..65535. |
| WebAppTypes.ValidSpecIsAdmissible | api/v1alpha1/webapp_types.go:33-46 | A spec meets the schema bounds (`ValidSpec`) exactly when the API server admits it as a manifest. |
| WebAppTypes.DefaultsIdempotent | api/v1alpha1/webapp_types.go:33-46 | Defaulting twice is defaulting once. |
| WebAppTypes.AdmitRoundTrip | api/v1alpha1/webapp_types.go:27-46 | Submitting a valid spec admits it unchanged, except that a missing replica count becomes 1. |
| WebAppTypes.AdmitReportsErrors | api/v1alpha1/webapp_types.go:27-46 | A missing image is rejected with ImageRequired, an out-of-range port with PortOutOfRange, and a negative replica count with ReplicasBelowMinimum. |
| Children.LabelsFor | internal/controller/webapp_controller.go:318-324 | There are exactly three labels: name "webapp", instance = the WebApp's name, and managed-by "platform-operator". |
| Children.LabelsInjective | internal/controller/webapp_controller.go:318-324 | Different WebApp names give different label sets. |
| Children.DesiredReplicas | internal/controller/webapp_controller.go:184-187 | The replica count asked for is the spec's when set and 1 otherwise; for a valid spec it is a non-negative int32. |
| Children.ControllerRef | internal/controller/webapp_controller.go:221-224 | The owner reference names the WebApp by kind, name and uid, and is the controller reference, blocking owner deletion. |
| Children.DesiredDeployment | internal/controller/webapp_controller.go:189-219 | The desired Deployment is named and namespaced as the WebApp. It has the desired replica count, and a selector equal to the pod-template labels, which are LabelsFor(name). It has one container "webapp" with the spec image and one TCP port, the spec port. |
| Children.OwnedDeployment | internal/controller/webapp_controller.go:221-231 | The created Deployment is the desired one, with the WebApp as its only owner reference. |
| Children.MergeDeployment | internal/controller/webapp_controller.go:236-239 | The merge overwrites only spec.replicas, and the image and ports of container 0. Metadata, status, selector, labels, the other fields of container 0 and every other container are kept. |
| Children.MergeDeploymentConverges | internal/controller/webapp_controller.go:236-241 | After the merge the owned fields agree with the desired Deployment. The merge is the identity exactly when they already agreed. |
| Children.MergeDeploymentIdempotent | internal/controller/webapp_controller.go:236-241 | Merging twice is merging once. |
| Children.DesiredService | internal/controller/webapp_controller.go:249-265 | The desired Service is a ClusterIP Service named as the WebApp. It selects LabelsFor(name) and has one TCP port whose port and targetPort both equal the spec port. |
| Children.OwnedService | internal/controller/webapp_controller.go:249-270 | The created Service is the desired one, with the WebApp as its only owner reference. |
| Children.MergeService | internal/controller/webapp_controller.go:282-284 | The merge takes only ports and selector from the desired Service. Metadata, type, clusterIP and session affinity are kept. |
| Children.MergeServiceConverges | internal/controller/webapp_controller.go:282-286 | The merge is the identity exactly when ports and selector already agree. It is idempotent. |
| ClusterStore.Lookup | internal/controller/webapp_controller.go:87-90 | A read finds the object exactly when it does not fail and the key is stored. It is NotFound exactly when it does not fail and the key is absent. |
| ClusterStore.StatusUpdatesCompose | internal/controller/webapp_controller.go:310-313 | Two status writes to one WebApp leave the second status and log both writes in order. |
| ClusterStore.ThreeStatusUpdates | internal/controller/webapp_controller.go:156-166 | Three status writes to one WebApp leave the third status and log all three in order. |
| ClusterStore.Store.GetWebApp | internal/controller/webapp_controller.go:87-90 | The read of a WebApp returns Lookup over the stored WebApps. |
| ClusterStore.Store.GetDeployment | internal/controller/webapp_controller.go:226-227 | The read of a Deployment returns Lookup over the stored Deployments. |
| ClusterStore.Store.GetService | internal/controller/webapp_controller.go:272-273 | The read of a Service returns Lookup over the stored Services. |
| ClusterStore.Store.Update | internal/controller/webapp_controller.go:101-103 | The update succeeds iff the oracle lets it and the WebApp is stored. It writes finalizers and spec and keeps the status. A deleting WebApp with no finalizer left is removed. Otherwise nothing changes. |
| ClusterStore.Store.UpdateStatus | internal/controller/webapp_controller.go:310-313 | The status update succeeds iff the oracle lets it and the WebApp is stored. It writes only the status and logs it. Otherwise nothing changes. |
| ClusterStore.Store.CreateDeployment | internal/controller/webapp_controller.go:228-231 | The creation succeeds iff the oracle lets it and the key is free. It stores and logs the Deployment. Otherwise nothing changes. |
| ClusterStore.Store.UpdateDeployment | internal/controller/webapp_controller.go:241 | The update succeeds iff the oracle lets it and the Deployment is stored. It writes the Deployment but keeps the stored status. |
| ClusterStore.Store.CreateService | internal/controller/webapp_controller.go:274-276 | The creation succeeds iff the oracle lets it and the key is free. It stores and logs the Service. |
| ClusterStore.Store.UpdateService | internal/controller/webapp_controller.go:286 | The update succeeds iff the oracle lets it and the Service is stored. It stores and logs the Service. |
| Controller.CleanupChildResources | internal/controller/webapp_controller.go:292-297 | Cleanup always succeeds. |
| Controller.WithCondition | internal/controller/webapp_controller.go:303-309 | Recording a condition changes only the conditions of the in-memory WebApp. It never shrinks them. |
| Controller.WithConditionFinds | internal/controller/webapp_controller.go:303-309 | The condition of the recorded type becomes the update stamped with the WebApp's generation. The condition of every other type is unchanged. |
| Controller.WithConditionKeepsUniqueTypes | internal/controller/webapp_controller.go:303-309 | Recording keeps the list-map invariant and adds exactly the recorded type. |
| Controller.AvailableUpdate | internal/controller/webapp_controller.go:146-156 | Available is True with reason DeploymentAvailable iff availableReplicas > 0. Otherwise it is False with reason DeploymentUnavailable. |
| Controller.Decimal | internal/controller/webapp_controller.go:154 | The `%d` rendering of a count is a non-empty string of decimal digits, with a leading 0 only for 0 itself. |
| Controller.DecimalRoundTrip | internal/controller/webapp_controller.go:154 | Reading the rendering of n back as a decimal number gives n. |
| Controller.SyncErrorMessage | internal/controller/webapp_controller.go:222-234 | A child sync error's message ends with the name of the child, "deployment" or "service". |
| Controller.SyncErrorMessageInjective | internal/controller/webapp_controller.go:268-280 | Different child sync errors, for either child, have different messages. |
| Controller.DegradedUpdate | internal/controller/webapp_controller.go:126-136 | A child failure records Degraded=True, with reason DeploymentFailed for the Deployment and ServiceFailed for the Service. |
| Controller.SetConditionSpec | internal/controller/webapp_controller.go:301-314 | The in-memory WebApp always gets the condition. The write lands iff the oracle lets it and the WebApp is stored, and it then changes only that WebApp's status and appends one status write. A failed write changes nothing. Children are never touched. |
| Controller.SyncDeploymentSpec | internal/controller/webapp_controller.go:181-242 | Deployment sync keeps the store valid and never touches WebApps or Services. An error leaves the store as it was. A success appends exactly one Deployment create or update. |
| Controller.SyncServiceSpec | internal/controller/webapp_controller.go:246-287 | Service sync never touches WebApps or Deployments. An error leaves the store as it was. A success appends exactly one Service create or update. |
| Controller.FinalizeSpec | internal/controller/webapp_controller.go:94-107 | The deletion branch touches no child. It writes nothing, or exactly one WebApp update without the finalizer. |
| Controller.RegisterFinalizerSpec | internal/controller/webapp_controller.go:110-117 | Registration touches no child. It writes nothing, or exactly one WebApp update with the finalizer added. |
| Controller.ProjectStatusSpec | internal/controller/webapp_controller.go:139-174 | The status projection touches no child and keeps the set of stored WebApps. It appends only status writes. It fails only when the Deployment read fails or a status write fails, and then asks for no requeue. Success needs the Deployment to be read and requeues after one minute. |
| Controller.ConvergeSpec | internal/controller/webapp_controller.go:119-174 | The steady-state branch keeps the set of stored WebApps. An error comes with no requeue. Success requeues after one minute and needs the WebApp to be stored. |
| Controller.ReconcileSpec | internal/controller/webapp_controller.go:83-175 | A pass never adds a WebApp. An error comes with no requeue. Only registering the finalizer on a live WebApp asks for an immediate requeue, with no error. A delayed requeue is always the one-minute one, with no error, and only after the steady-state branch on a live WebApp with the finalizer. |
| Controller.SetCondition | internal/controller/webapp_controller.go:301-314 | The method's end state, in-memory WebApp and success flag are those of SetConditionSpec. |
| Controller.ReconcileDeployment | internal/controller/webapp_controller.go:181-242 | The method's end state and error are those of SyncDeploymentSpec. |
| Controller.ReconcileService | internal/controller/webapp_controller.go:246-287 | The method's end state and error are those of SyncServiceSpec. |
| Controller.ProjectStatus | internal/controller/webapp_controller.go:139-174 | The method's end state and outcome are those of ProjectStatusSpec. |
| Controller.Reconcile | internal/controller/webapp_controller.go:83-175 | The method's end state and outcome are those of ReconcileSpec. |
| ReconcileProperties.NotFoundIsNoOp | internal/controller/webapp_controller.go:87-90 | A WebApp that is not stored gives success with no requeue, and the store is unchanged. |
| ReconcileProperties.FetchFailureWritesNothing | internal/controller/webapp_controller.go:87-90 | A failed fetch returns the error and leaves the store unchanged. |
| ReconcileProperties.DeletionReleasesFinalizer | internal/controller/webapp_controller.go:94-107 | With deletion requested and the finalizer present, the result is no requeue. A failed write is an error that changes nothing. Otherwise:<br>• exactly one WebApp update is written, without the finalizer;<br>• no child is touched;<br>• a WebApp with no finalizer left is gone, and any other keeps its remaining finalizers. |
| ReconcileProperties.CleanupGatesRelease | internal/controller/webapp_controller.go:97-103 | A cleanup error is returned and changes nothing. The store changes only when cleanup succeeded and the finalizer removal landed. There is no requeue. |
| ReconcileProperties.DeletionWithoutFinalizerWritesNothing | internal/controller/webapp_controller.go:94-107 | With deletion requested and no finalizer, the pass returns success with no requeue and changes nothing. |
| ReconcileProperties.PurgedWebAppIsNoOp | internal/controller/webapp_controller.go:94-107 | Once the operator's finalizer was the last, releasing it removes the WebApp. The next pass then finds nothing and changes nothing. |
| ReconcileProperties.FirstPassRegistersFinalizer | internal/controller/webapp_controller.go:110-117 | A live WebApp without the finalizer gets exactly one update that adds it, and the pass returns Requeue: true. No child and no status is written. A failed write is an error that changes nothing. |
| ReconcileProperties.SetConditionSteady | internal/controller/webapp_controller.go:301-314 | setCondition changes only the status of its WebApp. It never writes a main resource. |
| ReconcileProperties.ProjectSteady | internal/controller/webapp_controller.go:139-174 | The status projection changes only the status of its WebApp. |
| ReconcileProperties.DeploymentSyncSteady | internal/controller/webapp_controller.go:181-242 | Deployment sync changes no WebApp and writes no main resource. |
| ReconcileProperties.ServiceSyncSteady | internal/controller/webapp_controller.go:246-287 | Service sync changes no WebApp and writes no main resource. |
| ReconcileProperties.ConvergeSteady | internal/controller/webapp_controller.go:119-174 | The steady-state branch, whatever fails, changes only the status of its WebApp, writes no main resource, and keeps the store valid. |
| ReconcileProperties.FinalizerPrecedesChildWrites | internal/controller/webapp_controller.go:109-126 | A pass only appends to the log. A pass that writes any Deployment or Service started from a stored, non-deleting WebApp that already had the finalizer. |
| ReconcileProperties.FinalizeWritesNoSpec | internal/controller/webapp_controller.go:94-107 | The deletion branch changes the WebApp only by the finalizer. It rewrites the spec it read. |
| ReconcileProperties.RegisterWritesNoSpec | internal/controller/webapp_controller.go:110-117 | Registration changes the WebApp only by the finalizer. It rewrites the spec it read. |
| ReconcileProperties.SteadyWritesNoSpec | api/v1alpha1/webapp_types.go:102-104 | Steady-state work writes no spec. |
| ReconcileProperties.ReconcileNeverWritesSpec | api/v1alpha1/webapp_types.go:102-104 | A pass never changes another WebApp. The one under its key keeps identity, spec, generation and deletion request. It changes only in status, and in its finalizers by at most the operator's own. It disappears only once deletion was requested and the operator's finalizer was its last. Every main-resource write carries the spec that was read. |
| ReconcileProperties.ReconcilePreservesValid | internal/controller/webapp_controller.go:83-175 | A pass keeps every object stored under its own identity, and every Deployment with a container. |
| ReconcileProperties.WithConditionConsistent | internal/controller/webapp_controller.go:303-309 | Recording a condition keeps unique condition types, and no condition stamped later than the WebApp's generation. |
| ReconcileProperties.SetConditionConsistent | internal/controller/webapp_controller.go:301-314 | setCondition from a WebApp of the stored generation keeps every stored status consistent. |
| ReconcileProperties.ProjectConsistent | internal/controller/webapp_controller.go:145-166 | The status projection keeps every stored status consistent. |
| ReconcileProperties.ConvergeConsistent | internal/controller/webapp_controller.go:119-174 | The steady-state branch keeps every stored status consistent. |
| ReconcileProperties.ReconcileKeepsStatusesConsistent | api/v1alpha1/webapp_types.go:110-115 | A pass keeps, for every stored WebApp, unique condition types and no condition stamped later than its generation. |
| ReconcileProperties.WithConditionStamps | internal/controller/webapp_controller.go:303-309 | Recording a condition on a WebApp of generation g leaves every condition type as it was or stamped with g. |
| ReconcileProperties.SetConditionStamps | internal/controller/webapp_controller.go:301-314 | setCondition leaves every condition type, in memory and in the store, as it was or stamped with the in-memory WebApp's generation. |
| ReconcileProperties.ProjectStamps | internal/controller/webapp_controller.go:145-166 | The status projection leaves every stored condition type as it was or stamped with the in-memory WebApp's generation. |
| ReconcileProperties.ConvergeStamps | internal/controller/webapp_controller.go:119-174 | The steady-state branch leaves every stored condition type of its WebApp as it was or stamped with the WebApp's generation. |
| ReconcileProperties.ReconcileStamps | internal/controller/webapp_controller.go:83-175 | A pass leaves every condition type of the WebApp under its key as it was or stamped with that WebApp's generation. |
| ReconcileProperties.ObservedGenerationNeverDecreases | internal/controller/webapp_controller.go:303-309 | Starting from a consistent status, a condition type the WebApp had survives the pass, and its observedGeneration does not go down. |
| ReconcileProperties.DeploymentSyncCreatesOrMerges | internal/controller/webapp_controller.go:221-241 | Deployment sync fails iff one of its own calls fails, and a failed owner reference is reported as such. An absent Deployment is created as OwnedDeployment. An existing one is replaced by the merge and logged. Afterwards the owned fields agree with the desired Deployment. |
| ReconcileProperties.ServiceSyncCreatesOrMerges | internal/controller/webapp_controller.go:267-286 | Service sync fails iff one of its own calls fails. An absent Service is created as OwnedService. An existing one is replaced by the merge. Afterwards ports and selector are the desired ones. |
| ReconcileProperties.Reconciling | internal/controller/webapp_controller.go:120-121 | The Progressing mark, once stamped, is of type Progressing, status True and reason Reconciling, and is stamped with the WebApp's generation. |
| ReconcileProperties.MarkFailureWritesNothing | internal/controller/webapp_controller.go:119-123 | A failed Progressing mark returns that error, writes nothing, and touches no child. |
| ReconcileProperties.DeploymentFailureTrace | internal/controller/webapp_controller.go:119-130 | When Deployment sync fails, the pass has marked Progressing. The failed sync wrote nothing. The pass ends after recording Degraded for that error and returning it. |
| ReconcileProperties.ServiceFailureTrace | internal/controller/webapp_controller.go:119-137 | When Service sync fails, the pass has marked Progressing and synced the Deployment. The failed sync wrote nothing. The pass ends after recording Degraded for that error and returning it. |
| ReconcileProperties.DeploymentFailureReturnsError | internal/controller/webapp_controller.go:126-130 | A Deployment failure returns a Deployment sync error with no requeue, and leaves every Deployment and Service unchanged. |
| ReconcileProperties.DeploymentFailureLog | internal/controller/webapp_controller.go:119-130 | A Deployment failure writes exactly the Progressing mark, then the Degraded status unless that write fails. It writes nothing else, and no status projection happens. |
| ReconcileProperties.ServiceFailureReturnsError | internal/controller/webapp_controller.go:133-137 | A Service failure returns a Service sync error with no requeue and leaves Services unchanged. The Deployment is synced and agrees with the desired one. |
| ReconcileProperties.ServiceFailureLog | internal/controller/webapp_controller.go:119-137 | A Service failure writes exactly the Progressing mark, then the Deployment, then the Degraded status unless that write fails. |
| ReconcileProperties.DeploymentFailureStatus | internal/controller/webapp_controller.go:126-130 | After a Deployment failure:<br>• only the WebApp's status has changed;<br>• Available and availableReplicas are as before and Progressing is Reconciling;<br>• Degraded is True/DeploymentFailed with the error's message and the generation, unless its write failed. |
| ReconcileProperties.ServiceFailureStatus | internal/controller/webapp_controller.go:133-137 | The same as DeploymentFailureStatus, with Degraded True/ServiceFailed. |
| ReconcileProperties.MarkThenDegrade | internal/controller/webapp_controller.go:119-136 | The Progressing mark followed by a Degraded record leaves the WebApp with either the marked or the marked-and-degraded status, and changes no other WebApp. |
| ReconcileProperties.MarkedThenDegradedFinds | internal/controller/webapp_controller.go:119-136 | After the mark and an optional Degraded record, Available is unchanged, Progressing is Reconciling, and Degraded is the recorded one or the old one. |
| ReconcileProperties.SyncedDeployment | internal/controller/webapp_controller.go:226-241 | The Deployment that sync leaves has a container, and its owned fields agree with the desired one. A merged Deployment keeps its status, and a created one has none available. |
| ReconcileProperties.SyncedService | internal/controller/webapp_controller.go:272-286 | The Service that sync leaves has the desired ports and selector. A merged Service keeps its metadata, and a created one is owned by the WebApp. |
| ReconcileProperties.DeploymentSyncLands | internal/controller/webapp_controller.go:226-241 | Deployment sync without a fault of its own stores SyncedDeployment and logs its write. |
| ReconcileProperties.ServiceSyncLands | internal/controller/webapp_controller.go:272-286 | Service sync without a fault of its own stores SyncedService and logs its write. |
| ReconcileProperties.DeploymentSyncIgnoresStatus | internal/controller/webapp_controller.go:181-242 | Deployment sync depends only on the WebApp's identity and spec and on the stored Deployments. |
| ReconcileProperties.ServiceSyncIgnoresStatus | internal/controller/webapp_controller.go:246-287 | Service sync depends only on the WebApp's identity and spec and on the stored Services. |
| ReconcileProperties.MarkedAndDeployed | internal/controller/webapp_controller.go:119-130 | The store after the mark and the Deployment sync is valid, and its Services are untouched. |
| ReconcileProperties.MarkedAndDeployedContents | internal/controller/webapp_controller.go:119-130 | After the mark and the Deployment sync without faults, the WebApp has the marked status and the synced Deployment is stored. The log gained exactly those two writes. |
| ReconcileProperties.SyncedStoreContents | internal/controller/webapp_controller.go:119-137 | After the mark and both syncs without faults, the marked status and both synced children are stored. The log gained exactly the three writes, in order. |
| ReconcileProperties.ConvergeWithoutFaults | internal/controller/webapp_controller.go:119-174 | The steady-state branch without faults is the status projection over the marked and synced store. |
| ReconcileProperties.SuccessTrace | internal/controller/webapp_controller.go:83-175 | A pass without faults on a live WebApp is the status projection over the marked and synced store. |
| ReconcileProperties.Projection | internal/controller/webapp_controller.go:145-166 | The projection changes only the status. |
| ReconcileProperties.ProjectionWrites | internal/controller/webapp_controller.go:156-166 | The projection writes three statuses, the last being the projected one. |
| ReconcileProperties.ProjectedStatus | internal/controller/webapp_controller.go:145-166 | The projected status has availableReplicas n, and Available by the decision table. Progressing is False/"ReconcileComplete" and Degraded is False/"ReconcileComplete", all stamped with the generation. Other types are unchanged, unique types are kept, and only the status changes. |
| ReconcileProperties.ProjectWithoutFaults | internal/controller/webapp_controller.go:139-174 | The projection without faults returns RequeueAfter of one minute, stores the projected status, and logs the three writes. |
| ReconcileProperties.SuccessfulPassChildren | internal/controller/webapp_controller.go:125-174 | A pass without faults on a live WebApp:<br>• succeeds with RequeueAfter of one minute (60·10⁹ ns);<br>• stores the synced Deployment and Service under the WebApp's key;<br>• changes no other child. |
| ReconcileProperties.SuccessfulPassStatus | internal/controller/webapp_controller.go:145-166 | A pass without faults stores exactly the projected status and changes nothing else about any WebApp. availableReplicas is copied from the existing Deployment, or is 0 for a new one. |
| ReconcileProperties.SuccessfulPassLog | internal/controller/webapp_controller.go:119-166 | A pass without faults writes six entries in order:<br>• the Progressing mark;<br>• the Deployment, then the Service;<br>• three status writes, the last with the projected status. |
| ReconcileProperties.ProjectedTwice | internal/controller/webapp_controller.go:145-166 | Projecting the same available count again over a projected WebApp gives it back, in everything but `LastTransitionTime`, which is not modelled. |
| ReconcileProperties.DeploymentResyncIsNoOp | internal/controller/webapp_controller.go:236-241 | Syncing the Deployment again over the synced one produces the same Deployment. |
| ReconcileProperties.ServiceResyncIsNoOp | internal/controller/webapp_controller.go:282-286 | Syncing the Service again over the synced one produces the same Service. |
| ReconcileProperties.SuccessfulPassStaysLive | internal/controller/webapp_controller.go:83-175 | A pass without faults keeps the store valid and the WebApp live, with the projected status. |
| ReconcileProperties.ResyncKeepsChildren | internal/controller/webapp_controller.go:181-287 | Syncing both children again for a WebApp with the same identity and spec changes neither. |
| ReconcileProperties.SyncedCountKept | internal/controller/webapp_controller.go:139-146 | After a resync the Deployment status, and so the available count, is unchanged. |
| ReconcileProperties.ReprojectKeepsWebApps | internal/controller/webapp_controller.go:145-166 | Projecting again from the same synced Deployment changes no WebApp. |
| ReconcileProperties.SecondPassKeepsChildren | internal/controller/webapp_controller.go:173-174 | The requeued pass without faults, over the store a pass without faults left, returns the same outcome and leaves the same Deployment and Service. |
| ReconcileProperties.SecondPassKeepsWebApps | internal/controller/webapp_controller.go:173-174 | That second pass also leaves every WebApp as the first pass left it, in everything but `LastTransitionTime`, which is not modelled. Only the log grows. |

## Left out

- The controller-runtime client, API-server I/O, watches, the work queue, leader election, and `SetupWithManager` (internal/controller/webapp_controller.go:329-336) are left out. These are external or concurrency concerns. The store class and the failure oracle stand in for the API server.
- Kubernetes garbage collection of owned children is not modelled. Owner references are recorded on the children but never acted on.
- Optimistic-concurrency conflicts, resource versions and concurrent writers are not modelled. A conflicting write is one more failed call of the oracle.
- The deletion timestamp is reduced to whether deletion was requested.
- Removing a deleting WebApp once its last finalizer is gone is API-server behaviour. So is bumping the generation on a spec change. The store models both only as far as the properties need.
- `LastTransitionTime` is not modelled. In `meta.SetStatusCondition` it changes only when a condition's status changes. This foreign library code is modelled only as upsert by type.
- ReconcileProperties.ProjectedTwice holds only because timestamps are not modelled. In the program every steady-state pass turns Progressing from False to True (internal/controller/webapp_controller.go:120) and back to False (:159). `setCondition` leaves `LastTransitionTime` zero, so `meta.SetStatusCondition` sets it to the current time at each of those changes.
- ReconcileProperties.SecondPassKeepsWebApps holds only because timestamps are not modelled. For the reason above, the stored WebApp differs after every pass in its Progressing condition's `LastTransitionTime`. It is the same in everything the model keeps.
- Error message text is not modelled. Errors are an enum of kinds, and the Degraded condition's message is a fixed text per error kind, not the wrapped Go error string. For a failed owner reference or read that text is the program's own wrapping prefix (internal/controller/webapp_controller.go:223, :233, :269, :279); a failed create or update returns the API error unwrapped, which the model replaces by a fixed text.
- Logging, RBAC markers, print columns and scheme registration are left out. They have no effect on the pass.
- `StorageSpec` and `InitContainerSpec` are left out. The controller never reads them.
- The controller indexes `Containers[0]` of an existing Deployment (internal/controller/webapp_controller.go:238-239), which panics on an empty list. The panic is not modelled. The store invariant `ClusterStore.Valid` instead requires every stored Deployment to have a container, and every pass requires and keeps it.
- Go `int32` overflow is not modelled. Spec and status integers are unbounded. Their int32 range is part of `WebAppTypes.ValidSpec` and `Children.DesiredReplicas`.
- The internals of `controllerutil.SetControllerReference` and the finalizer helpers are left out. These are foreign helpers. They are modelled as set operations, an owner-reference field, and one more oracle outcome.
- ReconcileProperties.SuccessfulPassChildren, ReconcileProperties.SuccessfulPassStatus and ReconcileProperties.SuccessfulPassLog are stated for a pass where no call fails (`faults == {}`). A pass whose only faults are on calls it never reaches behaves the same, but that is not stated.
- ReconcileProperties.SecondPassKeepsChildren and ReconcileProperties.SecondPassKeepsWebApps are stated only for two consecutive faultless passes, with nothing written in between.
- ReconcileProperties.DeploymentFailureLog and ReconcileProperties.ServiceFailureLog assume the Progressing mark landed. The case of a failed mark is stated separately by ReconcileProperties.MarkFailureWritesNothing.
