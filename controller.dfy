/**
 * One reconciliation pass of the WebApp operator over the in-memory store.
 *
 * Every store call site of the pass is a Step; the failure oracle is the set
 * of steps whose call fails. Each imperative operation is specified by a pure
 * function of the store state it starts from (ReconcileSpec and the step
 * functions below), and the properties of a pass are proved about those
 * functions in module ReconcileProperties.
 */
module Controller {
  import opened Kube
  import opened StatusConditions
  import opened WebAppTypes
  import opened Children
  import opened ClusterStore

  /** The finalizer the operator puts on every WebApp. */
  const Finalizer: string := "app.54b3r.io/finalizer"

  /** Durations are Go time.Duration values, in nanoseconds. */
  const Minute: int := 60 * 1_000_000_000

  /** The drift-correcting periodic requeue interval. */
  const RequeueAfter: int := Minute

  datatype ChildKind = DeploymentChild | ServiceChild

  /** The store calls of a pass that can fail. */
  datatype Step =
    | FetchWebApp
    | RemoveFinalizerUpdate
    | AddFinalizerUpdate
    | StatusWrite(condType: string, reason: string)
    | SetOwnerReference(child: ChildKind)
    | GetChild(child: ChildKind)
    | CreateChild(child: ChildKind)
    | UpdateChild(child: ChildKind)
    | FetchDeploymentForStatus

  /** The failure oracle: the calls that fail in this pass. */
  type Faults = set<Step>

  datatype SyncError = OwnerReferenceFailed | GetFailed | CreateFailed | UpdateFailed

  datatype ErrorKind =
    | GetWebAppFailed
    | CleanupFailed
    | RemoveFinalizerFailed
    | AddFinalizerFailed
    | StatusUpdateFailed(condType: string)
    | ChildSyncFailed(child: ChildKind, cause: SyncError)
    | FetchDeploymentForStatusFailed

  /** What the scheduler is asked for: an immediate requeue or a delayed one (0 is none). */
  datatype Result = Result(requeue: bool, requeueAfter: int)

  const NoRequeue: Result := Result(false, 0)

  datatype Outcome = Outcome(result: Result, err: Option<ErrorKind>)

  function Done(r: Result): Outcome { Outcome(r, None) }

  /** An error return; the scheduler ignores the result that goes with it. */
  function Fail(e: ErrorKind): Outcome { Outcome(NoRequeue, Some(e)) }

  datatype CleanupResult = CleanupSucceeded | CleanupError

  /**
   * Cleanup before the finalizer is released. The children are garbage
   * collected through their owner references, so there is nothing to do and
   * it always succeeds.
   */
  function CleanupChildResources(w: WebApp): (r: CleanupResult)
    ensures r == CleanupSucceeded
  {
    CleanupSucceeded
  }

  /** A condition to record: everything but the generation it is stamped with. */
  datatype ConditionUpdate = ConditionUpdate(
    condType: string, status: ConditionStatus, reason: string, message: string)

  /** The condition u stamped with generation g, as setCondition builds it. */
  function Stamp(u: ConditionUpdate, g: int): Condition {
    Condition(u.condType, u.status, u.reason, u.message, g)
  }

  /** The condition u stamped with w's generation, upserted into w's in-memory status. */
  function WithCondition(w: WebApp, u: ConditionUpdate): (r: WebApp)
    ensures r == w.(status := r.status)
    ensures r.status.availableReplicas == w.status.availableReplicas
    ensures |r.status.conditions| >= |w.status.conditions|
  {
    var c := Stamp(u, w.generation);
    w.(status := w.status.(conditions := Upsert(w.status.conditions, c)))
  }

  /**
   * After recording u, the condition of type u.condType is u stamped with
   * w's generation, and the condition of every other type is what it was.
   */
  lemma WithConditionFinds(w: WebApp, u: ConditionUpdate)
    ensures forall t :: (Find(WithCondition(w, u).status.conditions, t) ==
      if t == u.condType then Some(Stamp(u, w.generation))
      else Find(w.status.conditions, t))
  {
    var c := Stamp(u, w.generation);
    forall t {
      FindAfterUpsert(w.status.conditions, c, t);
    }
  }

  /** Recording u keeps the list-map invariant and adds exactly u's type. */
  lemma WithConditionKeepsUniqueTypes(w: WebApp, u: ConditionUpdate)
    requires ValidStatus(w.status)
    ensures ValidStatus(WithCondition(w, u).status)
    ensures forall t :: HasType(WithCondition(w, u).status.conditions, t) <==>
      HasType(w.status.conditions, t) || t == u.condType
  {
    var c := Stamp(u, w.generation);
    UpsertKeepsUniqueTypes(w.status.conditions, c);
  }

  predicate IsDigit(c: char) { '0' <= c <= '9' }

  /** The decimal rendering of n, as Go's %d verb writes a non-negative integer. */
  function Decimal(n: nat): (r: string)
    ensures |r| >= 1
    ensures forall i :: 0 <= i < |r| ==> IsDigit(r[i])
    ensures r[0] == '0' <==> n == 0
    decreases n
  {
    var d := ('0' as int + n % 10) as char;
    if n < 10 then [d] else Decimal(n / 10) + [d]
  }

  /** The number a string of decimal digits denotes, most significant digit first. */
  function DecimalValue(s: string): nat
    decreases |s|
  {
    if s == [] then 0
    else
      var c := s[|s| - 1];
      var d := if IsDigit(c) then c as int - '0' as int else 0;
      DecimalValue(s[..|s| - 1]) * 10 + d
  }

  /** Reading back the rendering of n gives n. */
  lemma {:induction false} DecimalRoundTrip(n: nat)
    ensures DecimalValue(Decimal(n)) == n
    decreases n
  {
    var r := Decimal(n);
    if n >= 10 {
      DecimalRoundTrip(n / 10);
      assert r[..|r| - 1] == Decimal(n / 10);
    }
  }

  /**
   * The Available decision table: True with reason DeploymentAvailable when
   * some replica is available, False with reason DeploymentUnavailable otherwise.
   */
  function AvailableUpdate(availableReplicas: int): (u: ConditionUpdate)
    ensures u.condType == TypeAvailable
    ensures u.status == ConditionTrue <==> availableReplicas > 0
    ensures u.status == ConditionFalse <==> availableReplicas <= 0
    ensures u.reason == if availableReplicas > 0 then "DeploymentAvailable" else "DeploymentUnavailable"
  {
    if availableReplicas > 0 then
      ConditionUpdate(TypeAvailable, ConditionTrue, "DeploymentAvailable",
        Decimal(availableReplicas) + " replica(s) available")
    else
      ConditionUpdate(TypeAvailable, ConditionFalse, "DeploymentUnavailable", "no replicas are available yet")
  }

  const MarkProgressing: ConditionUpdate :=
    ConditionUpdate(TypeProgressing, ConditionTrue, "Reconciling", "reconciliation in progress")
  const ClearProgressing: ConditionUpdate :=
    ConditionUpdate(TypeProgressing, ConditionFalse, "ReconcileComplete", "reconciliation complete")
  const ClearDegraded: ConditionUpdate :=
    ConditionUpdate(TypeDegraded, ConditionFalse, "ReconcileComplete", "no errors")

  /** The word naming a child kind in error messages. */
  function ChildName(child: ChildKind): string {
    if child == DeploymentChild then "deployment" else "service"
  }

  /** The text standing for a child sync error in a Degraded condition's message; it ends with the child's name. */
  function SyncErrorMessage(child: ChildKind, e: SyncError): (m: string)
    ensures |ChildName(child)| <= |m| && m[|m| - |ChildName(child)|..] == ChildName(child)
  {
    var what := ChildName(child);
    match e
    case OwnerReferenceFailed => "setting owner reference on " + what
    case GetFailed => "getting " + what
    case CreateFailed => "creating " + what
    case UpdateFailed => "updating " + what
  }

  /** Distinct child sync errors are told apart by their messages. */
  lemma SyncErrorMessageInjective(c1: ChildKind, e1: SyncError, c2: ChildKind, e2: SyncError)
    requires SyncErrorMessage(c1, e1) == SyncErrorMessage(c2, e2)
    ensures c1 == c2 && e1 == e2
  {
  }

  /** The Degraded condition recorded when syncing a child fails. */
  function DegradedUpdate(child: ChildKind, e: SyncError): (u: ConditionUpdate)
    ensures u.condType == TypeDegraded && u.status == ConditionTrue
    ensures u.reason == if child == DeploymentChild then "DeploymentFailed" else "ServiceFailed"
  {
    ConditionUpdate(TypeDegraded, ConditionTrue,
      if child == DeploymentChild then "DeploymentFailed" else "ServiceFailed",
      SyncErrorMessage(child, e))
  }

  // ---------------------------------------------------------------------------
  // Specification functions
  // ---------------------------------------------------------------------------

  /** The end of a pass: the store it leaves and what it returns. */
  datatype After = After(st: StoreState, out: Outcome)

  /** The end of a setCondition call: the store, the in-memory WebApp, and whether the write landed. */
  datatype StatusStep = StatusStep(st: StoreState, webapp: WebApp, ok: bool)

  /** The end of a child sync: the store and the error, if any. */
  datatype SyncStep = SyncStep(st: StoreState, err: Option<SyncError>)

  function SetConditionSpec(st: StoreState, w: WebApp, u: ConditionUpdate, faults: Faults): (r: StatusStep)
    ensures r.st.deployments == st.deployments && r.st.services == st.services
    ensures r.st.webapps.Keys == st.webapps.Keys
    ensures Valid(st) ==> Valid(r.st)
    ensures r.webapp == WithCondition(w, u)
    ensures r.ok <==> StatusWrite(u.condType, u.reason) !in faults && w.Key() in st.webapps
    ensures r.ok ==> r.st.webapps == st.webapps[w.Key() := st.webapps[w.Key()].(status := r.webapp.status)]
    ensures r.ok ==> r.st.log == st.log + [StatusUpdated(w.Key(), r.webapp.status)]
    ensures !r.ok ==> r.st == st
    ensures OnlyStatusWrites(st, r.st)
  {
    var w' := WithCondition(w, u);
    if StatusWrite(u.condType, u.reason) !in faults && w'.Key() in st.webapps then
      StatusStep(ApplyStatusUpdate(st, w'), w', true)
    else
      StatusStep(st, w', false)
  }

  function SyncDeploymentSpec(st: StoreState, w: WebApp, faults: Faults): (r: SyncStep)
    requires Valid(st)
    ensures Valid(r.st)
    ensures r.st.webapps == st.webapps && r.st.services == st.services
    ensures r.err.Some? ==> r.st == st
    ensures r.err.None? ==> |r.st.log| == |st.log| + 1 && r.st.log[..|st.log|] == st.log
    ensures r.err.None? ==> r.st.log[|st.log|].DeploymentCreated? || r.st.log[|st.log|].DeploymentUpdated?
  {
    if SetOwnerReference(DeploymentChild) in faults then SyncStep(st, Some(OwnerReferenceFailed))
    else if GetChild(DeploymentChild) in faults then SyncStep(st, Some(GetFailed))
    else if w.Key() !in st.deployments then
      if CreateChild(DeploymentChild) in faults then SyncStep(st, Some(CreateFailed))
      else SyncStep(ApplyCreateDeployment(st, OwnedDeployment(w)), None)
    else if UpdateChild(DeploymentChild) in faults then SyncStep(st, Some(UpdateFailed))
    else SyncStep(ApplyUpdateDeployment(st, MergeDeployment(st.deployments[w.Key()], OwnedDeployment(w))), None)
  }

  function SyncServiceSpec(st: StoreState, w: WebApp, faults: Faults): (r: SyncStep)
    requires Valid(st)
    ensures Valid(r.st)
    ensures r.st.webapps == st.webapps && r.st.deployments == st.deployments
    ensures r.err.Some? ==> r.st == st
    ensures r.err.None? ==> |r.st.log| == |st.log| + 1 && r.st.log[..|st.log|] == st.log
    ensures r.err.None? ==> r.st.log[|st.log|].ServiceCreated? || r.st.log[|st.log|].ServiceUpdated?
  {
    if SetOwnerReference(ServiceChild) in faults then SyncStep(st, Some(OwnerReferenceFailed))
    else if GetChild(ServiceChild) in faults then SyncStep(st, Some(GetFailed))
    else if w.Key() !in st.services then
      if CreateChild(ServiceChild) in faults then SyncStep(st, Some(CreateFailed))
      else SyncStep(ApplyCreateService(st, OwnedService(w)), None)
    else if UpdateChild(ServiceChild) in faults then SyncStep(st, Some(UpdateFailed))
    else SyncStep(ApplyUpdateService(st, MergeService(st.services[w.Key()], OwnedService(w))), None)
  }

  /** The deletion branch, given the outcome of cleanup. */
  function FinalizeSpec(st: StoreState, w: WebApp, cleanup: CleanupResult, faults: Faults): (r: After)
    requires w.Key() in st.webapps
    ensures r.st.deployments == st.deployments && r.st.services == st.services
    ensures r.st.log == st.log || r.st.log == st.log + [WebAppUpdated(w.Key(), w.finalizers - {Finalizer}, w.spec)]
  {
    if Finalizer !in w.finalizers then After(st, Done(NoRequeue))
    else if cleanup == CleanupError then After(st, Fail(CleanupFailed))
    else if RemoveFinalizerUpdate in faults then After(st, Fail(RemoveFinalizerFailed))
    else After(ApplyUpdate(st, w.(finalizers := w.finalizers - {Finalizer})), Done(NoRequeue))
  }

  /** First-pass finalizer registration. */
  function RegisterFinalizerSpec(st: StoreState, w: WebApp, faults: Faults): (r: After)
    requires w.Key() in st.webapps
    ensures r.st.deployments == st.deployments && r.st.services == st.services
    ensures r.st.log == st.log || r.st.log == st.log + [WebAppUpdated(w.Key(), w.finalizers + {Finalizer}, w.spec)]
  {
    if AddFinalizerUpdate in faults then After(st, Fail(AddFinalizerFailed))
    else After(ApplyUpdate(st, w.(finalizers := w.finalizers + {Finalizer})), Done(Result(true, 0)))
  }

  /** Status projection after both children were synced. */
  function ProjectStatusSpec(st: StoreState, w: WebApp, faults: Faults): (r: After)
    ensures OnlyStatusWrites(st, r.st)
    ensures r.st.webapps.Keys == st.webapps.Keys
    ensures r.out.err.Some? ==> r.out.result == NoRequeue
    ensures r.out.err.None? ==> r.out.result == Result(false, RequeueAfter)
    ensures r.out.err.None? ==> FetchDeploymentForStatus !in faults && w.Key() in st.deployments
    ensures r.out.err.Some? ==> r.out.err.value == FetchDeploymentForStatusFailed || r.out.err.value.StatusUpdateFailed?
  {
    if FetchDeploymentForStatus in faults || w.Key() !in st.deployments then
      After(st, Fail(FetchDeploymentForStatusFailed))
    else
      var n := st.deployments[w.Key()].status.availableReplicas;
      var w1 := w.(status := w.status.(availableReplicas := n));
      var a := SetConditionSpec(st, w1, AvailableUpdate(n), faults);
      if !a.ok then After(a.st, Fail(StatusUpdateFailed(TypeAvailable)))
      else
        var p := SetConditionSpec(a.st, a.webapp, ClearProgressing, faults);
        OnlyStatusWritesTrans(st, a.st, p.st);
        if !p.ok then After(p.st, Fail(StatusUpdateFailed(TypeProgressing)))
        else
          var d := SetConditionSpec(p.st, p.webapp, ClearDegraded, faults);
          OnlyStatusWritesTrans(st, p.st, d.st);
          if !d.ok then After(d.st, Fail(StatusUpdateFailed(TypeDegraded)))
          else After(d.st, Done(Result(false, RequeueAfter)))
  }

  /** The steady-state branch: mark progressing, sync both children, project status. */
  function ConvergeSpec(st: StoreState, w: WebApp, faults: Faults): (r: After)
    requires Valid(st)
    ensures r.st.webapps.Keys == st.webapps.Keys
    ensures r.out.err.Some? ==> r.out.result == NoRequeue
    ensures r.out.err.None? ==> r.out.result == Result(false, RequeueAfter)
    ensures r.out.err.None? ==> w.Key() in st.webapps
  {
    var p := SetConditionSpec(st, w, MarkProgressing, faults);
    if !p.ok then After(p.st, Fail(StatusUpdateFailed(TypeProgressing)))
    else
      var d := SyncDeploymentSpec(p.st, p.webapp, faults);
      if d.err.Some? then
        var r := SetConditionSpec(d.st, p.webapp, DegradedUpdate(DeploymentChild, d.err.value), faults);
        After(r.st, Fail(ChildSyncFailed(DeploymentChild, d.err.value)))
      else
        var s := SyncServiceSpec(d.st, p.webapp, faults);
        if s.err.Some? then
          var r := SetConditionSpec(s.st, p.webapp, DegradedUpdate(ServiceChild, s.err.value), faults);
          After(r.st, Fail(ChildSyncFailed(ServiceChild, s.err.value)))
        else ProjectStatusSpec(s.st, p.webapp, faults)
  }

  /** A whole pass for the WebApp stored under key. */
  function ReconcileSpec(st: StoreState, key: NamespacedName, faults: Faults): (r: After)
    requires Valid(st)
    ensures r.st.webapps.Keys <= st.webapps.Keys
    ensures r.out.err.Some? ==> r.out.result == NoRequeue
    ensures r.out.result.requeue ==>
      && r.out == Done(Result(true, 0)) && key in st.webapps
      && !st.webapps[key].deletionRequested && Finalizer !in st.webapps[key].finalizers
    ensures r.out.result.requeueAfter != 0 ==>
      && r.out == Done(Result(false, RequeueAfter)) && key in st.webapps
      && !st.webapps[key].deletionRequested && Finalizer in st.webapps[key].finalizers
  {
    if FetchWebApp in faults then After(st, Fail(GetWebAppFailed))
    else if key !in st.webapps then After(st, Done(NoRequeue))
    else
      var w := st.webapps[key];
      if w.deletionRequested then FinalizeSpec(st, w, CleanupChildResources(w), faults)
      else if Finalizer !in w.finalizers then RegisterFinalizerSpec(st, w, faults)
      else ConvergeSpec(st, w, faults)
  }

  // ---------------------------------------------------------------------------
  // The imperative pass
  // ---------------------------------------------------------------------------

  /** Upserts u into the in-memory WebApp and writes its status through the status subresource. */
  method SetCondition(store: Store, w: WebApp, u: ConditionUpdate, faults: Faults)
    returns (w': WebApp, ok: bool)
    modifies store
    ensures StatusStep(store.State(), w', ok) == SetConditionSpec(old(store.State()), w, u, faults)
  {
    var c := Stamp(u, w.generation);
    w' := w.(status := w.status.(conditions := Upsert(w.status.conditions, c)));
    ok := store.UpdateStatus(w', StatusWrite(u.condType, u.reason) in faults);
  }

  /** Creates the Deployment with w as owner, or selectively updates the existing one. */
  method ReconcileDeployment(store: Store, w: WebApp, faults: Faults) returns (err: Option<SyncError>)
    requires Valid(store.State())
    modifies store
    ensures SyncStep(store.State(), err) == SyncDeploymentSpec(old(store.State()), w, faults)
  {
    var desired := DesiredDeployment(w);
    if SetOwnerReference(DeploymentChild) in faults {
      return Some(OwnerReferenceFailed);
    }
    desired := desired.(meta := desired.meta.(ownerReferences := desired.meta.ownerReferences + [ControllerRef(w)]));
    assert desired == OwnedDeployment(w);
    var existing := store.GetDeployment(w.Key(), GetChild(DeploymentChild) in faults);
    match existing {
      case NotFound =>
        var ok := store.CreateDeployment(desired, CreateChild(DeploymentChild) in faults);
        err := if ok then None else Some(CreateFailed);
      case FetchFailed =>
        err := Some(GetFailed);
      case Found(e) =>
        var want := desired.spec.template.containers[0];
        var e' := e.(spec := e.spec.(replicas := desired.spec.replicas));
        var containers := e'.spec.template.containers;
        containers := containers[0 := containers[0].(image := want.image)];
        containers := containers[0 := containers[0].(ports := want.ports)];
        e' := e'.(spec := e'.spec.(template := e'.spec.template.(containers := containers)));
        assert e' == MergeDeployment(e, desired);
        var ok := store.UpdateDeployment(e', UpdateChild(DeploymentChild) in faults);
        err := if ok then None else Some(UpdateFailed);
    }
  }

  /** Creates the ClusterIP Service with w as owner, or updates ports and selector of the existing one. */
  method ReconcileService(store: Store, w: WebApp, faults: Faults) returns (err: Option<SyncError>)
    requires Valid(store.State())
    modifies store
    ensures SyncStep(store.State(), err) == SyncServiceSpec(old(store.State()), w, faults)
  {
    var desired := DesiredService(w);
    if SetOwnerReference(ServiceChild) in faults {
      return Some(OwnerReferenceFailed);
    }
    desired := desired.(meta := desired.meta.(ownerReferences := desired.meta.ownerReferences + [ControllerRef(w)]));
    var existing := store.GetService(w.Key(), GetChild(ServiceChild) in faults);
    match existing {
      case NotFound =>
        var ok := store.CreateService(desired, CreateChild(ServiceChild) in faults);
        err := if ok then None else Some(CreateFailed);
      case FetchFailed =>
        err := Some(GetFailed);
      case Found(e) =>
        var e' := e.(spec := e.spec.(ports := desired.spec.ports));
        e' := e'.(spec := e'.spec.(selector := desired.spec.selector));
        var ok := store.UpdateService(e', UpdateChild(ServiceChild) in faults);
        err := if ok then None else Some(UpdateFailed);
    }
  }

  /** One reconciliation pass for the WebApp stored under key. */
  method Reconcile(store: Store, key: NamespacedName, faults: Faults) returns (out: Outcome)
    requires Valid(store.State())
    modifies store
    ensures After(store.State(), out) == ReconcileSpec(old(store.State()), key, faults)
  {
    var fetched := store.GetWebApp(key, FetchWebApp in faults);
    if fetched.FetchFailed? {
      return Fail(GetWebAppFailed);
    }
    if fetched.NotFound? {
      return Done(NoRequeue);
    }
    var webapp := fetched.obj;
    ghost var st0 := store.State();
    assert webapp == st0.webapps[key] && webapp.Key() == key;

    if webapp.deletionRequested {
      if Finalizer in webapp.finalizers {
        var cleaned := CleanupChildResources(webapp);
        if cleaned == CleanupError {
          return Fail(CleanupFailed);
        }
        webapp := webapp.(finalizers := webapp.finalizers - {Finalizer});
        var ok := store.Update(webapp, RemoveFinalizerUpdate in faults);
        if !ok {
          return Fail(RemoveFinalizerFailed);
        }
      }
      return Done(NoRequeue);
    }

    if Finalizer !in webapp.finalizers {
      webapp := webapp.(finalizers := webapp.finalizers + {Finalizer});
      var ok := store.Update(webapp, AddFinalizerUpdate in faults);
      if !ok {
        return Fail(AddFinalizerFailed);
      }
      return Done(Result(true, 0));
    }

    var ok;
    webapp, ok := SetCondition(store, webapp, MarkProgressing, faults);
    if !ok {
      return Fail(StatusUpdateFailed(TypeProgressing));
    }

    var derr := ReconcileDeployment(store, webapp, faults);
    if derr.Some? {
      var _, _ := SetCondition(store, webapp, DegradedUpdate(DeploymentChild, derr.value), faults);
      return Fail(ChildSyncFailed(DeploymentChild, derr.value));
    }

    var serr := ReconcileService(store, webapp, faults);
    if serr.Some? {
      var _, _ := SetCondition(store, webapp, DegradedUpdate(ServiceChild, serr.value), faults);
      return Fail(ChildSyncFailed(ServiceChild, serr.value));
    }
    assert ConvergeSpec(st0, st0.webapps[key], faults) == ProjectStatusSpec(store.State(), webapp, faults);
    out := ProjectStatus(store, webapp, faults);
  }

  /** Reads the Deployment's available replicas and writes the Available, Progressing and Degraded conditions. */
  method ProjectStatus(store: Store, w: WebApp, faults: Faults) returns (out: Outcome)
    modifies store
    ensures After(store.State(), out) == ProjectStatusSpec(old(store.State()), w, faults)
  {
    var webapp := w;
    var dep := store.GetDeployment(webapp.Key(), FetchDeploymentForStatus in faults);
    if !dep.Found? {
      return Fail(FetchDeploymentForStatusFailed);
    }

    var available := dep.obj.status.availableReplicas;
    webapp := webapp.(status := webapp.status.(availableReplicas := available));
    var ok;
    webapp, ok := SetCondition(store, webapp, AvailableUpdate(available), faults);
    if !ok {
      return Fail(StatusUpdateFailed(TypeAvailable));
    }
    webapp, ok := SetCondition(store, webapp, ClearProgressing, faults);
    if !ok {
      return Fail(StatusUpdateFailed(TypeProgressing));
    }
    webapp, ok := SetCondition(store, webapp, ClearDegraded, faults);
    if !ok {
      return Fail(StatusUpdateFailed(TypeDegraded));
    }
    return Done(Result(false, RequeueAfter));
  }
}
