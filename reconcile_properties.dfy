/**
 * Properties of one reconciliation pass, proved about ReconcileSpec, the
 * function the imperative Reconcile method is verified against.
 */
module ReconcileProperties {
  import opened Kube
  import opened StatusConditions
  import opened WebAppTypes
  import opened Children
  import opened ClusterStore
  import opened Controller

  /** The writes a pass added to the log of st to reach st'. */
  function NewWrites(st: StoreState, st': StoreState): seq<Write>
    requires |st.log| <= |st'.log|
  {
    st'.log[|st.log|..]
  }

  // ---------------------------------------------------------------------------
  // Fetch
  // ---------------------------------------------------------------------------

  /** A WebApp that is not stored is no work: success, no requeue, nothing written. */
  lemma NotFoundIsNoOp(st: StoreState, key: NamespacedName, faults: Faults)
    requires Valid(st) && key !in st.webapps && FetchWebApp !in faults
    ensures ReconcileSpec(st, key, faults) == After(st, Outcome(Result(false, 0), None))
  {
  }

  /** A failed fetch is returned as an error and nothing is written. */
  lemma FetchFailureWritesNothing(st: StoreState, key: NamespacedName, faults: Faults)
    requires Valid(st) && FetchWebApp in faults
    ensures ReconcileSpec(st, key, faults) == After(st, Fail(GetWebAppFailed))
  {
  }

  // ---------------------------------------------------------------------------
  // Finalizer-gated deletion
  // ---------------------------------------------------------------------------

  /**
   * Deletion requested with the finalizer present: the finalizer is removed
   * and persisted in one write, after which a WebApp with no finalizer left is
   * gone from the store; a failed write is an error that leaves everything in
   * place. No requeue either way, and no child is touched.
   */
  lemma DeletionReleasesFinalizer(st: StoreState, key: NamespacedName, faults: Faults)
    requires Valid(st) && FetchWebApp !in faults && key in st.webapps
    requires st.webapps[key].deletionRequested && Finalizer in st.webapps[key].finalizers
    ensures var r := ReconcileSpec(st, key, faults);
      var w := st.webapps[key];
      var left := w.finalizers - {Finalizer};
      && r.out.result == Result(false, 0)
      && (RemoveFinalizerUpdate in faults ==> r == After(st, Fail(RemoveFinalizerFailed)))
      && (RemoveFinalizerUpdate !in faults ==>
            && r.out.err == None
            && r.st.log == st.log + [WebAppUpdated(key, left, w.spec)]
            && r.st.deployments == st.deployments && r.st.services == st.services
            && (left == {} ==> r.st.webapps == st.webapps - {key})
            && (left != {} ==> r.st.webapps == st.webapps[key := w.(finalizers := left)]))
  {
  }

  /**
   * The deletion protocol for any cleanup outcome: a failed cleanup is an
   * error that writes nothing and keeps the finalizer; the finalizer is
   * released only after cleanup succeeded.
   */
  lemma CleanupGatesRelease(st: StoreState, w: WebApp, cleanup: CleanupResult, faults: Faults)
    requires w.Key() in st.webapps && Finalizer in w.finalizers
    ensures var r := FinalizeSpec(st, w, cleanup, faults);
      && (cleanup == CleanupError ==> r == After(st, Fail(CleanupFailed)))
      && (r.st != st ==> cleanup == CleanupSucceeded && RemoveFinalizerUpdate !in faults)
      && r.out.result == Result(false, 0)
  {
  }

  /** Deletion requested without the finalizer: nothing is written and nothing is requeued. */
  lemma DeletionWithoutFinalizerWritesNothing(st: StoreState, key: NamespacedName, faults: Faults)
    requires Valid(st) && FetchWebApp !in faults && key in st.webapps
    requires st.webapps[key].deletionRequested && Finalizer !in st.webapps[key].finalizers
    ensures ReconcileSpec(st, key, faults) == After(st, Outcome(Result(false, 0), None))
  {
  }

  /** Once the last finalizer is released, the next pass finds nothing and does nothing. */
  lemma PurgedWebAppIsNoOp(st: StoreState, key: NamespacedName, faults: Faults, next: Faults)
    requires Valid(st) && FetchWebApp !in faults && FetchWebApp !in next && key in st.webapps
    requires st.webapps[key].deletionRequested && st.webapps[key].finalizers == {Finalizer}
    requires RemoveFinalizerUpdate !in faults
    ensures var r := ReconcileSpec(st, key, faults);
      Valid(r.st) && ReconcileSpec(r.st, key, next) == After(r.st, Outcome(Result(false, 0), None))
  {
    DeletionReleasesFinalizer(st, key, faults);
    var r := ReconcileSpec(st, key, faults);
    assert st.webapps[key].finalizers - {Finalizer} == {};
    assert key !in r.st.webapps;
  }

  // ---------------------------------------------------------------------------
  // First-pass finalizer registration
  // ---------------------------------------------------------------------------

  /**
   * A live WebApp without the finalizer gets it added and persisted, and the
   * pass asks for an immediate requeue; no child is created or updated and no
   * status is written.
   */
  lemma FirstPassRegistersFinalizer(st: StoreState, key: NamespacedName, faults: Faults)
    requires Valid(st) && FetchWebApp !in faults && key in st.webapps
    requires !st.webapps[key].deletionRequested && Finalizer !in st.webapps[key].finalizers
    ensures var r := ReconcileSpec(st, key, faults);
      var w := st.webapps[key];
      && r.st.deployments == st.deployments && r.st.services == st.services
      && (AddFinalizerUpdate in faults ==> r == After(st, Fail(AddFinalizerFailed)))
      && (AddFinalizerUpdate !in faults ==>
            && r.out == Outcome(Result(true, 0), None)
            && r.st.webapps == st.webapps[key := w.(finalizers := w.finalizers + {Finalizer})]
            && r.st.log == st.log + [WebAppUpdated(key, w.finalizers + {Finalizer}, w.spec)])
  {
  }

  /** The log of b extends the log of a. */
  predicate Extends(a: StoreState, b: StoreState) {
    |a.log| <= |b.log| && b.log[..|a.log|] == a.log
  }

  lemma ExtendsTrans(a: StoreState, b: StoreState, c: StoreState)
    requires Extends(a, b) && Extends(b, c)
    ensures Extends(a, c)
  {
    assert c.log[..|a.log|] == c.log[..|b.log|][..|a.log|];
  }

  /**
   * b follows from a by steady-state work on the WebApp under k: the log only
   * grows, by no write of a WebApp's main resource; the same WebApps are
   * stored, and only the status of the one under k may differ.
   */
  predicate Steady(a: StoreState, b: StoreState, k: NamespacedName) {
    && Extends(a, b)
    && (forall i :: |a.log| <= i < |b.log| ==> !b.log[i].WebAppUpdated?)
    && b.webapps.Keys == a.webapps.Keys
    && (forall j :: j in b.webapps ==> j in a.webapps && b.webapps[j] == a.webapps[j].(status := b.webapps[j].status))
    && (forall j :: j in b.webapps && j != k ==> j in a.webapps && b.webapps[j] == a.webapps[j])
  }

  lemma SteadyTrans(a: StoreState, b: StoreState, c: StoreState, k: NamespacedName)
    requires Steady(a, b, k) && Steady(b, c, k)
    ensures Steady(a, c, k)
  {
    ExtendsTrans(a, b, c);
    forall i | |a.log| <= i < |c.log|
      ensures !c.log[i].WebAppUpdated?
    {
      if i < |b.log| {
        assert c.log[i] == c.log[..|b.log|][i];
      }
    }
  }

  /** A setCondition call is steady-state work on the WebApp it writes. */
  lemma SetConditionSteady(st: StoreState, w: WebApp, u: ConditionUpdate, faults: Faults)
    ensures Steady(st, SetConditionSpec(st, w, u, faults).st, w.Key())
  {
    var r := SetConditionSpec(st, w, u, faults);
    if r.ok {
      assert r.st.log[..|st.log|] == st.log;
    }
  }

  /** The status projection is steady-state work on the WebApp it writes. */
  lemma ProjectSteady(st: StoreState, w: WebApp, faults: Faults)
    ensures Steady(st, ProjectStatusSpec(st, w, faults).st, w.Key())
  {
    var k := w.Key();
    if FetchDeploymentForStatus !in faults && k in st.deployments {
      var n := st.deployments[k].status.availableReplicas;
      var w1 := w.(status := w.status.(availableReplicas := n));
      var a := SetConditionSpec(st, w1, AvailableUpdate(n), faults);
      SetConditionSteady(st, w1, AvailableUpdate(n), faults);
      if a.ok {
        var p := SetConditionSpec(a.st, a.webapp, ClearProgressing, faults);
        SetConditionSteady(a.st, a.webapp, ClearProgressing, faults);
        SteadyTrans(st, a.st, p.st, k);
        if p.ok {
          var d := SetConditionSpec(p.st, p.webapp, ClearDegraded, faults);
          SetConditionSteady(p.st, p.webapp, ClearDegraded, faults);
          SteadyTrans(st, p.st, d.st, k);
        }
      }
    }
  }

  /** A Deployment sync is steady-state work: it writes only the Deployment. */
  lemma DeploymentSyncSteady(st: StoreState, w: WebApp, faults: Faults, k: NamespacedName)
    requires Valid(st)
    ensures Steady(st, SyncDeploymentSpec(st, w, faults).st, k)
  {
    var d := SyncDeploymentSpec(st, w, faults);
    if d.err.None? {
      assert !d.st.log[|st.log|].WebAppUpdated?;
    }
  }

  /** A Service sync is steady-state work: it writes only the Service. */
  lemma ServiceSyncSteady(st: StoreState, w: WebApp, faults: Faults, k: NamespacedName)
    requires Valid(st)
    ensures Steady(st, SyncServiceSpec(st, w, faults).st, k)
  {
    var s := SyncServiceSpec(st, w, faults);
    if s.err.None? {
      assert !s.st.log[|st.log|].WebAppUpdated?;
    }
  }

  /** Steady-state work that leaves the children alone keeps the store valid. */
  lemma SteadyKeepsValid(a: StoreState, b: StoreState, k: NamespacedName)
    requires Valid(a) && Steady(a, b, k)
    requires b.deployments == a.deployments && b.services == a.services
    ensures Valid(b)
  {
  }

  /**
   * The steady-state branch writes only the status of the WebApp it
   * reconciles and its children, only appends to the log, and keeps the
   * store valid.
   */
  lemma ConvergeSteady(st: StoreState, w: WebApp, faults: Faults)
    requires Valid(st)
    ensures var r := ConvergeSpec(st, w, faults);
      Steady(st, r.st, w.Key()) && Valid(r.st)
  {
    var k := w.Key();
    var p := SetConditionSpec(st, w, MarkProgressing, faults);
    SetConditionSteady(st, w, MarkProgressing, faults);
    if p.ok {
      var d := SyncDeploymentSpec(p.st, p.webapp, faults);
      DeploymentSyncSteady(p.st, p.webapp, faults, k);
      SteadyTrans(st, p.st, d.st, k);
      if d.err.Some? {
        SetConditionSteady(d.st, p.webapp, DegradedUpdate(DeploymentChild, d.err.value), faults);
        SteadyTrans(st, d.st, SetConditionSpec(d.st, p.webapp, DegradedUpdate(DeploymentChild, d.err.value), faults).st, k);
      } else {
        var s := SyncServiceSpec(d.st, p.webapp, faults);
        ServiceSyncSteady(d.st, p.webapp, faults, k);
        SteadyTrans(st, d.st, s.st, k);
        if s.err.Some? {
          SetConditionSteady(s.st, p.webapp, DegradedUpdate(ServiceChild, s.err.value), faults);
          SteadyTrans(st, s.st, SetConditionSpec(s.st, p.webapp, DegradedUpdate(ServiceChild, s.err.value), faults).st, k);
        } else {
          ProjectSteady(s.st, p.webapp, faults);
          SteadyKeepsValid(s.st, ProjectStatusSpec(s.st, p.webapp, faults).st, k);
          SteadyTrans(st, s.st, ProjectStatusSpec(s.st, p.webapp, faults).st, k);
        }
      }
    }
  }

  /**
   * Finalizer registration precedes every child write: a pass writes a
   * Deployment or a Service only when the stored WebApp already carried the
   * finalizer and was not being deleted.
   */
  lemma FinalizerPrecedesChildWrites(st: StoreState, key: NamespacedName, faults: Faults)
    requires Valid(st)
    ensures var r := ReconcileSpec(st, key, faults);
      && |st.log| <= |r.st.log| && r.st.log[..|st.log|] == st.log
      && (forall wr :: wr in NewWrites(st, r.st) && wr.IsChildWrite() ==>
            key in st.webapps && Finalizer in st.webapps[key].finalizers && !st.webapps[key].deletionRequested)
  {
    var r := ReconcileSpec(st, key, faults);
    if FetchWebApp !in faults && key in st.webapps {
      if st.webapps[key].deletionRequested || Finalizer !in st.webapps[key].finalizers {
        assert forall wr :: wr in NewWrites(st, r.st) ==> wr.WebAppUpdated?;
      } else {
        ConvergeSteady(st, st.webapps[key], faults);
      }
    }
  }

  // ---------------------------------------------------------------------------
  // What a pass may change about a WebApp
  // ---------------------------------------------------------------------------

  /**
   * b is a with at most its status and its finalizers changed, and the
   * finalizers only by the operator's own finalizer.
   */
  predicate SpecKept(a: WebApp, b: WebApp) {
    && b.(status := a.status, finalizers := a.finalizers) == a
    && (b.finalizers == a.finalizers || b.finalizers == a.finalizers + {Finalizer} || b.finalizers == a.finalizers - {Finalizer})
  }

  /**
   * What a pass over the WebApp under key may do to the WebApps of st to
   * reach st': every other WebApp is untouched; the one under key keeps its
   * identity, spec, generation and deletion request and changes only in
   * status and by the operator's finalizer; it leaves the store only once
   * its deletion was requested and the operator's finalizer was its last;
   * and every write of its main resource carries the spec it was read with.
   */
  predicate NoSpecWrites(st: StoreState, st': StoreState, key: NamespacedName) {
    && st'.webapps.Keys <= st.webapps.Keys
    && (forall k :: k in st'.webapps && k != key ==> k in st.webapps && st'.webapps[k] == st.webapps[k])
    && (key in st'.webapps ==> SpecKept(st.webapps[key], st'.webapps[key]))
    && (key in st.webapps && key !in st'.webapps ==>
          st.webapps[key].deletionRequested && st.webapps[key].finalizers == {Finalizer})
    && (forall i :: |st.log| <= i < |st'.log| && st'.log[i].WebAppUpdated? ==>
          key in st.webapps && st'.log[i].key == key && st'.log[i].spec == st.webapps[key].spec)
  }

  /** The deletion branch writes no spec. */
  lemma FinalizeWritesNoSpec(st: StoreState, w: WebApp, cleanup: CleanupResult, faults: Faults)
    requires w.Key() in st.webapps && st.webapps[w.Key()] == w && w.deletionRequested
    ensures NoSpecWrites(st, FinalizeSpec(st, w, cleanup, faults).st, w.Key())
  {
  }

  /** Finalizer registration writes no spec. */
  lemma RegisterWritesNoSpec(st: StoreState, w: WebApp, faults: Faults)
    requires w.Key() in st.webapps && st.webapps[w.Key()] == w
    ensures NoSpecWrites(st, RegisterFinalizerSpec(st, w, faults).st, w.Key())
  {
  }

  /** Steady-state work writes no spec. */
  lemma SteadyWritesNoSpec(st: StoreState, st': StoreState, key: NamespacedName)
    requires Steady(st, st', key)
    ensures NoSpecWrites(st, st', key)
  {
  }

  /** A pass never writes a WebApp's spec, nor any WebApp but its own. */
  lemma ReconcileNeverWritesSpec(st: StoreState, key: NamespacedName, faults: Faults)
    requires Valid(st)
    ensures NoSpecWrites(st, ReconcileSpec(st, key, faults).st, key)
  {
    if FetchWebApp !in faults && key in st.webapps {
      var w := st.webapps[key];
      if w.deletionRequested {
        FinalizeWritesNoSpec(st, w, CleanupChildResources(w), faults);
      } else if Finalizer !in w.finalizers {
        RegisterWritesNoSpec(st, w, faults);
      } else {
        ConvergeSteady(st, w, faults);
        SteadyWritesNoSpec(st, ConvergeSpec(st, w, faults).st, key);
      }
    }
  }

  // ---------------------------------------------------------------------------
  // Store invariants a pass keeps
  // ---------------------------------------------------------------------------

  /** A pass keeps the store valid. */
  lemma ReconcilePreservesValid(st: StoreState, key: NamespacedName, faults: Faults)
    requires Valid(st)
    ensures Valid(ReconcileSpec(st, key, faults).st)
  {
    if FetchWebApp !in faults && key in st.webapps {
      var w := st.webapps[key];
      if !w.deletionRequested && Finalizer in w.finalizers {
        ConvergeSteady(st, w, faults);
      }
    }
  }

  /**
   * A WebApp's status keeps the list-map invariant on conditions, and no
   * condition claims to have observed a later generation than the WebApp's.
   */
  predicate StatusConsistent(w: WebApp) {
    ValidStatus(w.status) && ObservedAtMost(w.status.conditions, w.generation)
  }

  /** Every stored WebApp has a consistent status. */
  predicate StatusesConsistent(st: StoreState) {
    forall k :: k in st.webapps ==> StatusConsistent(st.webapps[k])
  }

  /** Recording a condition keeps the status consistent. */
  lemma WithConditionConsistent(w: WebApp, u: ConditionUpdate)
    requires StatusConsistent(w)
    ensures StatusConsistent(WithCondition(w, u))
  {
    var c := Stamp(u, w.generation);
    UpsertKeepsUniqueTypes(w.status.conditions, c);
    UpsertKeepsObservedAtMost(w.status.conditions, c, w.generation);
  }

  /**
   * A setCondition call from an in-memory WebApp of the stored generation
   * keeps every stored status consistent, and so the in-memory one.
   */
  lemma SetConditionConsistent(st: StoreState, w: WebApp, u: ConditionUpdate, faults: Faults)
    requires StatusesConsistent(st) && StatusConsistent(w)
    requires w.Key() in st.webapps ==> st.webapps[w.Key()].generation == w.generation
    ensures var r := SetConditionSpec(st, w, u, faults);
      StatusesConsistent(r.st) && StatusConsistent(r.webapp)
  {
    WithConditionConsistent(w, u);
  }

  /** The status projection from an in-memory WebApp of the stored generation keeps every stored status consistent. */
  lemma ProjectConsistent(st: StoreState, w: WebApp, faults: Faults)
    requires StatusesConsistent(st) && StatusConsistent(w)
    requires w.Key() in st.webapps ==> st.webapps[w.Key()].generation == w.generation
    ensures StatusesConsistent(ProjectStatusSpec(st, w, faults).st)
  {
    var k := w.Key();
    if FetchDeploymentForStatus !in faults && k in st.deployments {
      var n := st.deployments[k].status.availableReplicas;
      var w1 := w.(status := w.status.(availableReplicas := n));
      var a := SetConditionSpec(st, w1, AvailableUpdate(n), faults);
      SetConditionConsistent(st, w1, AvailableUpdate(n), faults);
      if a.ok {
        var p := SetConditionSpec(a.st, a.webapp, ClearProgressing, faults);
        SetConditionConsistent(a.st, a.webapp, ClearProgressing, faults);
        if p.ok {
          SetConditionConsistent(p.st, p.webapp, ClearDegraded, faults);
        }
      }
    }
  }

  /** The steady-state branch keeps every stored status consistent. */
  lemma ConvergeConsistent(st: StoreState, w: WebApp, faults: Faults)
    requires Valid(st) && StatusesConsistent(st) && w.Key() in st.webapps && st.webapps[w.Key()] == w
    ensures StatusesConsistent(ConvergeSpec(st, w, faults).st)
  {
    var p := SetConditionSpec(st, w, MarkProgressing, faults);
    SetConditionConsistent(st, w, MarkProgressing, faults);
    if p.ok {
      var d := SyncDeploymentSpec(p.st, p.webapp, faults);
      if d.err.Some? {
        SetConditionConsistent(d.st, p.webapp, DegradedUpdate(DeploymentChild, d.err.value), faults);
      } else {
        var s := SyncServiceSpec(d.st, p.webapp, faults);
        if s.err.Some? {
          SetConditionConsistent(s.st, p.webapp, DegradedUpdate(ServiceChild, s.err.value), faults);
        } else {
          ProjectConsistent(s.st, p.webapp, faults);
        }
      }
    }
  }

  /** A pass keeps every stored status consistent. */
  lemma ReconcileKeepsStatusesConsistent(st: StoreState, key: NamespacedName, faults: Faults)
    requires Valid(st) && StatusesConsistent(st)
    ensures StatusesConsistent(ReconcileSpec(st, key, faults).st)
  {
    if FetchWebApp !in faults && key in st.webapps {
      var w := st.webapps[key];
      if !w.deletionRequested && Finalizer in w.finalizers {
        ConvergeConsistent(st, w, faults);
      }
    }
  }

  // ---------------------------------------------------------------------------
  // Observed generations
  // ---------------------------------------------------------------------------

  /** Every condition type is either as it was in before or stamped with generation g. */
  ghost predicate KeptOrStamped(before: seq<Condition>, after: seq<Condition>, g: int) {
    forall t :: Find(after, t) == Find(before, t) || (Find(after, t).Some? && Find(after, t).value.observedGeneration == g)
  }

  /** The WebApp stored under k, if any, has conditions kept or stamped at g relative to before. */
  ghost predicate StoredKeptOrStamped(st: StoreState, k: NamespacedName, before: seq<Condition>, g: int) {
    k in st.webapps ==> KeptOrStamped(before, st.webapps[k].status.conditions, g)
  }

  /** Recording a condition on a WebApp of generation g only stamps at g. */
  lemma WithConditionStamps(before: seq<Condition>, w: WebApp, u: ConditionUpdate)
    requires KeptOrStamped(before, w.status.conditions, w.generation)
    ensures KeptOrStamped(before, WithCondition(w, u).status.conditions, w.generation)
  {
    WithConditionFinds(w, u);
  }

  /** A setCondition call only stamps at the in-memory WebApp's generation, in memory and in the store. */
  lemma SetConditionStamps(st: StoreState, w: WebApp, u: ConditionUpdate, faults: Faults, before: seq<Condition>)
    requires StoredKeptOrStamped(st, w.Key(), before, w.generation)
    requires KeptOrStamped(before, w.status.conditions, w.generation)
    ensures var r := SetConditionSpec(st, w, u, faults);
      && StoredKeptOrStamped(r.st, w.Key(), before, w.generation)
      && KeptOrStamped(before, r.webapp.status.conditions, w.generation)
      && r.webapp.Key() == w.Key() && r.webapp.generation == w.generation
  {
    WithConditionStamps(before, w, u);
  }

  /** The status projection only stamps at the in-memory WebApp's generation. */
  lemma ProjectStamps(st: StoreState, w: WebApp, faults: Faults, before: seq<Condition>)
    requires StoredKeptOrStamped(st, w.Key(), before, w.generation)
    requires KeptOrStamped(before, w.status.conditions, w.generation)
    ensures StoredKeptOrStamped(ProjectStatusSpec(st, w, faults).st, w.Key(), before, w.generation)
  {
    var k := w.Key();
    if FetchDeploymentForStatus !in faults && k in st.deployments {
      var n := st.deployments[k].status.availableReplicas;
      var w1 := w.(status := w.status.(availableReplicas := n));
      var a := SetConditionSpec(st, w1, AvailableUpdate(n), faults);
      SetConditionStamps(st, w1, AvailableUpdate(n), faults, before);
      if a.ok {
        var p := SetConditionSpec(a.st, a.webapp, ClearProgressing, faults);
        SetConditionStamps(a.st, a.webapp, ClearProgressing, faults, before);
        if p.ok {
          SetConditionStamps(p.st, p.webapp, ClearDegraded, faults, before);
        }
      }
    }
  }

  /** The steady-state branch only stamps the stored WebApp's conditions at its generation. */
  lemma ConvergeStamps(st: StoreState, w: WebApp, faults: Faults)
    requires Valid(st) && w.Key() in st.webapps && st.webapps[w.Key()] == w
    ensures StoredKeptOrStamped(ConvergeSpec(st, w, faults).st, w.Key(), w.status.conditions, w.generation)
  {
    var c0 := w.status.conditions;
    var p := SetConditionSpec(st, w, MarkProgressing, faults);
    SetConditionStamps(st, w, MarkProgressing, faults, c0);
    if p.ok {
      var d := SyncDeploymentSpec(p.st, p.webapp, faults);
      if d.err.Some? {
        SetConditionStamps(d.st, p.webapp, DegradedUpdate(DeploymentChild, d.err.value), faults, c0);
      } else {
        var s := SyncServiceSpec(d.st, p.webapp, faults);
        if s.err.Some? {
          SetConditionStamps(s.st, p.webapp, DegradedUpdate(ServiceChild, s.err.value), faults, c0);
        } else {
          ProjectStamps(s.st, p.webapp, faults, c0);
        }
      }
    }
  }

  /** A pass only stamps the conditions of the WebApp under key, and only at its generation. */
  lemma ReconcileStamps(st: StoreState, key: NamespacedName, faults: Faults)
    requires Valid(st) && key in st.webapps
    ensures StoredKeptOrStamped(ReconcileSpec(st, key, faults).st, key,
      st.webapps[key].status.conditions, st.webapps[key].generation)
  {
    var w := st.webapps[key];
    if FetchWebApp !in faults && !w.deletionRequested && Finalizer in w.finalizers {
      ConvergeStamps(st, w, faults);
    }
  }

  /**
   * A condition's observedGeneration never goes back: after a pass, a
   * condition type the WebApp had is still there, observed at its old
   * generation or a later one.
   */
  lemma ObservedGenerationNeverDecreases(st: StoreState, key: NamespacedName, faults: Faults, t: string)
    requires Valid(st) && key in st.webapps && StatusConsistent(st.webapps[key])
    requires Find(st.webapps[key].status.conditions, t).Some?
    ensures var r := ReconcileSpec(st, key, faults);
      key in r.st.webapps ==>
        && Find(r.st.webapps[key].status.conditions, t).Some?
        && Find(r.st.webapps[key].status.conditions, t).value.observedGeneration >=
           Find(st.webapps[key].status.conditions, t).value.observedGeneration
  {
    var w := st.webapps[key];
    var c := Find(w.status.conditions, t).value;
    var i :| 0 <= i < |w.status.conditions| && w.status.conditions[i] == c;
    assert c.observedGeneration <= w.generation;
    ReconcileStamps(st, key, faults);
  }

  // ---------------------------------------------------------------------------
  // Child sync
  // ---------------------------------------------------------------------------

  /**
   * The calls of a child sync that the oracle makes fail: setting the owner
   * reference, the read, and the create or the update depending on whether
   * the child exists.
   */
  predicate ChildFaulted(child: ChildKind, present: bool, faults: Faults) {
    || SetOwnerReference(child) in faults
    || GetChild(child) in faults
    || (!present && CreateChild(child) in faults)
    || (present && UpdateChild(child) in faults)
  }

  /**
   * Deployment sync fails exactly on a fault of one of its calls; an absent
   * Deployment is created with w as its controller, an existing one gets the
   * selective merge; only that one Deployment changes, and its owned fields
   * then agree with the desired Deployment.
   */
  lemma DeploymentSyncCreatesOrMerges(st: StoreState, w: WebApp, faults: Faults)
    requires Valid(st)
    ensures var r := SyncDeploymentSpec(st, w, faults);
      var k := w.Key();
      && (r.err.Some? <==> ChildFaulted(DeploymentChild, k in st.deployments, faults))
      && (SetOwnerReference(DeploymentChild) in faults ==> r.err == Some(OwnerReferenceFailed))
      && (r.err.None? && k !in st.deployments ==>
            && r.st.deployments == st.deployments[k := OwnedDeployment(w)]
            && r.st.log == st.log + [DeploymentCreated(k, OwnedDeployment(w))])
      && (r.err.None? && k in st.deployments ==>
            var m := MergeDeployment(st.deployments[k], OwnedDeployment(w));
            && r.st.deployments == st.deployments[k := m]
            && r.st.log == st.log + [DeploymentUpdated(k, m)])
      && (r.err.None? ==>
            k in r.st.deployments && DeploymentConverged(r.st.deployments[k], DesiredDeployment(w)))
  {
    var k := w.Key();
    if k in st.deployments {
      var m := MergeDeployment(st.deployments[k], OwnedDeployment(w));
      assert m.(status := st.deployments[k].status) == m;
      MergeDeploymentConverges(st.deployments[k], OwnedDeployment(w));
    }
  }

  /**
   * Service sync fails exactly on a fault of one of its calls; an absent
   * Service is created with w as its controller, an existing one has its
   * ports and selector overwritten; only that one Service changes.
   */
  lemma ServiceSyncCreatesOrMerges(st: StoreState, w: WebApp, faults: Faults)
    requires Valid(st)
    ensures var r := SyncServiceSpec(st, w, faults);
      var k := w.Key();
      && (r.err.Some? <==> ChildFaulted(ServiceChild, k in st.services, faults))
      && (SetOwnerReference(ServiceChild) in faults ==> r.err == Some(OwnerReferenceFailed))
      && (r.err.None? && k !in st.services ==>
            && r.st.services == st.services[k := OwnedService(w)]
            && r.st.log == st.log + [ServiceCreated(k, OwnedService(w))])
      && (r.err.None? && k in st.services ==>
            var m := MergeService(st.services[k], OwnedService(w));
            && r.st.services == st.services[k := m]
            && r.st.log == st.log + [ServiceUpdated(k, m)])
      && (r.err.None? ==>
            && k in r.st.services
            && r.st.services[k].spec.ports == DesiredService(w).spec.ports
            && r.st.services[k].spec.selector == LabelsFor(w.name))
  {
  }

  // ---------------------------------------------------------------------------
  // Child sync failure
  // ---------------------------------------------------------------------------

  /** The stored WebApp under key is live and already carries the finalizer. */
  predicate Live(st: StoreState, key: NamespacedName) {
    key in st.webapps && !st.webapps[key].deletionRequested && Finalizer in st.webapps[key].finalizers
  }

  /** The Progressing mark stamped with w's generation. */
  function Reconciling(w: WebApp): (c: Condition)
    ensures c.condType == TypeProgressing && c.status == ConditionTrue && c.reason == "Reconciling"
    ensures c.observedGeneration == w.generation
  {
    Stamp(MarkProgressing, w.generation)
  }

  /** A failed Progressing mark is returned as an error and nothing is written. */
  lemma MarkFailureWritesNothing(st: StoreState, key: NamespacedName, faults: Faults)
    requires Valid(st) && FetchWebApp !in faults && Live(st, key)
    requires StatusWrite(TypeProgressing, "Reconciling") in faults
    ensures ReconcileSpec(st, key, faults) == After(st, Fail(StatusUpdateFailed(TypeProgressing)))
  {
  }

  /**
   * The shape of a pass whose Deployment sync fails: Progressing is marked,
   * the sync fails without writing, and Degraded is recorded for its error.
   */
  lemma DeploymentFailureTrace(st: StoreState, key: NamespacedName, faults: Faults)
    requires Valid(st) && FetchWebApp !in faults && Live(st, key)
    requires StatusWrite(TypeProgressing, "Reconciling") !in faults
    requires ChildFaulted(DeploymentChild, key in st.deployments, faults)
    ensures var p := SetConditionSpec(st, st.webapps[key], MarkProgressing, faults);
      var d := SyncDeploymentSpec(p.st, p.webapp, faults);
      && p.ok && d.err.Some? && d.st == p.st
      && ReconcileSpec(st, key, faults) ==
           After(SetConditionSpec(p.st, p.webapp, DegradedUpdate(DeploymentChild, d.err.value), faults).st,
                 Fail(ChildSyncFailed(DeploymentChild, d.err.value)))
  {
    var p := SetConditionSpec(st, st.webapps[key], MarkProgressing, faults);
    DeploymentSyncCreatesOrMerges(p.st, p.webapp, faults);
  }

  /**
   * The shape of a pass whose Service sync fails: Progressing is marked, the
   * Deployment is synced, the Service sync fails without writing, and
   * Degraded is recorded for its error.
   */
  lemma ServiceFailureTrace(st: StoreState, key: NamespacedName, faults: Faults)
    requires Valid(st) && FetchWebApp !in faults && Live(st, key)
    requires StatusWrite(TypeProgressing, "Reconciling") !in faults
    requires !ChildFaulted(DeploymentChild, key in st.deployments, faults)
    requires ChildFaulted(ServiceChild, key in st.services, faults)
    ensures var m := Marked(st.webapps[key]);
      var d := MarkedAndDeployed(st, m);
      var s := SyncServiceSpec(d, m, faults);
      && s.err.Some? && s.st == d
      && ReconcileSpec(st, key, faults) ==
           After(SetConditionSpec(d, m, DegradedUpdate(ServiceChild, s.err.value), faults).st,
                 Fail(ChildSyncFailed(ServiceChild, s.err.value)))
  {
    var w := st.webapps[key];
    var m := Marked(w);
    assert SetConditionSpec(st, w, MarkProgressing, faults) == StatusStep(ApplyStatusUpdate(st, m), m, true);
    DeploymentSyncLands(ApplyStatusUpdate(st, m), m, faults);
    ServiceSyncCreatesOrMerges(MarkedAndDeployed(st, m), m, faults);
  }

  /** The in-memory WebApp once Progressing is marked. */
  function Marked(w: WebApp): (m: WebApp)
    ensures m == w.(status := m.status)
  {
    WithCondition(w, MarkProgressing)
  }

  /**
   * A failed Deployment sync returns the error without a requeue, and no
   * Deployment or Service is written.
   */
  lemma DeploymentFailureReturnsError(st: StoreState, key: NamespacedName, faults: Faults)
    requires Valid(st) && FetchWebApp !in faults && Live(st, key)
    requires StatusWrite(TypeProgressing, "Reconciling") !in faults
    requires ChildFaulted(DeploymentChild, key in st.deployments, faults)
    ensures var r := ReconcileSpec(st, key, faults);
      && r.out.result == NoRequeue
      && r.out.err.Some? && r.out.err.value.ChildSyncFailed? && r.out.err.value.child == DeploymentChild
      && r.st.deployments == st.deployments && r.st.services == st.services
  {
    DeploymentFailureTrace(st, key, faults);
  }

  /**
   * A failed Deployment sync writes only status: the Progressing mark and,
   * unless that write fails, the Degraded condition for the sync's error.
   */
  lemma DeploymentFailureLog(st: StoreState, key: NamespacedName, faults: Faults)
    requires Valid(st) && FetchWebApp !in faults && Live(st, key)
    requires StatusWrite(TypeProgressing, "Reconciling") !in faults
    requires ChildFaulted(DeploymentChild, key in st.deployments, faults)
    ensures var r := ReconcileSpec(st, key, faults);
      var m := Marked(st.webapps[key]);
      && r.out.err.Some? && r.out.err.value.ChildSyncFailed?
      && r.st.log == st.log + [StatusUpdated(key, m.status)] +
           if StatusWrite(TypeDegraded, "DeploymentFailed") in faults then []
           else [StatusUpdated(key, WithCondition(m, DegradedUpdate(DeploymentChild, r.out.err.value.cause)).status)]
  {
    DeploymentFailureTrace(st, key, faults);
  }

  /**
   * A failed Service sync after a successful Deployment sync returns the
   * error without a requeue; the Deployment was synced and no Service is written.
   */
  lemma ServiceFailureReturnsError(st: StoreState, key: NamespacedName, faults: Faults)
    requires Valid(st) && FetchWebApp !in faults && Live(st, key)
    requires StatusWrite(TypeProgressing, "Reconciling") !in faults
    requires !ChildFaulted(DeploymentChild, key in st.deployments, faults)
    requires ChildFaulted(ServiceChild, key in st.services, faults)
    ensures var r := ReconcileSpec(st, key, faults);
      var w := st.webapps[key];
      && r.out.result == NoRequeue
      && r.out.err.Some? && r.out.err.value.ChildSyncFailed? && r.out.err.value.child == ServiceChild
      && r.st.services == st.services
      && Valid(r.st) && key in r.st.deployments
      && DeploymentConverged(r.st.deployments[key], DesiredDeployment(w))
  {
    ServiceFailureTrace(st, key, faults);
    MarkedAndDeployedContents(st, st.webapps[key]);
  }

  /** The Deployment that sync for w leaves: the existing one merged, or the owned one created. */
  function SyncedDeployment(st: StoreState, w: WebApp): (d: Deployment)
    requires Valid(st)
    ensures d.Key() == w.Key() && |d.spec.template.containers| >= 1
    ensures DeploymentConverged(d, DesiredDeployment(w))
    ensures w.Key() in st.deployments ==> d.status == st.deployments[w.Key()].status
    ensures w.Key() !in st.deployments ==> d.status.availableReplicas == 0
  {
    var k := w.Key();
    if k in st.deployments then
      MergeDeploymentConverges(st.deployments[k], OwnedDeployment(w));
      MergeDeployment(st.deployments[k], OwnedDeployment(w))
    else OwnedDeployment(w)
  }

  /** The write with which Deployment sync for w lands. */
  function DeploymentWrite(st: StoreState, w: WebApp): (wr: Write)
    requires Valid(st)
    ensures wr.IsChildWrite() && wr.key == w.Key()
  {
    var k := w.Key();
    if k in st.deployments then DeploymentUpdated(k, SyncedDeployment(st, w))
    else DeploymentCreated(k, SyncedDeployment(st, w))
  }

  /** The Service that sync for w leaves: the existing one merged, or the owned one created. */
  function SyncedService(st: StoreState, w: WebApp): (s: Service)
    requires Valid(st)
    ensures s.Key() == w.Key()
    ensures s.spec.ports == DesiredService(w).spec.ports && s.spec.selector == LabelsFor(w.name)
    ensures w.Key() in st.services ==> s.meta == st.services[w.Key()].meta
    ensures w.Key() !in st.services ==> s.meta.ownerReferences == [ControllerRef(w)]
  {
    var k := w.Key();
    if k in st.services then MergeService(st.services[k], OwnedService(w)) else OwnedService(w)
  }

  /** The write with which Service sync for w lands. */
  function ServiceWrite(st: StoreState, w: WebApp): (wr: Write)
    requires Valid(st)
    ensures wr.IsChildWrite() && wr.key == w.Key()
  {
    var k := w.Key();
    if k in st.services then ServiceUpdated(k, SyncedService(st, w)) else ServiceCreated(k, SyncedService(st, w))
  }

  /** Recording u writes the status once, unless that write fails. */
  lemma DegradedLog(st: StoreState, w: WebApp, u: ConditionUpdate, faults: Faults)
    requires w.Key() in st.webapps
    ensures SetConditionSpec(st, w, u, faults).st.log == st.log +
      if StatusWrite(u.condType, u.reason) in faults then [] else [StatusUpdated(w.Key(), WithCondition(w, u).status)]
  {
  }

  /**
   * A failed Service sync writes the Progressing mark, then the Deployment,
   * then, unless that write fails, the Degraded condition for the sync's error.
   */
  lemma ServiceFailureLog(st: StoreState, key: NamespacedName, faults: Faults)
    requires Valid(st) && FetchWebApp !in faults && Live(st, key)
    requires StatusWrite(TypeProgressing, "Reconciling") !in faults
    requires !ChildFaulted(DeploymentChild, key in st.deployments, faults)
    requires ChildFaulted(ServiceChild, key in st.services, faults)
    ensures var r := ReconcileSpec(st, key, faults);
      var w := st.webapps[key];
      var m := Marked(w);
      && r.out.err.Some? && r.out.err.value.ChildSyncFailed?
      && r.st.log == st.log + [StatusUpdated(key, m.status), DeploymentWrite(st, w)] +
           if StatusWrite(TypeDegraded, "ServiceFailed") in faults then []
           else [StatusUpdated(key, WithCondition(m, DegradedUpdate(ServiceChild, r.out.err.value.cause)).status)]
  {
    var w := st.webapps[key];
    var m := Marked(w);
    ServiceFailureTrace(st, key, faults);
    MarkedAndDeployedContents(st, w);
    var d := MarkedAndDeployed(st, m);
    DegradedLog(d, m, DegradedUpdate(ServiceChild, SyncServiceSpec(d, m, faults).err.value), faults);
  }

  /**
   * Marking Progressing and then recording a Degraded condition u, with any
   * writes to children in between (st2 holds the same WebApps as the store
   * after the mark): the stored WebApp then differs only in status, which is
   * the marked one with u recorded, unless u's write fails.
   */
  lemma MarkThenDegrade(st: StoreState, st2: StoreState, w: WebApp, u: ConditionUpdate, faults: Faults)
    requires w.Key() in st.webapps && st.webapps[w.Key()] == w
    requires StatusWrite(TypeProgressing, "Reconciling") !in faults
    requires st2.webapps == SetConditionSpec(st, w, MarkProgressing, faults).st.webapps
    requires u.condType == TypeDegraded
    ensures var p := SetConditionSpec(st, w, MarkProgressing, faults);
      var q := SetConditionSpec(st2, p.webapp, u, faults);
      var status := if StatusWrite(TypeDegraded, u.reason) in faults then Marked(w).status
                    else WithCondition(Marked(w), u).status;
      && w.Key() in q.st.webapps
      && q.st.webapps == st.webapps[w.Key() := w.(status := status)]
  {
    var p := SetConditionSpec(st, w, MarkProgressing, faults);
    var q := SetConditionSpec(st2, p.webapp, u, faults);
    assert q.ok ==> q.st.webapps[w.Key()].status == q.webapp.status;
    assert !q.ok ==> q.st.webapps[w.Key()].status == p.webapp.status;
  }

  /**
   * The status the mark and then a Degraded condition u leave: the
   * available count and Available are untouched, Progressing is the
   * Reconciling mark, and Degraded is u stamped with the generation when u
   * was recorded.
   */
  lemma MarkedThenDegradedFinds(w: WebApp, u: ConditionUpdate, recorded: bool)
    requires u.condType == TypeDegraded
    ensures var status := if recorded then WithCondition(Marked(w), u).status else Marked(w).status;
      && status.availableReplicas == w.status.availableReplicas
      && Find(status.conditions, TypeAvailable) == Find(w.status.conditions, TypeAvailable)
      && Find(status.conditions, TypeProgressing) == Some(Reconciling(w))
      && Find(status.conditions, TypeDegraded) ==
           if recorded then Some(Stamp(u, w.generation))
           else Find(w.status.conditions, TypeDegraded)
  {
    ConditionTypesDistinct();
    WithConditionFinds(w, MarkProgressing);
    WithConditionFinds(Marked(w), u);
  }

  /**
   * After a failed Deployment sync the stored WebApp differs only in status:
   * Progressing is True with reason Reconciling, Degraded is True with
   * reason DeploymentFailed and the error's message when that write lands,
   * both stamped with the generation; availableReplicas and Available are not projected.
   */
  lemma DeploymentFailureStatus(st: StoreState, key: NamespacedName, faults: Faults)
    requires Valid(st) && FetchWebApp !in faults && Live(st, key)
    requires StatusWrite(TypeProgressing, "Reconciling") !in faults
    requires ChildFaulted(DeploymentChild, key in st.deployments, faults)
    ensures var r := ReconcileSpec(st, key, faults);
      var w := st.webapps[key];
      && r.out.err.Some? && r.out.err.value.ChildSyncFailed?
      && key in r.st.webapps
      && r.st.webapps == st.webapps[key := w.(status := r.st.webapps[key].status)]
      && var status := r.st.webapps[key].status;
      && status.availableReplicas == w.status.availableReplicas
      && Find(status.conditions, TypeAvailable) == Find(w.status.conditions, TypeAvailable)
      && Find(status.conditions, TypeProgressing) == Some(Reconciling(w))
      && Find(status.conditions, TypeDegraded) ==
           if StatusWrite(TypeDegraded, "DeploymentFailed") in faults then Find(w.status.conditions, TypeDegraded)
           else Some(Condition(TypeDegraded, ConditionTrue, "DeploymentFailed",
                  SyncErrorMessage(DeploymentChild, r.out.err.value.cause), w.generation))
  {
    var w := st.webapps[key];
    DeploymentFailureTrace(st, key, faults);
    var p := SetConditionSpec(st, w, MarkProgressing, faults);
    var d := SyncDeploymentSpec(p.st, p.webapp, faults);
    MarkThenDegrade(st, d.st, w, DegradedUpdate(DeploymentChild, d.err.value), faults);
    MarkedThenDegradedFinds(w, DegradedUpdate(DeploymentChild, d.err.value), StatusWrite(TypeDegraded, "DeploymentFailed") !in faults);
  }

  /**
   * After a failed Service sync the stored WebApp differs only in status:
   * Progressing is True with reason Reconciling, Degraded is True with
   * reason ServiceFailed when that write lands, and nothing is projected.
   */
  lemma ServiceFailureStatus(st: StoreState, key: NamespacedName, faults: Faults)
    requires Valid(st) && FetchWebApp !in faults && Live(st, key)
    requires StatusWrite(TypeProgressing, "Reconciling") !in faults
    requires !ChildFaulted(DeploymentChild, key in st.deployments, faults)
    requires ChildFaulted(ServiceChild, key in st.services, faults)
    ensures var r := ReconcileSpec(st, key, faults);
      var w := st.webapps[key];
      && r.out.err.Some? && r.out.err.value.ChildSyncFailed?
      && key in r.st.webapps
      && r.st.webapps == st.webapps[key := w.(status := r.st.webapps[key].status)]
      && var status := r.st.webapps[key].status;
      && status.availableReplicas == w.status.availableReplicas
      && Find(status.conditions, TypeAvailable) == Find(w.status.conditions, TypeAvailable)
      && Find(status.conditions, TypeProgressing) == Some(Reconciling(w))
      && Find(status.conditions, TypeDegraded) ==
           if StatusWrite(TypeDegraded, "ServiceFailed") in faults then Find(w.status.conditions, TypeDegraded)
           else Some(Condition(TypeDegraded, ConditionTrue, "ServiceFailed",
                  SyncErrorMessage(ServiceChild, r.out.err.value.cause), w.generation))
  {
    var w := st.webapps[key];
    var m := Marked(w);
    ServiceFailureTrace(st, key, faults);
    var d := MarkedAndDeployed(st, m);
    var e := SyncServiceSpec(d, m, faults).err.value;
    assert d.webapps == SetConditionSpec(st, w, MarkProgressing, faults).st.webapps;
    MarkThenDegrade(st, d, w, DegradedUpdate(ServiceChild, e), faults);
    MarkedThenDegradedFinds(w, DegradedUpdate(ServiceChild, e), StatusWrite(TypeDegraded, "ServiceFailed") !in faults);
  }

  // ---------------------------------------------------------------------------
  // A pass without faults
  // ---------------------------------------------------------------------------

  /**
   * The in-memory WebApp at the end of a pass without faults: marked
   * Progressing, available count copied from the Deployment, then Available,
   * Progressing=False and Degraded=False recorded.
   */
  function Projected(w: WebApp, n: int): (r: WebApp)
    ensures r == w.(status := r.status)
  {
    Projection(Marked(w), n)
  }

  /** The projection of availableReplicas n and the three conditions onto w. */
  function Projection(w: WebApp, n: int): (r: WebApp)
    ensures r == w.(status := r.status)
  {
    var w2 := w.(status := w.status.(availableReplicas := n));
    WithCondition(WithCondition(WithCondition(w2, AvailableUpdate(n)), ClearProgressing), ClearDegraded)
  }

  /** The three status writes of the projection onto w, in order. */
  function ProjectionWrites(k: NamespacedName, w: WebApp, n: int): (ws: seq<Write>)
    ensures |ws| == 3 && ws[0].StatusUpdated? && ws[1].StatusUpdated?
    ensures ws[2] == StatusUpdated(k, Projection(w, n).status)
  {
    var w2 := w.(status := w.status.(availableReplicas := n));
    var w3 := WithCondition(w2, AvailableUpdate(n));
    var w4 := WithCondition(w3, ClearProgressing);
    [StatusUpdated(k, w3.status), StatusUpdated(k, w4.status), StatusUpdated(k, WithCondition(w4, ClearDegraded).status)]
  }

  /**
   * What the projection records: availableReplicas is n; Available follows
   * the decision table; Progressing and Degraded are False with reason
   * ReconcileComplete; all three are stamped with the generation; every other
   * condition type is as it was; and the list-map invariant is kept.
   */
  lemma ProjectedStatus(w: WebApp, n: int)
    ensures var s := Projected(w, n).status;
      var a := AvailableUpdate(n);
      && Projected(w, n) == w.(status := s)
      && s.availableReplicas == n
      && Find(s.conditions, TypeAvailable) == Some(Condition(TypeAvailable, a.status, a.reason, a.message, w.generation))
      && Find(s.conditions, TypeProgressing) ==
           Some(Condition(TypeProgressing, ConditionFalse, "ReconcileComplete", "reconciliation complete", w.generation))
      && Find(s.conditions, TypeDegraded) ==
           Some(Condition(TypeDegraded, ConditionFalse, "ReconcileComplete", "no errors", w.generation))
      && (forall t :: t != TypeAvailable && t != TypeProgressing && t != TypeDegraded ==>
            Find(s.conditions, t) == Find(w.status.conditions, t))
      && (ValidStatus(w.status) ==> ValidStatus(s))
  {
    ConditionTypesDistinct();
    var w1 := Marked(w);
    var w2 := w1.(status := w1.status.(availableReplicas := n));
    var w3 := WithCondition(w2, AvailableUpdate(n));
    var w4 := WithCondition(w3, ClearProgressing);
    WithConditionFinds(w, MarkProgressing);
    WithConditionFinds(w2, AvailableUpdate(n));
    WithConditionFinds(w3, ClearProgressing);
    WithConditionFinds(w4, ClearDegraded);
    if ValidStatus(w.status) {
      WithConditionKeepsUniqueTypes(w, MarkProgressing);
      WithConditionKeepsUniqueTypes(w2, AvailableUpdate(n));
      WithConditionKeepsUniqueTypes(w3, ClearProgressing);
      WithConditionKeepsUniqueTypes(w4, ClearDegraded);
    }
  }

  /** Deployment sync without a fault of its own lands the synced Deployment with its write. */
  lemma DeploymentSyncLands(st: StoreState, w: WebApp, faults: Faults)
    requires Valid(st) && !ChildFaulted(DeploymentChild, w.Key() in st.deployments, faults)
    ensures SyncDeploymentSpec(st, w, faults) == SyncStep(
      st.(deployments := st.deployments[w.Key() := SyncedDeployment(st, w)],
          log := st.log + [DeploymentWrite(st, w)]), None)
  {
    var k := w.Key();
    if k in st.deployments {
      var m := MergeDeployment(st.deployments[k], OwnedDeployment(w));
      assert m.(status := st.deployments[k].status) == m;
    }
  }

  /** Service sync without a fault of its own lands the synced Service with its write. */
  lemma ServiceSyncLands(st: StoreState, w: WebApp, faults: Faults)
    requires Valid(st) && !ChildFaulted(ServiceChild, w.Key() in st.services, faults)
    ensures SyncServiceSpec(st, w, faults) == SyncStep(
      st.(services := st.services[w.Key() := SyncedService(st, w)],
          log := st.log + [ServiceWrite(st, w)]), None)
  {
  }

  /** Deployment sync reads only the WebApp's identity and spec, and the stored Deployments. */
  lemma DeploymentSyncIgnoresStatus(st: StoreState, st': StoreState, w: WebApp, m: WebApp)
    requires Valid(st) && Valid(st') && st'.deployments == st.deployments && m == w.(status := m.status)
    ensures SyncedDeployment(st', m) == SyncedDeployment(st, w)
    ensures DeploymentWrite(st', m) == DeploymentWrite(st, w)
  {
    assert OwnedDeployment(m) == OwnedDeployment(w);
  }

  /** Service sync reads only the WebApp's identity and spec, and the stored Services. */
  lemma ServiceSyncIgnoresStatus(st: StoreState, st': StoreState, w: WebApp, m: WebApp)
    requires Valid(st) && Valid(st') && st'.services == st.services && m == w.(status := m.status)
    ensures SyncedService(st', m) == SyncedService(st, w)
    ensures ServiceWrite(st', m) == ServiceWrite(st, w)
  {
    assert OwnedService(m) == OwnedService(w);
  }

  /** The store after the mark m of a WebApp's status and the Deployment sync, without faults. */
  function MarkedAndDeployed(st: StoreState, m: WebApp): (s: StoreState)
    requires Valid(st) && m.Key() in st.webapps
    ensures Valid(s) && s.services == st.services
  {
    var p := ApplyStatusUpdate(st, m);
    assert Valid(p);
    p.(deployments := p.deployments[m.Key() := SyncedDeployment(p, m)],
       log := p.log + [DeploymentWrite(p, m)])
  }

  /** The store after the mark m and both child syncs, without faults. */
  function SyncedStore(st: StoreState, m: WebApp): StoreState
    requires Valid(st) && m.Key() in st.webapps
  {
    var d := MarkedAndDeployed(st, m);
    d.(services := d.services[m.Key() := SyncedService(d, m)],
       log := d.log + [ServiceWrite(d, m)])
  }

  /** MarkedAndDeployed spelled out for the mark of w. */
  lemma MarkedAndDeployedContents(st: StoreState, w: WebApp)
    requires Valid(st) && w.Key() in st.webapps
    ensures var d := MarkedAndDeployed(st, Marked(w));
      var k := w.Key();
      && d.webapps == st.webapps[k := st.webapps[k].(status := Marked(w).status)]
      && d.deployments == st.deployments[k := SyncedDeployment(st, w)]
      && d.services == st.services
      && d.log == st.log + [StatusUpdated(k, Marked(w).status), DeploymentWrite(st, w)]
  {
    var m := Marked(w);
    DeploymentSyncIgnoresStatus(st, ApplyStatusUpdate(st, m), w, m);
  }

  /**
   * SyncedStore spelled out for the mark of w: the marked status, the
   * synced Deployment and Service under w's key, and the three writes.
   */
  lemma SyncedStoreContents(st: StoreState, w: WebApp)
    requires Valid(st) && w.Key() in st.webapps
    ensures var s := SyncedStore(st, Marked(w));
      var k := w.Key();
      && s.webapps == st.webapps[k := st.webapps[k].(status := Marked(w).status)]
      && s.deployments == st.deployments[k := SyncedDeployment(st, w)]
      && s.services == st.services[k := SyncedService(st, w)]
      && s.log == st.log + [StatusUpdated(k, Marked(w).status), DeploymentWrite(st, w), ServiceWrite(st, w)]
  {
    var m := Marked(w);
    MarkedAndDeployedContents(st, w);
    ServiceSyncIgnoresStatus(st, MarkedAndDeployed(st, m), w, m);
  }

  /** The steady-state branch without faults ends with the projection over SyncedStore. */
  lemma ConvergeWithoutFaults(st: StoreState, w: WebApp)
    requires Valid(st) && w.Key() in st.webapps
    ensures ConvergeSpec(st, w, {}) == ProjectStatusSpec(SyncedStore(st, Marked(w)), Marked(w), {})
  {
    var m := Marked(w);
    var p := SetConditionSpec(st, w, MarkProgressing, {});
    assert p == StatusStep(ApplyStatusUpdate(st, m), m, true);
    DeploymentSyncLands(p.st, m, {});
    var d := SyncDeploymentSpec(p.st, m, {});
    assert d == SyncStep(MarkedAndDeployed(st, m), None);
    ServiceSyncLands(d.st, m, {});
    ConvergeReachesProjection(st, w, {}, p, d, SyncServiceSpec(d.st, m, {}));
  }

  /** The steady-state branch ends with the projection once the mark and both syncs succeeded. */
  lemma ConvergeReachesProjection(st: StoreState, w: WebApp, faults: Faults, p: StatusStep, d: SyncStep, s: SyncStep)
    requires Valid(st)
    requires p == SetConditionSpec(st, w, MarkProgressing, faults) && p.ok
    requires d == SyncDeploymentSpec(p.st, p.webapp, faults) && d.err.None?
    requires s == SyncServiceSpec(d.st, p.webapp, faults) && s.err.None?
    ensures ConvergeSpec(st, w, faults) == ProjectStatusSpec(s.st, p.webapp, faults)
  {
  }

  /**
   * The shape of a pass without faults on a live WebApp: Progressing is
   * marked, both children are synced, and the pass ends with the status projection.
   */
  lemma SuccessTrace(st: StoreState, key: NamespacedName)
    requires Valid(st) && Live(st, key)
    ensures ReconcileSpec(st, key, {}) == ProjectStatusSpec(SyncedStore(st, Marked(st.webapps[key])), Marked(st.webapps[key]), {})
  {
    ConvergeWithoutFaults(st, st.webapps[key]);
  }

  /**
   * The projection without faults writes Available, Progressing and Degraded
   * in that order, stores the projected status, and asks for the periodic requeue.
   */
  lemma ProjectWithoutFaults(st: StoreState, w: WebApp, n: int)
    requires w.Key() in st.webapps && w.Key() in st.deployments
    requires n == st.deployments[w.Key()].status.availableReplicas
    ensures var r := ProjectStatusSpec(st, w, {});
      var k := w.Key();
      && r.out == Done(Result(false, RequeueAfter))
      && r.st == st.(webapps := st.webapps[k := st.webapps[k].(status := Projection(w, n).status)],
                     log := st.log + ProjectionWrites(k, w, n))
  {
    var w2 := w.(status := w.status.(availableReplicas := n));
    var a := SetConditionSpec(st, w2, AvailableUpdate(n), {});
    var p := SetConditionSpec(a.st, a.webapp, ClearProgressing, {});
    var d := SetConditionSpec(p.st, p.webapp, ClearDegraded, {});
    assert ProjectStatusSpec(st, w, {}) ==
      After(ApplyStatusUpdate(ApplyStatusUpdate(ApplyStatusUpdate(st, a.webapp), p.webapp), d.webapp),
            Done(Result(false, RequeueAfter)));
    ThreeStatusUpdates(st, a.webapp, p.webapp, d.webapp);
  }

  /** Storing the projected status over the marked one leaves the WebApp projected and no other changed. */
  lemma ProjectedWebApps(st: StoreState, w: WebApp, n: int)
    requires w.Key() in st.webapps && st.webapps[w.Key()] == w
    ensures var k := w.Key();
      var s := st.webapps[k := st.webapps[k].(status := Marked(w).status)];
      s[k := s[k].(status := Projected(w, n).status)] == st.webapps[k := Projected(w, n)]
  {
  }

  /** A log that grew by a, b, c and then three more writes ys extends the old one by those six. */
  lemma SixWrites(st: StoreState, st': StoreState, a: Write, b: Write, c: Write, ys: seq<Write>)
    requires st'.log == st.log + [a, b, c] + ys && |ys| == 3
    ensures Extends(st, st')
    ensures var ws := NewWrites(st, st');
      && |ws| == 6 && ws[0] == a && ws[1] == b && ws[2] == c
      && ws[3] == ys[0] && ws[4] == ys[1] && ws[5] == ys[2]
  {
    assert st'.log == st.log + ([a, b, c] + ys);
  }

  /**
   * A pass without faults on a live WebApp succeeds and asks for the
   * periodic requeue after one minute; it leaves the synced Deployment and
   * Service under the WebApp's key and changes no other child.
   */
  lemma SuccessfulPassChildren(st: StoreState, key: NamespacedName)
    requires Valid(st) && Live(st, key)
    ensures var r := ReconcileSpec(st, key, {});
      var w := st.webapps[key];
      && r.out == Done(Result(false, RequeueAfter))
      && r.out.result.requeueAfter == Minute
      && r.st.deployments == st.deployments[key := SyncedDeployment(st, w)]
      && r.st.services == st.services[key := SyncedService(st, w)]
  {
    var w := st.webapps[key];
    SuccessTrace(st, key);
    SyncedStoreContents(st, w);
    ProjectWithoutFaults(SyncedStore(st, Marked(w)), Marked(w), SyncedDeployment(st, w).status.availableReplicas);
  }

  /**
   * A pass without faults on a live WebApp stores exactly the projected
   * status and changes nothing else about any WebApp; availableReplicas is
   * the synced Deployment's.
   */
  lemma SuccessfulPassStatus(st: StoreState, key: NamespacedName)
    requires Valid(st) && Live(st, key)
    ensures var r := ReconcileSpec(st, key, {});
      var w := st.webapps[key];
      var n := SyncedDeployment(st, w).status.availableReplicas;
      && r.st.webapps == st.webapps[key := Projected(w, n)]
      && (key in st.deployments ==> n == st.deployments[key].status.availableReplicas)
      && (key !in st.deployments ==> n == 0)
  {
    var w := st.webapps[key];
    SuccessTrace(st, key);
    SyncedStoreContents(st, w);
    ProjectWithoutFaults(SyncedStore(st, Marked(w)), Marked(w), SyncedDeployment(st, w).status.availableReplicas);
    ProjectedWebApps(st, w, SyncedDeployment(st, w).status.availableReplicas);
  }

  /**
   * A pass without faults on a live WebApp writes, in order: the Progressing
   * mark, the Deployment, the Service, then Available, Progressing and
   * Degraded, the last carrying the projected status.
   */
  lemma SuccessfulPassLog(st: StoreState, key: NamespacedName)
    requires Valid(st) && Live(st, key)
    ensures var r := ReconcileSpec(st, key, {});
      var w := st.webapps[key];
      var n := SyncedDeployment(st, w).status.availableReplicas;
      && Extends(st, r.st)
      && var ws := NewWrites(st, r.st);
      && |ws| == 6
      && ws[0] == StatusUpdated(key, Marked(w).status)
      && ws[1] == DeploymentWrite(st, w)
      && ws[2] == ServiceWrite(st, w)
      && ws[3].StatusUpdated? && ws[4].StatusUpdated? && ws[5] == StatusUpdated(key, Projected(w, n).status)
  {
    var w := st.webapps[key];
    var n := SyncedDeployment(st, w).status.availableReplicas;
    SuccessTrace(st, key);
    SyncedStoreContents(st, w);
    ProjectWithoutFaults(SyncedStore(st, Marked(w)), Marked(w), n);
    SixWrites(st, ReconcileSpec(st, key, {}).st,
      StatusUpdated(key, Marked(w).status), DeploymentWrite(st, w), ServiceWrite(st, w),
      ProjectionWrites(key, Marked(w), n));
  }

  // ---------------------------------------------------------------------------
  // The periodic requeue is a fixed point
  // ---------------------------------------------------------------------------

  /** Projecting the same available count onto a projected WebApp gives it back. */
  lemma ProjectedTwice(w: WebApp, n: int)
    ensures Projected(Projected(w, n), n) == Projected(w, n)
  {
    var s := Projected(w, n);
    var cs := s.status.conditions;
    ProjectedStatus(w, n);
    ConditionTypesDistinct();
    var a := AvailableUpdate(n);
    var pTrue := Reconciling(w);
    var aCond := Stamp(a, w.generation);
    var pFalse := Stamp(ClearProgressing, w.generation);
    var dFalse := Stamp(ClearDegraded, w.generation);
    var cs1 := Upsert(cs, pTrue);
    FindAfterUpsert(cs, pTrue, TypeAvailable);
    UpsertFound(cs1, aCond);
    UpsertOverrides(cs, pTrue, pFalse);
    UpsertFound(cs, pFalse);
    UpsertFound(cs, dFalse);
    assert Projected(s, n).status.conditions == cs;
  }

  /** Syncing the Deployment again over the synced one writes the same Deployment. */
  lemma DeploymentResyncIsNoOp(st: StoreState, st': StoreState, w: WebApp)
    requires Valid(st) && Valid(st')
    requires st'.deployments == st.deployments[w.Key() := SyncedDeployment(st, w)]
    ensures SyncedDeployment(st', w) == SyncedDeployment(st, w)
  {
    var k := w.Key();
    if k in st.deployments {
      MergeDeploymentIdempotent(st.deployments[k], OwnedDeployment(w));
    } else {
      MergeDeploymentConverges(OwnedDeployment(w), OwnedDeployment(w));
    }
  }

  /** Syncing the Service again over the synced one writes the same Service. */
  lemma ServiceResyncIsNoOp(st: StoreState, st': StoreState, w: WebApp)
    requires Valid(st) && Valid(st')
    requires st'.services == st.services[w.Key() := SyncedService(st, w)]
    ensures SyncedService(st', w) == SyncedService(st, w)
  {
    var k := w.Key();
    if k in st.services {
      MergeServiceConverges(st.services[k], OwnedService(w));
    } else {
      MergeServiceConverges(OwnedService(w), OwnedService(w));
    }
  }

  /** A pass without faults leaves its WebApp live and the store valid. */
  lemma SuccessfulPassStaysLive(st: StoreState, key: NamespacedName)
    requires Valid(st) && Live(st, key)
    ensures var r := ReconcileSpec(st, key, {});
      var w := st.webapps[key];
      var n := SyncedDeployment(st, w).status.availableReplicas;
      && Valid(r.st) && Live(r.st, key) && r.st.webapps[key] == Projected(w, n)
  {
    ReconcilePreservesValid(st, key, {});
    SuccessfulPassStatus(st, key);
  }

  /** Syncing both children again over synced ones, for a WebApp with the same identity and spec, changes neither. */
  lemma ResyncKeepsChildren(st: StoreState, r1: StoreState, r2: StoreState, w: WebApp, w': WebApp)
    requires Valid(st) && Valid(r1) && w' == w.(status := w'.status)
    requires r1.deployments == st.deployments[w.Key() := SyncedDeployment(st, w)]
    requires r1.services == st.services[w.Key() := SyncedService(st, w)]
    requires r2.deployments == r1.deployments[w.Key() := SyncedDeployment(r1, w')]
    requires r2.services == r1.services[w.Key() := SyncedService(r1, w')]
    ensures r2.deployments == r1.deployments && r2.services == r1.services
  {
    DeploymentSyncIgnoresStatus(r1, r1, w, w');
    DeploymentResyncIsNoOp(st, r1, w);
    ServiceSyncIgnoresStatus(r1, r1, w, w');
    ServiceResyncIsNoOp(st, r1, w);
  }

  /** Syncing again over the synced Deployment reads the same available count. */
  lemma SyncedCountKept(st: StoreState, r1: StoreState, w: WebApp, p: WebApp)
    requires Valid(st) && Valid(r1) && p == w.(status := p.status)
    requires r1.deployments == st.deployments[w.Key() := SyncedDeployment(st, w)]
    ensures SyncedDeployment(r1, p).status == SyncedDeployment(st, w).status
  {
    DeploymentSyncIgnoresStatus(r1, r1, w, p);
    DeploymentResyncIsNoOp(st, r1, w);
  }

  /** Storing the value already stored under k leaves the map as it was. */
  lemma StoreSameWebApp(m: map<NamespacedName, WebApp>, m': map<NamespacedName, WebApp>, k: NamespacedName, v: WebApp)
    requires k in m && m[k] == v && m' == m[k := v]
    ensures m' == m
  {
  }

  /** Projecting again over a projected WebApp, from the same synced Deployment, changes no WebApp. */
  lemma ReprojectKeepsWebApps(st: StoreState, r1: StoreState, r2: StoreState, w: WebApp, n: int)
    requires Valid(st) && Valid(r1)
    requires r1.deployments == st.deployments[w.Key() := SyncedDeployment(st, w)]
    requires n == SyncedDeployment(st, w).status.availableReplicas
    requires w.Key() in r1.webapps && r1.webapps[w.Key()] == Projected(w, n)
    requires r2.webapps == r1.webapps[w.Key() :=
      Projected(Projected(w, n), SyncedDeployment(r1, Projected(w, n)).status.availableReplicas)]
    ensures r2.webapps == r1.webapps
  {
    var p := Projected(w, n);
    SyncedCountKept(st, r1, w, p);
    ProjectedTwice(w, n);
    StoreSameWebApp(r1.webapps, r2.webapps, w.Key(), Projected(p, SyncedDeployment(r1, p).status.availableReplicas));
  }

  /**
   * The pass the periodic requeue triggers, without faults, over the store
   * a pass without faults left: it returns the same outcome and leaves the
   * same Deployment and Service.
   */
  lemma SecondPassKeepsChildren(st: StoreState, key: NamespacedName)
    requires Valid(st) && Live(st, key)
    ensures var r := ReconcileSpec(st, key, {});
      && Valid(r.st)
      && var r2 := ReconcileSpec(r.st, key, {});
      && r2.out == r.out
      && r2.st.deployments == r.st.deployments
      && r2.st.services == r.st.services
  {
    var w := st.webapps[key];
    var r := ReconcileSpec(st, key, {});
    SuccessfulPassStaysLive(st, key);
    SuccessfulPassChildren(st, key);
    SuccessfulPassChildren(r.st, key);
    ResyncKeepsChildren(st, r.st, ReconcileSpec(r.st, key, {}).st, w, r.st.webapps[key]);
  }

  /** That second pass also leaves every WebApp as the first pass left it. */
  lemma SecondPassKeepsWebApps(st: StoreState, key: NamespacedName)
    requires Valid(st) && Live(st, key)
    ensures var r := ReconcileSpec(st, key, {});
      && Valid(r.st)
      && ReconcileSpec(r.st, key, {}).st.webapps == r.st.webapps
  {
    var w := st.webapps[key];
    var n := SyncedDeployment(st, w).status.availableReplicas;
    var r := ReconcileSpec(st, key, {});
    SuccessfulPassStaysLive(st, key);
    SuccessfulPassChildren(st, key);
    SuccessfulPassStatus(r.st, key);
    ReprojectKeepsWebApps(st, r.st, ReconcileSpec(r.st, key, {}).st, w, n);
  }
}
