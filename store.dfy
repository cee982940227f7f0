/**
 * An in-memory object store standing in for the API server: WebApps,
 * Deployments and Services keyed by namespace and name, and a log of every
 * write that landed. A failure oracle decides per call whether the call fails;
 * a failed call changes nothing.
 */
module ClusterStore {
  import opened Kube
  import opened WebAppTypes

  /** One write that landed in the store. */
  datatype Write =
    | WebAppUpdated(key: NamespacedName, finalizers: set<string>, spec: WebAppSpec)
    | StatusUpdated(key: NamespacedName, status: WebAppStatus)
    | DeploymentCreated(key: NamespacedName, deployment: Deployment)
    | DeploymentUpdated(key: NamespacedName, deployment: Deployment)
    | ServiceCreated(key: NamespacedName, service: Service)
    | ServiceUpdated(key: NamespacedName, service: Service)
  {
    /** A write to a Deployment or a Service. */
    predicate IsChildWrite() {
      DeploymentCreated? || DeploymentUpdated? || ServiceCreated? || ServiceUpdated?
    }
  }

  datatype StoreState = StoreState(
    webapps: map<NamespacedName, WebApp>,
    deployments: map<NamespacedName, Deployment>,
    services: map<NamespacedName, Service>,
    log: seq<Write>)

  /** Every object is stored under its own identity. */
  predicate WellKeyed(st: StoreState) {
    && (forall k :: k in st.webapps ==> st.webapps[k].Key() == k)
    && (forall k :: k in st.deployments ==> st.deployments[k].Key() == k)
    && (forall k :: k in st.services ==> st.services[k].Key() == k)
  }

  /**
   * The store invariant: objects are well keyed and every Deployment has a
   * container, the operator's standing assumption when it edits the first one.
   */
  predicate Valid(st: StoreState) {
    && WellKeyed(st)
    && (forall k :: k in st.deployments ==> |st.deployments[k].spec.template.containers| >= 1)
  }

  /** The outcome of a read. */
  datatype Fetched<T> = Found(obj: T) | NotFound | FetchFailed

  function Lookup<T>(m: map<NamespacedName, T>, k: NamespacedName, fail: bool): (r: Fetched<T>)
    ensures r.Found? <==> !fail && k in m
    ensures r.Found? ==> r.obj == m[k]
    ensures r.NotFound? <==> !fail && k !in m
  {
    if fail then FetchFailed else if k in m then Found(m[k]) else NotFound
  }

  /**
   * An update of a WebApp's main resource: finalizers and spec are written,
   * the stored status is kept, and the generation grows when the spec
   * changes. A WebApp whose deletion was requested and that has no finalizer
   * left is removed from the store.
   */
  function ApplyUpdate(st: StoreState, w: WebApp): StoreState
    requires w.Key() in st.webapps
  {
    var k := w.Key();
    var cur := st.webapps[k];
    var gen := if w.spec != cur.spec then cur.generation + 1 else cur.generation;
    var stored := cur.(finalizers := w.finalizers, spec := w.spec, generation := gen);
    var log := st.log + [WebAppUpdated(k, w.finalizers, w.spec)];
    if stored.deletionRequested && stored.finalizers == {} then
      st.(webapps := st.webapps - {k}, log := log)
    else
      st.(webapps := st.webapps[k := stored], log := log)
  }

  /** A write through the status subresource: only the status is written. */
  function ApplyStatusUpdate(st: StoreState, w: WebApp): StoreState
    requires w.Key() in st.webapps
  {
    var k := w.Key();
    st.(webapps := st.webapps[k := st.webapps[k].(status := w.status)],
        log := st.log + [StatusUpdated(k, w.status)])
  }

  /**
   * Status writes to one WebApp in a row: the last status wins, and every
   * write is logged in order.
   */
  lemma StatusUpdatesCompose(st: StoreState, a: WebApp, b: WebApp)
    requires a.Key() == b.Key() && a.Key() in st.webapps
    ensures var k := a.Key();
      ApplyStatusUpdate(ApplyStatusUpdate(st, a), b) ==
        st.(webapps := st.webapps[k := st.webapps[k].(status := b.status)],
            log := st.log + [StatusUpdated(k, a.status), StatusUpdated(k, b.status)])
  {
    var k := a.Key();
    assert ApplyStatusUpdate(ApplyStatusUpdate(st, a), b).webapps[k] == st.webapps[k].(status := b.status);
  }

  lemma ThreeStatusUpdates(st: StoreState, a: WebApp, b: WebApp, c: WebApp)
    requires a.Key() == b.Key() == c.Key() && a.Key() in st.webapps
    ensures var k := a.Key();
      ApplyStatusUpdate(ApplyStatusUpdate(ApplyStatusUpdate(st, a), b), c) ==
        st.(webapps := st.webapps[k := st.webapps[k].(status := c.status)],
            log := st.log + [StatusUpdated(k, a.status), StatusUpdated(k, b.status), StatusUpdated(k, c.status)])
  {
    var k := a.Key();
    StatusUpdatesCompose(st, a, b);
    var st2 := ApplyStatusUpdate(ApplyStatusUpdate(st, a), b);
    assert ApplyStatusUpdate(st2, c).webapps[k] == st.webapps[k].(status := c.status);
    assert ApplyStatusUpdate(st2, c).log == st.log + [StatusUpdated(k, a.status), StatusUpdated(k, b.status), StatusUpdated(k, c.status)];
  }

  /** b is reached from a by status writes alone: no child changes and only StatusUpdated entries appended. */
  predicate OnlyStatusWrites(a: StoreState, b: StoreState) {
    && b.deployments == a.deployments && b.services == a.services
    && |a.log| <= |b.log| && b.log[..|a.log|] == a.log
    && (forall i :: |a.log| <= i < |b.log| ==> b.log[i].StatusUpdated?)
  }

  lemma OnlyStatusWritesTrans(a: StoreState, b: StoreState, c: StoreState)
    requires OnlyStatusWrites(a, b) && OnlyStatusWrites(b, c)
    ensures OnlyStatusWrites(a, c)
  {
    assert c.log[..|a.log|] == c.log[..|b.log|][..|a.log|];
    forall i | |a.log| <= i < |c.log|
      ensures c.log[i].StatusUpdated?
    {
      if i < |b.log| {
        assert c.log[i] == c.log[..|b.log|][i];
      }
    }
  }

  function ApplyCreateDeployment(st: StoreState, d: Deployment): StoreState {
    st.(deployments := st.deployments[d.Key() := d],
        log := st.log + [DeploymentCreated(d.Key(), d)])
  }

  /** An update of a Deployment; its status belongs to the status subresource and is kept. */
  function ApplyUpdateDeployment(st: StoreState, d: Deployment): StoreState
    requires d.Key() in st.deployments
  {
    var stored := d.(status := st.deployments[d.Key()].status);
    st.(deployments := st.deployments[d.Key() := stored],
        log := st.log + [DeploymentUpdated(d.Key(), stored)])
  }

  function ApplyCreateService(st: StoreState, s: Service): StoreState {
    st.(services := st.services[s.Key() := s],
        log := st.log + [ServiceCreated(s.Key(), s)])
  }

  function ApplyUpdateService(st: StoreState, s: Service): StoreState {
    st.(services := st.services[s.Key() := s],
        log := st.log + [ServiceUpdated(s.Key(), s)])
  }

  /** The store itself; each method takes the oracle's verdict for its call as fail. */
  class Store {
    var webapps: map<NamespacedName, WebApp>
    var deployments: map<NamespacedName, Deployment>
    var services: map<NamespacedName, Service>
    var log: seq<Write>

    function State(): StoreState
      reads this
    {
      StoreState(webapps, deployments, services, log)
    }

    constructor (st: StoreState)
      ensures State() == st
    {
      webapps, deployments, services, log := st.webapps, st.deployments, st.services, st.log;
    }

    method GetWebApp(k: NamespacedName, fail: bool) returns (r: Fetched<WebApp>)
      ensures r == Lookup(webapps, k, fail)
    {
      r := if fail then FetchFailed else if k in webapps then Found(webapps[k]) else NotFound;
    }

    method GetDeployment(k: NamespacedName, fail: bool) returns (r: Fetched<Deployment>)
      ensures r == Lookup(deployments, k, fail)
    {
      r := if fail then FetchFailed else if k in deployments then Found(deployments[k]) else NotFound;
    }

    method GetService(k: NamespacedName, fail: bool) returns (r: Fetched<Service>)
      ensures r == Lookup(services, k, fail)
    {
      r := if fail then FetchFailed else if k in services then Found(services[k]) else NotFound;
    }

    /** Update of the main resource; fails when the oracle says so or the object is gone. */
    method Update(w: WebApp, fail: bool) returns (ok: bool)
      modifies this
      ensures ok == (!fail && w.Key() in old(webapps))
      ensures State() == if ok then ApplyUpdate(old(State()), w) else old(State())
    {
      ok := !fail && w.Key() in webapps;
      if ok {
        var st := ApplyUpdate(State(), w);
        webapps, log := st.webapps, st.log;
      }
    }

    /** Update through the status subresource. */
    method UpdateStatus(w: WebApp, fail: bool) returns (ok: bool)
      modifies this
      ensures ok == (!fail && w.Key() in old(webapps))
      ensures State() == if ok then ApplyStatusUpdate(old(State()), w) else old(State())
    {
      ok := !fail && w.Key() in webapps;
      if ok {
        webapps := webapps[w.Key() := webapps[w.Key()].(status := w.status)];
        log := log + [StatusUpdated(w.Key(), w.status)];
      }
    }

    /** Creation; fails when the oracle says so or the object already exists. */
    method CreateDeployment(d: Deployment, fail: bool) returns (ok: bool)
      modifies this
      ensures ok == (!fail && d.Key() !in old(deployments))
      ensures State() == if ok then ApplyCreateDeployment(old(State()), d) else old(State())
    {
      ok := !fail && d.Key() !in deployments;
      if ok {
        deployments := deployments[d.Key() := d];
        log := log + [DeploymentCreated(d.Key(), d)];
      }
    }

    method UpdateDeployment(d: Deployment, fail: bool) returns (ok: bool)
      modifies this
      ensures ok == (!fail && d.Key() in old(deployments))
      ensures State() == if ok then ApplyUpdateDeployment(old(State()), d) else old(State())
    {
      ok := !fail && d.Key() in deployments;
      if ok {
        var stored := d.(status := deployments[d.Key()].status);
        deployments := deployments[d.Key() := stored];
        log := log + [DeploymentUpdated(d.Key(), stored)];
      }
    }

    method CreateService(s: Service, fail: bool) returns (ok: bool)
      modifies this
      ensures ok == (!fail && s.Key() !in old(services))
      ensures State() == if ok then ApplyCreateService(old(State()), s) else old(State())
    {
      ok := !fail && s.Key() !in services;
      if ok {
        services := services[s.Key() := s];
        log := log + [ServiceCreated(s.Key(), s)];
      }
    }

    method UpdateService(s: Service, fail: bool) returns (ok: bool)
      modifies this
      ensures ok == (!fail && s.Key() in old(services))
      ensures State() == if ok then ApplyUpdateService(old(State()), s) else old(State())
    {
      ok := !fail && s.Key() in services;
      if ok {
        services := services[s.Key() := s];
        log := log + [ServiceUpdated(s.Key(), s)];
      }
    }
  }
}
