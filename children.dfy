/**
 * The pure half of child synchronisation: the labels, the desired shape of
 * the Deployment and the Service computed from a WebApp, and the selective
 * merges that overwrite only the fields the operator owns on an existing child.
 */
module Children {
  import opened Kube
  import opened WebAppTypes

  const NameLabel: string := "app.kubernetes.io/name"
  const InstanceLabel: string := "app.kubernetes.io/instance"
  const ManagedByLabel: string := "app.kubernetes.io/managed-by"

  const ContainerName: string := "webapp"

  /** The standard labels applied to everything managed for the WebApp called name. */
  function LabelsFor(name: string): (l: map<string, string>)
    ensures l.Keys == {NameLabel, InstanceLabel, ManagedByLabel}
    ensures l[NameLabel] == "webapp"
    ensures l[InstanceLabel] == name
    ensures l[ManagedByLabel] == "platform-operator"
  {
    map[NameLabel := "webapp", InstanceLabel := name, ManagedByLabel := "platform-operator"]
  }

  /** Distinct WebApp names give distinct label sets, so selectors never overlap. */
  lemma LabelsInjective(a: string, b: string)
    requires LabelsFor(a) == LabelsFor(b)
    ensures a == b
  {
    assert LabelsFor(a)[InstanceLabel] == a;
  }

  /** The replica count asked for: the spec's, or one when it is unset. */
  function DesiredReplicas(s: WebAppSpec): (n: int)
    ensures s.replicas.Some? ==> n == s.replicas.value
    ensures s.replicas.None? ==> n == 1
    ensures ValidSpec(s) ==> n >= 0 && IsInt32(n)
  {
    if s.replicas.Some? then s.replicas.value else 1
  }

  /** The controller owner reference that makes w the owner of a child. */
  function ControllerRef(w: WebApp): (o: OwnerReference)
    ensures o.controller && o.blockOwnerDeletion
    ensures o.kind == Kind && o.name == w.name && o.uid == w.uid
  {
    OwnerReference(APIVersion, Kind, w.name, w.uid, true, true)
  }

  /** The one container port the operator declares. */
  function DesiredPorts(s: WebAppSpec): seq<ContainerPort> {
    [ContainerPort(s.port, TCP)]
  }

  /**
   * The Deployment the operator wants for w, before an owner reference is
   * set: named and namespaced as w, its selector equal to its pod-template
   * labels, and a single container running the spec's image on a TCP port.
   */
  function DesiredDeployment(w: WebApp): (d: Deployment)
    ensures d.Key() == w.Key()
    ensures d.spec.replicas == Some(DesiredReplicas(w.spec))
    ensures d.spec.selector == d.spec.template.labels == LabelsFor(w.name)
    ensures |d.spec.template.containers| == 1
    ensures d.spec.template.containers[0].name == ContainerName
    ensures d.spec.template.containers[0].image == w.spec.image
    ensures d.spec.template.containers[0].ports == [ContainerPort(w.spec.port, TCP)]
    ensures d.meta.ownerReferences == []
    ensures d.status.availableReplicas == 0
  {
    Deployment(
      ObjectMeta(w.name, w.namespace, map[], map[], []),
      DeploymentSpec(
        Some(DesiredReplicas(w.spec)),
        LabelsFor(w.name),
        PodTemplateSpec(
          LabelsFor(w.name),
          [Container(ContainerName, w.spec.image, DesiredPorts(w.spec), [], map[])],
          ""),
        0,
        false),
      DeploymentStatus(0))
  }

  /** The Deployment created for w: the desired one with w as its controller. */
  function OwnedDeployment(w: WebApp): (d: Deployment)
    ensures d.meta.ownerReferences == [ControllerRef(w)]
    ensures d.meta.(ownerReferences := []) == DesiredDeployment(w).meta
    ensures d.spec == DesiredDeployment(w).spec && d.status == DesiredDeployment(w).status
  {
    var d := DesiredDeployment(w);
    d.(meta := d.meta.(ownerReferences := d.meta.ownerReferences + [ControllerRef(w)]))
  }

  /**
   * The existing Deployment with the operator's fields taken from desired:
   * the replica count, and the image and ports of the first container.
   */
  function MergeDeployment(existing: Deployment, desired: Deployment): (r: Deployment)
    requires |existing.spec.template.containers| >= 1
    requires |desired.spec.template.containers| >= 1
    ensures r.meta == existing.meta && r.status == existing.status
    ensures r.spec.replicas == desired.spec.replicas
    ensures r.spec.selector == existing.spec.selector
    ensures r.spec.minReadySeconds == existing.spec.minReadySeconds && r.spec.paused == existing.spec.paused
    ensures r.spec.template.labels == existing.spec.template.labels
    ensures r.spec.template.serviceAccountName == existing.spec.template.serviceAccountName
    ensures |r.spec.template.containers| == |existing.spec.template.containers|
    ensures r.spec.template.containers[0].image == desired.spec.template.containers[0].image
    ensures r.spec.template.containers[0].ports == desired.spec.template.containers[0].ports
    ensures r.spec.template.containers[0].name == existing.spec.template.containers[0].name
    ensures r.spec.template.containers[0].args == existing.spec.template.containers[0].args
    ensures r.spec.template.containers[0].env == existing.spec.template.containers[0].env
    ensures forall i :: 1 <= i < |existing.spec.template.containers| ==>
      r.spec.template.containers[i] == existing.spec.template.containers[i]
  {
    var cs := existing.spec.template.containers;
    var want := desired.spec.template.containers[0];
    var first := cs[0].(image := want.image, ports := want.ports);
    existing.(spec := existing.spec.(
      replicas := desired.spec.replicas,
      template := existing.spec.template.(containers := cs[0 := first])))
  }

  /** Whether the operator's fields of existing already agree with desired. */
  predicate DeploymentConverged(existing: Deployment, desired: Deployment)
    requires |existing.spec.template.containers| >= 1
    requires |desired.spec.template.containers| >= 1
  {
    && existing.spec.replicas == desired.spec.replicas
    && existing.spec.template.containers[0].image == desired.spec.template.containers[0].image
    && existing.spec.template.containers[0].ports == desired.spec.template.containers[0].ports
  }

  /** The merge changes nothing exactly when the owned fields already agree, and its result agrees. */
  lemma MergeDeploymentConverges(existing: Deployment, desired: Deployment)
    requires |existing.spec.template.containers| >= 1
    requires |desired.spec.template.containers| >= 1
    ensures DeploymentConverged(MergeDeployment(existing, desired), desired)
    ensures MergeDeployment(existing, desired) == existing <==> DeploymentConverged(existing, desired)
  {
    var r := MergeDeployment(existing, desired);
    if DeploymentConverged(existing, desired) {
      assert r.spec.template.containers == existing.spec.template.containers;
    }
  }

  /** Merging twice is merging once. */
  lemma MergeDeploymentIdempotent(existing: Deployment, desired: Deployment)
    requires |existing.spec.template.containers| >= 1
    requires |desired.spec.template.containers| >= 1
    ensures MergeDeployment(MergeDeployment(existing, desired), desired) == MergeDeployment(existing, desired)
  {
    MergeDeploymentConverges(existing, desired);
    MergeDeploymentConverges(MergeDeployment(existing, desired), desired);
  }

  /** The ports the Service exposes: port and target port both the spec's port. */
  function DesiredServicePorts(s: WebAppSpec): seq<ServicePort> {
    [ServicePort(s.port, IntVal(s.port), TCP)]
  }

  /**
   * The ClusterIP Service the operator wants for w, before an owner
   * reference is set, selecting w's pods and mapping the spec's port to itself.
   */
  function DesiredService(w: WebApp): (s: Service)
    ensures s.Key() == w.Key()
    ensures s.spec.serviceType == ClusterIP
    ensures s.spec.selector == LabelsFor(w.name)
    ensures s.spec.ports == [ServicePort(w.spec.port, IntVal(w.spec.port), TCP)]
    ensures s.meta.ownerReferences == []
  {
    Service(
      ObjectMeta(w.name, w.namespace, map[], map[], []),
      ServiceSpec(ClusterIP, "", LabelsFor(w.name), DesiredServicePorts(w.spec), ""))
  }

  /** The Service created for w: the desired one with w as its controller. */
  function OwnedService(w: WebApp): (s: Service)
    ensures s.meta.ownerReferences == [ControllerRef(w)]
    ensures s.meta.(ownerReferences := []) == DesiredService(w).meta
    ensures s.spec == DesiredService(w).spec
  {
    var s := DesiredService(w);
    s.(meta := s.meta.(ownerReferences := s.meta.ownerReferences + [ControllerRef(w)]))
  }

  /** The existing Service with its ports and selector taken from desired. */
  function MergeService(existing: Service, desired: Service): (r: Service)
    ensures r.meta == existing.meta
    ensures r.spec.ports == desired.spec.ports && r.spec.selector == desired.spec.selector
    ensures r.spec.serviceType == existing.spec.serviceType
    ensures r.spec.clusterIP == existing.spec.clusterIP
    ensures r.spec.sessionAffinity == existing.spec.sessionAffinity
  {
    existing.(spec := existing.spec.(ports := desired.spec.ports, selector := desired.spec.selector))
  }

  /** The Service merge changes nothing exactly when ports and selector already agree. */
  lemma MergeServiceConverges(existing: Service, desired: Service)
    ensures MergeService(existing, desired) == existing <==>
      existing.spec.ports == desired.spec.ports && existing.spec.selector == desired.spec.selector
    ensures MergeService(MergeService(existing, desired), desired) == MergeService(existing, desired)
  {
  }
}
