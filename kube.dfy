/**
 * The slice of the Kubernetes object model that the WebApp operator reads
 * and writes: object identities, owner references, status conditions and the
 * two child kinds it manages (a Deployment and a Service), reduced to the
 * fields the operator sets plus a few fields other writers own.
 */
module Kube {

  datatype Option<+T> = None | Some(value: T)

  /** Values representable as a Go int32. */
  predicate IsInt32(n: int) {
    -0x8000_0000 <= n < 0x8000_0000
  }

  /** The (namespace, name) identity of a namespaced object. */
  datatype NamespacedName = NamespacedName(namespace: string, name: string)

  /** An ownership back-reference from a child to the object controlling it. */
  datatype OwnerReference = OwnerReference(
    apiVersion: string,
    kind: string,
    name: string,
    uid: string,
    controller: bool,
    blockOwnerDeletion: bool)

  datatype ConditionStatus = ConditionTrue | ConditionFalse | ConditionUnknown

  /** A status condition; its transition timestamp is not modelled. */
  datatype Condition = Condition(
    condType: string,
    status: ConditionStatus,
    reason: string,
    message: string,
    observedGeneration: int)

  datatype Protocol = TCP | UDP | SCTP

  datatype IntOrString = IntVal(intVal: int) | StrVal(strVal: string)

  datatype ContainerPort = ContainerPort(containerPort: int, protocol: Protocol)

  datatype Container = Container(
    name: string,
    image: string,
    ports: seq<ContainerPort>,
    args: seq<string>,
    env: map<string, string>)

  /** Metadata of a child object. */
  datatype ObjectMeta = ObjectMeta(
    name: string,
    namespace: string,
    labels: map<string, string>,
    annotations: map<string, string>,
    ownerReferences: seq<OwnerReference>)

  datatype PodTemplateSpec = PodTemplateSpec(
    labels: map<string, string>,
    containers: seq<Container>,
    serviceAccountName: string)

  datatype DeploymentSpec = DeploymentSpec(
    replicas: Option<int>,
    selector: map<string, string>,
    template: PodTemplateSpec,
    minReadySeconds: int,
    paused: bool)

  datatype DeploymentStatus = DeploymentStatus(availableReplicas: int)

  datatype Deployment = Deployment(meta: ObjectMeta, spec: DeploymentSpec, status: DeploymentStatus)
  {
    function Key(): NamespacedName { NamespacedName(meta.namespace, meta.name) }
  }

  datatype ServiceType = ClusterIP | NodePort | LoadBalancer | ExternalName

  datatype ServicePort = ServicePort(port: int, targetPort: IntOrString, protocol: Protocol)

  datatype ServiceSpec = ServiceSpec(
    serviceType: ServiceType,
    clusterIP: string,
    selector: map<string, string>,
    ports: seq<ServicePort>,
    sessionAffinity: string)

  datatype Service = Service(meta: ObjectMeta, spec: ServiceSpec)
  {
    function Key(): NamespacedName { NamespacedName(meta.namespace, meta.name) }
  }
}
