/**
 * The WebApp API (group app.54b3r.io, version v1alpha1): desired state,
 * observed state, the condition types, and the schema's bounds and defaults
 * as a validity predicate and an admission function that applies them.
 */
module WebAppTypes {
  import opened Kube
  import opened StatusConditions

  /** Desired state. A spec whose replicas is None has no replica count set. */
  datatype WebAppSpec = WebAppSpec(image: string, replicas: Option<int>, port: int)

  /** Observed state, written only by the operator. */
  datatype WebAppStatus = WebAppStatus(availableReplicas: int, conditions: seq<Condition>)

  /**
   * A WebApp object with the metadata the operator uses. The deletion
   * timestamp is reduced to whether deletion was requested.
   */
  datatype WebApp = WebApp(
    name: string,
    namespace: string,
    uid: string,
    generation: int,
    deletionRequested: bool,
    finalizers: set<string>,
    spec: WebAppSpec,
    status: WebAppStatus)
  {
    function Key(): NamespacedName { NamespacedName(namespace, name) }
  }

  const APIVersion: string := "app.54b3r.io/v1alpha1"
  const Kind: string := "WebApp"

  const TypeAvailable: string := "Available"
  const TypeProgressing: string := "Progressing"
  const TypeDegraded: string := "Degraded"

  const DefaultReplicas: int := 1
  const DefaultPort: int := 8080
  const MinReplicas: int := 0
  const MinPort: int := 1
  const MaxPort: int := 65535

  /** The three condition types are distinct, so each has its own list-map entry. */
  lemma ConditionTypesDistinct()
    ensures TypeAvailable != TypeProgressing
    ensures TypeAvailable != TypeDegraded
    ensures TypeProgressing != TypeDegraded
  {
  }

  /** A spec within the schema's bounds (both fields are Go int32 values). */
  predicate ValidSpec(s: WebAppSpec) {
    && (s.replicas.Some? ==> IsInt32(s.replicas.value) && s.replicas.value >= MinReplicas)
    && IsInt32(s.port) && MinPort <= s.port <= MaxPort
  }

  /** A status that keeps the list-map invariant on conditions. */
  predicate ValidStatus(s: WebAppStatus) {
    UniqueTypes(s.conditions)
  }

  /** A spec as submitted: a field left out is None. */
  datatype SpecManifest = SpecManifest(image: Option<string>, replicas: Option<int>, port: Option<int>)

  datatype FieldError = ImageRequired | ReplicasBelowMinimum | ReplicasNotInt32 | PortOutOfRange

  datatype Admission = Admitted(spec: WebAppSpec) | Rejected(errors: set<FieldError>)

  /** Fills in the schema defaults for fields that were left out. */
  function ApplyDefaults(m: SpecManifest): (d: SpecManifest)
    ensures d.image == m.image
    ensures d.replicas == if m.replicas.None? then Some(DefaultReplicas) else m.replicas
    ensures d.port == if m.port.None? then Some(DefaultPort) else m.port
  {
    SpecManifest(
      m.image,
      if m.replicas.None? then Some(DefaultReplicas) else m.replicas,
      if m.port.None? then Some(DefaultPort) else m.port)
  }

  /** Every bound a defaulted manifest breaks, each reported by its own error. */
  function Violations(d: SpecManifest): (errs: set<FieldError>)
    ensures ImageRequired in errs <==> d.image.None?
    ensures ReplicasBelowMinimum in errs <==> d.replicas.Some? && d.replicas.value < MinReplicas
    ensures ReplicasNotInt32 in errs <==> d.replicas.Some? && !IsInt32(d.replicas.value)
    ensures PortOutOfRange in errs <==> d.port.None? || !(MinPort <= d.port.value <= MaxPort)
  {
    (if d.image.None? then {ImageRequired} else {})
    + (if d.replicas.Some? && d.replicas.value < MinReplicas then {ReplicasBelowMinimum} else {})
    + (if d.replicas.Some? && !IsInt32(d.replicas.value) then {ReplicasNotInt32} else {})
    + (if d.port.None? || !(MinPort <= d.port.value <= MaxPort) then {PortOutOfRange} else {})
  }

  /**
   * Schema admission: defaults are applied, then the bounds are checked; a
   * manifest is admitted exactly when the image is given and the defaulted
   * replicas and port are in range, and an admitted spec is valid.
   */
  function Admit(m: SpecManifest): (a: Admission)
    ensures a.Admitted? <==>
      && m.image.Some?
      && (m.replicas.None? || (m.replicas.value >= MinReplicas && IsInt32(m.replicas.value)))
      && (m.port.None? || MinPort <= m.port.value <= MaxPort)
    ensures a.Admitted? ==> ValidSpec(a.spec) && a.spec.image == m.image.value
    ensures a.Admitted? ==> a.spec == WebAppSpec(m.image.value,
      if m.replicas.None? then Some(DefaultReplicas) else m.replicas,
      if m.port.None? then DefaultPort else m.port.value)
    ensures a.Rejected? ==> a.errors != {}
  {
    var d := ApplyDefaults(m);
    var errs := Violations(d);
    if errs == {} then Admitted(WebAppSpec(d.image.value, d.replicas, d.port.value))
    else
      assert d.image.None? ==> ImageRequired in errs;
      Rejected(errs)
  }

  /** The manifest that submits s with every field given. */
  function ToManifest(s: WebAppSpec): SpecManifest {
    SpecManifest(Some(s.image), s.replicas, Some(s.port))
  }

  /**
   * A spec is valid exactly when submitting it with every field given is
   * admitted: the validity predicate is the schema's bounds.
   */
  lemma ValidSpecIsAdmissible(s: WebAppSpec)
    ensures ValidSpec(s) <==> Admit(ToManifest(s)).Admitted?
  {
  }

  /** Defaulting is idempotent. */
  lemma DefaultsIdempotent(m: SpecManifest)
    ensures ApplyDefaults(ApplyDefaults(m)) == ApplyDefaults(m)
  {
  }

  /**
   * Submitting a valid spec admits it unchanged, except that a missing
   * replica count takes the default.
   */
  lemma AdmitRoundTrip(s: WebAppSpec)
    requires ValidSpec(s)
    ensures Admit(ToManifest(s)) ==
      Admitted(if s.replicas.None? then s.(replicas := Some(DefaultReplicas)) else s)
  {
    assert Violations(ApplyDefaults(ToManifest(s))) == {};
  }

  /** Admission reports each broken bound. */
  lemma AdmitReportsErrors(m: SpecManifest)
    ensures m.image.None? ==> Admit(m) == Rejected(Violations(ApplyDefaults(m))) && ImageRequired in Admit(m).errors
    ensures m.port.Some? && !(MinPort <= m.port.value <= MaxPort) ==> PortOutOfRange in Admit(m).errors
    ensures m.replicas.Some? && m.replicas.value < MinReplicas ==> ReplicasBelowMinimum in Admit(m).errors
  {
  }
}
