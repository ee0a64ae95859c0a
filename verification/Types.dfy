/** Resources as values: the parts the code reads or writes, each with a `rest` for what it only carries along. */
module Types {

  datatype Option<+T> = None | Some(value: T)

  // ---- A pod-shaped workload (WithPod) ----

  datatype DownwardFile = DownwardFile(fieldPath: string, path: string)

  datatype VolumeProjection = VolumeProjection(secret: Option<string>, downwardAPI: seq<DownwardFile>, rest: string)

  datatype Volume = Volume(name: string, projected: Option<seq<VolumeProjection>>, rest: string)

  datatype VolumeMount = VolumeMount(name: string, mountPath: string, readOnly: bool, rest: string)

  datatype SecretKeySelector = SecretKeySelector(name: string, key: string)

  datatype EnvVarSource = EnvVarSource(secretKeyRef: Option<SecretKeySelector>, fieldRef: Option<string>, rest: string)

  datatype EnvVar = EnvVar(name: string, value: string, valueFrom: Option<EnvVarSource>)

  datatype ContainerState = ContainerState(name: string, env: seq<EnvVar>, volumeMounts: seq<VolumeMount>, rest: string)

  datatype PodState = PodState(
    annotations: map<string, string>,
    templateAnnotations: map<string, string>,
    volumes: seq<Volume>,
    initContainers: seq<ContainerState>,
    containers: seq<ContainerState>)

  // ---- The custom resources ----

  datatype EnvMapping = EnvMapping(name: string, key: string)

  /** tracker.Reference. */
  datatype Reference = Reference(apiVersion: string, kind: string, namespace: string, name: string, selector: string)

  datatype WorkloadReference = WorkloadReference(ref: Reference, containers: seq<string>)

  datatype ProjectionSpec = ProjectionSpec(
    name: string,
    serviceType: string,
    provider: string,
    binding: string,
    workload: WorkloadReference,
    env: seq<EnvMapping>)

  /** The name and spec of a ServiceBindingProjection: all that injecting and removing look at. */
  datatype Projector = Projector(name: string, spec: ProjectionSpec)

  datatype Result<+T> = Success(value: T) | Failure

  /** A metav1.Condition. */
  datatype Condition = Condition(kind: string, status: string, lastTransitionTime: int, reason: string, message: string)

  /** The Ready condition of a projection, as far as it is propagated. */
  datatype ReadyReport = ReadyReport(status: string, reason: string, message: string)

  datatype StatusState = StatusState(observedGeneration: int, conditions: seq<Condition>, binding: Option<string>)

  datatype OwnerReference = OwnerReference(uid: string, name: string, controller: bool)

  datatype ObjectMeta = ObjectMeta(
    name: string,
    namespace: string,
    uid: string,
    resourceVersion: int,
    generation: int,
    deleted: bool,
    labels: map<string, string>,
    annotations: map<string, string>,
    owners: seq<OwnerReference>,
    rest: string)

  datatype ProjectionStatus = ProjectionStatus(ready: Option<ReadyReport>, annotations: Option<map<string, string>>, rest: string)

  datatype ServiceBindingProjection = ServiceBindingProjection(
    meta: ObjectMeta,
    spec: ProjectionSpec,
    status: ProjectionStatus)

  datatype BindingSpec = BindingSpec(
    name: string,
    serviceType: string,
    provider: string,
    workload: Option<WorkloadReference>,
    service: Option<Reference>,
    env: seq<EnvMapping>)

  /** A ServiceBinding as a value. */
  datatype BindingState = BindingState(meta: ObjectMeta, spec: BindingSpec, status: StatusState)
}
