/**
 What `Do` and `Undo` make of a pod, as functions on values.  The methods of module Lifecycle are
 proved to compute exactly these; the theorems about them are in modules Repetition, Runs and Confluence.
 */
module Projection {
  import opened FieldPath
  import opened PartialSort
  import opened Sequences
  import opened Types

  const ROOT_ENV := "SERVICE_BINDING_ROOT"
  const DEFAULT_ROOT := "/bindings"

  // ---- Recognising injected values ----

  /** The secret named by the first source of a projected volume. */
  function FirstSecret(v: Volume): Option<string> {
    if v.projected.Some? && v.projected.value != [] then v.projected.value[0].secret else None
  }

  predicate IsFromSecret(v: Volume, secrets: set<string>) {
    FirstSecret(v).Some? && FirstSecret(v).value in secrets
  }

  function SecretOf(e: EnvVar): Option<string> {
    if e.valueFrom.Some? && e.valueFrom.value.secretKeyRef.Some? then Some(e.valueFrom.value.secretKeyRef.value.name)
    else None
  }

  predicate HasMetaPath(e: EnvVar) {
    e.valueFrom.Some? && e.valueFrom.value.fieldRef.Some? && Matches(e.valueFrom.value.fieldRef.value)
  }

  /** `isInjectedEnv`: an overridden value of any projection counts, whichever `secrets` are asked for. */
  predicate IsInjectedEnv(e: EnvVar, secrets: set<string>) {
    (SecretOf(e).Some? && SecretOf(e).value in secrets) || HasMetaPath(e)
  }

  function VolumeNames(vs: seq<Volume>, secrets: set<string>): set<string> {
    set v | v in vs && IsFromSecret(v, secrets) :: v.name
  }

  /** The secrets half of `injectedValues`. */
  function InjectedSecrets(annotations: map<string, string>): set<string> {
    set k | k in annotations && PROJECTION_KEY <= k :: annotations[k]
  }

  const VolumeKey: Volume -> string := (v: Volume) => v.name
  const MountKey: VolumeMount -> string := (m: VolumeMount) => m.name
  const EnvKey: EnvVar -> string := (e: EnvVar) => e.name

  function VolumeKept(secrets: set<string>): Volume -> bool {
    (v: Volume) => !IsFromSecret(v, secrets)
  }

  function VolumeIn(names: set<string>): Volume -> bool {
    (v: Volume) => v.name in names
  }

  function MountKept(names: set<string>): VolumeMount -> bool {
    (m: VolumeMount) => m.name !in names
  }

  function MountIn(names: set<string>): VolumeMount -> bool {
    (m: VolumeMount) => m.name in names
  }

  function EnvKept(secrets: set<string>): EnvVar -> bool {
    (e: EnvVar) => !IsInjectedEnv(e, secrets)
  }

  function EnvIn(secrets: set<string>): EnvVar -> bool {
    (e: EnvVar) => IsInjectedEnv(e, secrets)
  }

  function MetaKeys(name: string): set<string> {
    {MetaKey(name, TypeMeta), MetaKey(name, ProviderMeta)}
  }

  // ---- Undo ----

  /** The secret recorded for `b`; a missing annotation reads as "". */
  function Recorded(b: Projector, annotations: map<string, string>): string {
    if AnnotationKey(b.name) in annotations then annotations[AnnotationKey(b.name)] else ""
  }

  function RemoveSecrets(b: Projector, annotations: map<string, string>): set<string> {
    {Recorded(b, annotations), b.spec.binding}
  }

  function UndoContainer(c: ContainerState, secrets: set<string>, volumes: set<string>): ContainerState {
    c.(env := Filter(c.env, EnvKept(secrets)), volumeMounts := Filter(c.volumeMounts, MountKept(volumes)))
  }

  function UndoAll(cs: seq<ContainerState>, secrets: set<string>, volumes: set<string>): seq<ContainerState> {
    seq(|cs|, i requires 0 <= i < |cs| => UndoContainer(cs[i], secrets, volumes))
  }

  function UndoPod(b: Projector, p: PodState): PodState {
    var secrets := RemoveSecrets(b, p.annotations);
    var volumes := VolumeNames(p.volumes, secrets);
    PodState(
      p.annotations - {AnnotationKey(b.name)},
      p.templateAnnotations - MetaKeys(b.name),
      Filter(p.volumes, VolumeKept(secrets)),
      UndoAll(p.initContainers, secrets, volumes),
      UndoAll(p.containers, secrets, volumes))
  }

  // ---- Do ----

  function MetaValue(b: Projector, m: Meta): string {
    if m.TypeMeta? then b.spec.serviceType else b.spec.provider
  }

  function MetaSource(b: Projector, m: Meta): seq<VolumeProjection> {
    if MetaValue(b, m) == "" then []
    else [VolumeProjection(None, [DownwardFile(MetaPath(b.name, m), if m.TypeMeta? then "type" else "provider")], "")]
  }

  function BindingVolume(b: Projector): Volume {
    Volume(
      VolumeName(b.spec.binding),
      Some([VolumeProjection(Some(b.spec.binding), [], "")] + MetaSource(b, TypeMeta) + MetaSource(b, ProviderMeta)),
      "")
  }

  function MetaAnnotation(b: Projector, m: Meta): map<string, string> {
    if MetaValue(b, m) == "" then map[] else map[MetaKey(b.name, m) := MetaValue(b, m)]
  }

  function MetaAnnotations(b: Projector): map<string, string> {
    MetaAnnotation(b, TypeMeta) + MetaAnnotation(b, ProviderMeta)
  }

  /** The mapping asks for `type` or `provider` and the binding overrides that value. */
  function Override(b: Projector, e: EnvMapping): Option<Meta> {
    if e.key == "type" && b.spec.serviceType != "" then Some(TypeMeta)
    else if e.key == "provider" && b.spec.provider != "" then Some(ProviderMeta)
    else None
  }

  function EnvEntry(b: Projector, e: EnvMapping): EnvVar {
    match Override(b, e)
    case Some(m) => EnvVar(e.name, "", Some(EnvVarSource(None, Some(MetaPath(b.name, m)), "")))
    case None => EnvVar(e.name, "", Some(EnvVarSource(Some(SecretKeySelector(b.spec.binding, e.key)), None, "")))
  }

  /** The entry for a mapping; `whole` is false when entries for overridden values are left out. */
  function EntryOf(b: Projector, whole: bool): EnvMapping -> seq<EnvVar> {
    (e: EnvMapping) => if whole || Override(b, e).None? then [EnvEntry(b, e)] else []
  }

  function BindingEnv(b: Projector, whole: bool): seq<EnvVar> {
    Gather(b.spec.env, EntryOf(b, whole))
  }

  predicate Targets(b: Projector, name: string) {
    b.spec.workload.containers == [] || name in b.spec.workload.containers
  }

  /** The value of the first SERVICE_BINDING_ROOT entry. */
  function RootValue(env: seq<EnvVar>): string {
    var roots := Filter(env, Named(ROOT_ENV, EnvKey));
    if roots == [] then "" else roots[0].value
  }

  function MountRoot(env: seq<EnvVar>): string {
    if RootValue(env) == "" then DEFAULT_ROOT else RootValue(env)
  }

  const RootEntry: EnvVar := EnvVar(ROOT_ENV, DEFAULT_ROOT, None)

  function EnsureRoot(env: seq<EnvVar>): seq<EnvVar> {
    if RootValue(env) == "" then env + [RootEntry] else env
  }

  function BindingMount(b: Projector, root: string): VolumeMount {
    VolumeMount(VolumeName(b.spec.binding), root + "/" + b.spec.name, true, "")
  }

  /** `doContainer`. */
  function InjectContainer(b: Projector, c: ContainerState, volumes: set<string>, secrets: set<string>): ContainerState {
    c.(env := if b.spec.env == [] then EnsureRoot(c.env)
              else Sort(EnsureRoot(c.env) + BindingEnv(b, true), EnvIn(secrets), EnvKey),
       volumeMounts := Sort(c.volumeMounts + [BindingMount(b, MountRoot(c.env))], MountIn(volumes), MountKey))
  }

  function InjectAll(b: Projector, cs: seq<ContainerState>, volumes: set<string>, secrets: set<string>)
    : seq<ContainerState>
  {
    seq(|cs|, i requires 0 <= i < |cs| =>
      if Targets(b, cs[i].name) then InjectContainer(b, cs[i], volumes, secrets) else cs[i])
  }

  function InjectedVolumes(b: Projector, q: PodState): set<string> {
    VolumeNames(q.volumes, InjectedSecrets(q.annotations)) + {VolumeName(b.spec.binding)}
  }

  /** The part of `Do` after its initial `Undo`. */
  function InjectPod(b: Projector, q: PodState): PodState {
    var volumes := InjectedVolumes(b, q);
    var secrets := InjectedSecrets(q.annotations) + {b.spec.binding};
    PodState(
      q.annotations[AnnotationKey(b.name) := b.spec.binding],
      q.templateAnnotations + MetaAnnotations(b),
      Sort(q.volumes + [BindingVolume(b)], VolumeIn(volumes), VolumeKey),
      InjectAll(b, q.initContainers, volumes, secrets),
      InjectAll(b, q.containers, volumes, secrets))
  }

  function DoPod(b: Projector, p: PodState): PodState {
    InjectPod(b, UndoPod(b, p))
  }

  // ---- First facts ----

  function AllContainers(p: PodState): seq<ContainerState> {
    p.initContainers + p.containers
  }

  /** What an Undo of `b` establishes, and an injection of `b` starts from. */
  ghost predicate Cleared(b: Projector, q: PodState) {
    && AnnotationKey(b.name) !in q.annotations
    && (forall k | k in q.templateAnnotations :: k !in MetaKeys(b.name))
    && (forall v | v in q.volumes :: FirstSecret(v) != Some(b.spec.binding))
    && (forall c, e | c in AllContainers(q) && e in c.env :: !IsInjectedEnv(e, {b.spec.binding}))
  }

  lemma UndoContainerClears(c: ContainerState, secrets: set<string>, volumes: set<string>)
    ensures forall e | e in UndoContainer(c, secrets, volumes).env :: !IsInjectedEnv(e, secrets) && e in c.env
    ensures forall m | m in UndoContainer(c, secrets, volumes).volumeMounts :: m.name !in volumes && m in c.volumeMounts
  {
    FilterMembers(c.env, EnvKept(secrets));
    FilterMembers(c.volumeMounts, MountKept(volumes));
  }

  lemma UndoneContainersOf(cs: seq<ContainerState>, secrets: set<string>, volumes: set<string>)
    ensures forall c, e | c in UndoAll(cs, secrets, volumes) && e in c.env :: !IsInjectedEnv(e, secrets)
    ensures forall c, m | c in UndoAll(cs, secrets, volumes) && m in c.volumeMounts :: m.name !in volumes
  {
    forall c | c in UndoAll(cs, secrets, volumes)
      ensures forall e | e in c.env :: !IsInjectedEnv(e, secrets)
      ensures forall m | m in c.volumeMounts :: m.name !in volumes
    {
      var i :| 0 <= i < |cs| && c == UndoContainer(cs[i], secrets, volumes);
      UndoContainerClears(cs[i], secrets, volumes);
    }
  }

  lemma UndoClearsSecrets(b: Projector, p: PodState)
    ensures var q, secrets := UndoPod(b, p), RemoveSecrets(b, p.annotations);
            && (forall v | v in q.volumes :: !IsFromSecret(v, secrets))
            && (forall c, e | c in AllContainers(q) && e in c.env :: !IsInjectedEnv(e, secrets))
            && (forall c, m | c in AllContainers(q) && m in c.volumeMounts :: m.name !in VolumeNames(p.volumes, secrets))
  {
    var secrets := RemoveSecrets(b, p.annotations);
    FilterMembers(p.volumes, VolumeKept(secrets));
    UndoneContainersOf(p.initContainers, secrets, VolumeNames(p.volumes, secrets));
    UndoneContainersOf(p.containers, secrets, VolumeNames(p.volumes, secrets));
  }

  lemma FewerInjected(e: EnvVar, secrets: set<string>, secret: string)
    requires !IsInjectedEnv(e, secrets) && secret in secrets
    ensures !IsInjectedEnv(e, {secret})
  {
  }

  /**
   After an Undo nothing of the recorded secret or of the current one is left: no volume, no env var, no
   mount of a removed volume, in any container; and no annotation of the binding.
   */
  lemma UndoClears(b: Projector, p: PodState)
    ensures var q, secrets := UndoPod(b, p), RemoveSecrets(b, p.annotations);
            && (forall v | v in q.volumes :: !IsFromSecret(v, secrets))
            && (forall c, e | c in AllContainers(q) && e in c.env :: !IsInjectedEnv(e, secrets))
            && (forall c, m | c in AllContainers(q) && m in c.volumeMounts :: m.name !in VolumeNames(p.volumes, secrets))
    ensures Cleared(b, UndoPod(b, p))
  {
    var q, secrets := UndoPod(b, p), RemoveSecrets(b, p.annotations);
    UndoClearsSecrets(b, p);
    assert b.spec.binding in secrets;
    forall c, e | c in AllContainers(q) && e in c.env ensures !IsInjectedEnv(e, {b.spec.binding}) {
      FewerInjected(e, secrets, b.spec.binding);
    }
  }

  lemma EntryInjected(b: Projector, e: EnvMapping)
    ensures var x := EnvEntry(b, e);
            SecretOf(x) == Some(b.spec.binding) || (HasMetaPath(x) && SecretOf(x).None?)
  {
    MetaPathMatches(b.name, TypeMeta);
    MetaPathMatches(b.name, ProviderMeta);
  }

  /** Every entry of a binding is recognised as injected, given its secret. */
  lemma BindingEnvInjected(b: Projector, whole: bool, secrets: set<string>)
    ensures forall x | x in BindingEnv(b, whole) ::
              && (exists e | e in b.spec.env :: x == EnvEntry(b, e) && (whole || Override(b, e).None?))
              && (SecretOf(x) == Some(b.spec.binding) || (HasMetaPath(x) && SecretOf(x).None?))
    ensures b.spec.binding in secrets ==> forall x | x in BindingEnv(b, whole) :: IsInjectedEnv(x, secrets)
  {
    GatherMembers(b.spec.env, EntryOf(b, whole));
    forall x | x in BindingEnv(b, whole)
      ensures exists e | e in b.spec.env :: x == EnvEntry(b, e) && (whole || Override(b, e).None?)
      ensures SecretOf(x) == Some(b.spec.binding) || (HasMetaPath(x) && SecretOf(x).None?)
    {
      var e :| e in b.spec.env && x in EntryOf(b, whole)(e);
      assert x == EnvEntry(b, e);
      EntryInjected(b, e);
    }
  }

  // ---- For concrete cases ----

  /** A workload whose containers are all targeted, and a pod with one empty container. */
  const ANYWHERE := WorkloadReference(Reference("apps/v1", "Deployment", "", "app", ""), [])
  const PLAIN_POD := PodState(map[], map[], [], [], [ContainerState("app", [], [], "")])
}
