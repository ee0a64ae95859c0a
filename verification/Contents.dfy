/**
 What `Undo` and `Do` leave in a pod, said in the pod's own fields and literal texts, without the functions that
 compute it.  Holds on every pod.
 */
module Contents {
  import opened FieldPath
  import opened PartialSort
  import opened Projection
  import opened Repetition
  import opened Sequences
  import opened Text
  import opened Types

  const RECORD := "internal.bindings.labs.vmware.com/projection-"

  /** Where a projection records its secret. */
  ghost function RecordKey(b: Projector): string {
    RECORD + Sha1Hex(b.name)
  }

  // ---- Undo ----

  /** The secret that `b` asks for, or the one on record; without a record that is "". */
  ghost predicate OwnSecret(b: Projector, p: PodState, secret: string) {
    || secret == b.spec.binding
    || (RecordKey(b) in p.annotations && secret == p.annotations[RecordKey(b)])
    || (RecordKey(b) !in p.annotations && secret == "")
  }

  ghost predicate OwnVolume(b: Projector, p: PodState, v: Volume) {
    && v.projected.Some? && |v.projected.value| > 0
    && v.projected.value[0].secret.Some? && OwnSecret(b, p, v.projected.value[0].secret.value)
  }

  ghost predicate OwnMount(b: Projector, p: PodState, m: VolumeMount) {
    exists v | v in p.volumes :: OwnVolume(b, p, v) && v.name == m.name
  }

  /** A field path of the form that any projection injects. */
  ghost predicate InjectedPath(path: string) {
    exists hex: string | IsHex(hex) ::
      || path == "metadata.annotations['" + RECORD + hex + "-type']"
      || path == "metadata.annotations['" + RECORD + hex + "-provider']"
  }

  ghost predicate OwnEnv(b: Projector, p: PodState, e: EnvVar) {
    e.valueFrom.Some? &&
      (|| (e.valueFrom.value.secretKeyRef.Some? && OwnSecret(b, p, e.valueFrom.value.secretKeyRef.value.name))
       || (e.valueFrom.value.fieldRef.Some? && InjectedPath(e.valueFrom.value.fieldRef.value)))
  }

  /** Of each container all that is not the binding's own remains, in order. */
  ghost predicate Stripped(b: Projector, p: PodState, cs: seq<ContainerState>, cs': seq<ContainerState>) {
    |cs'| == |cs| && forall i | 0 <= i < |cs| :: StrippedContainer(b, p, cs[i], cs'[i])
  }

  ghost predicate StrippedContainer(b: Projector, p: PodState, c: ContainerState, c': ContainerState) {
    && c'.name == c.name && c'.rest == c.rest
    && Remains(c.env, c'.env, (e: EnvVar) => !OwnEnv(b, p, e))
    && Remains(c.volumeMounts, c'.volumeMounts, (m: VolumeMount) => !OwnMount(b, p, m))
  }

  lemma KeySpelled(b: Projector)
    ensures RecordKey(b) == AnnotationKey(b.name)
    ensures RecordKey(b) + "-type" == MetaKey(b.name, TypeMeta)
    ensures RecordKey(b) + "-provider" == MetaKey(b.name, ProviderMeta)
  {
    assert PROJECTION_KEY + "-" == RECORD;
  }

  lemma PathSpelled(hex: string)
    ensures Printed(hex, TypeMeta) == "metadata.annotations['" + RECORD + hex + "-type']"
    ensures Printed(hex, ProviderMeta) == "metadata.annotations['" + RECORD + hex + "-provider']"
  {
    assert PROJECTION_KEY + "-" == RECORD;
    assert ANCHOR == PATH_OPEN + (PROJECTION_KEY + "-") == "metadata.annotations['" + RECORD;
    assert Suffix(TypeMeta) + PATH_CLOSE == "-type']";
    assert Suffix(ProviderMeta) + PATH_CLOSE == "-provider']";
  }

  lemma PathsSpelled(path: string)
    ensures Matches(path) <==> InjectedPath(path)
  {
    MatchesExactlyPrinted(path);
    if hex: string, m: Meta :| IsHex(hex) && path == Printed(hex, m) {
      PathSpelled(hex);
    }
    if InjectedPath(path) {
      var hex: string :| IsHex(hex) &&
        (|| path == "metadata.annotations['" + RECORD + hex + "-type']"
         || path == "metadata.annotations['" + RECORD + hex + "-provider']");
      PathSpelled(hex);
      assert path == Printed(hex, TypeMeta) || path == Printed(hex, ProviderMeta);
    }
  }

  lemma OwnIsRecognised(b: Projector, p: PodState)
    ensures forall s :: OwnSecret(b, p, s) <==> s in RemoveSecrets(b, p.annotations)
    ensures forall v :: OwnVolume(b, p, v) <==> IsFromSecret(v, RemoveSecrets(b, p.annotations))
    ensures forall m :: OwnMount(b, p, m) <==> m.name in VolumeNames(p.volumes, RemoveSecrets(b, p.annotations))
    ensures forall e :: OwnEnv(b, p, e) <==> IsInjectedEnv(e, RemoveSecrets(b, p.annotations))
  {
    KeySpelled(b);
    forall path ensures Matches(path) <==> InjectedPath(path) {
      PathsSpelled(path);
    }
  }

  lemma ContainerStripped(b: Projector, p: PodState, c: ContainerState)
    ensures var secrets := RemoveSecrets(b, p.annotations);
            StrippedContainer(b, p, c, UndoContainer(c, secrets, VolumeNames(p.volumes, secrets)))
  {
    var secrets := RemoveSecrets(b, p.annotations);
    OwnIsRecognised(b, p);
    var keptEnv := (e: EnvVar) => !OwnEnv(b, p, e);
    var keptMount := (m: VolumeMount) => !OwnMount(b, p, m);
    FilterAgree(c.env, EnvKept(secrets), keptEnv);
    FilterRemains(c.env, keptEnv);
    FilterAgree(c.volumeMounts, MountKept(VolumeNames(p.volumes, secrets)), keptMount);
    FilterRemains(c.volumeMounts, keptMount);
  }

  lemma ContainersStripped(b: Projector, p: PodState, cs: seq<ContainerState>)
    ensures var secrets := RemoveSecrets(b, p.annotations);
            Stripped(b, p, cs, UndoAll(cs, secrets, VolumeNames(p.volumes, secrets)))
  {
    forall c ensures StrippedContainer(b, p, c, UndoContainer(c, RemoveSecrets(b, p.annotations),
                                                    VolumeNames(p.volumes, RemoveSecrets(b, p.annotations)))) {
      ContainerStripped(b, p, c);
    }
  }

  /**
   An Undo removes its three annotations, the volumes whose first source is a secret that the binding asks for or has
   on record, the mounts of those volumes, the env vars that read such a secret, and every env var with an injected
   field path.  All else remains, in order.
   */
  ghost predicate UndoLeft(b: Projector, p: PodState, q: PodState) {
    && q.annotations == p.annotations - {RecordKey(b)}
    && q.templateAnnotations == p.templateAnnotations - {RecordKey(b) + "-type", RecordKey(b) + "-provider"}
    && Remains(p.volumes, q.volumes, (v: Volume) => !OwnVolume(b, p, v))
    && Stripped(b, p, p.initContainers, q.initContainers)
    && Stripped(b, p, p.containers, q.containers)
  }

  lemma UndoLeaves(b: Projector, p: PodState)
    ensures UndoLeft(b, p, UndoPod(b, p))
  {
    var secrets := RemoveSecrets(b, p.annotations);
    var kept := (v: Volume) => !OwnVolume(b, p, v);
    KeySpelled(b);
    OwnIsRecognised(b, p);
    FilterAgree(p.volumes, VolumeKept(secrets), kept);
    FilterRemains(p.volumes, kept);
    ContainersStripped(b, p, p.initContainers);
    ContainersStripped(b, p, p.containers);
  }

  // ---- Do ----

  /** No list of containers stands for all of them. */
  ghost predicate Lists(b: Projector, name: string) {
    var names := b.spec.workload.containers;
    |names| == 0 || exists k :: 0 <= k < |names| && names[k] == name
  }

  /** `x` is the env var that the mapping `e` asks for. */
  ghost predicate Reads(b: Projector, e: EnvMapping, x: EnvVar) {
    && x.name == e.name && x.value == "" && x.valueFrom.Some? && x.valueFrom.value.rest == ""
    && var source := x.valueFrom.value;
      if e.key == "type" && b.spec.serviceType != "" then
        source.secretKeyRef.None? && source.fieldRef == Some("metadata.annotations['" + RecordKey(b) + "-type']")
      else if e.key == "provider" && b.spec.provider != "" then
        source.secretKeyRef.None? && source.fieldRef == Some("metadata.annotations['" + RecordKey(b) + "-provider']")
      else
        source.secretKeyRef == Some(SecretKeySelector(b.spec.binding, e.key)) && source.fieldRef.None?
  }

  /** One env var for each mapping. */
  ghost predicate AllRead(b: Projector, xs: seq<EnvVar>) {
    |xs| == |b.spec.env| && forall i | 0 <= i < |xs| :: Reads(b, b.spec.env[i], xs[i])
  }

  /** The first SERVICE_BINDING_ROOT has this value, which is not empty. */
  ghost predicate UsableRoot(env: seq<EnvVar>, root: string) {
    root != "" && exists i ::
      && 0 <= i < |env| && env[i].name == "SERVICE_BINDING_ROOT" && env[i].value == root
      && forall j | 0 <= j < i :: env[j].name != "SERVICE_BINDING_ROOT"
  }

  /** Mounts go under the usable root; without one, an entry for "/bindings" is added and used. */
  ghost predicate RootAndAddition(env: seq<EnvVar>, root: string, added: seq<EnvVar>) {
    if exists r :: UsableRoot(env, r) then UsableRoot(env, root) && added == []
    else root == "/bindings" && added == [EnvVar("SERVICE_BINDING_ROOT", "/bindings", None)]
  }

  /** `c'` is `c` with a read-only mount of the secret's volume, the root if needed, and an env var for each mapping. */
  ghost predicate FilledContainer(b: Projector, c: ContainerState, c': ContainerState) {
    && c'.name == c.name && c'.rest == c.rest
    && exists root, added, xs | RootAndAddition(c.env, root, added) && AllRead(b, xs) ::
      && multiset(c'.env) == multiset(c.env + added + xs)
      && multiset(c'.volumeMounts)
         == multiset(c.volumeMounts + [VolumeMount("binding-" + Sha1Hex(b.spec.binding), root + "/" + b.spec.name, true, "")])
  }

  /** Listed containers are filled, the others stay as they are. */
  ghost predicate Filled(b: Projector, cs: seq<ContainerState>, cs': seq<ContainerState>) {
    |cs'| == |cs| && forall i | 0 <= i < |cs| ::
      if Lists(b, cs[i].name) then FilledContainer(b, cs[i], cs'[i]) else cs'[i] == cs[i]
  }

  /** The projected volume: the secret first, then a file for each overridden value. */
  ghost predicate FilledVolume(b: Projector, v: Volume) {
    && v.name == "binding-" + Sha1Hex(b.spec.binding) && v.rest == "" && v.projected.Some?
    && var secret := VolumeProjection(Some(b.spec.binding), [], "");
      var typeFile := VolumeProjection(
        None, [DownwardFile("metadata.annotations['" + RecordKey(b) + "-type']", "type")], "");
      var providerFile := VolumeProjection(
        None, [DownwardFile("metadata.annotations['" + RecordKey(b) + "-provider']", "provider")], "");
      v.projected.value ==
        if b.spec.serviceType != "" && b.spec.provider != "" then [secret, typeFile, providerFile]
        else if b.spec.serviceType != "" then [secret, typeFile]
        else if b.spec.provider != "" then [secret, providerFile]
        else [secret]
  }

  /** The template's annotations: the overridden values under the binding's two keys, all others as before. */
  ghost predicate FilledTemplate(b: Projector, m: map<string, string>, m': map<string, string>) {
    && (forall k | k != RecordKey(b) + "-type" && k != RecordKey(b) + "-provider" ::
          (k in m' <==> k in m) && (k in m ==> m'[k] == m[k]))
    && (if b.spec.serviceType == "" then RecordKey(b) + "-type" !in m'
        else RecordKey(b) + "-type" in m' && m'[RecordKey(b) + "-type"] == b.spec.serviceType)
    && (if b.spec.provider == "" then RecordKey(b) + "-provider" !in m'
        else RecordKey(b) + "-provider" in m' && m'[RecordKey(b) + "-provider"] == b.spec.provider)
  }

  lemma ListsIsTargets(b: Projector, name: string)
    ensures Lists(b, name) <==> Targets(b, name)
  {
  }

  lemma MetaPathSpelled(b: Projector)
    ensures MetaPath(b.name, TypeMeta) == "metadata.annotations['" + RecordKey(b) + "-type']"
    ensures MetaPath(b.name, ProviderMeta) == "metadata.annotations['" + RecordKey(b) + "-provider']"
  {
    KeySpelled(b);
    assert "-type" + "']" == "-type']" && "-provider" + "']" == "-provider']";
    assert MetaPath(b.name, TypeMeta) == "metadata.annotations['" + (RecordKey(b) + "-type") + "']";
    assert MetaPath(b.name, ProviderMeta) == "metadata.annotations['" + (RecordKey(b) + "-provider") + "']";
  }

  lemma EntryReads(b: Projector, e: EnvMapping)
    ensures Reads(b, e, EnvEntry(b, e))
  {
    MetaPathSpelled(b);
  }

  lemma {:induction false} EntriesRead(b: Projector, es: seq<EnvMapping>)
    ensures var xs := Gather(es, EntryOf(b, true));
            |xs| == |es| && forall i | 0 <= i < |xs| :: Reads(b, es[i], xs[i])
  {
    if es != [] {
      EntriesRead(b, Front(es));
      EntryReads(b, Last(es));
    }
  }

  lemma RootSpelled(env: seq<EnvVar>)
    ensures forall r :: UsableRoot(env, r) <==> r == RootValue(env) && r != ""
  {
    var isRoot := Named(ROOT_ENV, EnvKey);
    if Filter(env, isRoot) == [] {
      FilterMembers(env, isRoot);
      forall i | 0 <= i < |env| ensures env[i].name != ROOT_ENV {
        assert env[i] in env;
      }
    } else {
      FilterFirst(env, isRoot);
      var i :| 0 <= i < |env| && env[i] == Filter(env, isRoot)[0] && isRoot(env[i])
        && forall j | 0 <= j < i :: !isRoot(env[j]);
      assert env[i].value == RootValue(env);
      assert forall j | 0 <= j < i :: env[j].name != "SERVICE_BINDING_ROOT";
    }
  }

  lemma AdditionSpelled(env: seq<EnvVar>)
    ensures exists added :: RootAndAddition(env, MountRoot(env), added) && EnsureRoot(env) == env + added
  {
    RootSpelled(env);
    if RootValue(env) == "" {
      assert RootAndAddition(env, MountRoot(env), [RootEntry]);
    } else {
      assert UsableRoot(env, RootValue(env));
      assert RootAndAddition(env, MountRoot(env), []) && env + [] == env;
    }
  }

  lemma ContainerFilled(b: Projector, c: ContainerState, volumes: set<string>, secrets: set<string>)
    ensures FilledContainer(b, c, InjectContainer(b, c, volumes, secrets))
  {
    var c' := InjectContainer(b, c, volumes, secrets);
    var root, xs := MountRoot(c.env), BindingEnv(b, true);
    AdditionSpelled(c.env);
    var added :| RootAndAddition(c.env, root, added) && EnsureRoot(c.env) == c.env + added;
    EntriesRead(b, b.spec.env);
    SortKeeps(EnsureRoot(c.env) + xs, EnvIn(secrets), EnvKey);
    SortKeeps(c.volumeMounts + [BindingMount(b, root)], MountIn(volumes), MountKey);
    assert b.spec.env == [] ==> xs == [] && c.env + added + xs == c.env + added;
    assert AllRead(b, xs) && multiset(c'.env) == multiset(c.env + added + xs);
  }

  lemma ContainersFilled(b: Projector, cs: seq<ContainerState>, volumes: set<string>, secrets: set<string>)
    ensures Filled(b, cs, InjectAll(b, cs, volumes, secrets))
  {
    forall c ensures FilledContainer(b, c, InjectContainer(b, c, volumes, secrets)) {
      ContainerFilled(b, c, volumes, secrets);
    }
    forall name ensures Lists(b, name) <==> Targets(b, name) {
      ListsIsTargets(b, name);
    }
  }

  lemma VolumeFilled(b: Projector)
    ensures FilledVolume(b, BindingVolume(b))
  {
    MetaPathSpelled(b);
  }

  lemma TemplateFilled(b: Projector, m: map<string, string>)
    requires RecordKey(b) + "-type" !in m && RecordKey(b) + "-provider" !in m
    ensures FilledTemplate(b, m, m + MetaAnnotations(b))
  {
    KeySpelled(b);
    KeysInjective(b.name, b.name, TypeMeta, ProviderMeta);
  }

  /**
   A Do, on what its Undo left: the secret is on record, the overridden values are in the template's annotations,
   one projected volume is added, and exactly the listed containers are filled.
   */
  ghost predicate DoFilled(b: Projector, q: PodState, p': PodState) {
    && p'.annotations == q.annotations[RecordKey(b) := b.spec.binding]
    && FilledTemplate(b, q.templateAnnotations, p'.templateAnnotations)
    && (exists v | FilledVolume(b, v) :: multiset(p'.volumes) == multiset(q.volumes + [v]))
    && Filled(b, q.initContainers, p'.initContainers)
    && Filled(b, q.containers, p'.containers)
  }

  lemma DoFills(b: Projector, p: PodState)
    ensures DoFilled(b, UndoPod(b, p), DoPod(b, p))
  {
    var q := UndoPod(b, p);
    var names, secrets := InjectedVolumes(b, q), InjectedSecrets(q.annotations) + {b.spec.binding};
    KeySpelled(b);
    UndoClears(b, p);
    TemplateFilled(b, q.templateAnnotations);
    VolumeFilled(b);
    SortKeeps(q.volumes + [BindingVolume(b)], VolumeIn(names), VolumeKey);
    ContainersFilled(b, q.initContainers, names, secrets);
    ContainersFilled(b, q.containers, names, secrets);
  }
}
