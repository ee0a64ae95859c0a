/**
 `Do` and `Undo` as they run: loops, appends and in-place sorts over a mutable pod.
 Every method is proved to compute the corresponding function of module Projection; module Contents says what
 those functions leave in a pod, field by field.
 */
module Lifecycle {
  import opened FieldPath
  import opened PartialSort
  import P = Projection
  import opened Sequences
  import opened Types

  class Container {
    const name: string
    const rest: string
    var env: seq<EnvVar>
    var volumeMounts: seq<VolumeMount>

    constructor (name: string, env: seq<EnvVar>, volumeMounts: seq<VolumeMount>, rest: string)
      ensures State() == ContainerState(name, env, volumeMounts, rest)
    {
      this.name, this.env, this.volumeMounts, this.rest := name, env, volumeMounts, rest;
    }

    ghost function State(): ContainerState
      reads this
    {
      ContainerState(name, env, volumeMounts, rest)
    }
  }

  ghost function States(cs: seq<Container>): seq<ContainerState>
    reads cs
  {
    seq(|cs|, i requires 0 <= i < |cs| reads cs => cs[i].State())
  }

  ghost predicate NoAliases(cs: seq<Container>) {
    forall i, j | 0 <= i < j < |cs| :: cs[i] != cs[j]
  }

  class WithPod {
    var annotations: map<string, string>
    var templateAnnotations: map<string, string>
    var volumes: seq<Volume>
    const initContainers: seq<Container>
    const containers: seq<Container>

    constructor (annotations: map<string, string>, templateAnnotations: map<string, string>, volumes: seq<Volume>,
                 initContainers: seq<Container>, containers: seq<Container>)
      requires NoAliases(initContainers + containers)
      ensures Valid() && this.initContainers == initContainers && this.containers == containers
      ensures State() == PodState(annotations, templateAnnotations, volumes, States(initContainers), States(containers))
    {
      this.annotations, this.templateAnnotations, this.volumes := annotations, templateAnnotations, volumes;
      this.initContainers, this.containers := initContainers, containers;
    }

    ghost predicate Valid() {
      NoAliases(initContainers + containers)
    }

    ghost function State(): PodState
      reads this, initContainers, containers
    {
      PodState(annotations, templateAnnotations, volumes, States(initContainers), States(containers))
    }
  }

  // ---- Reading ----

  /** The sort of a slice in place, for slices held in fields. */
  method SortSlice<T(!new)>(s: seq<T>, inj: T -> bool, key: T -> string) returns (r: seq<T>)
    ensures r == Sort(s, inj, key)
  {
    var a := new T[|s|](i requires 0 <= i < |s| => s[i]);
    assert a[..] == s;
    InsertionSort(a, inj, key);
    r := a[..];
  }

  method IsTargetContainer(b: Projector, name: string) returns (r: bool)
    ensures r == P.Targets(b, name)
    ensures var names := b.spec.workload.containers;
            r <==> |names| == 0 || exists k :: 0 <= k < |names| && names[k] == name
  {
    var targets := b.spec.workload.containers;
    if |targets| == 0 {
      return true;
    }
    for i := 0 to |targets|
      invariant name !in targets[..i]
    {
      if name == targets[i] {
        return true;
      }
    }
    return false;
  }

  method InjectedValues(ps: WithPod) returns (secrets: set<string>, volumes: set<string>)
    ensures secrets == P.InjectedSecrets(ps.annotations)
    ensures volumes == P.VolumeNames(ps.volumes, secrets)
    ensures forall s :: s in secrets <==> exists k | k in ps.annotations ::
              "internal.bindings.labs.vmware.com/projection" <= k && ps.annotations[k] == s
  {
    secrets, volumes := {}, {};
    var keys := ps.annotations.Keys;
    while keys != {}
      invariant keys <= ps.annotations.Keys
      invariant secrets == set k | k in ps.annotations && k !in keys && PROJECTION_KEY <= k :: ps.annotations[k]
      decreases keys
    {
      var k :| k in keys;
      keys := keys - {k};
      if PROJECTION_KEY <= k {
        secrets := secrets + {ps.annotations[k]};
      }
    }
    for i := 0 to |ps.volumes|
      invariant volumes == P.VolumeNames(ps.volumes[..i], secrets)
    {
      assert ps.volumes[..i + 1] == ps.volumes[..i] + [ps.volumes[i]];
      if P.IsFromSecret(ps.volumes[i], secrets) {
        volumes := volumes + {ps.volumes[i].name};
      }
    }
    assert ps.volumes[..|ps.volumes|] == ps.volumes;
  }

  // ---- Undo ----

  lemma FilterStep<T(!new)>(s: seq<T>, i: nat, p: T -> bool)
    requires i < |s|
    ensures Filter(s[..i + 1], p) == Filter(s[..i], p) + if p(s[i]) then [s[i]] else []
  {
    assert Front(s[..i + 1]) == s[..i];
  }

  method UndoContainer(c: Container, removeSecrets: set<string>, removeVolumes: set<string>)
    modifies c
    ensures c.State() == P.UndoContainer(old(c.State()), removeSecrets, removeVolumes)
  {
    var preservedMounts := [];
    for i := 0 to |c.volumeMounts|
      invariant c.State() == old(c.State())
      invariant preservedMounts == Filter(c.volumeMounts[..i], P.MountKept(removeVolumes))
    {
      FilterStep(c.volumeMounts, i, P.MountKept(removeVolumes));
      if c.volumeMounts[i].name !in removeVolumes {
        preservedMounts := preservedMounts + [c.volumeMounts[i]];
      }
    }
    assert c.volumeMounts[..|c.volumeMounts|] == c.volumeMounts;
    c.volumeMounts := preservedMounts;

    var preservedEnv := [];
    for i := 0 to |c.env|
      invariant c.env == old(c.env) && c.volumeMounts == preservedMounts
      invariant preservedEnv == Filter(c.env[..i], P.EnvKept(removeSecrets))
    {
      FilterStep(c.env, i, P.EnvKept(removeSecrets));
      if !P.IsInjectedEnv(c.env[i], removeSecrets) {
        preservedEnv := preservedEnv + [c.env[i]];
      }
    }
    assert c.env[..|c.env|] == c.env;
    c.env := preservedEnv;
  }

  method UndoContainers(cs: seq<Container>, removeSecrets: set<string>, removeVolumes: set<string>)
    requires NoAliases(cs)
    modifies cs
    ensures States(cs) == P.UndoAll(old(States(cs)), removeSecrets, removeVolumes)
  {
    for i := 0 to |cs|
      invariant forall j | 0 <= j < i :: cs[j].State() == P.UndoContainer(old(cs[j].State()), removeSecrets, removeVolumes)
      invariant forall j | i <= j < |cs| :: cs[j].State() == old(cs[j].State())
    {
      UndoContainer(cs[i], removeSecrets, removeVolumes);
    }
  }

  /** The loop that splits the volumes into those kept and the names of those removed. */
  method SplitVolumes(vs: seq<Volume>, removeSecrets: set<string>)
    returns (preservedVolumes: seq<Volume>, removeVolumes: set<string>)
    ensures preservedVolumes == Filter(vs, P.VolumeKept(removeSecrets))
    ensures removeVolumes == P.VolumeNames(vs, removeSecrets)
  {
    preservedVolumes, removeVolumes := [], {};
    for i := 0 to |vs|
      invariant removeVolumes == P.VolumeNames(vs[..i], removeSecrets)
      invariant preservedVolumes == Filter(vs[..i], P.VolumeKept(removeSecrets))
    {
      FilterStep(vs, i, P.VolumeKept(removeSecrets));
      assert vs[..i + 1] == vs[..i] + [vs[i]];
      if P.IsFromSecret(vs[i], removeSecrets) {
        removeVolumes := removeVolumes + {vs[i].name};
      } else {
        preservedVolumes := preservedVolumes + [vs[i]];
      }
    }
    assert vs[..|vs|] == vs;
  }

  method Undo(b: Projector, ps: WithPod)
    requires ps.Valid()
    modifies ps, ps.initContainers, ps.containers
    ensures ps.State() == P.UndoPod(b, old(ps.State()))
  {
    var key := AnnotationKey(b.name);
    var removeSecrets := {if key in ps.annotations then ps.annotations[key] else "", b.spec.binding};
    assert removeSecrets == P.RemoveSecrets(b, ps.annotations);
    ps.annotations := ps.annotations - {key};
    ps.templateAnnotations := ps.templateAnnotations - {key + "-type"} - {key + "-provider"};
    assert ps.templateAnnotations == old(ps.templateAnnotations) - P.MetaKeys(b.name);

    var preservedVolumes, removeVolumes := SplitVolumes(ps.volumes, removeSecrets);
    ps.volumes := preservedVolumes;

    NoAliasesParts(ps.initContainers, ps.containers);
    UndoContainers(ps.initContainers, removeSecrets, removeVolumes);
    assert States(ps.containers) == old(States(ps.containers));
    label L:
    UndoContainers(ps.containers, removeSecrets, removeVolumes);
    assert States(ps.initContainers) == old@L(States(ps.initContainers));
  }

  lemma NoAliasesParts(cs: seq<Container>, ds: seq<Container>)
    requires NoAliases(cs + ds)
    ensures NoAliases(cs) && NoAliases(ds)
    ensures forall i, j | 0 <= i < |cs| && 0 <= j < |ds| :: cs[i] != ds[j]
  {
    forall i, j | 0 <= i < |cs| && 0 <= j < |ds| ensures cs[i] != ds[j] {
      assert (cs + ds)[i] == cs[i] && (cs + ds)[|cs| + j] == ds[j];
    }
    forall i, j | 0 <= i < j < |cs| ensures cs[i] != cs[j] {
      assert (cs + ds)[i] == cs[i] && (cs + ds)[j] == cs[j];
    }
    forall i, j | 0 <= i < j < |ds| ensures ds[i] != ds[j] {
      assert (cs + ds)[|cs| + i] == ds[i] && (cs + ds)[|cs| + j] == ds[j];
    }
  }

  // ---- Do ----

  /** The first loop of doContainer: the predefined mount path, "" if there is none. */
  method PredefinedRoot(env: seq<EnvVar>) returns (mountPath: string)
    ensures mountPath == P.RootValue(env)
  {
    mountPath := "";
    for i := 0 to |env|
      invariant Filter(env[..i], Named(P.ROOT_ENV, P.EnvKey)) == [] && mountPath == ""
    {
      FilterStep(env, i, Named(P.ROOT_ENV, P.EnvKey));
      if env[i].name == P.ROOT_ENV {
        mountPath := env[i].value;
        assert env == env[..i + 1] + env[i + 1..];
        FilterConcat(env[..i + 1], env[i + 1..], Named(P.ROOT_ENV, P.EnvKey));
        return;
      }
    }
    assert env[..|env|] == env;
  }

  /** The loop that appends one env var for each mapping. */
  method AppendEnv(b: Projector, env: seq<EnvVar>) returns (r: seq<EnvVar>)
    ensures r == env + P.BindingEnv(b, true)
  {
    var key := AnnotationKey(b.name);
    r := env;
    for i := 0 to |b.spec.env|
      invariant r == env + Gather(b.spec.env[..i], P.EntryOf(b, true))
    {
      var e := b.spec.env[i];
      assert Front(b.spec.env[..i + 1]) == b.spec.env[..i];
      if e.key == "type" && b.spec.serviceType != "" {
        var path := PATH_OPEN + (key + "-type") + PATH_CLOSE;
        r := r + [EnvVar(e.name, "", Some(EnvVarSource(None, Some(path), "")))];
      } else if e.key == "provider" && b.spec.provider != "" {
        var path := PATH_OPEN + (key + "-provider") + PATH_CLOSE;
        r := r + [EnvVar(e.name, "", Some(EnvVarSource(None, Some(path), "")))];
      } else {
        r := r + [EnvVar(e.name, "", Some(EnvVarSource(Some(SecretKeySelector(b.spec.binding, e.key)), None, "")))];
      }
    }
    assert b.spec.env[..|b.spec.env|] == b.spec.env;
  }

  method DoContainer(b: Projector, c: Container, allInjectedVolumes: set<string>, allInjectedSecrets: set<string>)
    modifies c
    ensures c.State() == P.InjectContainer(b, old(c.State()), allInjectedVolumes, allInjectedSecrets)
  {
    var mountPath := PredefinedRoot(c.env);
    if mountPath == "" {
      mountPath := P.DEFAULT_ROOT;
      c.env := c.env + [EnvVar(P.ROOT_ENV, mountPath, None)];
    }
    assert c.env == P.EnsureRoot(old(c.env)) && mountPath == P.MountRoot(old(c.env));

    var mount := VolumeMount(VolumeName(b.spec.binding), mountPath + "/" + b.spec.name, true, "");
    c.volumeMounts := c.volumeMounts + [mount];
    c.volumeMounts := SortSlice(c.volumeMounts, P.MountIn(allInjectedVolumes), P.MountKey);

    if |b.spec.env| != 0 {
      c.env := AppendEnv(b, c.env);
      c.env := SortSlice(c.env, P.EnvIn(allInjectedSecrets), P.EnvKey);
    }
  }

  lemma InjectedElementwise(
      b: Projector, before: seq<ContainerState>, after: seq<ContainerState>, volumes: set<string>, secrets: set<string>)
    requires |after| == |before|
    requires forall i | 0 <= i < |before| ::
               after[i] == if P.Targets(b, before[i].name) then P.InjectContainer(b, before[i], volumes, secrets) else before[i]
    ensures after == P.InjectAll(b, before, volumes, secrets)
  {
  }

  method DoContainers(b: Projector, cs: seq<Container>, allInjectedVolumes: set<string>, allInjectedSecrets: set<string>)
    requires NoAliases(cs)
    modifies cs
    ensures States(cs) == P.InjectAll(b, old(States(cs)), allInjectedVolumes, allInjectedSecrets)
  {
    for i := 0 to |cs|
      invariant forall j | 0 <= j < i ::
          cs[j].State() == (if P.Targets(b, cs[j].name)
            then P.InjectContainer(b, old(cs[j].State()), allInjectedVolumes, allInjectedSecrets)
            else old(cs[j].State()))
      invariant forall j | i <= j < |cs| :: cs[j].State() == old(cs[j].State())
    {
      var targeted := IsTargetContainer(b, cs[i].name);
      if targeted {
        DoContainer(b, cs[i], allInjectedVolumes, allInjectedSecrets);
      }
      assert forall j | 0 <= j < |cs| && j != i :: cs[j] != cs[i];
    }
    InjectedElementwise(b, old(States(cs)), States(cs), allInjectedVolumes, allInjectedSecrets);
  }

  /** The volume that projects the secret, and the template annotations that its other sources read. */
  method ProjectedVolume(b: Projector, ps: WithPod) returns (volume: Volume)
    modifies ps`templateAnnotations
    ensures volume == P.BindingVolume(b)
    ensures ps.templateAnnotations == old(ps.templateAnnotations) + P.MetaAnnotations(b)
  {
    var key := AnnotationKey(b.name);
    var sources := [VolumeProjection(Some(b.spec.binding), [], "")];
    if b.spec.serviceType != "" {
      var typeAnnotation := key + "-type";
      ps.templateAnnotations := ps.templateAnnotations[typeAnnotation := b.spec.serviceType];
      var path := PATH_OPEN + typeAnnotation + PATH_CLOSE;
      sources := sources + [VolumeProjection(None, [DownwardFile(path, "type")], "")];
    }
    assert sources == [VolumeProjection(Some(b.spec.binding), [], "")] + P.MetaSource(b, TypeMeta);
    assert ps.templateAnnotations == old(ps.templateAnnotations) + P.MetaAnnotation(b, TypeMeta);
    ghost var withType := ps.templateAnnotations;
    if b.spec.provider != "" {
      var providerAnnotation := key + "-provider";
      ps.templateAnnotations := ps.templateAnnotations[providerAnnotation := b.spec.provider];
      var path := PATH_OPEN + providerAnnotation + PATH_CLOSE;
      sources := sources + [VolumeProjection(None, [DownwardFile(path, "provider")], "")];
    }
    assert ps.templateAnnotations == withType + P.MetaAnnotation(b, ProviderMeta);
    assert sources
        == [VolumeProjection(Some(b.spec.binding), [], "")] + P.MetaSource(b, TypeMeta) + P.MetaSource(b, ProviderMeta);
    JoinAssociative(old(ps.templateAnnotations), P.MetaAnnotation(b, TypeMeta), P.MetaAnnotation(b, ProviderMeta));
    volume := Volume(VolumeName(b.spec.binding), Some(sources), "");
  }

  /** The two container loops. */
  method DoTargets(b: Projector, ps: WithPod, allInjectedVolumes: set<string>, allInjectedSecrets: set<string>)
    requires ps.Valid()
    modifies ps.initContainers, ps.containers
    ensures States(ps.initContainers)
         == P.InjectAll(b, old(States(ps.initContainers)), allInjectedVolumes, allInjectedSecrets)
    ensures States(ps.containers) == P.InjectAll(b, old(States(ps.containers)), allInjectedVolumes, allInjectedSecrets)
  {
    NoAliasesParts(ps.initContainers, ps.containers);
    DoContainers(b, ps.initContainers, allInjectedVolumes, allInjectedSecrets);
    assert States(ps.containers) == old(States(ps.containers));
    label L:
    DoContainers(b, ps.containers, allInjectedVolumes, allInjectedSecrets);
    assert States(ps.initContainers) == old@L(States(ps.initContainers));
  }

  /** Everything that Do does to the pod itself, after its Undo. */
  method DoVolume(b: Projector, ps: WithPod) returns (injectedVolumes: set<string>, injectedSecrets: set<string>)
    modifies ps
    ensures var secrets := P.InjectedSecrets(old(ps.annotations));
            && injectedSecrets == secrets + {b.spec.binding}
            && injectedVolumes == P.VolumeNames(old(ps.volumes), secrets) + {VolumeName(b.spec.binding)}
    ensures ps.annotations == old(ps.annotations)[AnnotationKey(b.name) := b.spec.binding]
    ensures ps.templateAnnotations == old(ps.templateAnnotations) + P.MetaAnnotations(b)
    ensures ps.volumes == Sort(old(ps.volumes) + [P.BindingVolume(b)], P.VolumeIn(injectedVolumes), P.VolumeKey)
  {
    injectedSecrets, injectedVolumes := InjectedValues(ps);
    var volume := ProjectedVolume(b, ps);
    ps.volumes := ps.volumes + [volume];
    injectedSecrets := injectedSecrets + {b.spec.binding};
    injectedVolumes := injectedVolumes + {volume.name};
    ps.volumes := SortSlice(ps.volumes, P.VolumeIn(injectedVolumes), P.VolumeKey);
    ps.annotations := ps.annotations[AnnotationKey(b.name) := b.spec.binding];
  }

  method Do(b: Projector, ps: WithPod)
    requires ps.Valid()
    modifies ps, ps.initContainers, ps.containers
    ensures ps.State() == P.DoPod(b, old(ps.State()))
  {
    Undo(b, ps);
    ghost var q := ps.State();
    var injectedVolumes, injectedSecrets := DoVolume(b, ps);
    assert States(ps.initContainers) == q.initContainers && States(ps.containers) == q.containers;
    DoTargets(b, ps, injectedVolumes, injectedSecrets);
    assert ps.State() == P.InjectPod(b, q);
  }
}
