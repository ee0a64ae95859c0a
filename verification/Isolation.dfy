/** What `Do` and `Undo` of one binding leave alone, and what keeps referring to something, on arbitrary pods. */
module Isolation {
  import opened FieldPath
  import opened PartialSort
  import opened Projection
  import opened Repetition
  import opened Sequences
  import opened Types

  function FromSecret(secret: string): Volume -> bool {
    (v: Volume) => FirstSecret(v) == Some(secret)
  }

  /** An env var that reads `secret` and is not an overridden value. */
  function ReadsSecret(secret: string): EnvVar -> bool {
    (e: EnvVar) => SecretOf(e) == Some(secret) && !HasMetaPath(e)
  }

  // ---- Multisets of filtered sequences ----

  lemma {:induction false} FilterCount<T(!new)>(s: seq<T>, p: T -> bool, x: T)
    ensures multiset(Filter(s, p))[x] == if p(x) then multiset(s)[x] else 0
  {
    if s != [] {
      FilterCount(Front(s), p, x);
      assert s == Front(s) + [Last(s)];
    }
  }

  lemma FilterPermuted<T(!new)>(s: seq<T>, t: seq<T>, p: T -> bool)
    requires multiset(s) == multiset(t)
    ensures multiset(Filter(s, p)) == multiset(Filter(t, p))
  {
    forall x: T ensures multiset(Filter(s, p))[x] == multiset(Filter(t, p))[x] {
      FilterCount(s, p, x);
      FilterCount(t, p, x);
    }
  }

  /** What `p` selects comes through the filter `keep` exactly when all of it is kept; otherwise it shrinks. */
  lemma FilterSurvives<T(!new)>(s: seq<T>, keep: T -> bool, p: T -> bool)
    ensures Filter(Filter(s, keep), p) == Filter(s, p) <==> forall x | x in s && p(x) :: keep(x)
    ensures multiset(Filter(Filter(s, keep), p)) == multiset(Filter(s, p)) <==> forall x | x in s && p(x) :: keep(x)
  {
    FilterMembers(s, p);
    FilterCommutes(s, keep, p);
    if x :| x in s && p(x) && !keep(x) {
      FilterShorter(Filter(s, p), x, keep);
      assert |multiset(Filter(Filter(s, p), keep))| < |multiset(Filter(s, p))|;
    } else {
      FilterAll(Filter(s, p), keep);
    }
  }

  /** Appending things outside `p` and sorting keeps the elements of `p`. */
  lemma SortAppendKeeps<T(!new)>(s: seq<T>, t: seq<T>, p: T -> bool, inj: T -> bool, key: T -> string)
    requires forall x | x in t :: !p(x)
    ensures multiset(Filter(Sort(s + t, inj, key), p)) == multiset(Filter(s, p))
    ensures Unswapped(p, inj, key) ==> Filter(Sort(s + t, inj, key), p) == Filter(s, p)
  {
    SortKeeps(s + t, inj, key);
    FilterPermuted(Sort(s + t, inj, key), s + t, p);
    FilterConcat(s, t, p);
    FilterNone(t, p);
    if Unswapped(p, inj, key) {
      SortStable(s + t, p, inj, key);
    }
  }

  // ---- Containers ----

  /** Of container `c` became `c'`: identity kept, `secret`'s env vars and `volume`'s mounts all still there. */
  ghost predicate KeepsContainer(c: ContainerState, c': ContainerState, secret: string, volume: string) {
    && c'.name == c.name && c'.rest == c.rest
    && Filter(c'.volumeMounts, Named(volume, MountKey)) == Filter(c.volumeMounts, Named(volume, MountKey))
    && multiset(Filter(c'.env, ReadsSecret(secret))) == multiset(Filter(c.env, ReadsSecret(secret)))
  }

  ghost predicate KeepsContainers(cs: seq<ContainerState>, cs': seq<ContainerState>, secret: string, volume: string) {
    |cs'| == |cs| && forall i | 0 <= i < |cs| :: KeepsContainer(cs[i], cs'[i], secret, volume)
  }

  /** The container holds nothing of `secret` and `volume` that a removal of `secrets` and `volumes` takes away. */
  predicate SparedIn(c: ContainerState, secrets: set<string>, volumes: set<string>, secret: string, volume: string) {
    && (volume in volumes ==> forall m | m in c.volumeMounts :: m.name != volume)
    && (secret in secrets ==> forall e | e in c.env :: SecretOf(e) == Some(secret) ==> HasMetaPath(e))
  }

  lemma UndoKeepsExactly(c: ContainerState, secrets: set<string>, volumes: set<string>, secret: string, volume: string)
    ensures KeepsContainer(c, UndoContainer(c, secrets, volumes), secret, volume)
       <==> SparedIn(c, secrets, volumes, secret, volume)
  {
    FilterSurvives(c.volumeMounts, MountKept(volumes), Named(volume, MountKey));
    FilterSurvives(c.env, EnvKept(secrets), ReadsSecret(secret));
  }

  lemma InjectKeepsEnv(b: Projector, env: seq<EnvVar>, secrets: set<string>, secret: string)
    requires secret != b.spec.binding
    ensures multiset(Filter(EnsureRoot(env), ReadsSecret(secret))) == multiset(Filter(env, ReadsSecret(secret)))
    ensures multiset(Filter(Sort(EnsureRoot(env) + BindingEnv(b, true), EnvIn(secrets), EnvKey), ReadsSecret(secret)))
         == multiset(Filter(env, ReadsSecret(secret)))
  {
    var p := ReadsSecret(secret);
    FilterLast(env, RootEntry, p);
    BindingEnvInjected(b, true, {});
    SortAppendKeeps(EnsureRoot(env), BindingEnv(b, true), p, EnvIn(secrets), EnvKey);
  }

  lemma InjectKeepsContainer(
      b: Projector, c: ContainerState, volumes: set<string>, secrets: set<string>, secret: string, volume: string)
    requires secret != b.spec.binding && volume != VolumeName(b.spec.binding)
    ensures KeepsContainer(c, Injected(b, c, volumes, secrets), secret, volume)
  {
    if Targets(b, c.name) {
      NamedUnswapped(volume, MountIn(volumes), MountKey);
      SortAppendKeeps(c.volumeMounts, [BindingMount(b, MountRoot(c.env))], Named(volume, MountKey),
                      MountIn(volumes), MountKey);
      InjectKeepsEnv(b, c.env, secrets, secret);
    }
  }

  // ---- Pods ----

  /** The entries of a binding with this secret and volume name survive from `p` to `p'`. */
  ghost predicate Keeps(p: PodState, p': PodState, secret: string, volume: string) {
    && multiset(Filter(p'.volumes, FromSecret(secret))) == multiset(Filter(p.volumes, FromSecret(secret)))
    && KeepsContainers(p.initContainers, p'.initContainers, secret, volume)
    && KeepsContainers(p.containers, p'.containers, secret, volume)
  }

  ghost predicate SameExcept(m: map<string, string>, m': map<string, string>, keys: set<string>) {
    m - keys == m' - keys
  }

  /**
   A caller's test: whatever of `secret` and `volume` the pod holds is not what `b` records or asks for, nor
   mounted from one of its volumes.
   */
  predicate Spared(b: Projector, p: PodState, secret: string, volume: string) {
    var secrets := RemoveSecrets(b, p.annotations);
    && (secret in secrets ==> forall v | v in p.volumes :: FirstSecret(v) != Some(secret))
    && (forall c | c in AllContainers(p) :: SparedIn(c, secrets, VolumeNames(p.volumes, secrets), secret, volume))
  }

  lemma UndoKeepsAll(cs: seq<ContainerState>, secrets: set<string>, volumes: set<string>, secret: string, volume: string)
    ensures KeepsContainers(cs, UndoAll(cs, secrets, volumes), secret, volume)
       <==> forall c | c in cs :: SparedIn(c, secrets, volumes, secret, volume)
  {
    var us := UndoAll(cs, secrets, volumes);
    forall i | 0 <= i < |cs|
      ensures KeepsContainer(cs[i], us[i], secret, volume) <==> SparedIn(cs[i], secrets, volumes, secret, volume)
    {
      UndoKeepsExactly(cs[i], secrets, volumes, secret, volume);
    }
    if KeepsContainers(cs, us, secret, volume) {
      forall c | c in cs ensures SparedIn(c, secrets, volumes, secret, volume) {
        var i :| 0 <= i < |cs| && cs[i] == c;
        assert KeepsContainer(cs[i], us[i], secret, volume);
      }
    }
  }

  lemma UndoKeepsVolumes(vs: seq<Volume>, secrets: set<string>, secret: string)
    ensures multiset(Filter(Filter(vs, VolumeKept(secrets)), FromSecret(secret))) == multiset(Filter(vs, FromSecret(secret)))
       <==> (secret in secrets ==> forall v | v in vs :: FirstSecret(v) != Some(secret))
  {
    FilterSurvives(vs, VolumeKept(secrets), FromSecret(secret));
  }

  lemma UndoKeepsPod(b: Projector, p: PodState, secret: string, volume: string)
    ensures Keeps(p, UndoPod(b, p), secret, volume) <==> Spared(b, p, secret, volume)
  {
    var secrets := RemoveSecrets(b, p.annotations);
    var volumes := VolumeNames(p.volumes, secrets);
    UndoKeepsVolumes(p.volumes, secrets, secret);
    UndoKeepsAll(p.initContainers, secrets, volumes, secret, volume);
    UndoKeepsAll(p.containers, secrets, volumes, secret, volume);
  }

  /** An Undo keeps the entries of a secret and of a volume exactly when they are spared, and never another annotation. */
  lemma UndoIsolated(b: Projector, p: PodState, secret: string, volume: string)
    ensures Keeps(p, UndoPod(b, p), secret, volume) <==> Spared(b, p, secret, volume)
    ensures SameExcept(p.annotations, UndoPod(b, p).annotations, {AnnotationKey(b.name)})
    ensures SameExcept(p.templateAnnotations, UndoPod(b, p).templateAnnotations,
                       MetaKeys(b.name))
  {
    UndoKeepsPod(b, p, secret, volume);
  }

  lemma InjectKeepsContainers(
      b: Projector, cs: seq<ContainerState>, volumes: set<string>, secrets: set<string>, secret: string, volume: string)
    requires secret != b.spec.binding && volume != VolumeName(b.spec.binding)
    ensures KeepsContainers(cs, InjectAll(b, cs, volumes, secrets), secret, volume)
  {
    forall i | 0 <= i < |cs|
      ensures KeepsContainer(cs[i], InjectAll(b, cs, volumes, secrets)[i], secret, volume)
    {
      InjectKeepsContainer(b, cs[i], volumes, secrets, secret, volume);
    }
  }

  lemma InjectIsolated(b: Projector, q: PodState, secret: string, volume: string)
    requires secret != b.spec.binding && volume != VolumeName(b.spec.binding)
    ensures Keeps(q, InjectPod(b, q), secret, volume)
  {
    var names, secrets := InjectedVolumes(b, q), InjectedSecrets(q.annotations) + {b.spec.binding};
    assert FirstSecret(BindingVolume(b)) == Some(b.spec.binding);
    SortAppendKeeps(q.volumes, [BindingVolume(b)], FromSecret(secret), VolumeIn(names), VolumeKey);
    InjectKeepsContainers(b, q.initContainers, names, secrets, secret, volume);
    InjectKeepsContainers(b, q.containers, names, secrets, secret, volume);
  }

  /**
   A Do of `b` keeps the volumes, every mount and every secret-backed env var of another secret and volume
   exactly when they are spared, and only ever touches its own annotations; in that case containers keep
   their number, order, name and the rest.
   */
  lemma DoIsolated(b: Projector, p: PodState, secret: string, volume: string)
    requires secret != b.spec.binding && volume != VolumeName(b.spec.binding)
    ensures Keeps(p, DoPod(b, p), secret, volume) <==> Spared(b, p, secret, volume)
    ensures SameExcept(p.annotations, DoPod(b, p).annotations, {AnnotationKey(b.name)})
    ensures SameExcept(p.templateAnnotations, DoPod(b, p).templateAnnotations,
                       MetaKeys(b.name))
  {
    var q := UndoPod(b, p);
    UndoIsolated(b, p, secret, volume);
    InjectIsolated(b, q, secret, volume);
    KeepsThrough(p, q, InjectPod(b, q), secret, volume);
    InjectAnnotationsIsolated(b, q);
  }

  lemma KeepsThrough(p: PodState, q: PodState, r: PodState, secret: string, volume: string)
    requires Keeps(q, r, secret, volume)
    ensures Keeps(p, q, secret, volume) <==> Keeps(p, r, secret, volume)
  {
    KeepsContainersThrough(p.initContainers, q.initContainers, r.initContainers, secret, volume);
    KeepsContainersThrough(p.containers, q.containers, r.containers, secret, volume);
  }

  lemma KeepsContainersThrough(
      cs: seq<ContainerState>, ds: seq<ContainerState>, es: seq<ContainerState>, secret: string, volume: string)
    requires KeepsContainers(ds, es, secret, volume)
    ensures KeepsContainers(cs, ds, secret, volume) <==> KeepsContainers(cs, es, secret, volume)
  {
  }

  // ---- Bindings that share a secret ----

  lemma SortedSingle<T(!new)>(s: seq<T>, x: T, p: T -> bool, inj: T -> bool, key: T -> string)
    requires p(x) && forall y | y in s :: !p(y)
    ensures Filter(Sort(s + [x], inj, key), p) == [x]
  {
    var t := Filter(Sort(s + [x], inj, key), p);
    SortKeeps(s + [x], inj, key);
    FilterPermuted(Sort(s + [x], inj, key), s + [x], p);
    FilterLast(s, x, p);
    FilterNone(s, p);
    assert |t| == |multiset(t)| == |multiset([x])| == 1;
    assert t[0] in multiset(t);
  }

  lemma SingleMember<T(!new)>(s: seq<T>, x: T, p: T -> bool)
    requires Filter(s, p) == [x]
    ensures forall y | p(y) :: y in s <==> y == x
  {
    FilterMembers(s, p);
    assert x in Filter(s, p);
  }

  lemma DoVolume(b: Projector, q: PodState)
    requires forall v | v in q.volumes :: FirstSecret(v) != Some(b.spec.binding)
    ensures Filter(InjectPod(b, q).volumes, FromSecret(b.spec.binding)) == [BindingVolume(b)]
  {
    SortedSingle(q.volumes, BindingVolume(b), FromSecret(b.spec.binding), VolumeIn(InjectedVolumes(b, q)), VolumeKey);
  }

  /**
   Of its own secret a Do leaves exactly its own entries, whoever's the earlier ones were: one volume, and in
   targeted containers only env vars that it maps itself.  Mounts of an earlier volume of that name are its own too.
   */
  lemma DoTakesOver(b: Projector, p: PodState)
    ensures var p', volumes := DoPod(b, p), VolumeNames(p.volumes, RemoveSecrets(b, p.annotations));
            && Filter(p'.volumes, FromSecret(b.spec.binding)) == [BindingVolume(b)]
            && (forall c, e | c in AllContainers(p') && e in c.env && SecretOf(e) == Some(b.spec.binding) ::
                  Targets(b, c.name) && e in BindingEnv(b, true))
            && (VolumeName(b.spec.binding) in volumes ==>
                  forall c, m | c in AllContainers(p') && m in c.volumeMounts && m.name == VolumeName(b.spec.binding) ::
                    Targets(b, c.name) && exists root :: m == BindingMount(b, root))
  {
    var q := UndoPod(b, p);
    UndoClears(b, p);
    DoVolume(b, q);
    var names, secrets := InjectedVolumes(b, q), InjectedSecrets(q.annotations) + {b.spec.binding};
    forall c | c in AllContainers(InjectPod(b, q))
      ensures forall e | e in c.env && SecretOf(e) == Some(b.spec.binding) :: Targets(b, c.name) && e in BindingEnv(b, true)
      ensures VolumeName(b.spec.binding) in VolumeNames(p.volumes, RemoveSecrets(b, p.annotations)) ==>
                forall m | m in c.volumeMounts && m.name == VolumeName(b.spec.binding) ::
                  Targets(b, c.name) && exists root :: m == BindingMount(b, root)
    {
      InjectContainerOf(b, q, c);
      var c0 :| c0 in AllContainers(q) && c == Injected(b, c0, names, secrets);
      TakenOver(b, c0, names, secrets);
    }
  }

  lemma TakenOver(b: Projector, c: ContainerState, volumes: set<string>, secrets: set<string>)
    requires ClearedEnv(b, c.env)
    ensures var c' := Injected(b, c, volumes, secrets);
            && (forall e | e in c'.env && SecretOf(e) == Some(b.spec.binding) ::
                  Targets(b, c'.name) && e in BindingEnv(b, true))
            && ((forall m | m in c.volumeMounts :: m.name != VolumeName(b.spec.binding)) ==>
                  forall m | m in c'.volumeMounts && m.name == VolumeName(b.spec.binding) ::
                    Targets(b, c'.name) && exists root :: m == BindingMount(b, root))
  {
    InjectContainerMembers(b, c, volumes, secrets);
    SortMembers(c.volumeMounts + [BindingMount(b, MountRoot(c.env))], MountIn(volumes), MountKey);
  }

  lemma SharedVolumeErased(a: Projector, b: Projector, vs: seq<Volume>)
    requires a.spec.binding == b.spec.binding
    requires Filter(vs, FromSecret(b.spec.binding)) == [BindingVolume(b)]
    ensures BindingVolume(a) in vs <==> BindingVolume(a) == BindingVolume(b)
  {
    SingleMember(vs, BindingVolume(b), FromSecret(b.spec.binding));
    assert FromSecret(b.spec.binding)(BindingVolume(a));
  }

  lemma SharedEnvErased(a: Projector, b: Projector, p: PodState, c: ContainerState, e: EnvMapping)
    requires a.spec.binding == b.spec.binding && e in a.spec.env
    requires c in AllContainers(DoPod(b, p)) && EnvEntry(a, e) in c.env
    ensures EnvEntry(a, e) in BindingEnv(b, true)
  {
    DoTakesOver(b, p);
    MetaPathsAfter(b, p);
    EntryInjected(a, e);
  }

  /** So of another binding with the same secret nothing comes through but what both ask for. */
  lemma SharedSecretErases(a: Projector, b: Projector, p: PodState)
    requires a.spec.binding == b.spec.binding
    ensures BindingVolume(a) in DoPod(b, p).volumes <==> BindingVolume(a) == BindingVolume(b)
    ensures forall c, e | c in AllContainers(DoPod(b, p)) && e in a.spec.env && EnvEntry(a, e) in c.env ::
              EnvEntry(a, e) in BindingEnv(b, true)
  {
    DoTakesOver(b, p);
    SharedVolumeErased(a, b, DoPod(b, p).volumes);
    forall c, e | c in AllContainers(DoPod(b, p)) && e in a.spec.env && EnvEntry(a, e) in c.env
      ensures EnvEntry(a, e) in BindingEnv(b, true)
    {
      SharedEnvErased(a, b, p, c, e);
    }
  }

  const SHARED_A := Projector("a", ProjectionSpec("a", "", "", "shared", ANYWHERE, [EnvMapping("A_URL", "url")]))
  const SHARED_B := Projector("b", ProjectionSpec("b", "", "", "shared", ANYWHERE, [EnvMapping("B_URL", "url")]))

  /** Two concrete bindings with one secret: the second Do takes the env var of the first away. */
  lemma SharedSecretCanErase()
    ensures var x := EnvEntry(SHARED_A, EnvMapping("A_URL", "url"));
            && |AllContainers(DoPod(SHARED_A, PLAIN_POD))| == 1
            && (forall c | c in AllContainers(DoPod(SHARED_A, PLAIN_POD)) :: x in c.env)
            && (forall c | c in AllContainers(DoPod(SHARED_B, DoPod(SHARED_A, PLAIN_POD))) :: x !in c.env)
  {
    var e := EnvMapping("A_URL", "url");
    var x := EnvEntry(SHARED_A, e);
    assert e in SHARED_A.spec.env;
    forall c | c in AllContainers(DoPod(SHARED_A, PLAIN_POD)) ensures x in c.env {
      var q := UndoPod(SHARED_A, PLAIN_POD);
      InjectContainerOf(SHARED_A, q, c);
      BindingEnvWhole(SHARED_A);
      var c0 :| c0 in AllContainers(q)
             && c == Injected(SHARED_A, c0, InjectedVolumes(SHARED_A, q), InjectedSecrets(q.annotations) + {"shared"});
      OwnEntryInjected(SHARED_A, c0, InjectedVolumes(SHARED_A, q), InjectedSecrets(q.annotations) + {"shared"}, x);
    }
    SharedSecretErases(SHARED_A, SHARED_B, DoPod(SHARED_A, PLAIN_POD));
    BindingEnvWhole(SHARED_B);
  }

  lemma OwnEntryInjected(b: Projector, c: ContainerState, volumes: set<string>, secrets: set<string>, x: EnvVar)
    requires Targets(b, c.name) && b.spec.env != [] && x in BindingEnv(b, true)
    ensures x in Injected(b, c, volumes, secrets).env
  {
    SortMembers(EnsureRoot(c.env) + BindingEnv(b, true), EnvIn(secrets), EnvKey);
  }

  /** A binding without a record looks for the secret "": an own volume whose secret has no name goes. */
  lemma UnnamedSecretErased(b: Projector, p: PodState, v: Volume)
    requires AnnotationKey(b.name) !in p.annotations && FirstSecret(v) == Some("")
    ensures v !in UndoPod(b, p).volumes
  {
    UndoClears(b, p);
  }

  lemma InjectAnnotationsIsolated(b: Projector, q: PodState)
    ensures SameExcept(q.annotations, InjectPod(b, q).annotations, {AnnotationKey(b.name)})
    ensures SameExcept(q.templateAnnotations, InjectPod(b, q).templateAnnotations,
                       MetaKeys(b.name))
  {
    assert forall k | k in MetaAnnotations(b) :: k in MetaKeys(b.name);
    PutOutside(q.annotations, AnnotationKey(b.name), b.spec.binding, {AnnotationKey(b.name)});
    JoinOutside(q.templateAnnotations, MetaAnnotations(b), MetaKeys(b.name));
  }

  lemma EntrySurvives(a: Projector, e: EnvMapping, secrets: set<string>)
    requires a.spec.binding !in secrets
    ensures IsInjectedEnv(EnvEntry(a, e), secrets) <==> Override(a, e).Some?
  {
    MetaPathMatches(a.name, TypeMeta);
    MetaPathMatches(a.name, ProviderMeta);
  }

  lemma BindingEnvWhole(a: Projector)
    ensures forall e | e in a.spec.env :: EnvEntry(a, e) in BindingEnv(a, true)
    ensures forall x | x in BindingEnv(a, true) :: exists e | e in a.spec.env :: x == EnvEntry(a, e)
  {
    GatherMembers(a.spec.env, EntryOf(a, true));
    forall e | e in a.spec.env ensures EnvEntry(a, e) in BindingEnv(a, true) {
      assert EnvEntry(a, e) in EntryOf(a, true)(e);
    }
    forall x | x in BindingEnv(a, true) ensures exists e | e in a.spec.env :: x == EnvEntry(a, e) {
      var e :| e in a.spec.env && x in EntryOf(a, true)(e);
      assert x == EnvEntry(a, e);
    }
  }

  /**
   Overridden values are the exception: of another binding's env vars in a container, an Undo (and so
   a Do) of `b` keeps those that read the secret and no others.  All of them survive exactly when the
   other binding overrides none.
   */
  lemma OverriddenEnvNotIsolated(a: Projector, c: ContainerState, secrets: set<string>, volumes: set<string>)
    requires a.spec.binding !in secrets
    requires forall x | x in BindingEnv(a, true) :: x in c.env
    ensures forall e | e in a.spec.env ::
              EnvEntry(a, e) in UndoContainer(c, secrets, volumes).env <==> Override(a, e).None?
    ensures (forall x | x in BindingEnv(a, true) :: x in UndoContainer(c, secrets, volumes).env)
       <==> (forall e | e in a.spec.env :: Override(a, e).None?)
  {
    BindingEnvWhole(a);
    FilterMembers(c.env, EnvKept(secrets));
    forall e | e in a.spec.env
      ensures EnvEntry(a, e) in UndoContainer(c, secrets, volumes).env <==> Override(a, e).None?
    {
      EntrySurvives(a, e, secrets);
    }
  }

  // ---- References ----

  ghost predicate Declares(vs: seq<Volume>, name: string) {
    exists v | v in vs :: v.name == name
  }

  /** Every mount names a declared volume. */
  ghost predicate MountsDeclared(p: PodState) {
    forall c, m | c in AllContainers(p) && m in c.volumeMounts :: Declares(p.volumes, m.name)
  }

  /** Every env var that looks injected by a field path names an annotation of the pod template. */
  ghost predicate PathsResolve(p: PodState) {
    forall c, e | c in AllContainers(p) && e in c.env && HasMetaPath(e) ::
      Resolves(p.templateAnnotations, e.valueFrom.value.fieldRef.value)
  }

  ghost predicate Resolves(annotations: map<string, string>, path: string) {
    exists k | k in annotations :: path == PATH_OPEN + k + PATH_CLOSE
  }

  lemma UndoContainerOf(b: Projector, p: PodState, c: ContainerState)
    requires c in AllContainers(UndoPod(b, p))
    ensures var secrets := RemoveSecrets(b, p.annotations);
            exists c0 | c0 in AllContainers(p) :: c == UndoContainer(c0, secrets, VolumeNames(p.volumes, secrets))
  {
  }

  lemma InjectedOf(
      b: Projector, cs: seq<ContainerState>, volumes: set<string>, secrets: set<string>, c: ContainerState)
    requires c in InjectAll(b, cs, volumes, secrets)
    ensures exists c0 | c0 in cs :: c == Injected(b, c0, volumes, secrets)
  {
    var i :| 0 <= i < |cs| && InjectAll(b, cs, volumes, secrets)[i] == c;
    assert cs[i] in cs && c == Injected(b, cs[i], volumes, secrets);
  }

  lemma InjectContainerOf(b: Projector, q: PodState, c: ContainerState)
    requires c in AllContainers(InjectPod(b, q))
    ensures exists c0 | c0 in AllContainers(q) ::
              c == Injected(b, c0, InjectedVolumes(b, q), InjectedSecrets(q.annotations) + {b.spec.binding})
  {
    var names, secrets := InjectedVolumes(b, q), InjectedSecrets(q.annotations) + {b.spec.binding};
    if c in InjectAll(b, q.initContainers, names, secrets) {
      InjectedOf(b, q.initContainers, names, secrets, c);
    } else {
      InjectedOf(b, q.containers, names, secrets, c);
    }
  }

  lemma UndoKeepsMountsDeclared(b: Projector, p: PodState)
    requires MountsDeclared(p)
    ensures MountsDeclared(UndoPod(b, p))
  {
    var secrets := RemoveSecrets(b, p.annotations);
    var volumes := VolumeNames(p.volumes, secrets);
    FilterMembers(p.volumes, VolumeKept(secrets));
    forall c, m | c in AllContainers(UndoPod(b, p)) && m in c.volumeMounts
      ensures Declares(UndoPod(b, p).volumes, m.name)
    {
      UndoContainerOf(b, p, c);
      var c0 :| c0 in AllContainers(p) && c == UndoContainer(c0, secrets, volumes);
      UndoContainerClears(c0, secrets, volumes);
      var v :| v in p.volumes && v.name == m.name;
      assert v in UndoPod(b, p).volumes;
    }
  }

  lemma InjectContainerMembers(b: Projector, c: ContainerState, volumes: set<string>, secrets: set<string>)
    ensures forall m | m in Injected(b, c, volumes, secrets).volumeMounts ::
              m in c.volumeMounts || m.name == VolumeName(b.spec.binding)
    ensures forall e | e in Injected(b, c, volumes, secrets).env ::
              e in c.env || e == RootEntry || e in BindingEnv(b, true)
  {
    SortMembers(c.volumeMounts + [BindingMount(b, MountRoot(c.env))], MountIn(volumes), MountKey);
    SortMembers(EnsureRoot(c.env) + BindingEnv(b, true), EnvIn(secrets), EnvKey);
  }

  lemma InjectKeepsMountsDeclared(b: Projector, q: PodState)
    requires MountsDeclared(q)
    ensures MountsDeclared(InjectPod(b, q))
  {
    var names, secrets := InjectedVolumes(b, q), InjectedSecrets(q.annotations) + {b.spec.binding};
    SortMembers(q.volumes + [BindingVolume(b)], VolumeIn(names), VolumeKey);
    forall c, m | c in AllContainers(InjectPod(b, q)) && m in c.volumeMounts
      ensures Declares(InjectPod(b, q).volumes, m.name)
    {
      InjectContainerOf(b, q, c);
      var c0 :| c0 in AllContainers(q) && c == Injected(b, c0, names, secrets);
      InjectContainerMembers(b, c0, names, secrets);
      if m in c0.volumeMounts {
        assert Declares(q.volumes, m.name);
        var v :| v in q.volumes && v.name == m.name;
        assert v in InjectPod(b, q).volumes;
      } else {
        assert BindingVolume(b) in q.volumes + [BindingVolume(b)];
        assert BindingVolume(b) in InjectPod(b, q).volumes;
      }
    }
  }

  /** Neither operation leaves a mount without its volume. */
  lemma MountsStayDeclared(b: Projector, p: PodState)
    requires MountsDeclared(p)
    ensures MountsDeclared(UndoPod(b, p)) && MountsDeclared(DoPod(b, p))
  {
    UndoKeepsMountsDeclared(b, p);
    InjectKeepsMountsDeclared(b, UndoPod(b, p));
  }

  /** After an Undo no env var has the injected form; after a Do only those of `b` itself have it. */
  lemma MetaPathsAfter(b: Projector, p: PodState)
    ensures forall c, e | c in AllContainers(UndoPod(b, p)) && e in c.env :: !HasMetaPath(e)
    ensures forall c, e | c in AllContainers(DoPod(b, p)) && e in c.env && HasMetaPath(e) :: e in BindingEnv(b, true)
  {
    var q := UndoPod(b, p);
    forall c, e | c in AllContainers(q) && e in c.env ensures !HasMetaPath(e) {
      UndoContainerOf(b, p, c);
      var secrets := RemoveSecrets(b, p.annotations);
      var c0 :| c0 in AllContainers(p) && c == UndoContainer(c0, secrets, VolumeNames(p.volumes, secrets));
      UndoContainerClears(c0, secrets, VolumeNames(p.volumes, secrets));
    }
    forall c, e | c in AllContainers(DoPod(b, p)) && e in c.env && HasMetaPath(e) ensures e in BindingEnv(b, true) {
      InjectContainerOf(b, q, c);
      var names, secrets := InjectedVolumes(b, q), InjectedSecrets(q.annotations) + {b.spec.binding};
      var c0 :| c0 in AllContainers(q) && c == Injected(b, c0, names, secrets);
      InjectContainerMembers(b, c0, names, secrets);
    }
  }

  lemma OwnPathsResolve(b: Projector, q: PodState, x: EnvVar)
    requires x in BindingEnv(b, true) && HasMetaPath(x)
    ensures Resolves(InjectPod(b, q).templateAnnotations, x.valueFrom.value.fieldRef.value)
  {
    BindingEnvInjected(b, true, {});
    var e :| e in b.spec.env && x == EnvEntry(b, e);
    var k := MetaKey(b.name, Override(b, e).value);
    assert k in MetaAnnotations(b);
    assert x.valueFrom.value.fieldRef.value == PATH_OPEN + k + PATH_CLOSE;
  }

  /** On every pod, whatever it held before: both operations leave only field paths that resolve. */
  lemma PathsResolveAfter(b: Projector, p: PodState)
    ensures PathsResolve(UndoPod(b, p)) && PathsResolve(DoPod(b, p))
  {
    MetaPathsAfter(b, p);
    var p' := DoPod(b, p);
    forall c, x | c in AllContainers(p') && x in c.env && HasMetaPath(x)
      ensures Resolves(p'.templateAnnotations, x.valueFrom.value.fieldRef.value)
    {
      OwnPathsResolve(b, UndoPod(b, p), x);
    }
  }

}
