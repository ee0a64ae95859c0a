/** `Do` and `Undo` on arbitrary pods: what an Undo leaves of a Do, and exactly when a second Do changes nothing. */
module Repetition {
  import opened FieldPath
  import opened PartialSort
  import opened Projection
  import opened Sequences
  import opened Types

  // ---- Sorting keeps the mount root ----

  lemma SortKeepsRoot(env: seq<EnvVar>, secrets: set<string>)
    ensures RootValue(Sort(env, EnvIn(secrets), EnvKey)) == RootValue(env)
  {
    NamedUnswapped(ROOT_ENV, EnvIn(secrets), EnvKey);
    SortStable(env, Named(ROOT_ENV, EnvKey), EnvIn(secrets), EnvKey);
  }

  /** The container has a SERVICE_BINDING_ROOT entry. */
  predicate HasRoot(env: seq<EnvVar>) {
    exists e | e in env :: e.name == ROOT_ENV
  }

  lemma EnsuredRoot(env: seq<EnvVar>)
    ensures HasRoot(env) ==> RootValue(EnsureRoot(env)) == RootValue(env)
    ensures !HasRoot(env) ==> RootValue(env) == "" && RootValue(EnsureRoot(env)) == DEFAULT_ROOT
    ensures RootValue(EnsureRoot(env)) != "" ==> RootValue(EnsureRoot(env)) == MountRoot(env)
  {
    var p := Named(ROOT_ENV, EnvKey);
    FilterMembers(env, p);
    FilterConcat(env, [RootEntry], p);
    if !HasRoot(env) {
      FilterNone(env, p);
    } else {
      var e :| e in env && e.name == ROOT_ENV;
      assert e in Filter(env, p);
    }
  }

  // ---- One container ----

  /** What an Undo of `b` leaves of an injection of `b` into the cleared container `c`. */
  function ResidueContainer(b: Projector, c: ContainerState, volumes: set<string>, secrets: set<string>): ContainerState {
    var kept := MountKept({VolumeName(b.spec.binding)});
    if !Targets(b, c.name) then
      c.(volumeMounts := Filter(c.volumeMounts, kept))
    else
      c.(env := if b.spec.env == [] then EnsureRoot(c.env) else Sort(EnsureRoot(c.env), EnvIn(secrets), EnvKey),
         volumeMounts := Filter(Sort(c.volumeMounts, MountIn(volumes), MountKey), kept))
  }

  ghost predicate ClearedEnv(b: Projector, env: seq<EnvVar>) {
    forall e | e in env :: !IsInjectedEnv(e, {b.spec.binding})
  }

  lemma UndoneContainer(b: Projector, c: ContainerState, volumes: set<string>, secrets: set<string>)
    requires ClearedEnv(b, c.env)
    ensures var c' := if Targets(b, c.name) then InjectContainer(b, c, volumes, secrets) else c;
            UndoContainer(c', {b.spec.binding}, {VolumeName(b.spec.binding)}) == ResidueContainer(b, c, volumes, secrets)
  {
    var keep := EnvKept({b.spec.binding});
    if !Targets(b, c.name) {
      FilterAll(c.env, keep);
    } else {
      var vn := VolumeName(b.spec.binding);
      SortForget(c.volumeMounts, [BindingMount(b, MountRoot(c.env))], MountKept({vn}), MountIn(volumes), MountKey);
      var env := EnsureRoot(c.env);
      assert forall e | e in env :: e in c.env || e == RootEntry;
      if b.spec.env == [] {
        FilterAll(env, keep);
      } else {
        BindingEnvInjected(b, true, {b.spec.binding});
        SortForget(env, BindingEnv(b, true), keep, EnvIn(secrets), EnvKey);
        SortMembers(env, EnvIn(secrets), EnvKey);
        FilterAll(Sort(env, EnvIn(secrets), EnvKey), keep);
      }
    }
  }

  /** The container takes a second injection without a change. */
  predicate Repeatable(b: Projector, c: ContainerState) {
    && (forall m | m in c.volumeMounts :: m.name != VolumeName(b.spec.binding))
    && (Targets(b, c.name) && HasRoot(c.env) ==> RootValue(c.env) != "")
  }

  function Injected(b: Projector, c: ContainerState, volumes: set<string>, secrets: set<string>): ContainerState {
    if Targets(b, c.name) then InjectContainer(b, c, volumes, secrets) else c
  }

  lemma RepeatedMounts(b: Projector, c: ContainerState, volumes: set<string>, root: string)
    ensures var kept := MountKept({VolumeName(b.spec.binding)});
            var again := Sort(Filter(Sort(c.volumeMounts, MountIn(volumes), MountKey), kept) + [BindingMount(b, root)],
                              MountIn(volumes), MountKey);
            var once := Sort(c.volumeMounts + [BindingMount(b, root)], MountIn(volumes), MountKey);
            && ((forall m | m in c.volumeMounts :: m.name != VolumeName(b.spec.binding)) ==> again == once)
            && ((exists m | m in c.volumeMounts :: m.name == VolumeName(b.spec.binding)) ==> |again| < |once|)
  {
    var kept := MountKept({VolumeName(b.spec.binding)});
    var mount := BindingMount(b, root);
    var sorted := Sort(c.volumeMounts, MountIn(volumes), MountKey);
    SortMembers(c.volumeMounts, MountIn(volumes), MountKey);
    SortKeeps(c.volumeMounts, MountIn(volumes), MountKey);
    SortKeeps(Filter(sorted, kept) + [mount], MountIn(volumes), MountKey);
    SortKeeps(c.volumeMounts + [mount], MountIn(volumes), MountKey);
    if m :| m in c.volumeMounts && m.name == VolumeName(b.spec.binding) {
      FilterShorter(sorted, m, kept);
    } else {
      FilterAll(sorted, kept);
      SortPrefixFirst(c.volumeMounts, [mount], MountIn(volumes), MountKey);
    }
  }

  lemma RepeatedEnv(b: Projector, env: seq<EnvVar>, secrets: set<string>)
    ensures var residue := if b.spec.env == [] then EnsureRoot(env) else Sort(EnsureRoot(env), EnvIn(secrets), EnvKey);
            var again := if b.spec.env == [] then EnsureRoot(residue)
                         else Sort(EnsureRoot(residue) + BindingEnv(b, true), EnvIn(secrets), EnvKey);
            var once := if b.spec.env == [] then EnsureRoot(env)
                        else Sort(EnsureRoot(env) + BindingEnv(b, true), EnvIn(secrets), EnvKey);
            && ((HasRoot(env) ==> RootValue(env) != "") ==> again == once && MountRoot(residue) == MountRoot(env))
            && (HasRoot(env) && RootValue(env) == "" ==> |again| == |once| + 1)
  {
    var root := EnsureRoot(env);
    var residue := if b.spec.env == [] then root else Sort(root, EnvIn(secrets), EnvKey);
    EnsuredRoot(env);
    SortKeepsRoot(root, secrets);
    SortKeeps(root, EnvIn(secrets), EnvKey);
    SortKeeps(root + BindingEnv(b, true), EnvIn(secrets), EnvKey);
    SortKeeps(EnsureRoot(residue) + BindingEnv(b, true), EnvIn(secrets), EnvKey);
    SortPrefixFirst(root, BindingEnv(b, true), EnvIn(secrets), EnvKey);
  }

  lemma RepeatedContainer(b: Projector, c: ContainerState, volumes: set<string>, secrets: set<string>)
    ensures Injected(b, ResidueContainer(b, c, volumes, secrets), volumes, secrets) == Injected(b, c, volumes, secrets)
       <==> Repeatable(b, c)
  {
    var kept := MountKept({VolumeName(b.spec.binding)});
    if !Targets(b, c.name) {
      if m :| m in c.volumeMounts && m.name == VolumeName(b.spec.binding) {
        FilterShorter(c.volumeMounts, m, kept);
      } else {
        FilterAll(c.volumeMounts, kept);
      }
    } else {
      RepeatedEnv(b, c.env, secrets);
      if HasRoot(c.env) ==> RootValue(c.env) != "" {
        RepeatedMounts(b, c, volumes, MountRoot(c.env));
      }
    }
  }

  // ---- Whole pods ----

  function ResidueAll(b: Projector, cs: seq<ContainerState>, volumes: set<string>, secrets: set<string>)
    : seq<ContainerState>
  {
    seq(|cs|, i requires 0 <= i < |cs| => ResidueContainer(b, cs[i], volumes, secrets))
  }

  function ResiduePod(b: Projector, q: PodState): PodState {
    var volumes := InjectedVolumes(b, q);
    var secrets := InjectedSecrets(q.annotations) + {b.spec.binding};
    q.(volumes := Sort(q.volumes, VolumeIn(volumes), VolumeKey),
       initContainers := ResidueAll(b, q.initContainers, volumes, secrets),
       containers := ResidueAll(b, q.containers, volumes, secrets))
  }

  lemma UndoneAll(b: Projector, cs: seq<ContainerState>, volumes: set<string>, secrets: set<string>)
    requires forall c | c in cs :: ClearedEnv(b, c.env)
    ensures UndoAll(InjectAll(b, cs, volumes, secrets), {b.spec.binding}, {VolumeName(b.spec.binding)})
         == ResidueAll(b, cs, volumes, secrets)
  {
    forall i | 0 <= i < |cs|
      ensures UndoContainer(InjectAll(b, cs, volumes, secrets)[i], {b.spec.binding}, {VolumeName(b.spec.binding)})
           == ResidueContainer(b, cs[i], volumes, secrets)
    {
      UndoneContainer(b, cs[i], volumes, secrets);
    }
  }

  lemma UndoneVolumes(b: Projector, vs: seq<Volume>, names: set<string>)
    requires forall v | v in vs :: FirstSecret(v) != Some(b.spec.binding)
    ensures var vs' := Sort(vs + [BindingVolume(b)], VolumeIn(names), VolumeKey);
            && VolumeNames(vs', {b.spec.binding}) == {VolumeName(b.spec.binding)}
            && Filter(vs', VolumeKept({b.spec.binding})) == Sort(vs, VolumeIn(names), VolumeKey)
  {
    var vol := BindingVolume(b);
    var vs' := Sort(vs + [vol], VolumeIn(names), VolumeKey);
    assert FirstSecret(vol) == Some(b.spec.binding);
    SortMembers(vs + [vol], VolumeIn(names), VolumeKey);
    assert forall v :: v in vs' <==> v in vs || v == vol;
    assert vol in vs' && IsFromSecret(vol, {b.spec.binding});
    assert VolumeNames(vs', {b.spec.binding}) == {vol.name};
    SortForget(vs, [vol], VolumeKept({b.spec.binding}), VolumeIn(names), VolumeKey);
    SortMembers(vs, VolumeIn(names), VolumeKey);
    FilterAll(Sort(vs, VolumeIn(names), VolumeKey), VolumeKept({b.spec.binding}));
  }

  lemma UndoneAnnotations(b: Projector, q: PodState)
    requires Cleared(b, q)
    ensures var q' := InjectPod(b, q);
            && RemoveSecrets(b, q'.annotations) == {b.spec.binding}
            && q'.annotations - {AnnotationKey(b.name)} == q.annotations
            && q'.templateAnnotations - MetaKeys(b.name) == q.templateAnnotations
  {
    PutThenRemove(q.annotations, AnnotationKey(b.name), b.spec.binding);
    JoinThenRemove(q.templateAnnotations, MetaAnnotations(b), MetaKeys(b.name));
  }

  /**
   Undo after Do, on every pod: what the Undo alone would give, with the other bindings' runs sorted
   and a SERVICE_BINDING_ROOT in each targeted container without a usable one.  Mounts that already
   carried the new volume's name go as well.
   */
  lemma UndoReversesDo(b: Projector, p: PodState)
    ensures UndoPod(b, DoPod(b, p)) == ResiduePod(b, UndoPod(b, p))
  {
    UndoClears(b, p);
    UndoneInjection(b, UndoPod(b, p));
  }

  lemma UndoneInjection(b: Projector, q: PodState)
    requires Cleared(b, q)
    ensures UndoPod(b, InjectPod(b, q)) == ResiduePod(b, q)
  {
    var names, secrets := InjectedVolumes(b, q), InjectedSecrets(q.annotations) + {b.spec.binding};
    UndoneAnnotations(b, q);
    UndoneVolumes(b, q.volumes, names);
    forall c | c in q.initContainers || c in q.containers ensures ClearedEnv(b, c.env) {
      assert c in AllContainers(q);
    }
    UndoneAll(b, q.initContainers, names, secrets);
    UndoneAll(b, q.containers, names, secrets);
  }

  lemma RepeatedAll(b: Projector, cs: seq<ContainerState>, volumes: set<string>, secrets: set<string>)
    ensures InjectAll(b, ResidueAll(b, cs, volumes, secrets), volumes, secrets) == InjectAll(b, cs, volumes, secrets)
       <==> forall c | c in cs :: Repeatable(b, c)
  {
    var again := InjectAll(b, ResidueAll(b, cs, volumes, secrets), volumes, secrets);
    var once := InjectAll(b, cs, volumes, secrets);
    forall i | 0 <= i < |cs| ensures again[i] == once[i] <==> Repeatable(b, cs[i]) {
      RepeatedContainer(b, cs[i], volumes, secrets);
    }
    if again == once {
      forall c | c in cs ensures Repeatable(b, c) {
        var i :| 0 <= i < |cs| && cs[i] == c;
        assert again[i] == once[i];
      }
    }
  }

  /** A caller's test, on the pod that an Undo alone would give. */
  predicate RepeatablePod(b: Projector, q: PodState) {
    forall c | c in AllContainers(q) :: Repeatable(b, c)
  }

  /**
   A second Do changes nothing exactly when no kept mount already has the new volume's name and the
   first SERVICE_BINDING_ROOT of every targeted container, if there is one, has a value.
   */
  lemma DoIdempotent(b: Projector, p: PodState)
    ensures DoPod(b, DoPod(b, p)) == DoPod(b, p) <==> RepeatablePod(b, UndoPod(b, p))
  {
    var q := UndoPod(b, p);
    var r := ResiduePod(b, q);
    UndoReversesDo(b, p);
    var names := InjectedVolumes(b, q);
    var secrets := InjectedSecrets(q.annotations) + {b.spec.binding};
    SortMembers(q.volumes, VolumeIn(names), VolumeKey);
    assert VolumeNames(r.volumes, InjectedSecrets(q.annotations)) == VolumeNames(q.volumes, InjectedSecrets(q.annotations));
    assert InjectedVolumes(b, r) == names;
    SortPrefixFirst(q.volumes, [BindingVolume(b)], VolumeIn(names), VolumeKey);
    RepeatedAll(b, q.initContainers, names, secrets);
    RepeatedAll(b, q.containers, names, secrets);
  }

  // ---- More than two Dos ----

  /** The part of Repeatable that repetition does not mend. */
  predicate Rootable(b: Projector, c: ContainerState) {
    Targets(b, c.name) && HasRoot(c.env) ==> RootValue(c.env) != ""
  }

  /** An empty first root stays, and one entry is added. */
  lemma ResidueRoot(b: Projector, c: ContainerState, volumes: set<string>, secrets: set<string>)
    ensures var r := ResidueContainer(b, c, volumes, secrets);
            && r.name == c.name
            && (Rootable(b, r) <==> Rootable(b, c))
            && (forall m | m in r.volumeMounts :: m.name != VolumeName(b.spec.binding))
            && (!Rootable(b, c) ==> |r.env| == |c.env| + 1)
  {
    FilterMembers(c.volumeMounts, MountKept({VolumeName(b.spec.binding)}));
    if Targets(b, c.name) {
      var env := EnsureRoot(c.env);
      FilterMembers(Sort(c.volumeMounts, MountIn(volumes), MountKey), MountKept({VolumeName(b.spec.binding)}));
      EnsuredRoot(c.env);
      EnsuredRoot(env);
      SortKeepsRoot(env, secrets);
      SortMembers(env, EnvIn(secrets), EnvKey);
      SortKeeps(env, EnvIn(secrets), EnvKey);
      FilterLast(c.env, RootEntry, Named(ROOT_ENV, EnvKey));
    }
  }

  function DoOf(b: Projector): PodState -> PodState {
    (p: PodState) => DoPod(b, p)
  }

  function Times(b: Projector, p: PodState, n: nat): PodState {
    Iterate(DoOf(b), p, n)
  }

  /** What one more Do and Undo make of a container. */
  ghost predicate Again(b: Projector, c: ContainerState, r: ContainerState) {
    && (Rootable(b, r) <==> Rootable(b, c))
    && (Repeatable(b, r) <==> Rootable(b, c))
    && (!Rootable(b, c) ==> |r.env| == |c.env| + 1)
  }

  lemma ResidueAgain(b: Projector, cs: seq<ContainerState>, volumes: set<string>, secrets: set<string>, i: nat)
    requires i < |cs|
    ensures Again(b, cs[i], ResidueAll(b, cs, volumes, secrets)[i])
  {
    ResidueRoot(b, cs[i], volumes, secrets);
  }

  lemma UndoneAgain(b: Projector, p: PodState, i: nat)
    requires i < |AllContainers(UndoPod(b, p))|
    ensures |AllContainers(UndoPod(b, DoPod(b, p)))| == |AllContainers(UndoPod(b, p))|
    ensures Again(b, AllContainers(UndoPod(b, p))[i], AllContainers(UndoPod(b, DoPod(b, p)))[i])
  {
    var q := UndoPod(b, p);
    var names, secrets := InjectedVolumes(b, q), InjectedSecrets(q.annotations) + {b.spec.binding};
    UndoReversesDo(b, p);
    if i < |q.initContainers| {
      ResidueAgain(b, q.initContainers, names, secrets, i);
    } else {
      ResidueAgain(b, q.containers, names, secrets, i - |q.initContainers|);
    }
  }

  lemma RepeatedlyRepeatable(b: Projector, p: PodState)
    ensures RepeatablePod(b, UndoPod(b, DoPod(b, p))) <==> forall c | c in AllContainers(UndoPod(b, p)) :: Rootable(b, c)
  {
    var cs, rs := AllContainers(UndoPod(b, p)), AllContainers(UndoPod(b, DoPod(b, p)));
    assert |rs| == |cs|;
    forall i: nat | i < |cs| ensures Again(b, cs[i], rs[i]) {
      UndoneAgain(b, p, i);
    }
    if RepeatablePod(b, UndoPod(b, DoPod(b, p))) {
      forall c | c in cs ensures Rootable(b, c) {
        var i: nat :| i < |cs| && cs[i] == c;
        assert rs[i] in rs;
      }
    }
  }

  /** A third Do changes nothing more exactly when the roots are usable: leftover mounts are gone by then. */
  lemma DoTwiceSettles(b: Projector, p: PodState)
    ensures Times(b, p, 3) == Times(b, p, 2) <==> forall c | c in AllContainers(UndoPod(b, p)) :: Rootable(b, c)
  {
    var p1 := DoPod(b, p);
    DoIdempotent(b, p1);
    RepeatedlyRepeatable(b, p);
    var f := DoOf(b);
    assert Iterate(f, p, 0) == p && Iterate(f, p, 1) == f(p) == p1;
    assert Iterate(f, p, 2) == f(p1) && Iterate(f, p, 3) == f(f(p1));
  }

  /** The container at `i`, init containers first. */
  function ContainerAt(p: PodState, i: nat): (c: Option<ContainerState>)
    ensures c == if i < |AllContainers(p)| then Some(AllContainers(p)[i]) else None
  {
    if i < |p.initContainers| then Some(p.initContainers[i])
    else if i < |p.initContainers| + |p.containers| then Some(p.containers[i - |p.initContainers|])
    else None
  }

  /** It has `n` env vars. */
  predicate EnvSize(c: Option<ContainerState>, n: nat) {
    c.Some? && |c.value.env| == n
  }

  /** And a root that cannot be used. */
  predicate Unrooted(b: Projector, c: Option<ContainerState>, n: nat) {
    EnvSize(c, n) && !Rootable(b, c.value)
  }

  lemma UnrootedStays(b: Projector, p: PodState, i: nat, n: nat)
    requires Unrooted(b, ContainerAt(UndoPod(b, p), i), n)
    ensures Unrooted(b, ContainerAt(UndoPod(b, DoPod(b, p)), i), n + 1)
  {
    UndoneAgain(b, p, i);
  }

  lemma InjectedContainerAt(b: Projector, q: PodState, i: nat)
    requires ContainerAt(q, i).Some?
    ensures ContainerAt(InjectPod(b, q), i)
         == Some(Injected(b, ContainerAt(q, i).value, InjectedVolumes(b, q), InjectedSecrets(q.annotations) + {b.spec.binding}))
  {
  }

  lemma InjectedSize(b: Projector, c: ContainerState, volumes: set<string>, secrets: set<string>)
    requires !Rootable(b, c)
    ensures |Injected(b, c, volumes, secrets).env| == |c.env| + 1 + |BindingEnv(b, true)|
  {
    SortKeeps(EnsureRoot(c.env) + BindingEnv(b, true), EnvIn(secrets), EnvKey);
  }

  /** After an Undo of `b` the container at `i` has `n` env vars, and a root that cannot be used. */
  function UnrootedAt(b: Projector, i: nat): (PodState, nat) -> bool {
    (p: PodState, n: nat) => Unrooted(b, ContainerAt(UndoPod(b, p), i), n)
  }

  /** The container at `i` has `n` env vars besides `own` ones. */
  function EnvSizeAt(i: nat, own: nat): (PodState, nat) -> bool {
    (p: PodState, n: nat) => EnvSize(ContainerAt(p, i), n + own)
  }

  lemma RootlessLeads(b: Projector, i: nat)
    ensures Leads(DoOf(b), UnrootedAt(b, i), UnrootedAt(b, i))
  {
    forall q, m: nat, n: nat | n == m + 1 && UnrootedAt(b, i)(q, m) ensures UnrootedAt(b, i)(DoOf(b)(q), n) {
      UnrootedStays(b, q, i, m);
    }
  }

  lemma UnrootedGrows(b: Projector, q: PodState, i: nat, n: nat)
    requires Unrooted(b, ContainerAt(q, i), n)
    ensures EnvSize(ContainerAt(InjectPod(b, q), i), n + 1 + |BindingEnv(b, true)|)
  {
    InjectedContainerAt(b, q, i);
    InjectedSize(b, ContainerAt(q, i).value, InjectedVolumes(b, q), InjectedSecrets(q.annotations) + {b.spec.binding});
  }

  lemma RootlessInjected(b: Projector, p: PodState, i: nat, n: nat, own: nat)
    requires UnrootedAt(b, i)(p, n) && own == |BindingEnv(b, true)|
    ensures EnvSize(ContainerAt(DoPod(b, p), i), n + 1 + own)
  {
    UnrootedGrows(b, UndoPod(b, p), i, n);
  }

  lemma EnvSizeAfterDo(b: Projector, p: PodState, i: nat, n: nat, own: nat)
    requires EnvSize(ContainerAt(DoPod(b, p), i), n + own)
    ensures EnvSizeAt(i, own)(DoOf(b)(p), n)
  {
  }

  lemma RootlessGrows(b: Projector, i: nat)
    ensures Leads(DoOf(b), UnrootedAt(b, i), EnvSizeAt(i, |BindingEnv(b, true)|))
  {
    forall q, m: nat, n: nat | n == m + 1 && UnrootedAt(b, i)(q, m)
      ensures EnvSizeAt(i, |BindingEnv(b, true)|)(DoOf(b)(q), n)
    {
      RootlessInjected(b, q, i, m, |BindingEnv(b, true)|);
      EnvSizeAfterDo(b, q, i, n, |BindingEnv(b, true)|);
    }
  }

  /**
   Growth: where the first root is there and empty, n Dos leave n env vars more than an Undo alone,
   besides the binding's own.
   */
  lemma RootsGrow(b: Projector, p: PodState, i: nat, before: nat, n: nat)
    requires n > 0 && UnrootedAt(b, i)(p, before)
    ensures EnvSizeAt(i, |BindingEnv(b, true)|)(Times(b, p, n), before + n)
  {
    RootlessLeads(b, i);
    RootlessGrows(b, i);
    IterateReaches(DoOf(b), p, n, UnrootedAt(b, i), EnvSizeAt(i, |BindingEnv(b, true)|), before);
  }

  /** A concrete pod with an empty root, on which the second Do of a binding without container list changes something. */
  lemma EmptyRootIsNotIdempotent(b: Projector)
    requires b.spec.workload.containers == []
    ensures var p := PodState(map[], map[], [], [], [ContainerState("app", [EnvVar(ROOT_ENV, "", None)], [], "")]);
            DoPod(b, DoPod(b, p)) != DoPod(b, p)
  {
    var root := EnvVar(ROOT_ENV, "", None);
    var c := ContainerState("app", [root], [], "");
    var p := PodState(map[], map[], [], [], [c]);
    var secrets := RemoveSecrets(b, p.annotations);
    FilterAll([root], EnvKept(secrets));
    FilterAll([root], Named(ROOT_ENV, EnvKey));
    assert UndoContainer(c, secrets, VolumeNames([], secrets)) == c;
    assert RootValue([root]) == "" && root in [root];
    assert c in AllContainers(UndoPod(b, p)) by {
      assert UndoPod(b, p).containers[0] == c;
      assert AllContainers(UndoPod(b, p))[0] == c;
    }
    assert !Repeatable(b, c);
    DoIdempotent(b, p);
  }
}
