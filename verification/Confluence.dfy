/**
 Consequences for whole runs: the pod depends on the active set, and on the order of steps only through
 overridden env vars and env names that bindings share.
 */
module Confluence {
  import opened FieldPath
  import opened PartialSort
  import opened Projection
  import opened Repetition
  import opened Runs
  import opened Sequences
  import opened Text
  import opened Types

  // ---- The ledger in closed form ----

  /** Step `i` does `b`, and no later step is about a projection of that name. */
  ghost predicate LastWord(steps: seq<Step>, i: nat, b: Projector) {
    i < |steps| && steps[i] == DoStep(b) && forall j | i < j < |steps| :: steps[j].b.name != b.name
  }

  lemma LastWordSnoc(steps: seq<Step>, b: Projector)
    requires steps != []
    ensures (exists i: nat :: LastWord(steps, i, b))
       <==> Last(steps) == DoStep(b) || (Last(steps).b.name != b.name && exists i: nat :: LastWord(Front(steps), i, b))
  {
    if i: nat :| LastWord(steps, i, b) {
      assert i < |steps| - 1 ==> steps[|steps| - 1].b.name != b.name && LastWord(Front(steps), i, b);
    }
    if Last(steps) == DoStep(b) {
      assert LastWord(steps, |steps| - 1, b);
    } else if Last(steps).b.name != b.name {
      if i: nat :| LastWord(Front(steps), i, b) {
        assert LastWord(steps, i, b);
      }
    }
  }

  lemma AdvanceMembers(l: Ledger, step: Step, b: Projector)
    ensures b in Advance(l, step).active <==> step == DoStep(b) || (step.b.name != b.name && b in l.active)
  {
    FilterMembers(l.active, OtherThan(step.b.name));
  }

  /** A binding is active exactly when the last step about its name was a Do of it. */
  lemma {:induction false} ActiveExactly(base: PodState, steps: seq<Step>, b: Projector)
    ensures b in Trace(base, steps).active <==> exists i: nat :: LastWord(steps, i, b)
  {
    if steps != [] {
      ActiveExactly(base, Front(steps), b);
      LastWordSnoc(steps, b);
      AdvanceMembers(Trace(base, Front(steps)), Last(steps), b);
    }
  }

  /** A container has been reached exactly when some Do so far targeted it. */
  lemma {:induction false} ReachedExactly(base: PodState, steps: seq<Step>, name: string)
    ensures Reached(Trace(base, steps).touched, name)
       <==> exists i | 0 <= i < |steps| :: steps[i].DoStep? && Targets(steps[i].b, name)
  {
    if steps != [] {
      var z := Last(steps);
      ReachedExactly(base, Front(steps), name);
      if Reached(Trace(base, steps).touched, name) {
        if z.DoStep? && Targets(z.b, name) {
          assert steps[|steps| - 1] == z;
        } else {
          assert Reached(Trace(base, Front(steps)).touched, name);
          var i :| 0 <= i < |Front(steps)| && Front(steps)[i].DoStep? && Targets(Front(steps)[i].b, name);
          assert steps[i] == Front(steps)[i];
        }
      }
      if i :| 0 <= i < |steps| && steps[i].DoStep? && Targets(steps[i].b, name) {
        if i < |steps| - 1 {
          assert Front(steps)[i] == steps[i];
          var b :| b in Trace(base, Front(steps)).touched && Targets(b, name);
          assert b in Trace(base, steps).touched;
        } else {
          assert z.b in Trace(base, steps).touched;
        }
      }
    }
  }

  // ---- Rotation of a secret ----

  lemma RenderedEnvMembers(l: Ledger, c: ContainerState)
    ensures forall x | x in RenderContainer(c, l).env ::
              || x in c.env || x == RootEntry
              || exists a | a in l.active :: Targets(a, c.name) && x in BindingEnv(a, l.shown == Some(a.name))
  {
    var es := Gather(l.active, EnvOf(c.name, l.shown));
    SortMembers(es, All(), EnvKey);
    GatherMembers(l.active, EnvOf(c.name, l.shown));
    forall x | x in es
      ensures exists a | a in l.active :: Targets(a, c.name) && x in BindingEnv(a, l.shown == Some(a.name))
    {
      var a :| a in l.active && x in EnvOf(c.name, l.shown)(a);
    }
  }

  lemma RenderedMountMembers(l: Ledger, c: ContainerState)
    ensures forall m | m in RenderContainer(c, l).volumeMounts ::
              m in c.volumeMounts || exists a | a in l.active :: m.name == VolumeName(a.spec.binding)
  {
    var ms := Gather(l.active, MountOf(c));
    SortMembers(ms, All(), MountKey);
    GatherMembers(l.active, MountOf(c));
    forall m | m in ms ensures exists a | a in l.active :: m.name == VolumeName(a.spec.binding) {
      var a :| a in l.active && m in MountOf(c)(a);
    }
  }

  /** Nothing in the pod refers to `secret`. */
  ghost predicate FreeOf(p: PodState, secret: string) {
    && (forall v | v in p.volumes :: FirstSecret(v) != Some(secret) && v.name != VolumeName(secret))
    && (forall c, m | c in AllContainers(p) && m in c.volumeMounts :: m.name != VolumeName(secret))
    && (forall c, e | c in AllContainers(p) && e in c.env :: SecretOf(e) != Some(secret))
  }

  lemma RenderedContainerOf(l: Ledger, c: ContainerState)
    requires c in AllContainers(RenderPod(l))
    ensures exists c0 | c0 in AllContainers(l.base) :: c == RenderContainer(c0, l)
  {
    var i :| 0 <= i < |AllContainers(RenderPod(l))| && AllContainers(RenderPod(l))[i] == c;
    assert AllContainers(l.base)[i] in AllContainers(l.base);
  }

  lemma FreeContainer(l: Ledger, gone: Projector, c: ContainerState)
    requires FitsContainer(c, gone)
    requires forall a | a in l.active ::
               a.spec.binding != gone.spec.binding && VolumeName(a.spec.binding) != VolumeName(gone.spec.binding)
    ensures forall m | m in RenderContainer(c, l).volumeMounts :: m.name != VolumeName(gone.spec.binding)
    ensures forall e | e in RenderContainer(c, l).env :: SecretOf(e) != Some(gone.spec.binding)
  {
    RenderedMountMembers(l, c);
    RenderedEnvMembers(l, c);
    forall e | e in RenderContainer(c, l).env ensures SecretOf(e) != Some(gone.spec.binding) {
      if a :| a in l.active && Targets(a, c.name) && e in BindingEnv(a, l.shown == Some(a.name)) {
        BindingEnvInjected(a, l.shown == Some(a.name), {});
      }
    }
  }

  lemma FreeVolumes(l: Ledger, gone: Projector)
    requires Fits(l.base, gone)
    requires forall a | a in l.active ::
               a.spec.binding != gone.spec.binding && VolumeName(a.spec.binding) != VolumeName(gone.spec.binding)
    ensures forall v | v in RenderPod(l).volumes ::
              FirstSecret(v) != Some(gone.spec.binding) && v.name != VolumeName(gone.spec.binding)
  {
    RenderedVolumes(l);
    forall a | a in l.active {
      BindingVolumeSecret(a);
    }
  }

  lemma RenderedFreeOf(l: Ledger, gone: Projector)
    requires Fits(l.base, gone)
    requires forall a | a in l.active ::
               a.spec.binding != gone.spec.binding && VolumeName(a.spec.binding) != VolumeName(gone.spec.binding)
    ensures FreeOf(RenderPod(l), gone.spec.binding)
  {
    FreeVolumes(l, gone);
    forall c | c in AllContainers(RenderPod(l))
      ensures forall m | m in c.volumeMounts :: m.name != VolumeName(gone.spec.binding)
      ensures forall e | e in c.env :: SecretOf(e) != Some(gone.spec.binding)
    {
      RenderedContainerOf(l, c);
      var c0 :| c0 in AllContainers(l.base) && c == RenderContainer(c0, l);
      FreeContainer(l, gone, c0);
    }
  }

  lemma ReplacedIsFree(l: Ledger, a: Projector, b: Projector)
    requires Valid(l) && Admissible(l, b) && a in l.active && a.name == b.name
    requires Sha1Hex(a.spec.binding) != Sha1Hex(b.spec.binding)
    ensures FreeOf(RenderPod(Advance(l, DoStep(b))), a.spec.binding)
  {
    var l' := Advance(l, DoStep(b));
    WithoutMembers(l.active, b.name);
    forall x | x in l'.active
      ensures x.spec.binding != a.spec.binding && VolumeName(x.spec.binding) != VolumeName(a.spec.binding)
    {
      if x == b {
        KeysInjective(x.spec.binding, a.spec.binding, TypeMeta, TypeMeta);
      } else {
        assert Apart(x, a);
        ApartKeys(x, a);
      }
    }
    RenderedFreeOf(l', a);
  }

  lemma SharedDigestStays(l: Ledger, a: Projector, b: Projector)
    requires b in l.active && Sha1Hex(a.spec.binding) == Sha1Hex(b.spec.binding)
    ensures !FreeOf(RenderPod(l), a.spec.binding)
  {
    RenderedVolumes(l);
    assert BindingVolume(b) in RenderPod(l).volumes;
    KeysInjective(a.spec.binding, b.spec.binding, TypeMeta, TypeMeta);
  }

  /**
   A Do under a name that is already active, with any other spec: the pod is the rendering with that one
   binding replaced.  The earlier secret has left every container, targeted then, now or never, exactly
   when the two secrets' digests differ.
   */
  lemma RotationLeavesNothing(base: PodState, steps: seq<Step>, a: Projector, b: Projector)
    requires Clean(base) && Admitted(base, steps + [DoStep(b)])
    requires a in Trace(base, steps).active && a.name == b.name
    ensures var l := Trace(base, steps);
            var p := Play(base, steps + [DoStep(b)]);
            && p == RenderPod(Ledger(base, l.touched + {b}, Without(l.active, b.name) + [b], Some(b.name)))
            && (FreeOf(p, a.spec.binding) <==> Sha1Hex(a.spec.binding) != Sha1Hex(b.spec.binding))
  {
    var l := Trace(base, steps);
    assert Front(steps + [DoStep(b)]) == steps;
    RunRefines(base, steps);
    RunRefines(base, steps + [DoStep(b)]);
    TraceBase(base, steps);
    if Sha1Hex(a.spec.binding) != Sha1Hex(b.spec.binding) {
      ReplacedIsFree(l, a, b);
    } else {
      SharedDigestStays(Advance(l, DoStep(b)), a, b);
    }
  }

  /** A rendered container that `b` does not target holds none of its overridden values or anything of the secret of `x`. */
  lemma UntargetedContainer(l: Ledger, c: ContainerState, b: Projector, x: Projector)
    requires Clean(l.base) && c in AllContainers(l.base) && FitsContainer(c, x) && !Targets(b, c.name)
    requires l.shown == Some(b.name) && b in l.active && UniqueNames(l.active)
    requires forall a | a in l.active && a != b ::
               a.spec.binding != x.spec.binding && VolumeName(a.spec.binding) != VolumeName(x.spec.binding)
    ensures forall m | m in RenderContainer(c, l).volumeMounts :: m.name != VolumeName(x.spec.binding)
    ensures forall e | e in RenderContainer(c, l).env :: SecretOf(e) != Some(x.spec.binding) && !HasMetaPath(e)
  {
    UntargetedMounts(l, c);
    forall e | e in RenderContainer(c, l).env ensures SecretOf(e) != Some(x.spec.binding) && !HasMetaPath(e) {
      RenderedEnvMembers(l, c);
      if a :| a in l.active && Targets(a, c.name) && e in BindingEnv(a, l.shown == Some(a.name)) {
        UniqueByName(l.active, a, b);
        BindingEnvInjected(a, false, {});
        var m :| m in a.spec.env && e == EnvEntry(a, m) && Override(a, m).None?;
      }
    }
  }

  lemma UntargetedMounts(l: Ledger, c: ContainerState)
    ensures forall m | m in RenderContainer(c, l).volumeMounts ::
              m in c.volumeMounts || exists a | a in l.active :: Targets(a, c.name) && m.name == VolumeName(a.spec.binding)
  {
    var ms := Gather(l.active, MountOf(c));
    SortMembers(ms, All(), MountKey);
    GatherMembers(l.active, MountOf(c));
    forall m | m in ms ensures exists a | a in l.active :: Targets(a, c.name) && m.name == VolumeName(a.spec.binding) {
      var a :| a in l.active && m in MountOf(c)(a);
    }
  }

  /** The container after a Do that does not target it, on the rendering of a ledger that has `x` under that name. */
  lemma RetargetedContainer(l: Ledger, c: ContainerState, b: Projector, x: Projector)
    requires Valid(l) && Admissible(l, b) && c in AllContainers(l.base) && !Targets(b, c.name)
    requires x == b || (x in l.active && x.name == b.name)
    ensures var c' := RenderContainer(c, Advance(l, DoStep(b)));
            && (forall m | m in c'.volumeMounts :: m.name != VolumeName(x.spec.binding))
            && (forall e | e in c'.env :: SecretOf(e) != Some(x.spec.binding) && !HasMetaPath(e))
  {
    var l' := Advance(l, DoStep(b));
    StepKeepsValid(l, DoStep(b));
    WithoutMembers(l.active, b.name);
    forall o | o in l'.active && o != b
      ensures o.spec.binding != x.spec.binding && VolumeName(o.spec.binding) != VolumeName(x.spec.binding)
    {
      assert Apart(o, x);
      ApartKeys(o, x);
    }
    assert Fits(l.base, x);
    UntargetedContainer(l', c, b, x);
  }

  /**
   Retargeting, with the same secret or another: a container that the new spec does not target holds no
   mount and no env var of the binding, neither under the new secret nor under the recorded one.
   */
  lemma RetargetingLeavesNothing(base: PodState, steps: seq<Step>, a: Projector, b: Projector, c: ContainerState)
    requires Clean(base) && Admitted(base, steps + [DoStep(b)])
    requires a in Trace(base, steps).active && a.name == b.name
    requires c in AllContainers(Play(base, steps + [DoStep(b)])) && !Targets(b, c.name)
    ensures forall x, m | x in {a, b} && m in c.volumeMounts :: m.name != VolumeName(x.spec.binding)
    ensures forall x, e | x in {a, b} && e in c.env :: SecretOf(e) != Some(x.spec.binding) && !HasMetaPath(e)
  {
    var l := Trace(base, steps);
    assert Front(steps + [DoStep(b)]) == steps;
    RunRefines(base, steps);
    RunRefines(base, steps + [DoStep(b)]);
    TraceBase(base, steps);
    RenderedContainerOf(Advance(l, DoStep(b)), c);
    var c0 :| c0 in AllContainers(base) && c == RenderContainer(c0, Advance(l, DoStep(b)));
    RetargetedContainer(l, c0, b, a);
    RetargetedContainer(l, c0, b, b);
  }

  lemma {:induction false} TraceBase(base: PodState, steps: seq<Step>)
    ensures Trace(base, steps).base == base
  {
    if steps != [] {
      TraceBase(base, Front(steps));
    }
  }

  // ---- Order of the entries ----

  /** Own entries first, as they were; then the entries of bindings, ascending by name. */
  ghost predicate Appends<T(!new)>(own: seq<T>, all: seq<T>, key: T -> string) {
    own <= all && Ascending(all[|own|..], key)
  }

  lemma SortAppends<T(!new)>(own: seq<T>, entries: seq<T>, key: T -> string)
    ensures Appends(own, own + Sort(entries, All(), key), key)
  {
    SortIsStableSort(entries, All(), key);
    OrderedAscends(Sort(entries, All(), key), key);
    assert (own + Sort(entries, All(), key))[|own|..] == Sort(entries, All(), key);
  }

  ghost predicate AppendsContainer(c: ContainerState, c': ContainerState) {
    && Appends(c.volumeMounts, c'.volumeMounts, MountKey)
    && (Appends(c.env, c'.env, EnvKey) || Appends(c.env + [RootEntry], c'.env, EnvKey))
  }

  ghost predicate AppendsContainers(cs: seq<ContainerState>, cs': seq<ContainerState>) {
    |cs'| == |cs| && forall i | 0 <= i < |cs| :: AppendsContainer(cs[i], cs'[i])
  }

  lemma RenderedContainerAscends(l: Ledger, c: ContainerState)
    ensures AppendsContainer(c, RenderContainer(c, l))
  {
    SortAppends(c.volumeMounts, Gather(l.active, MountOf(c)), MountKey);
    SortAppends(RootedEnv(c, l.touched), Gather(l.active, EnvOf(c.name, l.shown)), EnvKey);
  }

  lemma RenderedContainersAscend(l: Ledger, cs: seq<ContainerState>)
    ensures AppendsContainers(cs, RenderAll(cs, l))
  {
    forall i | 0 <= i < |cs| ensures AppendsContainer(cs[i], RenderAll(cs, l)[i]) {
      RenderedContainerAscends(l, cs[i]);
    }
  }

  /** After any run the entries of bindings follow the own ones, in ascending order of their names. */
  lemma EntriesAscend(base: PodState, steps: seq<Step>)
    requires Clean(base) && Admitted(base, steps)
    ensures var p := Play(base, steps);
            && Appends(base.volumes, p.volumes, VolumeKey)
            && AppendsContainers(base.initContainers, p.initContainers)
            && AppendsContainers(base.containers, p.containers)
  {
    var l := Trace(base, steps);
    RunRefines(base, steps);
    TraceBase(base, steps);
    SortAppends(base.volumes, Gather(l.active, VolumeOf), VolumeKey);
    RenderedContainersAscend(l, base.initContainers);
    RenderedContainersAscend(l, base.containers);
  }

  // ---- Downward-API sources ----

  /** The file reads an annotation that the pod template has. */
  ghost predicate FileResolves(p: PodState, f: DownwardFile) {
    exists k | k in p.templateAnnotations :: f.fieldPath == PATH_OPEN + k + PATH_CLOSE
  }

  lemma TemplateValue(l: Ledger, a: Projector, m: Meta)
    requires Valid(l) && a in l.active && MetaValue(a, m) != ""
    ensures MetaKey(a.name, m) in RenderPod(l).templateAnnotations
    ensures RenderPod(l).templateAnnotations[MetaKey(a.name, m)] == MetaValue(a, m)
  {
    var k := MetaKey(a.name, m);
    KeysInjective(a.name, a.name, TypeMeta, ProviderMeta);
    assert m == TypeMeta || m == ProviderMeta;
    assert k in MetaOf(a) && MetaOf(a)[k] == MetaValue(a, m);
    forall x | x in l.active && x != a ensures k !in MetaOf(x) {
      assert Apart(a, x);
      ApartKeys(a, x);
    }
    JoinValue(l.active, MetaOf, a, k);
  }

  ghost predicate SourcesResolve(p: PodState, v: Volume) {
    v.projected.Some? && forall s, f | s in v.projected.value && f in s.downwardAPI :: FileResolves(p, f)
  }

  lemma BindingVolumeResolves(l: Ledger, a: Projector)
    requires Valid(l) && a in l.active
    ensures SourcesResolve(RenderPod(l), BindingVolume(a))
  {
    var v, p := BindingVolume(a), RenderPod(l);
    forall s, f | s in v.projected.value && f in s.downwardAPI ensures FileResolves(p, f) {
      var m := if s in MetaSource(a, TypeMeta) then TypeMeta else ProviderMeta;
      assert s in MetaSource(a, m);
      TemplateValue(l, a, m);
      assert f.fieldPath == MetaPath(a.name, m) == PATH_OPEN + MetaKey(a.name, m) + PATH_CLOSE;
    }
  }

  /** On every reachable pod each downward-API file of an injected volume reads an annotation that is there. */
  lemma InjectedSourcesResolve(base: PodState, steps: seq<Step>)
    requires Clean(base) && Admitted(base, steps)
    ensures var p := Play(base, steps);
            forall v | v in p.volumes && v !in base.volumes :: SourcesResolve(p, v)
  {
    var l := Trace(base, steps);
    RunRefines(base, steps);
    TraceBase(base, steps);
    RenderedVolumes(l);
    forall a | a in l.active ensures SourcesResolve(RenderPod(l), BindingVolume(a)) {
      BindingVolumeResolves(l, a);
    }
  }

  // ---- Confluence ----

  ghost predicate SameActive(l: Ledger, l': Ledger) {
    l.base == l'.base && forall a :: a in l.active <==> a in l'.active
  }

  lemma UniqueIsDistinct(active: seq<Projector>)
    requires UniqueNames(active)
    ensures Distinct(active)
  {
  }

  lemma SameVolumes(l: Ledger, l': Ledger)
    requires Valid(l) && Valid(l') && SameActive(l, l')
    ensures RenderPod(l).volumes == RenderPod(l').volumes
  {
    UniqueIsDistinct(l.active);
    UniqueIsDistinct(l'.active);
    forall a, b, x, y | a in l.active && b in l.active && a != b && x in VolumeOf(a) && y in VolumeOf(b)
      ensures VolumeKey(x) != VolumeKey(y)
    {
      UniqueByName(l.active, a, b);
      assert Apart(a, b);
      ApartKeys(a, b);
    }
    GatherAnyOrder(l.active, l'.active, VolumeOf, VolumeKey);
  }

  lemma UniqueByName(active: seq<Projector>, a: Projector, b: Projector)
    requires UniqueNames(active) && a in active && b in active && a != b
    ensures a.name != b.name
  {
  }

  lemma SameMounts(l: Ledger, l': Ledger, c: ContainerState)
    requires Valid(l) && Valid(l') && SameActive(l, l')
    ensures RenderContainer(c, l).volumeMounts == RenderContainer(c, l').volumeMounts
  {
    UniqueIsDistinct(l.active);
    UniqueIsDistinct(l'.active);
    forall a, b, x, y | a in l.active && b in l.active && a != b && x in MountOf(c)(a) && y in MountOf(c)(b)
      ensures MountKey(x) != MountKey(y)
    {
      UniqueByName(l.active, a, b);
      assert Apart(a, b);
      ApartKeys(a, b);
    }
    GatherAnyOrder(l.active, l'.active, MountOf(c), MountKey);
  }

  ghost predicate NoSharedKeys(xs: seq<Projector>, f: Projector -> map<string, string>) {
    forall a, b | a in xs && b in xs && a != b :: f(a).Keys !! f(b).Keys
  }

  lemma SameJoinAt(xs: seq<Projector>, ys: seq<Projector>, f: Projector -> map<string, string>, k: string)
    requires forall a :: a in xs <==> a in ys
    requires NoSharedKeys(xs, f) && k in Join(xs, f)
    ensures k in Join(ys, f) && Join(xs, f)[k] == Join(ys, f)[k]
  {
    JoinKeys(xs, f);
    var a :| a in xs && k in f(a);
    forall x | x in xs && x != a ensures k !in f(x) {
      assert f(a).Keys !! f(x).Keys && k in f(a).Keys;
    }
    JoinValue(xs, f, a, k);
    JoinValue(ys, f, a, k);
  }

  lemma SameJoin(xs: seq<Projector>, ys: seq<Projector>, f: Projector -> map<string, string>)
    requires forall a :: a in xs <==> a in ys
    requires NoSharedKeys(xs, f)
    ensures Join(xs, f) == Join(ys, f)
  {
    forall k | k in Join(xs, f) ensures k in Join(ys, f) && Join(xs, f)[k] == Join(ys, f)[k] {
      SameJoinAt(xs, ys, f, k);
    }
    assert NoSharedKeys(ys, f);
    forall k | k in Join(ys, f) ensures k in Join(xs, f) {
      SameJoinAt(ys, xs, f, k);
    }
  }

  lemma ContributionsApart(l: Ledger, a: Projector, b: Projector)
    requires Valid(l) && a in l.active && b in l.active && a != b
    ensures RecordOf(a).Keys !! RecordOf(b).Keys
    ensures MetaOf(a).Keys !! MetaOf(b).Keys
  {
    UniqueByName(l.active, a, b);
    assert Apart(a, b);
    ApartKeys(a, b);
  }

  lemma SameAnnotations(l: Ledger, l': Ledger)
    requires Valid(l) && Valid(l') && SameActive(l, l')
    ensures RenderPod(l).annotations == RenderPod(l').annotations
    ensures RenderPod(l).templateAnnotations == RenderPod(l').templateAnnotations
  {
    forall a, b | a in l.active && b in l.active && a != b
      ensures RecordOf(a).Keys !! RecordOf(b).Keys
      ensures MetaOf(a).Keys !! MetaOf(b).Keys
    {
      ContributionsApart(l, a, b);
    }
    SameJoin(l.active, l'.active, RecordOf);
    SameJoin(l.active, l'.active, MetaOf);
  }

  /** `b` maps a value it overrides into some container of the pod. */
  predicate Overrides(base: PodState, b: Projector) {
    && (exists e | e in b.spec.env :: Override(b, e).Some?)
    && (exists c | c in AllContainers(base) :: Targets(b, c.name))
  }

  /** Overridden env vars of the ledger's last Do are to be seen in the pod. */
  predicate Visible(l: Ledger) {
    exists a | a in l.active :: l.shown == Some(a.name) && Overrides(l.base, a)
  }

  lemma {:induction false} WholeIsPlain(b: Projector)
    requires forall e | e in b.spec.env :: Override(b, e).None?
    ensures BindingEnv(b, true) == BindingEnv(b, false)
  {
    GatherAgree(b.spec.env, EntryOf(b, true), EntryOf(b, false));
  }

  /** What is shown makes no difference in a container when there is nothing to see. */
  lemma InvisibleIsHidden(l: Ledger, c: ContainerState, a: Projector)
    requires !Visible(l) && c in AllContainers(l.base) && a in l.active
    ensures EnvOf(c.name, l.shown)(a) == EnvOf(c.name, None)(a)
  {
    if Targets(a, c.name) && l.shown == Some(a.name) {
      WholeIsPlain(a);
    }
  }

  lemma SameRenderedContainer(l: Ledger, l': Ledger, c: ContainerState)
    requires l.base == l'.base && c in AllContainers(l.base)
    requires RenderAll(l.base.initContainers, l) == RenderAll(l.base.initContainers, l')
    requires RenderAll(l.base.containers, l) == RenderAll(l.base.containers, l')
    ensures RenderContainer(c, l) == RenderContainer(c, l')
  {
    if c in l.base.initContainers {
      var i :| 0 <= i < |l.base.initContainers| && l.base.initContainers[i] == c;
      assert RenderAll(l.base.initContainers, l)[i] == RenderAll(l.base.initContainers, l')[i];
    } else {
      var i :| 0 <= i < |l.base.containers| && l.base.containers[i] == c;
      assert RenderAll(l.base.containers, l)[i] == RenderAll(l.base.containers, l')[i];
    }
  }

  /** A visible overridden env var names its owner: a pod that shows another binding, or none, lacks it. */
  lemma VisibleTellsApart(l: Ledger, l': Ledger)
    requires Valid(l) && Valid(l') && SameActive(l, l')
    requires Visible(l) && l.shown != l'.shown
    ensures RenderPod(l) != RenderPod(l')
  {
    var b :| b in l.active && l.shown == Some(b.name) && Overrides(l.base, b);
    var e :| e in b.spec.env && Override(b, e).Some?;
    var c :| c in AllContainers(l.base) && Targets(b, c.name);
    ShownEntry(l, b, e, c);
    HiddenEntry(l', b, e, c);
    if RenderPod(l) == RenderPod(l') {
      SameRenderedContainer(l, l', c);
    }
  }

  lemma ShownEntry(l: Ledger, b: Projector, e: EnvMapping, c: ContainerState)
    requires b in l.active && l.shown == Some(b.name) && e in b.spec.env && Targets(b, c.name)
    ensures EnvEntry(b, e) in RenderContainer(c, l).env
  {
    var es := Gather(l.active, EnvOf(c.name, l.shown));
    GatherMembers(b.spec.env, EntryOf(b, true));
    assert EnvEntry(b, e) in EntryOf(b, true)(e);
    assert EnvEntry(b, e) in EnvOf(c.name, l.shown)(b);
    GatherMembers(l.active, EnvOf(c.name, l.shown));
    SortMembers(es, All(), EnvKey);
  }

  /** Whoever holds the entry of an overridden value is the binding with that digest. */
  lemma EntryOwner(a: Projector, whole: bool, b: Projector, e: EnvMapping)
    requires Override(b, e).Some? && EnvEntry(b, e) in BindingEnv(a, whole)
    ensures whole && Sha1Hex(a.name) == Sha1Hex(b.name)
  {
    BindingEnvInjected(a, whole, {});
    var e' :| e' in a.spec.env && EnvEntry(b, e) == EnvEntry(a, e') && (whole || Override(a, e').None?);
    assert Override(a, e').Some?;
    MetaPathUnique(a.name, Override(a, e').value, b.name, Override(b, e).value);
  }

  lemma HiddenEntry(l: Ledger, b: Projector, e: EnvMapping, c: ContainerState)
    requires Valid(l) && b in l.active && l.shown != Some(b.name)
    requires Override(b, e).Some? && c in AllContainers(l.base)
    ensures EnvEntry(b, e) !in RenderContainer(c, l).env
  {
    var x := EnvEntry(b, e);
    MetaPathMatches(b.name, Override(b, e).value);
    assert HasMetaPath(x) && !HasMetaPath(RootEntry);
    RenderedEnvMembers(l, c);
    forall a | a in l.active && l.shown == Some(a.name) ensures Sha1Hex(a.name) != Sha1Hex(b.name) {
      assert Apart(a, b);
    }
    if a :| a in l.active && Targets(a, c.name) && x in BindingEnv(a, l.shown == Some(a.name)) {
      EntryOwner(a, l.shown == Some(a.name), b, e);
    }
  }

  // ---- When two ledgers render the same pod ----

  /** `a` has an entry called `k` in a container of this name; `whole` if its overridden values are shown. */
  predicate Shows(a: Projector, whole: bool, name: string, k: string) {
    Targets(a, name) && exists e | e in a.spec.env :: e.name == k && (whole || Override(a, e).None?)
  }

  function ShownIn(shown: Option<string>, name: string, k: string): Projector -> bool {
    (a: Projector) => Shows(a, shown == Some(a.name), name, k)
  }

  /** The clean containers got the same roots. */
  predicate SameRoots(l: Ledger, l': Ledger) {
    forall c | c in AllContainers(l.base) :: RootedEnv(c, l.touched) == RootedEnv(c, l'.touched)
  }

  /** The same binding's overridden env vars are there, or none. */
  predicate SameShown(l: Ledger, l': Ledger) {
    l.shown == l'.shown || (!Visible(l) && !Visible(l'))
  }

  /** In every container the active bindings that show an entry of the same name come in the same order. */
  ghost predicate SameOrder(l: Ledger, l': Ledger) {
    forall c, k | c in AllContainers(l.base) ::
      Filter(l.active, ShownIn(l.shown, c.name, k)) == Filter(l'.active, ShownIn(l'.shown, c.name, k))
  }

  /** An entry names its binding. */
  lemma EntriesApart(a: Projector, whole: bool, b: Projector, whole': bool, x: EnvVar)
    requires Apart(a, b) && x in BindingEnv(a, whole) && x in BindingEnv(b, whole')
    ensures a.name == b.name
  {
    BindingEnvInjected(a, whole, {});
    BindingEnvInjected(b, whole', {});
    if a.name != b.name {
      ApartKeys(a, b);
      var e :| e in a.spec.env && x == EnvEntry(a, e) && (whole || Override(a, e).None?);
      EntryOwner(b, whole', a, e);
    }
  }

  lemma EnvOwned(active: seq<Projector>, name: string, shown: Option<string>)
    requires UniqueNames(active) && AllApart(active)
    ensures forall a, b, x | a in active && b in active && x in EnvOf(name, shown)(a) && x in EnvOf(name, shown)(b) :: a == b
  {
    forall a, b, x | a in active && b in active && x in EnvOf(name, shown)(a) && x in EnvOf(name, shown)(b) ensures a == b {
      if a != b {
        UniqueByName(active, a, b);
        assert Apart(a, b);
        EntriesApart(a, shown == Some(a.name), b, shown == Some(b.name), x);
      }
    }
  }

  lemma EntryPresent(a: Projector, whole: bool, e: EnvMapping)
    requires e in a.spec.env && (whole || Override(a, e).None?)
    ensures EnvEntry(a, e) in BindingEnv(a, whole)
  {
    GatherMembers(a.spec.env, EntryOf(a, whole));
    assert EnvEntry(a, e) in EntryOf(a, whole)(e);
  }

  lemma EntryNamed(a: Projector, whole: bool, k: string)
    ensures (exists x | x in BindingEnv(a, whole) :: x.name == k)
       <==> (exists e | e in a.spec.env :: e.name == k && (whole || Override(a, e).None?))
  {
    if x :| x in BindingEnv(a, whole) && x.name == k {
      BindingEnvInjected(a, whole, {});
      var e :| e in a.spec.env && x == EnvEntry(a, e) && (whole || Override(a, e).None?);
      assert e.name == k;
    }
    if e :| e in a.spec.env && e.name == k && (whole || Override(a, e).None?) {
      EntryPresent(a, whole, e);
      assert EnvEntry(a, e).name == k;
    }
  }

  lemma ContributesIsShows(a: Projector, name: string, shown: Option<string>, k: string)
    ensures Contributes(EnvOf(name, shown), k, EnvKey)(a) == ShownIn(shown, name, k)(a)
  {
    if Targets(a, name) {
      EntryNamed(a, shown == Some(a.name), k);
      FilterOccupied(BindingEnv(a, shown == Some(a.name)), Named(k, EnvKey));
      assert forall x: EnvVar :: Named(k, EnvKey)(x) <==> x.name == k;
    } else {
      assert Filter(EnvOf(name, shown)(a), Named(k, EnvKey)) == [];
    }
  }

  /** Either both ledgers root the container alike, or no active binding is in it. */
  lemma RootsTell(l: Ledger, l': Ledger, c: ContainerState)
    requires Valid(l) && Valid(l') && SameActive(l, l')
    ensures RootedEnv(c, l.touched) == RootedEnv(c, l'.touched)
         || (Gather(l.active, EnvOf(c.name, l.shown)) == [] && Gather(l'.active, EnvOf(c.name, l'.shown)) == [])
  {
    if RootedEnv(c, l.touched) != RootedEnv(c, l'.touched) {
      forall a | a in l.active ensures !Targets(a, c.name) {
        assert a in l.touched && a in l'.touched;
      }
      GatherNone(l.active, EnvOf(c.name, l.shown));
      GatherNone(l'.active, EnvOf(c.name, l'.shown));
    }
  }

  lemma ContributorsAreShown(active: seq<Projector>, name: string, shown: Option<string>, k: string)
    ensures Filter(active, Contributes(EnvOf(name, shown), k, EnvKey)) == Filter(active, ShownIn(shown, name, k))
  {
    forall a | a in active
      ensures Contributes(EnvOf(name, shown), k, EnvKey)(a) == ShownIn(shown, name, k)(a)
    {
      ContributesIsShows(a, name, shown, k);
    }
    FilterAgree(active, Contributes(EnvOf(name, shown), k, EnvKey), ShownIn(shown, name, k));
  }

  lemma RestsTellOrder(l: Ledger, l': Ledger, c: ContainerState)
    requires Valid(l) && Valid(l') && SameActive(l, l')
    requires forall a | a in l.active :: EnvOf(c.name, l.shown)(a) == EnvOf(c.name, l'.shown)(a)
    ensures Sort(Gather(l.active, EnvOf(c.name, l.shown)), All(), EnvKey)
            == Sort(Gather(l'.active, EnvOf(c.name, l'.shown)), All(), EnvKey)
       <==> forall k :: Filter(l.active, ShownIn(l.shown, c.name, k)) == Filter(l'.active, ShownIn(l'.shown, c.name, k))
  {
    var f, f' := EnvOf(c.name, l.shown), EnvOf(c.name, l'.shown);
    GatherAgree(l'.active, f, f');
    EnvOwned(l.active, c.name, l.shown);
    OwnedBySame(l.active, l'.active, f);
    SortTellsOrder(l.active, l'.active, f, EnvKey);
    forall k
      ensures Filter(l.active, Contributes(f, k, EnvKey)) == Filter(l.active, ShownIn(l.shown, c.name, k))
      ensures Filter(l'.active, Contributes(f, k, EnvKey)) == Filter(l'.active, ShownIn(l'.shown, c.name, k))
    {
      ContributorsAreShown(l.active, c.name, l.shown, k);
      ContributorsAreShown(l'.active, c.name, l'.shown, k);
      FilterAgree(l'.active, Contributes(f, k, EnvKey), Contributes(f', k, EnvKey));
    }
  }

  lemma OwnedBySame<T(!new)>(xs: seq<Projector>, ys: seq<Projector>, f: Projector -> seq<T>)
    requires Owned(xs, f) && forall a :: a in xs <==> a in ys
    ensures Owned(xs + ys, f)
  {
    assert forall a :: a in xs + ys <==> a in xs;
  }

  lemma EnvExactly(l: Ledger, l': Ledger, c: ContainerState)
    requires Valid(l) && Valid(l') && SameActive(l, l')
    requires forall a | a in l.active :: EnvOf(c.name, l.shown)(a) == EnvOf(c.name, l'.shown)(a)
    ensures RenderContainer(c, l).env == RenderContainer(c, l').env <==>
              && RootedEnv(c, l.touched) == RootedEnv(c, l'.touched)
              && forall k :: Filter(l.active, ShownIn(l.shown, c.name, k)) == Filter(l'.active, ShownIn(l'.shown, c.name, k))
  {
    RestsTellOrder(l, l', c);
    RootsTell(l, l', c);
    var r, r' := RootedEnv(c, l.touched), RootedEnv(c, l'.touched);
    var s := Sort(Gather(l.active, EnvOf(c.name, l.shown)), All(), EnvKey);
    var s' := Sort(Gather(l'.active, EnvOf(c.name, l'.shown)), All(), EnvKey);
    if r == r' && r + s == r' + s' {
      assert (r + s)[|r|..] == s && (r' + s')[|r'|..] == s';
    }
    if r != r' {
      assert r + [] == r && r' + [] == r';
    }
  }

  lemma SameShownSameEnv(l: Ledger, l': Ledger, c: ContainerState)
    requires SameActive(l, l') && SameShown(l, l') && c in AllContainers(l.base)
    ensures forall a | a in l.active :: EnvOf(c.name, l.shown)(a) == EnvOf(c.name, l'.shown)(a)
  {
    if l.shown != l'.shown {
      forall a | a in l.active ensures EnvOf(c.name, l.shown)(a) == EnvOf(c.name, l'.shown)(a) {
        InvisibleIsHidden(l, c, a);
        InvisibleIsHidden(l', c, a);
      }
    }
  }

  lemma ContainersTell(l: Ledger, l': Ledger)
    requires l.base == l'.base
    ensures RenderAll(l.base.initContainers, l) == RenderAll(l.base.initContainers, l')
            && RenderAll(l.base.containers, l) == RenderAll(l.base.containers, l')
       <==> forall c | c in AllContainers(l.base) :: RenderContainer(c, l) == RenderContainer(c, l')
  {
    if RenderAll(l.base.initContainers, l) == RenderAll(l.base.initContainers, l')
       && RenderAll(l.base.containers, l) == RenderAll(l.base.containers, l') {
      forall c | c in AllContainers(l.base) ensures RenderContainer(c, l) == RenderContainer(c, l') {
        SameRenderedContainer(l, l', c);
      }
    }
  }

  /**
   Two pods with the same active bindings are equal exactly when the same containers got their root, the
   same binding's overridden env vars are to be seen, if any, and bindings that show entries of the same
   name in a container come in the same order.
   */
  lemma SameActiveSamePod(l: Ledger, l': Ledger)
    requires Valid(l) && Valid(l') && SameActive(l, l')
    ensures RenderPod(l) == RenderPod(l') <==> SameRoots(l, l') && SameShown(l, l') && SameOrder(l, l')
  {
    if SameShown(l, l') {
      SameVolumes(l, l');
      SameAnnotations(l, l');
      ContainersTell(l, l');
      forall c | c in AllContainers(l.base)
        ensures RenderContainer(c, l) == RenderContainer(c, l') <==>
          && RootedEnv(c, l.touched) == RootedEnv(c, l'.touched)
          && forall k :: Filter(l.active, ShownIn(l.shown, c.name, k)) == Filter(l'.active, ShownIn(l'.shown, c.name, k))
      {
        SameMounts(l, l', c);
        SameShownSameEnv(l, l', c);
        EnvExactly(l, l', c);
      }
    } else if Visible(l) {
      VisibleTellsApart(l, l');
    } else {
      VisibleTellsApart(l', l);
    }
  }

  /** Any two runs, of Dos and Undos in any order, that end with the same bindings active. */
  lemma RunsConfluent(base: PodState, steps: seq<Step>, steps': seq<Step>)
    requires Clean(base) && Admitted(base, steps) && Admitted(base, steps')
    requires forall a :: a in Trace(base, steps).active <==> a in Trace(base, steps').active
    ensures var l, l' := Trace(base, steps), Trace(base, steps');
            Play(base, steps) == Play(base, steps') <==> SameRoots(l, l') && SameShown(l, l') && SameOrder(l, l')
  {
    RunRefines(base, steps);
    RunRefines(base, steps');
    TraceBase(base, steps);
    TraceBase(base, steps');
    SameActiveSamePod(Trace(base, steps), Trace(base, steps'));
  }

  // ---- Doing a set of bindings in any order, with repeats ----

  function DoAll(p: PodState, bs: seq<Projector>): PodState {
    if bs == [] then p else DoPod(Last(bs), DoAll(p, Front(bs)))
  }

  function Dos(bs: seq<Projector>): seq<Step> {
    seq(|bs|, i requires 0 <= i < |bs| => DoStep(bs[i]))
  }

  /** The bindings suit the pod and one another, and a name stands for one spec. */
  ghost predicate Family(base: PodState, bs: seq<Projector>) {
    && Clean(base)
    && (forall b | b in bs :: Fits(base, b))
    && AllApart(bs)
    && OneSpec(bs)
  }

  ghost predicate OneSpec(bs: seq<Projector>) {
    forall a, b | a in bs && b in bs :: a.name == b.name ==> a == b
  }

  lemma {:induction false} DosTrace(base: PodState, bs: seq<Projector>)
    requires OneSpec(bs)
    ensures var l := Trace(base, Dos(bs));
            && l.base == base
            && (forall b :: b in l.active <==> b in bs)
            && (forall b :: b in l.touched <==> b in bs)
            && l.shown == if bs == [] then None else Some(Last(bs).name)
  {
    if bs != [] {
      var f, z := Front(bs), Last(bs);
      assert bs == f + [z];
      DosTrace(base, f);
      assert Front(Dos(bs)) == Dos(f) && Last(Dos(bs)) == DoStep(z);
      forall b ensures b in Trace(base, Dos(bs)).active <==> b in bs {
        AdvanceMembers(Trace(base, Dos(f)), DoStep(z), b);
      }
    }
  }

  lemma FamilyShrinks(base: PodState, bs: seq<Projector>, bs': seq<Projector>)
    requires Family(base, bs) && forall b | b in bs' :: b in bs
    ensures Family(base, bs')
  {
  }

  lemma FamilyAdmissible(base: PodState, bs: seq<Projector>, l: Ledger, b: Projector)
    requires Family(base, bs) && b in bs
    requires l.base == base && forall a | a in l.active :: a in bs
    ensures Admissible(l, b)
  {
  }

  lemma {:induction false} DoAllIsPlay(base: PodState, bs: seq<Projector>)
    ensures DoAll(base, bs) == Play(base, Dos(bs))
  {
    if bs != [] {
      DoAllIsPlay(base, Front(bs));
      assert Front(Dos(bs)) == Dos(Front(bs)) && Last(Dos(bs)) == DoStep(Last(bs));
    }
  }

  lemma AdmittedSnoc(base: PodState, steps: seq<Step>, step: Step)
    requires Admitted(base, steps) && Admissible(Trace(base, steps), step.b)
    ensures Admitted(base, steps + [step])
  {
  }

  lemma DosSnoc(bs: seq<Projector>)
    requires bs != []
    ensures Dos(bs) == Dos(Front(bs)) + [DoStep(Last(bs))]
  {
  }

  lemma {:induction false} DosAdmitted(base: PodState, bs: seq<Projector>, n: nat)
    requires Family(base, bs) && n <= |bs|
    ensures Admitted(base, Dos(bs[..n]))
  {
    if n > 0 {
      var f := bs[..n - 1];
      assert Front(bs[..n]) == f;
      DosAdmitted(base, bs, n - 1);
      DosTrace(base, f);
      FamilyAdmissible(base, bs, Trace(base, Dos(f)), bs[n - 1]);
      AdmittedSnoc(base, Dos(f), DoStep(bs[n - 1]));
      DosSnoc(bs[..n]);
    }
  }

  lemma DosPlayed(base: PodState, bs: seq<Projector>)
    requires Family(base, bs)
    ensures DoAll(base, bs) == Play(base, Dos(bs)) && Admitted(base, Dos(bs))
  {
    DoAllIsPlay(base, bs);
    DosAdmitted(base, bs, |bs|);
    assert bs[..|bs|] == bs;
  }

  /** Each binding once, where it occurs last. */
  function LastOccurrences(bs: seq<Projector>): seq<Projector> {
    if bs == [] then []
    else if bs[0] in bs[1..] then LastOccurrences(bs[1..])
    else [bs[0]] + LastOccurrences(bs[1..])
  }

  lemma WithoutCons(x: Projector, active: seq<Projector>, name: string)
    ensures Without([x] + active, name) == (if x.name == name then [] else [x]) + Without(active, name)
  {
    FilterConcat([x], active, OtherThan(name));
    FilterOne(x, OtherThan(name));
  }

  lemma LastOccurrencesCons(x: Projector, rest: seq<Projector>)
    ensures LastOccurrences([x] + rest) == if x in rest then LastOccurrences(rest) else [x] + LastOccurrences(rest)
  {
    assert ([x] + rest)[1..] == rest;
  }

  lemma LastOccurrencesStep(x: Projector, rest: seq<Projector>, z: Projector)
    requires x.name == z.name ==> x == z
    requires LastOccurrences(rest + [z]) == Without(LastOccurrences(rest), z.name) + [z]
    ensures LastOccurrences([x] + (rest + [z])) == Without(LastOccurrences([x] + rest), z.name) + [z]
  {
    LastOccurrencesCons(x, rest);
    LastOccurrencesCons(x, rest + [z]);
    WithoutCons(x, LastOccurrences(rest), z.name);
  }

  lemma {:induction false} LastOccurrencesSnoc(bs: seq<Projector>, z: Projector)
    requires forall b | b in bs :: b.name == z.name ==> b == z
    ensures LastOccurrences(bs + [z]) == Without(LastOccurrences(bs), z.name) + [z]
  {
    if bs == [] {
      assert bs + [z] == [z];
    } else {
      var x, rest := bs[0], bs[1..];
      assert bs == [x] + rest && bs + [z] == [x] + (rest + [z]);
      LastOccurrencesSnoc(rest, z);
      LastOccurrencesStep(x, rest, z);
    }
  }

  lemma {:induction false} DosActive(base: PodState, bs: seq<Projector>)
    requires OneSpec(bs)
    ensures Trace(base, Dos(bs)).active == LastOccurrences(bs)
  {
    if bs != [] {
      var f, z := Front(bs), Last(bs);
      assert bs == f + [z];
      DosActive(base, f);
      DosSnoc(bs);
      assert Front(Dos(bs)) == Dos(f) && Last(Dos(bs)) == DoStep(z);
      LastOccurrencesSnoc(f, z);
    }
  }

  /** For every container and env name: the bindings that show it there, by their last Do, come in the same order. */
  ghost predicate SameOrderOfNames(base: PodState, bs: seq<Projector>, bs': seq<Projector>)
    requires bs != [] && bs' != []
  {
    forall c, k | c in AllContainers(base) ::
      Filter(LastOccurrences(bs), ShownIn(Some(Last(bs).name), c.name, k))
      == Filter(LastOccurrences(bs'), ShownIn(Some(Last(bs').name), c.name, k))
  }

  /**
   Confluence: doing the same set of bindings in any order and with any repeats gives one pod, down to the
   order of volumes, mounts and env vars, exactly when the same binding came last, or neither of the last
   ones maps an overridden type or provider into the pod, and bindings that share an env name in a
   container came last in the same order.
   */
  lemma DoAnyOrder(base: PodState, bs: seq<Projector>, bs': seq<Projector>)
    requires bs != [] && bs' != []
    requires Family(base, bs) && forall b :: b in bs <==> b in bs'
    ensures DoAll(base, bs) == DoAll(base, bs') <==>
              && (Last(bs) == Last(bs') || (!Overrides(base, Last(bs)) && !Overrides(base, Last(bs'))))
              && SameOrderOfNames(base, bs, bs')
  {
    FamilyShrinks(base, bs, bs');
    DosPlayed(base, bs);
    DosPlayed(base, bs');
    DosSame(base, bs, bs');
    RunsConfluent(base, Dos(bs), Dos(bs'));
  }

  lemma DosSameOrder(base: PodState, bs: seq<Projector>, bs': seq<Projector>)
    requires bs != [] && bs' != [] && OneSpec(bs) && OneSpec(bs')
    ensures SameOrder(Trace(base, Dos(bs)), Trace(base, Dos(bs'))) <==> SameOrderOfNames(base, bs, bs')
  {
    DosTrace(base, bs);
    DosTrace(base, bs');
    DosActive(base, bs);
    DosActive(base, bs');
  }

  lemma DosSame(base: PodState, bs: seq<Projector>, bs': seq<Projector>)
    requires bs != [] && bs' != []
    requires forall b :: b in bs <==> b in bs'
    requires OneSpec(bs)
    ensures var l, l' := Trace(base, Dos(bs)), Trace(base, Dos(bs'));
            && SameActive(l, l') && SameRoots(l, l')
            && (SameShown(l, l')
                <==> Last(bs) == Last(bs') || (!Overrides(base, Last(bs)) && !Overrides(base, Last(bs'))))
            && (SameOrder(l, l') <==> SameOrderOfNames(base, bs, bs'))
  {
    assert Last(bs) in bs && Last(bs') in bs';
    DosTrace(base, bs);
    DosTrace(base, bs');
    DosSameOrder(base, bs, bs');
    SameTouched(Trace(base, Dos(bs)), Trace(base, Dos(bs')), bs);
    LastsTell(Trace(base, Dos(bs)), Trace(base, Dos(bs')), bs, bs');
  }

  lemma LastsTell(l: Ledger, l': Ledger, bs: seq<Projector>, bs': seq<Projector>)
    requires bs != [] && bs' != [] && OneSpec(bs) && OneSpec(bs') && Last(bs') in bs && l.base == l'.base
    requires l.shown == Some(Last(bs).name) && l'.shown == Some(Last(bs').name)
    requires forall b :: b in l.active <==> b in bs
    requires forall b :: b in l'.active <==> b in bs'
    ensures SameShown(l, l')
       <==> Last(bs) == Last(bs') || (!Overrides(l.base, Last(bs)) && !Overrides(l.base, Last(bs')))
  {
    assert Last(bs) in bs;
    VisibleIsLast(l, bs);
    VisibleIsLast(l', bs');
  }

  lemma SameTouched(l: Ledger, l': Ledger, bs: seq<Projector>)
    requires l.base == l'.base
    requires forall b :: b in l.touched <==> b in bs
    requires forall b :: b in l'.touched <==> b in bs
    ensures SameRoots(l, l')
  {
    assert l.touched == l'.touched;
  }

  /** No two bindings that meet in a container map the same env name. */
  ghost predicate EnvApart(base: PodState, bs: seq<Projector>) {
    forall c, a, b, e, e' | c in AllContainers(base) && a in bs && b in bs && a != b
      && Targets(a, c.name) && Targets(b, c.name) && e in a.spec.env && e' in b.spec.env :: e.name != e'.name
  }

  lemma {:induction false} LastOccurrencesDistinct(bs: seq<Projector>)
    ensures Distinct(LastOccurrences(bs))
    ensures forall b :: b in LastOccurrences(bs) <==> b in bs
  {
    if bs != [] {
      LastOccurrencesDistinct(bs[1..]);
      assert bs == [bs[0]] + bs[1..];
    }
  }

  lemma OneShower(base: PodState, bs: seq<Projector>, c: ContainerState, k: string, shown: Option<string>, a: Projector)
    requires EnvApart(base, bs) && c in AllContainers(base) && a in bs && ShownIn(shown, c.name, k)(a)
    ensures forall b | b in bs && ShownIn(shown, c.name, k)(b) :: b == a
  {
  }

  lemma NotOverridingShows(base: PodState, z: Projector, a: Projector, c: ContainerState, k: string)
    requires !Overrides(base, z) && c in AllContainers(base) && (a.name == z.name ==> a == z)
    ensures ShownIn(Some(z.name), c.name, k)(a) == ShownIn(None, c.name, k)(a)
  {
  }

  lemma OneShowerSameOrder(
      base: PodState, bs: seq<Projector>, bs': seq<Projector>, c: ContainerState, k: string, p: Projector -> bool)
    requires EnvApart(base, bs) && c in AllContainers(base) && forall b :: b in bs <==> b in bs'
    requires exists shown :: p == ShownIn(shown, c.name, k)
    ensures Filter(LastOccurrences(bs), p) == Filter(LastOccurrences(bs'), p)
  {
    LastOccurrencesDistinct(bs);
    LastOccurrencesDistinct(bs');
    if a :| a in bs && p(a) {
      var shown :| p == ShownIn(shown, c.name, k);
      OneShower(base, bs, c, k, shown, a);
      FilterOnly(LastOccurrences(bs), p, a);
      FilterOnly(LastOccurrences(bs'), p, a);
    } else {
      FilterNone(LastOccurrences(bs), p);
      FilterNone(LastOccurrences(bs'), p);
    }
  }

  /** Without shared names only the overridden values can tell two orders apart. */
  lemma EnvApartSameOrder(base: PodState, bs: seq<Projector>, bs': seq<Projector>)
    requires bs != [] && bs' != [] && EnvApart(base, bs) && OneSpec(bs) && forall b :: b in bs <==> b in bs'
    requires Last(bs) == Last(bs') || (!Overrides(base, Last(bs)) && !Overrides(base, Last(bs')))
    ensures SameOrderOfNames(base, bs, bs')
  {
    LastOccurrencesDistinct(bs);
    LastOccurrencesDistinct(bs');
    var z, z' := Last(bs), Last(bs');
    assert z in bs && z' in bs;
    forall c, k | c in AllContainers(base)
      ensures Filter(LastOccurrences(bs), ShownIn(Some(z.name), c.name, k))
           == Filter(LastOccurrences(bs'), ShownIn(Some(z'.name), c.name, k))
    {
      OneShowerSameOrder(base, bs, bs', c, k, ShownIn(Some(z.name), c.name, k));
      if z != z' {
        forall a | a in bs ensures ShownIn(Some(z.name), c.name, k)(a) == ShownIn(Some(z'.name), c.name, k)(a) {
          NotOverridingShows(base, z, a, c, k);
          NotOverridingShows(base, z', a, c, k);
        }
        FilterAgree(LastOccurrences(bs'), ShownIn(Some(z.name), c.name, k), ShownIn(Some(z'.name), c.name, k));
      }
    }
  }

  lemma VisibleIsLast(l: Ledger, bs: seq<Projector>)
    requires bs != [] && l.shown == Some(Last(bs).name)
    requires forall b :: b in l.active <==> b in bs
    requires OneSpec(bs)
    ensures Visible(l) <==> Overrides(l.base, Last(bs))
  {
  }

  // ---- A concrete case that depends on the order ----

  const TYPED := Projector("a", ProjectionSpec("a", "mysql", "", "secret-a", ANYWHERE, [EnvMapping("A_TYPE", "type")]))
  const UNTYPED := Projector("b", ProjectionSpec("b", "", "", "secret-b", ANYWHERE, []))

  lemma PlainPodFits(b: Projector)
    requires b.spec.binding != ""
    ensures Clean(PLAIN_POD) && Fits(PLAIN_POD, b)
  {
  }

  lemma PlainFamily(a: Projector, b: Projector)
    requires a.name != b.name && Apart(a, b) && a.spec.binding != "" && b.spec.binding != ""
    ensures Family(PLAIN_POD, [a, b])
  {
    PlainPodFits(a);
    PlainPodFits(b);
    assert AllApart([a, b]);
  }

  lemma PlainOverrides(a: Projector, e: EnvMapping)
    requires a.spec.workload.containers == [] && e in a.spec.env && Override(a, e).Some?
    ensures Overrides(PLAIN_POD, a)
  {
  }

  /** On the plain pod: of two bindings the first maps an overridden value. */
  lemma OrderMatters(a: Projector, b: Projector, e: EnvMapping)
    requires a.name != b.name && Apart(a, b) && a.spec.binding != "" && b.spec.binding != ""
    requires a.spec.workload.containers == [] && e in a.spec.env && Override(a, e).Some?
    ensures DoAll(PLAIN_POD, [a, b]) != DoAll(PLAIN_POD, [b, a])
  {
    PlainFamily(a, b);
    PlainOverrides(a, e);
    assert Last([a, b]) == b && Last([b, a]) == a;
    DoAnyOrder(PLAIN_POD, [a, b], [b, a]);
  }

  /** Two bindings, one of which maps its overridden type: the other one's Do takes that env var away. */
  lemma OrderCanMatter()
    requires Sha1Hex("a") != Sha1Hex("b") && Sha1Hex("secret-a") != Sha1Hex("secret-b")
    ensures DoAll(PLAIN_POD, [TYPED, UNTYPED]) != DoAll(PLAIN_POD, [UNTYPED, TYPED])
  {
    OrderMatters(TYPED, UNTYPED, EnvMapping("A_TYPE", "type"));
  }

  /** On the plain pod: two bindings map the same env name, and nothing is overridden. */
  lemma SharedNameMatters(a: Projector, b: Projector, e: EnvMapping, e': EnvMapping)
    requires a.name != b.name && Apart(a, b) && a.spec.binding != "" && b.spec.binding != ""
    requires a.spec.workload.containers == [] && b.spec.workload.containers == []
    requires e in a.spec.env && e' in b.spec.env && e.name == e'.name
    requires Override(a, e).None? && Override(b, e').None?
    ensures DoAll(PLAIN_POD, [a, b]) != DoAll(PLAIN_POD, [b, a])
  {
    PlainFamily(a, b);
    var c, k := AllContainers(PLAIN_POD)[0], e.name;
    assert c in AllContainers(PLAIN_POD);
    TwoOccurrences(a, b);
    TwoOccurrences(b, a);
    var p, p' := ShownIn(Some(b.name), c.name, k), ShownIn(Some(a.name), c.name, k);
    FilterAll([a, b], p);
    FilterAll([b, a], p');
    assert [a, b][0] != [b, a][0];
    assert Last([a, b]) == b && Last([b, a]) == a;
    assert !SameOrderOfNames(PLAIN_POD, [a, b], [b, a]);
    DoAnyOrder(PLAIN_POD, [a, b], [b, a]);
  }

  lemma TwoOccurrences(a: Projector, b: Projector)
    requires a != b
    ensures LastOccurrences([a, b]) == [a, b]
  {
    assert [a, b][1..] == [b] && [b][1..] == [];
    assert LastOccurrences([b]) == [b] + LastOccurrences([]) == [b];
    assert a !in [b];
    assert LastOccurrences([a, b]) == [a] + LastOccurrences([b]);
  }

  const SHARING_A := Projector("a", ProjectionSpec("a", "", "", "secret-a", ANYWHERE, [EnvMapping("URL", "url")]))
  const SHARING_B := Projector("b", ProjectionSpec("b", "", "", "secret-b", ANYWHERE, [EnvMapping("URL", "url")]))

  /** Two bindings that map the same env name: the one done last comes last. */
  lemma SharedNameCanMatter()
    requires Sha1Hex("a") != Sha1Hex("b") && Sha1Hex("secret-a") != Sha1Hex("secret-b")
    ensures DoAll(PLAIN_POD, [SHARING_A, SHARING_B]) != DoAll(PLAIN_POD, [SHARING_B, SHARING_A])
  {
    SharedNameMatters(SHARING_A, SHARING_B, EnvMapping("URL", "url"), EnvMapping("URL", "url"));
  }

  // ---- A concrete order ----

  const URL_A := Projector("a", ProjectionSpec("a", "", "", "secret-a", ANYWHERE, [EnvMapping("A_URL", "url")]))
  const URL_B := Projector("b", ProjectionSpec("b", "", "", "secret-b", ANYWHERE, [EnvMapping("B_URL", "url")]))

  const ENTRY_A := EnvVar("A_URL", "", Some(EnvVarSource(Some(SecretKeySelector("secret-a", "url")), None, "")))
  const ENTRY_B := EnvVar("B_URL", "", Some(EnvVarSource(Some(SecretKeySelector("secret-b", "url")), None, "")))

  lemma UrlEntries(name: string, shown: Option<string>)
    ensures EnvOf(name, shown)(URL_A) == [ENTRY_A] && EnvOf(name, shown)(URL_B) == [ENTRY_B]
  {
    var es, es' := URL_A.spec.env, URL_B.spec.env;
    assert Front(es) == [] && Front(es') == [];
    assert forall whole :: BindingEnv(URL_A, whole) == [] + [EnvEntry(URL_A, es[0])];
    assert forall whole :: BindingEnv(URL_B, whole) == [] + [EnvEntry(URL_B, es'[0])];
  }

  lemma SortTwo<T(!new)>(x: T, y: T, key: T -> string)
    ensures Sort([x, y], All(), key) == if Less(key(y), key(x)) then [y, x] else [x, y]
  {
    assert Front([x, y]) == [x] && Front([x]) == [];
    assert Sort([x], All(), key) == [] + [x];
    assert Insert([x], y, All(), key) == if Less(key(y), key(x)) then Insert([], y, All(), key) + [x] else [x] + [y];
  }

  lemma GatherTwo<A(!new), T(!new)>(x: A, y: A, f: A -> seq<T>)
    ensures Gather([x, y], f) == f(x) + f(y)
  {
    assert Front([x, y]) == [x] && Front([x]) == [];
    assert Gather([x], f) == Gather([], f) + f(x) == f(x);
  }

  lemma UrlsGathered(name: string, shown: Option<string>, active: seq<Projector>)
    requires active == [URL_A, URL_B] || active == [URL_B, URL_A]
    ensures Gather(active, EnvOf(name, shown)) == if active == [URL_A, URL_B] then [ENTRY_A, ENTRY_B] else [ENTRY_B, ENTRY_A]
  {
    UrlEntries(name, shown);
    GatherTwo(active[0], active[1], EnvOf(name, shown));
    assert active == [active[0], active[1]];
  }

  lemma UrlsSorted()
    ensures Sort([ENTRY_A, ENTRY_B], All(), EnvKey) == [ENTRY_A, ENTRY_B]
    ensures Sort([ENTRY_B, ENTRY_A], All(), EnvKey) == [ENTRY_A, ENTRY_B]
  {
    assert Less("A_URL", "B_URL") && !Less("B_URL", "A_URL");
    SortTwo(ENTRY_A, ENTRY_B, EnvKey);
    SortTwo(ENTRY_B, ENTRY_A, EnvKey);
  }

  lemma EmptyContainerRooted(c: ContainerState, touched: set<Projector>, a: Projector)
    requires c.env == [] && a in touched && a.spec.workload.containers == []
    ensures RootedEnv(c, touched) == [RootEntry]
  {
    assert Targets(a, c.name);
    assert EnsureRoot([]) == [RootEntry];
  }

  lemma UrlsRendered(l: Ledger, c: ContainerState)
    requires c.env == [] && URL_A in l.touched
    requires l.active == [URL_A, URL_B] || l.active == [URL_B, URL_A]
    ensures RenderContainer(c, l).env == [RootEntry] + [ENTRY_A, ENTRY_B]
  {
    EmptyContainerRooted(c, l.touched, URL_A);
    UrlsGathered(c.name, l.shown, l.active);
    UrlsSorted();
  }

  lemma UrlsLedger(bs: seq<Projector>)
    requires bs == [URL_A, URL_B] || bs == [URL_B, URL_A]
    requires Family(PLAIN_POD, bs)
    ensures var l := Trace(PLAIN_POD, Dos(bs));
            && l.base == PLAIN_POD && URL_A in l.touched && l.active == bs
            && DoAll(PLAIN_POD, bs) == RenderPod(l)
  {
    assert bs == [bs[0], bs[1]];
    assert URL_A in bs;
    DosPlayed(PLAIN_POD, bs);
    RunRefines(PLAIN_POD, Dos(bs));
    DosTrace(PLAIN_POD, bs);
    DosActive(PLAIN_POD, bs);
    TwoOccurrences(bs[0], bs[1]);
  }

  lemma PlainRendered(l: Ledger)
    requires l.base == PLAIN_POD
    ensures RenderPod(l).containers == [RenderContainer(PLAIN_POD.containers[0], l)]
  {
  }

  /** Whichever of two bindings is done first, the root comes first and A_URL before B_URL. */
  lemma UrlsAscend(bs: seq<Projector>)
    requires Sha1Hex("a") != Sha1Hex("b") && Sha1Hex("secret-a") != Sha1Hex("secret-b")
    requires bs == [URL_A, URL_B] || bs == [URL_B, URL_A]
    ensures |DoAll(PLAIN_POD, bs).containers| == 1
    ensures DoAll(PLAIN_POD, bs).containers[0].env
         == [EnvVar("SERVICE_BINDING_ROOT", "/bindings", None)] + [ENTRY_A, ENTRY_B]
  {
    PlainFamily(bs[0], bs[1]);
    assert bs == [bs[0], bs[1]];
    UrlsLedger(bs);
    PlainRendered(Trace(PLAIN_POD, Dos(bs)));
    UrlsRendered(Trace(PLAIN_POD, Dos(bs)), PLAIN_POD.containers[0]);
  }
}
