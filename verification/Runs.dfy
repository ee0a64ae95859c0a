/**
 Whole runs of `Do` and `Undo` by many bindings on one pod.  A ledger remembers which bindings are
 active; `RenderPod` says what the pod then must look like, without replaying anything.
 */
module Runs {
  import opened FieldPath
  import opened PartialSort
  import opened Projection
  import opened Repetition
  import opened Sequences
  import opened Text
  import opened Types

  /**
   base: the pod before any binding; touched: every binding ever done; active: those in force, in the
   order of their last Do; shown: the one binding whose overridden env vars are present, if any.
   */
  datatype Ledger = Ledger(base: PodState, touched: set<Projector>, active: seq<Projector>, shown: Option<string>)

  datatype Step = DoStep(b: Projector) | UndoStep(b: Projector)

  function OtherThan(name: string): Projector -> bool {
    (a: Projector) => a.name != name
  }

  function Without(active: seq<Projector>, name: string): seq<Projector> {
    Filter(active, OtherThan(name))
  }

  function Advance(l: Ledger, step: Step): Ledger {
    match step
    case UndoStep(b) => Ledger(l.base, l.touched, Without(l.active, b.name), None)
    case DoStep(b) => Ledger(l.base, l.touched + {b}, Without(l.active, b.name) + [b], Some(b.name))
  }

  function Perform(p: PodState, step: Step): PodState {
    match step
    case UndoStep(b) => UndoPod(b, p)
    case DoStep(b) => DoPod(b, p)
  }

  // ---- Rendering ----

  const VolumeOf: Projector -> seq<Volume> := (a: Projector) => [BindingVolume(a)]

  function MountOf(c: ContainerState): Projector -> seq<VolumeMount> {
    (a: Projector) => if Targets(a, c.name) then [BindingMount(a, MountRoot(c.env))] else []
  }

  function EnvOf(name: string, shown: Option<string>): Projector -> seq<EnvVar> {
    (a: Projector) => if Targets(a, name) then BindingEnv(a, shown == Some(a.name)) else []
  }

  const RecordOf: Projector -> map<string, string> := (a: Projector) => map[AnnotationKey(a.name) := a.spec.binding]
  const MetaOf: Projector -> map<string, string> := (a: Projector) => MetaAnnotations(a)

  function Annotations(active: seq<Projector>): map<string, string> {
    Join(active, RecordOf)
  }

  function TemplateAnnotations(active: seq<Projector>): map<string, string> {
    Join(active, MetaOf)
  }

  predicate Reached(touched: set<Projector>, name: string) {
    exists b | b in touched :: Targets(b, name)
  }

  function RootedEnv(c: ContainerState, touched: set<Projector>): seq<EnvVar> {
    if Reached(touched, c.name) then EnsureRoot(c.env) else c.env
  }

  /** Own entries first and untouched, then the root if some binding needed one, then the bindings' entries by name. */
  function RenderContainer(c: ContainerState, l: Ledger): ContainerState {
    c.(env := RootedEnv(c, l.touched) + Sort(Gather(l.active, EnvOf(c.name, l.shown)), All(), EnvKey),
       volumeMounts := c.volumeMounts + Sort(Gather(l.active, MountOf(c)), All(), MountKey))
  }

  function RenderAll(cs: seq<ContainerState>, l: Ledger): seq<ContainerState> {
    seq(|cs|, i requires 0 <= i < |cs| => RenderContainer(cs[i], l))
  }

  function RenderPod(l: Ledger): PodState {
    PodState(
      l.base.annotations + Annotations(l.active),
      l.base.templateAnnotations + TemplateAnnotations(l.active),
      l.base.volumes + Sort(Gather(l.active, VolumeOf), All(), VolumeKey),
      RenderAll(l.base.initContainers, l),
      RenderAll(l.base.containers, l))
  }

  // ---- The conditions, all checkable before a step ----

  /** The pod carries nothing that looks injected. */
  ghost predicate Clean(base: PodState) {
    && (forall k | k in base.annotations || k in base.templateAnnotations :: !(PROJECTION_KEY <= k))
    && (forall v | v in base.volumes :: FirstSecret(v) != Some(""))
    && (forall c, e | c in AllContainers(base) && e in c.env :: SecretOf(e) != Some("") && !HasMetaPath(e))
  }

  /** Container `c` of the clean pod does not already use the secret or the volume of `b`, nor an empty root. */
  ghost predicate FitsContainer(c: ContainerState, b: Projector) {
    && (forall e | e in c.env :: SecretOf(e) != Some(b.spec.binding))
    && (forall m | m in c.volumeMounts :: m.name != VolumeName(b.spec.binding))
    && (Targets(b, c.name) && HasRoot(c.env) ==> RootValue(c.env) != "")
  }

  ghost predicate Fits(base: PodState, b: Projector) {
    && b.spec.binding != ""
    && (forall v | v in base.volumes :: FirstSecret(v) != Some(b.spec.binding) && v.name != VolumeName(b.spec.binding))
    && (forall c | c in AllContainers(base) :: FitsContainer(c, b))
  }

  /** Different projections have different digests and secrets. */
  ghost predicate Apart(a: Projector, b: Projector) {
    a.name != b.name ==>
      && Sha1Hex(a.name) != Sha1Hex(b.name)
      && Sha1Hex(a.spec.binding) != Sha1Hex(b.spec.binding)
  }

  ghost predicate Admissible(l: Ledger, b: Projector) {
    Fits(l.base, b) && forall a | a in l.active :: Apart(a, b)
  }

  ghost predicate Valid(l: Ledger) {
    && Clean(l.base)
    && (forall b | b in l.touched :: Fits(l.base, b))
    && (forall a | a in l.active :: a in l.touched)
    && UniqueNames(l.active)
    && AllApart(l.active)
  }

  ghost predicate UniqueNames(active: seq<Projector>) {
    forall i, j | 0 <= i < j < |active| :: active[i].name != active[j].name
  }

  ghost predicate AllApart(active: seq<Projector>) {
    forall a, b | a in active && b in active :: Apart(a, b)
  }

  // ---- Facts about the active list ----

  lemma ApartKeys(a: Projector, b: Projector)
    requires Apart(a, b) && a.name != b.name
    ensures AnnotationKey(a.name) != AnnotationKey(b.name)
    ensures VolumeName(a.spec.binding) != VolumeName(b.spec.binding)
    ensures a.spec.binding != b.spec.binding
    ensures forall m: Meta, m': Meta :: MetaKey(a.name, m) != MetaKey(b.name, m')
  {
    KeysInjective(a.name, b.name, TypeMeta, TypeMeta);
    KeysInjective(a.spec.binding, b.spec.binding, TypeMeta, TypeMeta);
    forall m: Meta, m': Meta ensures MetaKey(a.name, m) != MetaKey(b.name, m') {
      KeysInjective(a.name, b.name, m, m');
    }
  }

  lemma UniqueNamesLast(active: seq<Projector>)
    requires UniqueNames(active) && active != []
    ensures UniqueNames(Front(active))
    ensures forall a | a in Front(active) :: a.name != Last(active).name
    ensures forall a :: a in active <==> a in Front(active) || a == Last(active)
  {
  }

  lemma WithoutMembers(active: seq<Projector>, name: string)
    requires UniqueNames(active)
    ensures forall a :: a in Without(active, name) <==> a in active && a.name != name
    ensures UniqueNames(Without(active, name))
  {
    FilterMembers(active, OtherThan(name));
    FilterUnique(active, OtherThan(name));
  }

  lemma {:induction false} FilterUnique(active: seq<Projector>, p: Projector -> bool)
    requires UniqueNames(active)
    ensures UniqueNames(Filter(active, p))
  {
    if active != [] {
      UniqueNamesLast(active);
      var f := Filter(Front(active), p);
      FilterUnique(Front(active), p);
      FilterMembers(Front(active), p);
      assert forall i | 0 <= i < |f| :: f[i] in f;
    }
  }

  lemma StepKeepsValid(l: Ledger, step: Step)
    requires Valid(l) && Admissible(l, step.b)
    ensures Valid(Advance(l, step))
  {
    WithoutMembers(l.active, step.b.name);
    var w := Without(l.active, step.b.name);
    assert forall i | 0 <= i < |w| :: w[i] in w;
  }

  lemma AnnotationsOf(active: seq<Projector>)
    requires UniqueNames(active) && AllApart(active)
    ensures forall k :: k in Annotations(active) <==> exists a | a in active :: k == AnnotationKey(a.name)
    ensures forall a | a in active :: AnnotationKey(a.name) in Annotations(active)
                                   && Annotations(active)[AnnotationKey(a.name)] == a.spec.binding
  {
    JoinKeys(active, RecordOf);
    forall k ensures k in Annotations(active) <==> exists a | a in active :: k == AnnotationKey(a.name) {
      if a :| a in active && k == AnnotationKey(a.name) {
        assert k in RecordOf(a);
      }
    }
    forall a | a in active
      ensures AnnotationKey(a.name) in Annotations(active) && Annotations(active)[AnnotationKey(a.name)] == a.spec.binding
    {
      forall x | x in active && x != a ensures AnnotationKey(a.name) !in RecordOf(x) {
        assert Apart(a, x);
        ApartKeys(a, x);
      }
      JoinValue(active, RecordOf, a, AnnotationKey(a.name));
    }
  }

  // ---- Undo on a rendered pod ----

  lemma RecordedActive(l: Ledger, a: Projector)
    requires Valid(l) && a in l.active
    ensures Recorded(a, RenderPod(l).annotations) == a.spec.binding
  {
    AnnotationsOf(l.active);
  }

  lemma RecordedInactive(l: Ledger, b: Projector)
    requires Valid(l) && Admissible(l, b)
    requires forall a | a in l.active :: a.name != b.name
    ensures Recorded(b, RenderPod(l).annotations) == ""
  {
    AnnotationsOf(l.active);
    KeysInjective(b.name, b.name, TypeMeta, TypeMeta);
    forall a | a in l.active ensures AnnotationKey(a.name) != AnnotationKey(b.name) {
      assert Apart(a, b);
      ApartKeys(a, b);
    }
  }

  /** `secrets` takes out exactly what belongs to the projection called `name`. */
  ghost predicate TakesSecrets(l: Ledger, name: string, secrets: set<string>) {
    && (forall a | a in l.active :: a.spec.binding in secrets <==> a.name == name)
    && (forall v | v in l.base.volumes :: !IsFromSecret(v, secrets))
    && (forall c, e | c in AllContainers(l.base) && e in c.env :: !IsInjectedEnv(e, secrets))
  }

  ghost predicate TakesVolumes(l: Ledger, name: string, names: set<string>) {
    && (forall a | a in l.active :: VolumeName(a.spec.binding) in names <==> a.name == name)
    && (forall c, m | c in AllContainers(l.base) && m in c.volumeMounts :: m.name !in names)
  }

  lemma SecretNotInBase(l: Ledger, secret: string)
    requires Clean(l.base)
    requires secret == "" || exists a :: Fits(l.base, a) && a.spec.binding == secret
    ensures forall v | v in l.base.volumes :: FirstSecret(v) != Some(secret)
    ensures forall c, e | c in AllContainers(l.base) && e in c.env :: SecretOf(e) != Some(secret) && !HasMetaPath(e)
  {
  }

  /** `secret` is recorded for `b`: that of the active binding with this name, or none. */
  ghost predicate RecordedFor(l: Ledger, b: Projector, secret: string) {
    || (exists a | a in l.active :: a.name == b.name && secret == a.spec.binding)
    || (secret == "" && forall a | a in l.active :: a.name != b.name)
  }

  lemma RecordedIsFor(l: Ledger, b: Projector)
    requires Valid(l) && Admissible(l, b)
    ensures RecordedFor(l, b, Recorded(b, RenderPod(l).annotations))
  {
    if a :| a in l.active && a.name == b.name {
      RecordedActive(l, a);
    } else {
      RecordedInactive(l, b);
    }
  }

  /** The recorded secret and the new one belong to nobody else. */
  lemma SecretsOfOne(l: Ledger, b: Projector, secret: string)
    requires Valid(l) && Admissible(l, b) && RecordedFor(l, b, secret)
    ensures forall a | a in l.active && a.name != b.name :: a.spec.binding != secret && a.spec.binding != b.spec.binding
    ensures forall a | a in l.active && a.name == b.name :: a.spec.binding == secret
  {
  }

  lemma RemovedSecretsAre(l: Ledger, b: Projector, secret: string)
    requires Valid(l) && Admissible(l, b) && RecordedFor(l, b, secret)
    ensures TakesSecrets(l, b.name, {secret, b.spec.binding})
  {
    SecretsOfOne(l, b, secret);
    if secret != "" {
      var a :| a in l.active && a.name == b.name && secret == a.spec.binding;
      assert Fits(l.base, a);
    }
    SecretNotInBase(l, secret);
    SecretNotInBase(l, b.spec.binding);
  }

  /** On a rendered pod the secrets to remove are those of the binding itself, and nobody else's. */
  lemma RemovedSecrets(l: Ledger, b: Projector)
    requires Valid(l) && Admissible(l, b)
    ensures TakesSecrets(l, b.name, RemoveSecrets(b, RenderPod(l).annotations))
  {
    RecordedIsFor(l, b);
    RemovedSecretsAre(l, b, Recorded(b, RenderPod(l).annotations));
  }

  lemma RenderedVolumes(l: Ledger)
    ensures forall v :: v in RenderPod(l).volumes <==> v in l.base.volumes || exists a | a in l.active :: v == BindingVolume(a)
  {
    GatherMembers(l.active, VolumeOf);
    SortMembers(Gather(l.active, VolumeOf), All(), VolumeKey);
    forall v ensures v in Gather(l.active, VolumeOf) <==> exists a | a in l.active :: v == BindingVolume(a) {
      if a :| a in l.active && v == BindingVolume(a) {
        assert v in VolumeOf(a);
      }
    }
  }

  lemma BindingVolumeSecret(a: Projector)
    ensures FirstSecret(BindingVolume(a)) == Some(a.spec.binding)
    ensures BindingVolume(a).name == VolumeName(a.spec.binding)
  {
  }

  /** The volumes that come from `secrets` are those of the bindings with such a secret. */
  lemma RenderedVolumeNames(l: Ledger, secrets: set<string>)
    requires forall v | v in l.base.volumes :: !IsFromSecret(v, secrets)
    ensures VolumeNames(RenderPod(l).volumes, secrets)
         == set a | a in l.active && a.spec.binding in secrets :: VolumeName(a.spec.binding)
  {
    RenderedVolumes(l);
    var names := VolumeNames(RenderPod(l).volumes, secrets);
    var expected := set a | a in l.active && a.spec.binding in secrets :: VolumeName(a.spec.binding);
    forall n | n in names ensures n in expected {
      var v :| v in RenderPod(l).volumes && IsFromSecret(v, secrets) && v.name == n;
      var a :| a in l.active && v == BindingVolume(a);
      BindingVolumeSecret(a);
    }
    forall a | a in l.active && a.spec.binding in secrets ensures VolumeName(a.spec.binding) in names {
      BindingVolumeSecret(a);
      assert BindingVolume(a) in RenderPod(l).volumes;
    }
  }

  /** The names of the volumes to remove: those of the binding itself. */
  lemma RemovedVolumes(l: Ledger, b: Projector, secrets: set<string>)
    requires Valid(l) && TakesSecrets(l, b.name, secrets)
    ensures TakesVolumes(l, b.name, VolumeNames(RenderPod(l).volumes, secrets))
  {
    RenderedVolumeNames(l, secrets);
    var names := set a | a in l.active && a.spec.binding in secrets :: VolumeName(a.spec.binding);
    forall a | a in l.active ensures VolumeName(a.spec.binding) in names <==> a.name == b.name {
      if a' :| a' in l.active && a'.name == b.name && a.name != b.name {
        assert Apart(a, a');
        ApartKeys(a, a');
        assert forall a'' | a'' in l.active && a''.name == b.name :: a'' == a';
      }
    }
    forall c, m | c in AllContainers(l.base) && m in c.volumeMounts ensures m.name !in names {
      forall a | a in l.active ensures m.name != VolumeName(a.spec.binding) {
        assert Fits(l.base, a) && FitsContainer(c, a);
      }
    }
  }

  /** Filtering a rendered list drops one binding's entries and nothing else. */
  lemma FilterRendered<T(!new)>(base: seq<T>, active: seq<Projector>, name: string,
      f: Projector -> seq<T>, g: Projector -> seq<T>, keep: T -> bool, key: T -> string)
    requires forall x | x in base :: keep(x)
    requires forall a | a in active :: Filter(f(a), keep) == if a.name != name then g(a) else []
    ensures Filter(base + Sort(Gather(active, f), All(), key), keep)
         == base + Sort(Gather(Without(active, name), g), All(), key)
  {
    FilterConcat(base, Sort(Gather(active, f), All(), key), keep);
    FilterAll(base, keep);
    SortFilter(Gather(active, f), keep, All(), key);
    GatherFilter(active, f, g, OtherThan(name), keep);
  }

  lemma FilterOne<T(!new)>(x: T, keep: T -> bool)
    ensures Filter([x], keep) == if keep(x) then [x] else []
  {
  }

  lemma KeptEntry(a: Projector, whole: bool, e: EnvMapping, secrets: set<string>)
    ensures Filter(EntryOf(a, whole)(e), EnvKept(secrets))
         == if a.spec.binding in secrets then [] else EntryOf(a, false)(e)
  {
    MetaPathMatches(a.name, TypeMeta);
    MetaPathMatches(a.name, ProviderMeta);
    FilterOne(EnvEntry(a, e), EnvKept(secrets));
  }

  lemma KeptEnv(a: Projector, whole: bool, secrets: set<string>)
    ensures Filter(BindingEnv(a, whole), EnvKept(secrets)) == if a.spec.binding in secrets then [] else BindingEnv(a, false)
  {
    var keep := EnvKept(secrets);
    forall e ensures Filter(EntryOf(a, whole)(e), keep) == if a.spec.binding in secrets then [] else EntryOf(a, false)(e) {
      KeptEntry(a, whole, e, secrets);
    }
    if a.spec.binding in secrets {
      GatherFilterNone(a.spec.env, EntryOf(a, whole), keep);
    } else {
      GatherFilter(a.spec.env, EntryOf(a, whole), EntryOf(a, false), All(), keep);
      FilterAll(a.spec.env, All());
    }
  }

  lemma UndoRenderedEnv(l: Ledger, name: string, c: ContainerState, secrets: set<string>)
    requires TakesSecrets(l, name, secrets) && c in AllContainers(l.base)
    ensures Filter(RenderContainer(c, l).env, EnvKept(secrets))
         == RootedEnv(c, l.touched) + Sort(Gather(Without(l.active, name), EnvOf(c.name, None)), All(), EnvKey)
  {
    forall a | a in l.active
      ensures Filter(EnvOf(c.name, l.shown)(a), EnvKept(secrets)) == if a.name != name then EnvOf(c.name, None)(a) else []
    {
      KeptEnv(a, l.shown == Some(a.name), secrets);
    }
    FilterRendered(RootedEnv(c, l.touched), l.active, name, EnvOf(c.name, l.shown), EnvOf(c.name, None), EnvKept(secrets), EnvKey);
  }

  lemma UndoRenderedMounts(l: Ledger, name: string, c: ContainerState, names: set<string>)
    requires TakesVolumes(l, name, names) && c in AllContainers(l.base)
    ensures Filter(RenderContainer(c, l).volumeMounts, MountKept(names))
         == c.volumeMounts + Sort(Gather(Without(l.active, name), MountOf(c)), All(), MountKey)
  {
    forall a | a in l.active
      ensures Filter(MountOf(c)(a), MountKept(names)) == if a.name != name then MountOf(c)(a) else []
    {
      FilterOne(BindingMount(a, MountRoot(c.env)), MountKept(names));
    }
    FilterRendered(c.volumeMounts, l.active, name, MountOf(c), MountOf(c), MountKept(names), MountKey);
  }

  lemma UndoRenderedContainers(l: Ledger, name: string, cs: seq<ContainerState>, secrets: set<string>, names: set<string>)
    requires TakesSecrets(l, name, secrets) && TakesVolumes(l, name, names)
    requires forall c | c in cs :: c in AllContainers(l.base)
    ensures UndoAll(RenderAll(cs, l), secrets, names)
         == RenderAll(cs, Ledger(l.base, l.touched, Without(l.active, name), None))
  {
    forall i | 0 <= i < |cs|
      ensures UndoContainer(RenderContainer(cs[i], l), secrets, names)
           == RenderContainer(cs[i], Ledger(l.base, l.touched, Without(l.active, name), None))
    {
      UndoRenderedEnv(l, name, cs[i], secrets);
      UndoRenderedMounts(l, name, cs[i], names);
    }
  }

  lemma UndoRenderedVolumes(l: Ledger, name: string, secrets: set<string>)
    requires TakesSecrets(l, name, secrets)
    ensures Filter(RenderPod(l).volumes, VolumeKept(secrets))
         == l.base.volumes + Sort(Gather(Without(l.active, name), VolumeOf), All(), VolumeKey)
  {
    forall a | a in l.active
      ensures Filter(VolumeOf(a), VolumeKept(secrets)) == if a.name != name then VolumeOf(a) else []
    {
      BindingVolumeSecret(a);
      FilterOne(BindingVolume(a), VolumeKept(secrets));
    }
    FilterRendered(l.base.volumes, l.active, name, VolumeOf, VolumeOf, VolumeKept(secrets), VolumeKey);
  }

  lemma UndoRenderedAnnotations(active: seq<Projector>, b: Projector)
    requires forall a | a in active :: Apart(a, b)
    ensures Annotations(active) - {AnnotationKey(b.name)} == Annotations(Without(active, b.name))
    ensures TemplateAnnotations(active) - MetaKeys(b.name) == TemplateAnnotations(Without(active, b.name))
  {
    forall a | a in active
      ensures forall k | k in RecordOf(a) :: k in {AnnotationKey(b.name)} <==> a.name == b.name
      ensures forall k | k in MetaOf(a) :: k in MetaKeys(b.name) <==> a.name == b.name
    {
      if a.name != b.name {
        ApartKeys(a, b);
      }
    }
    JoinWithout(active, RecordOf, OtherThan(b.name), {AnnotationKey(b.name)});
    JoinWithout(active, MetaOf, OtherThan(b.name), MetaKeys(b.name));
  }

  lemma KeysNotInBase(base: PodState, name: string)
    requires Clean(base)
    ensures AnnotationKey(name) !in base.annotations
    ensures forall k | k in base.templateAnnotations :: k !in MetaKeys(name)
  {
  }

  lemma UndoRefinesAnnotations(l: Ledger, b: Projector)
    requires Valid(l) && Admissible(l, b)
    ensures var p, p' := RenderPod(l), RenderPod(Advance(l, UndoStep(b)));
            && p.annotations - {AnnotationKey(b.name)} == p'.annotations
            && p.templateAnnotations - MetaKeys(b.name) == p'.templateAnnotations
  {
    KeysNotInBase(l.base, b.name);
    UndoRenderedAnnotations(l.active, b);
    RemoveBeyond(l.base.annotations, Annotations(l.active), {AnnotationKey(b.name)});
    RemoveBeyond(l.base.templateAnnotations, TemplateAnnotations(l.active), MetaKeys(b.name));
  }

  lemma UndoRefines(l: Ledger, b: Projector)
    requires Valid(l) && Admissible(l, b)
    ensures UndoPod(b, RenderPod(l)) == RenderPod(Advance(l, UndoStep(b)))
  {
    var p := RenderPod(l);
    var secrets := RemoveSecrets(b, p.annotations);
    var names := VolumeNames(p.volumes, secrets);
    RemovedSecrets(l, b);
    RemovedVolumes(l, b, secrets);
    UndoRefinesAnnotations(l, b);
    UndoRenderedVolumes(l, b.name, secrets);
    UndoRenderedContainers(l, b.name, l.base.initContainers, secrets, names);
    UndoRenderedContainers(l, b.name, l.base.containers, secrets, names);
  }

  // ---- Injection into a rendered pod ----

  /** `b` is not active and no overridden env var is shown: the state between the two halves of a Do. */
  ghost predicate ReadyFor(l: Ledger, b: Projector) {
    && Valid(l) && Admissible(l, b)
    && l.shown == None
    && (forall a | a in l.active :: a.name != b.name)
  }

  function Added(l: Ledger, b: Projector): Ledger {
    Ledger(l.base, l.touched + {b}, l.active + [b], Some(b.name))
  }

  /** `secrets` and `names` mark the entries of the active bindings and of `b`, and nothing of the base. */
  ghost predicate Marks(l: Ledger, b: Projector, secrets: set<string>, names: set<string>) {
    && (forall a | a in l.active || a == b :: a.spec.binding in secrets && VolumeName(a.spec.binding) in names)
    && (forall v | v in l.base.volumes :: v.name !in names)
    && (forall c, m | c in AllContainers(l.base) && m in c.volumeMounts :: m.name !in names)
    && (forall c, e | c in AllContainers(l.base) && e in c.env :: !IsInjectedEnv(e, secrets))
  }

  lemma RenderedSecrets(l: Ledger)
    requires Valid(l)
    ensures InjectedSecrets(RenderPod(l).annotations) == ActiveSecrets(l)
  {
    AnnotationsOf(l.active);
    SecretsInAnnotations(l.base.annotations, l.active);
  }

  lemma SecretsInAnnotations(base: map<string, string>, active: seq<Projector>)
    requires forall k | k in base :: !(PROJECTION_KEY <= k)
    requires forall k :: k in Annotations(active) <==> exists a | a in active :: k == AnnotationKey(a.name)
    requires forall a | a in active :: AnnotationKey(a.name) in Annotations(active)
                                    && Annotations(active)[AnnotationKey(a.name)] == a.spec.binding
    ensures InjectedSecrets(base + Annotations(active)) == set a | a in active :: a.spec.binding
  {
    var all := base + Annotations(active);
    forall k | k in all && PROJECTION_KEY <= k ensures exists a | a in active :: all[k] == a.spec.binding {
      assert k in Annotations(active);
    }
    forall a | a in active ensures a.spec.binding in InjectedSecrets(all) {
      KeysInjective(a.name, a.name, TypeMeta, TypeMeta);
      assert AnnotationKey(a.name) in all;
    }
  }

  function ActiveSecrets(l: Ledger): set<string> {
    set a | a in l.active :: a.spec.binding
  }

  function ActiveVolumes(l: Ledger): set<string> {
    set a | a in l.active :: VolumeName(a.spec.binding)
  }

  /** The clean pod has nothing in common with the secrets and volume names of fitting bindings. */
  lemma FittingMarks(l: Ledger, b: Projector)
    requires Clean(l.base) && forall a | a in l.active || a == b :: Fits(l.base, a)
    ensures Marks(l, b, ActiveSecrets(l) + {b.spec.binding}, ActiveVolumes(l) + {VolumeName(b.spec.binding)})
  {
    var secrets, names := ActiveSecrets(l) + {b.spec.binding}, ActiveVolumes(l) + {VolumeName(b.spec.binding)};
    forall v | v in l.base.volumes ensures v.name !in names {
      assert forall a | a in l.active || a == b :: Fits(l.base, a);
    }
    forall c, a | c in AllContainers(l.base) && (a in l.active || a == b) ensures FitsContainer(c, a) {
      assert Fits(l.base, a);
    }
  }

  lemma RenderedVolumeSet(l: Ledger)
    requires Valid(l)
    ensures VolumeNames(RenderPod(l).volumes, InjectedSecrets(RenderPod(l).annotations)) == ActiveVolumes(l)
  {
    RenderedSecrets(l);
    forall v | v in l.base.volumes ensures !IsFromSecret(v, ActiveSecrets(l)) {
      assert forall a | a in l.active :: Fits(l.base, a);
    }
    RenderedVolumeNames(l, ActiveSecrets(l));
  }

  lemma RenderedMarks(l: Ledger, b: Projector)
    requires ReadyFor(l, b)
    ensures Marks(l, b, InjectedSecrets(RenderPod(l).annotations) + {b.spec.binding}, InjectedVolumes(b, RenderPod(l)))
  {
    FittingMarks(l, b);
    RenderedSecrets(l);
    RenderedVolumeSet(l);
  }

  lemma GatherAppend<T(!new)>(active: seq<Projector>, b: Projector, f: Projector -> seq<T>)
    ensures Gather(active + [b], f) == Gather(active, f) + f(b)
  {
  }

  lemma InjectRenderedVolumes(l: Ledger, b: Projector, secrets: set<string>, names: set<string>)
    requires Marks(l, b, secrets, names)
    ensures Sort(RenderPod(l).volumes + [BindingVolume(b)], VolumeIn(names), VolumeKey)
         == l.base.volumes + Sort(Gather(l.active + [b], VolumeOf), All(), VolumeKey)
  {
    var vs := Gather(l.active, VolumeOf);
    GatherMembers(l.active, VolumeOf);
    forall v | v in vs ensures v.name in names {
      var a :| a in l.active && v in VolumeOf(a);
      BindingVolumeSecret(a);
    }
    BindingVolumeSecret(b);
    GatherAppend(l.active, b, VolumeOf);
    AppendToSuffix(l.base.volumes, vs, [BindingVolume(b)], VolumeIn(names), VolumeKey);
  }

  lemma RenderedRoot(l: Ledger, b: Projector, c: ContainerState)
    requires forall a | a in l.active :: a in l.touched
    requires FitsContainer(c, b) && Targets(b, c.name)
    ensures var rest := Sort(Gather(l.active, EnvOf(c.name, l.shown)), All(), EnvKey);
            && EnsureRoot(RootedEnv(c, l.touched) + rest) == RootedEnv(c, l.touched + {b}) + rest
            && MountRoot(RootedEnv(c, l.touched) + rest) == MountRoot(c.env)
  {
    var rest := Sort(Gather(l.active, EnvOf(c.name, l.shown)), All(), EnvKey);
    var rooted := RootedEnv(c, l.touched);
    assert b in l.touched + {b};
    EnsuredRoot(c.env);
    if !HasRoot(c.env) && !Reached(l.touched, c.name) {
      forall a | a in l.active ensures EnvOf(c.name, l.shown)(a) == [] {
        assert a in l.touched;
      }
      GatherNone(l.active, EnvOf(c.name, l.shown));
      assert c.env + rest == c.env && EnsureRoot(c.env) + rest == EnsureRoot(c.env);
    } else {
      assert RootValue(rooted) != "" && MountRoot(rooted) == MountRoot(c.env);
      FilterConcat(rooted, rest, Named(ROOT_ENV, EnvKey));
      assert RootValue(rooted + rest) == RootValue(rooted);
    }
  }

  lemma InjectRenderedMounts(l: Ledger, b: Projector, c: ContainerState, secrets: set<string>, names: set<string>)
    requires Marks(l, b, secrets, names) && c in AllContainers(l.base) && Targets(b, c.name)
    ensures Sort(RenderContainer(c, l).volumeMounts + [BindingMount(b, MountRoot(c.env))], MountIn(names), MountKey)
         == c.volumeMounts + Sort(Gather(l.active + [b], MountOf(c)), All(), MountKey)
  {
    var ms := Gather(l.active, MountOf(c));
    GatherMembers(l.active, MountOf(c));
    forall m | m in ms ensures m.name in names {
      var a :| a in l.active && m in MountOf(c)(a);
    }
    GatherAppend(l.active, b, MountOf(c));
    AppendToSuffix(c.volumeMounts, ms, [BindingMount(b, MountRoot(c.env))], MountIn(names), MountKey);
  }

  /** Adding `b` to the ledger: its entries come last, the others' stay as they are. */
  lemma GatherEnvAppend(l: Ledger, b: Projector, name: string)
    requires l.shown == None && forall a | a in l.active :: a.name != b.name
    ensures Gather(l.active + [b], EnvOf(name, Some(b.name)))
         == Gather(l.active, EnvOf(name, None)) + if Targets(b, name) then BindingEnv(b, true) else []
  {
    GatherAgree(l.active, EnvOf(name, None), EnvOf(name, Some(b.name)));
    GatherAppend(l.active, b, EnvOf(name, Some(b.name)));
  }

  lemma InjectRenderedEnv(l: Ledger, b: Projector, c: ContainerState, secrets: set<string>, names: set<string>)
    requires Marks(l, b, secrets, names) && c in AllContainers(l.base) && Targets(b, c.name)
    requires l.shown == None && forall a | a in l.active :: a.name != b.name
    ensures var rooted := RootedEnv(c, l.touched + {b});
            var rest := Sort(Gather(l.active, EnvOf(c.name, None)), All(), EnvKey);
            (if b.spec.env == [] then rooted + rest
             else Sort(rooted + rest + BindingEnv(b, true), EnvIn(secrets), EnvKey))
            == rooted + Sort(Gather(l.active + [b], EnvOf(c.name, Some(b.name))), All(), EnvKey)
  {
    var rooted := RootedEnv(c, l.touched + {b});
    var es := Gather(l.active, EnvOf(c.name, None));
    GatherEnvAppend(l, b, c.name);
    if b.spec.env == [] {
      assert es + BindingEnv(b, true) == es;
    } else {
      GatherMembers(l.active, EnvOf(c.name, None));
      forall e | e in rooted ensures !IsInjectedEnv(e, secrets) {
        assert e == RootEntry || e in c.env;
      }
      forall e | e in es ensures IsInjectedEnv(e, secrets) {
        var a :| a in l.active && e in EnvOf(c.name, None)(a);
        BindingEnvInjected(a, false, secrets);
      }
      BindingEnvInjected(b, true, secrets);
      AppendToSuffix(rooted, es, BindingEnv(b, true), EnvIn(secrets), EnvKey);
    }
  }

  lemma InjectRenderedContainer(l: Ledger, b: Projector, c: ContainerState, secrets: set<string>, names: set<string>)
    requires ReadyFor(l, b) && Marks(l, b, secrets, names) && c in AllContainers(l.base)
    ensures Injected(b, RenderContainer(c, l), names, secrets) == RenderContainer(c, Added(l, b))
  {
    if Targets(b, c.name) {
      assert FitsContainer(c, b);
      RenderedRoot(l, b, c);
      InjectRenderedMounts(l, b, c, secrets, names);
      InjectRenderedEnv(l, b, c, secrets, names);
    } else {
      GatherAppend(l.active, b, MountOf(c));
      assert Gather(l.active, MountOf(c)) + [] == Gather(l.active, MountOf(c));
      GatherEnvAppend(l, b, c.name);
      assert Gather(l.active, EnvOf(c.name, None)) + [] == Gather(l.active, EnvOf(c.name, None));
      assert Reached(l.touched + {b}, c.name) == Reached(l.touched, c.name);
    }
  }

  lemma InjectRenderedContainers(
      l: Ledger, b: Projector, cs: seq<ContainerState>, secrets: set<string>, names: set<string>)
    requires ReadyFor(l, b) && Marks(l, b, secrets, names)
    requires forall c | c in cs :: c in AllContainers(l.base)
    ensures InjectAll(b, RenderAll(cs, l), names, secrets) == RenderAll(cs, Added(l, b))
  {
    forall i | 0 <= i < |cs|
      ensures InjectAll(b, RenderAll(cs, l), names, secrets)[i] == RenderAll(cs, Added(l, b))[i]
    {
      InjectRenderedContainer(l, b, cs[i], secrets, names);
    }
  }

  lemma InjectRefinesAnnotations(l: Ledger, b: Projector)
    ensures RenderPod(l).annotations[AnnotationKey(b.name) := b.spec.binding] == RenderPod(Added(l, b)).annotations
    ensures RenderPod(l).templateAnnotations + MetaAnnotations(b) == RenderPod(Added(l, b)).templateAnnotations
  {
    JoinSnoc(l.active, b, RecordOf);
    JoinSnoc(l.active, b, MetaOf);
    PutBeyond(l.base.annotations, Annotations(l.active), AnnotationKey(b.name), b.spec.binding);
    JoinAssociative(l.base.templateAnnotations, TemplateAnnotations(l.active), MetaAnnotations(b));
  }

  lemma InjectRefines(l: Ledger, b: Projector)
    requires ReadyFor(l, b)
    ensures InjectPod(b, RenderPod(l)) == RenderPod(Added(l, b))
  {
    var p := RenderPod(l);
    var secrets := InjectedSecrets(p.annotations) + {b.spec.binding};
    var names := InjectedVolumes(b, p);
    RenderedMarks(l, b);
    InjectRefinesAnnotations(l, b);
    InjectRenderedVolumes(l, b, secrets, names);
    InjectRenderedContainers(l, b, l.base.initContainers, secrets, names);
    InjectRenderedContainers(l, b, l.base.containers, secrets, names);
  }

  // ---- The sorts on rendered pods do not depend on the algorithm ----

  lemma VolumeTailMarked(l: Ledger, b: Projector, secrets: set<string>, names: set<string>)
    requires Marks(l, b, secrets, names)
    ensures forall v | v in l.base.volumes :: v.name !in names
    ensures forall v | v in Sort(Gather(l.active, VolumeOf), All(), VolumeKey) + [BindingVolume(b)] :: v.name in names
  {
    var vs := Gather(l.active, VolumeOf);
    SortMembers(vs, All(), VolumeKey);
    GatherMembers(l.active, VolumeOf);
    forall v | v in vs ensures v.name in names {
      var a :| a in l.active && v in VolumeOf(a);
      BindingVolumeSecret(a);
    }
    BindingVolumeSecret(b);
  }

  /** Between the Undo and the sort of a Do, the volumes are own ones followed by marked ones: any stable sort will do. */
  lemma VolumesSortForced(l: Ledger, b: Projector, secrets: set<string>, names: set<string>, t: seq<Volume>)
    requires Marks(l, b, secrets, names)
    ensures SuffixSorted(t, RenderPod(l).volumes + [BindingVolume(b)], VolumeIn(names), VolumeKey)
            <==> t == RenderPod(Added(l, b)).volumes
  {
    var vs := Sort(Gather(l.active, VolumeOf), All(), VolumeKey);
    VolumeTailMarked(l, b, secrets, names);
    SuffixSortForcedInParts(l.base.volumes, vs, [BindingVolume(b)], t, VolumeIn(names), VolumeKey);
    InjectRenderedVolumes(l, b, secrets, names);
  }

  lemma MountTailMarked(l: Ledger, b: Projector, c: ContainerState, secrets: set<string>, names: set<string>)
    requires Marks(l, b, secrets, names) && c in AllContainers(l.base)
    ensures forall m | m in c.volumeMounts :: m.name !in names
    ensures forall m | m in Sort(Gather(l.active, MountOf(c)), All(), MountKey) + [BindingMount(b, MountRoot(c.env))] ::
              m.name in names
  {
    var ms := Gather(l.active, MountOf(c));
    SortMembers(ms, All(), MountKey);
    GatherMembers(l.active, MountOf(c));
    forall m | m in ms ensures m.name in names {
      var a :| a in l.active && m in MountOf(c)(a);
    }
  }

  /** Likewise for the mounts of a targeted container: whatever marks the right entries, any stable sort will do. */
  lemma MountsSortForced(
      l: Ledger, b: Projector, c: ContainerState, secrets: set<string>, names: set<string>, t: seq<VolumeMount>)
    requires Marks(l, b, secrets, names) && c in AllContainers(l.base) && Targets(b, c.name)
    ensures SuffixSorted(t, RenderContainer(c, l).volumeMounts + [BindingMount(b, MountRoot(c.env))], MountIn(names), MountKey)
            <==> t == RenderContainer(c, Added(l, b)).volumeMounts
  {
    var ms := Sort(Gather(l.active, MountOf(c)), All(), MountKey);
    MountTailMarked(l, b, c, secrets, names);
    SuffixSortForcedInParts(c.volumeMounts, ms, [BindingMount(b, MountRoot(c.env))], t, MountIn(names), MountKey);
    InjectRenderedMounts(l, b, c, secrets, names);
  }

  lemma EnvTailInjected(l: Ledger, b: Projector, c: ContainerState, secrets: set<string>, names: set<string>)
    requires Marks(l, b, secrets, names) && c in AllContainers(l.base)
    ensures forall e | e in RootedEnv(c, l.touched + {b}) :: !IsInjectedEnv(e, secrets)
    ensures forall e | e in Sort(Gather(l.active, EnvOf(c.name, None)), All(), EnvKey) + BindingEnv(b, true) ::
              IsInjectedEnv(e, secrets)
  {
    var es := Gather(l.active, EnvOf(c.name, None));
    GatherMembers(l.active, EnvOf(c.name, None));
    SortMembers(es, All(), EnvKey);
    forall e | e in RootedEnv(c, l.touched + {b}) ensures !IsInjectedEnv(e, secrets) {
      assert e == RootEntry || e in c.env;
    }
    forall e | e in es ensures IsInjectedEnv(e, secrets) {
      var a :| a in l.active && e in EnvOf(c.name, None)(a);
      BindingEnvInjected(a, false, secrets);
    }
    BindingEnvInjected(b, true, secrets);
  }

  /** And for its env vars. */
  lemma EnvSortForced(
      l: Ledger, b: Projector, c: ContainerState, secrets: set<string>, names: set<string>, t: seq<EnvVar>)
    requires Marks(l, b, secrets, names) && c in AllContainers(l.base) && Targets(b, c.name) && b.spec.env != []
    requires l.shown == None && forall a | a in l.active :: a.name != b.name
    ensures var rooted := RootedEnv(c, l.touched + {b});
            var es := Sort(Gather(l.active, EnvOf(c.name, None)), All(), EnvKey);
            SuffixSorted(t, rooted + es + BindingEnv(b, true), EnvIn(secrets), EnvKey)
            <==> t == RenderContainer(c, Added(l, b)).env
  {
    var rooted := RootedEnv(c, l.touched + {b});
    var es := Sort(Gather(l.active, EnvOf(c.name, None)), All(), EnvKey);
    EnvTailInjected(l, b, c, secrets, names);
    SuffixSortForcedInParts(rooted, es, BindingEnv(b, true), t, EnvIn(secrets), EnvKey);
    InjectRenderedEnv(l, b, c, secrets, names);
  }

  // ---- Runs ----

  /** One step, from any ledger: the operation on the rendered pod renders the next ledger. */
  lemma StepRefines(l: Ledger, step: Step)
    requires Valid(l) && Admissible(l, step.b)
    ensures Perform(RenderPod(l), step) == RenderPod(Advance(l, step))
    ensures Valid(Advance(l, step))
  {
    var b := step.b;
    StepKeepsValid(l, step);
    UndoRefines(l, b);
    if step.DoStep? {
      var u := Advance(l, UndoStep(b));
      StepKeepsValid(l, UndoStep(b));
      WithoutMembers(l.active, b.name);
      InjectRefines(u, b);
    }
  }

  function Play(p: PodState, steps: seq<Step>): PodState {
    if steps == [] then p else Perform(Play(p, Front(steps)), Last(steps))
  }

  function Trace(base: PodState, steps: seq<Step>): Ledger {
    if steps == [] then Ledger(base, {}, [], None) else Advance(Trace(base, Front(steps)), Last(steps))
  }

  /** Every step is admissible where it happens. */
  ghost predicate Admitted(base: PodState, steps: seq<Step>) {
    steps == [] || (Admitted(base, Front(steps)) && Admissible(Trace(base, Front(steps)), Last(steps).b))
  }

  /** Refinement over whole runs: the pod is always the rendering of the ledger. */
  lemma {:induction false} RunRefines(base: PodState, steps: seq<Step>)
    requires Clean(base) && Admitted(base, steps)
    ensures Play(base, steps) == RenderPod(Trace(base, steps))
    ensures Valid(Trace(base, steps))
  {
    if steps == [] {
      RenderOfNothing(base);
    } else {
      RunRefines(base, Front(steps));
      StepRefines(Trace(base, Front(steps)), Last(steps));
    }
  }

  lemma RenderOfNothing(base: PodState)
    ensures RenderPod(Ledger(base, {}, [], None)) == base
  {
    var l := Ledger(base, {}, [], None);
    forall c ensures RenderContainer(c, l) == c {
      assert RootedEnv(c, {}) == c.env;
    }
  }
}
