/** The run theorem without the insertion sort: `Do` with any stable sort in its place has the same one result. */
module AnySort {
  import opened FieldPath
  import opened PartialSort
  import opened Projection
  import opened Repetition
  import opened Runs
  import opened Sequences
  import opened Types

  // ---- Injection with some stable sort ----

  /** `r` may come out of `doContainer` for `c`, whichever stable sort orders mounts and env vars. */
  ghost predicate InjectsContainer(
      b: Projector, c: ContainerState, volumes: set<string>, secrets: set<string>, r: ContainerState)
  {
    && r.name == c.name && r.rest == c.rest
    && SuffixSorted(r.volumeMounts, c.volumeMounts + [BindingMount(b, MountRoot(c.env))], MountIn(volumes), MountKey)
    && if b.spec.env == [] then r.env == EnsureRoot(c.env)
       else SuffixSorted(r.env, EnsureRoot(c.env) + BindingEnv(b, true), EnvIn(secrets), EnvKey)
  }

  ghost predicate InjectsAll(
      b: Projector, cs: seq<ContainerState>, volumes: set<string>, secrets: set<string>, rs: seq<ContainerState>)
  {
    |rs| == |cs| && forall i | 0 <= i < |cs| ::
      if Targets(b, cs[i].name) then InjectsContainer(b, cs[i], volumes, secrets, rs[i]) else rs[i] == cs[i]
  }

  /** `r` may come out of the part of `Do` after its Undo. */
  ghost predicate Injects(b: Projector, q: PodState, r: PodState) {
    var volumes, secrets := InjectedVolumes(b, q), InjectedSecrets(q.annotations) + {b.spec.binding};
    && r.annotations == q.annotations[AnnotationKey(b.name) := b.spec.binding]
    && r.templateAnnotations == q.templateAnnotations + MetaAnnotations(b)
    && SuffixSorted(r.volumes, q.volumes + [BindingVolume(b)], VolumeIn(volumes), VolumeKey)
    && InjectsAll(b, q.initContainers, volumes, secrets, r.initContainers)
    && InjectsAll(b, q.containers, volumes, secrets, r.containers)
  }

  ghost predicate StepsTo(p: PodState, step: Step, r: PodState) {
    match step
    case UndoStep(b) => r == UndoPod(b, p)
    case DoStep(b) => Injects(b, UndoPod(b, p), r)
  }

  /** Each step may sort in its own way. */
  ghost predicate PlaysTo(p: PodState, steps: seq<Step>, r: PodState) {
    if steps == [] then r == p
    else exists mid :: PlaysTo(p, Front(steps), mid) && StepsTo(mid, Last(steps), r)
  }

  // ---- Rendered pods leave no choice ----

  lemma RenderedMountsForced(
      l: Ledger, b: Projector, c: ContainerState, secrets: set<string>, names: set<string>, t: seq<VolumeMount>)
    requires ReadyFor(l, b) && Marks(l, b, secrets, names) && c in AllContainers(l.base) && Targets(b, c.name)
    ensures var r := RenderContainer(c, l);
            SuffixSorted(t, r.volumeMounts + [BindingMount(b, MountRoot(r.env))], MountIn(names), MountKey)
            <==> t == RenderContainer(c, Added(l, b)).volumeMounts
  {
    assert FitsContainer(c, b);
    RenderedRoot(l, b, c);
    MountsSortForced(l, b, c, secrets, names, t);
  }

  lemma RenderedEnvForced(
      l: Ledger, b: Projector, c: ContainerState, secrets: set<string>, names: set<string>, t: seq<EnvVar>)
    requires ReadyFor(l, b) && Marks(l, b, secrets, names) && c in AllContainers(l.base) && Targets(b, c.name)
    ensures var r := RenderContainer(c, l);
            (if b.spec.env == [] then t == EnsureRoot(r.env)
             else SuffixSorted(t, EnsureRoot(r.env) + BindingEnv(b, true), EnvIn(secrets), EnvKey))
            <==> t == RenderContainer(c, Added(l, b)).env
  {
    assert FitsContainer(c, b);
    RenderedRoot(l, b, c);
    if b.spec.env == [] {
      InjectRenderedEnv(l, b, c, secrets, names);
    } else {
      EnvSortForced(l, b, c, secrets, names, t);
    }
  }

  lemma RenderedContainerForced(
      l: Ledger, b: Projector, c: ContainerState, secrets: set<string>, names: set<string>, t: ContainerState)
    requires ReadyFor(l, b) && Marks(l, b, secrets, names) && c in AllContainers(l.base)
    ensures (if Targets(b, c.name) then InjectsContainer(b, RenderContainer(c, l), names, secrets, t)
             else t == RenderContainer(c, l))
            <==> t == RenderContainer(c, Added(l, b))
  {
    if Targets(b, c.name) {
      RenderedMountsForced(l, b, c, secrets, names, t.volumeMounts);
      RenderedEnvForced(l, b, c, secrets, names, t.env);
    } else {
      InjectRenderedContainer(l, b, c, secrets, names);
    }
  }

  lemma RenderedContainersForced(
      l: Ledger, b: Projector, cs: seq<ContainerState>, secrets: set<string>, names: set<string>, ts: seq<ContainerState>)
    requires ReadyFor(l, b) && Marks(l, b, secrets, names)
    requires forall c | c in cs :: c in AllContainers(l.base)
    ensures InjectsAll(b, RenderAll(cs, l), names, secrets, ts) <==> ts == RenderAll(cs, Added(l, b))
  {
    if |ts| == |cs| {
      forall i | 0 <= i < |cs|
        ensures (if Targets(b, cs[i].name) then InjectsContainer(b, RenderAll(cs, l)[i], names, secrets, ts[i])
                 else ts[i] == RenderAll(cs, l)[i])
                <==> ts[i] == RenderAll(cs, Added(l, b))[i]
      {
        RenderedContainerForced(l, b, cs[i], secrets, names, ts[i]);
      }
    }
  }

  /** Whatever stable sorts are used, an injection into a rendered pod gives the next rendering and nothing else. */
  lemma InjectionForced(l: Ledger, b: Projector, r: PodState)
    requires ReadyFor(l, b)
    ensures Injects(b, RenderPod(l), r) <==> r == RenderPod(Added(l, b))
  {
    var p := RenderPod(l);
    var secrets, names := InjectedSecrets(p.annotations) + {b.spec.binding}, InjectedVolumes(b, p);
    RenderedMarks(l, b);
    InjectRefinesAnnotations(l, b);
    VolumesSortForced(l, b, secrets, names, r.volumes);
    RenderedContainersForced(l, b, l.base.initContainers, secrets, names, r.initContainers);
    RenderedContainersForced(l, b, l.base.containers, secrets, names, r.containers);
  }

  lemma StepForced(l: Ledger, step: Step, r: PodState)
    requires Valid(l) && Admissible(l, step.b)
    ensures StepsTo(RenderPod(l), step, r) <==> r == RenderPod(Advance(l, step))
  {
    var b := step.b;
    UndoRefines(l, b);
    if step.DoStep? {
      var u := Advance(l, UndoStep(b));
      StepKeepsValid(l, UndoStep(b));
      WithoutMembers(l.active, b.name);
      InjectionForced(u, b, r);
    }
  }

  /** Over whole runs the pod is the rendering of the ledger, for every choice of a stable sort at every step. */
  lemma {:induction false} RunForced(base: PodState, steps: seq<Step>, r: PodState)
    requires Clean(base) && Admitted(base, steps)
    ensures PlaysTo(base, steps, r) <==> r == RenderPod(Trace(base, steps))
  {
    if steps == [] {
      RenderOfNothing(base);
    } else {
      var before := RenderPod(Trace(base, Front(steps)));
      RunRefines(base, Front(steps));
      StepForced(Trace(base, Front(steps)), Last(steps), r);
      forall mid ensures PlaysTo(base, Front(steps), mid) <==> mid == before {
        RunForced(base, Front(steps), mid);
      }
    }
  }
}
