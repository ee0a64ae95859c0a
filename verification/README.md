# Service Bindings: a verified model

A Dafny 4.11 model of the two cores of Service Bindings for Kubernetes, with proofs.

**Workload projection.** A `ServiceBindingProjection` injects a volume, mounts, environment variables and
annotations into a pod that many bindings share, and later has to find and remove exactly its own entries. All it
goes by is one annotation, secret names, hashed names and a field-path regular expression.

- `Text`, `Sequences`: string order, filtering, gathering and joining.
- `PartialSort`: the in-place insertion sort with the "only sort injected" comparator, fully characterised.
- `FieldPath`: annotation keys, volume names, field paths and the regular expression that recognises them.
- `Projection`: what `Do` and `Undo` make of a pod, as functions on values. `Lifecycle`: the same operations as
  loops, appends and sorts over mutable pods and containers, each proved to compute its function.
- `Contents`: what `Undo` leaves of any pod and what `Do` adds to it, said in the pod's own fields and literal texts.
- `Repetition`, `Isolation`: theorems about arbitrary pods. A pod may hold anything, including leftovers.
- `Runs`: over any run of `Do` and `Undo` by any bindings, the pod equals `RenderPod` of a ledger that only
  remembers which bindings are active. `Confluence`: what follows from that. `AnySort`: the same run theorem when
  each step may sort with any stable sort.

**ServiceBinding status and reconciler.**

- `Conditions`: the three conditions, marks, aggregation and transition times, on the object and over runs.
- `Reconciler`: the desired projection, the create and update paths against an object store behind a cache, and
  systems in which reconciles, cache syncs, foreign writes and edits interleave.
- `Outcomes`: what a reconcile leaves in the status and in the stored projection, field by field and over runs.
- `Stability`: once a binding has converged it stays so, with no further write, under anything that does not concern
  it, under any failures, and while others write the status of its projection.
- `Validation`: defaulting and validation of both resources, with the duplicate-name scan.

`dafny verify dfyconfig.toml` checks everything.

## What turned out to hold, and when

Properties that the code meets only under a condition are stated as equivalences; each condition can be checked
before the call.

- `Do` is idempotent on a pod exactly when, after the Undo it starts with, no mount has the new volume's name and
  the first `SERVICE_BINDING_ROOT` of each targeted container, if any, has a value (`Repetition.DoIdempotent`;
  `Repetition.EmptyRootIsNotIdempotent` has a concrete pod). The second `Do` takes leftover mounts away, so from then
  on only the roots matter (`Repetition.DoTwiceSettles`). Where the first root is there and empty, every further `Do`
  adds another entry (`Repetition.RootsGrow`).
- The result of doing a set of bindings depends on order and repeats for two reasons, and for no other
  (`Confluence.DoAnyOrder`). `Do` and `Undo` remove the environment variables that carry an overridden type or
  provider of *every* binding, so it matters whether the same binding comes last, unless neither last one maps an
  overridden value into the pod (`Confluence.OrderCanMatter` is a concrete case). And the sort by name is stable, so
  bindings that show the same variable name in a container stand there in the order of their last `Do`s
  (`Confluence.SharedNameCanMatter` is a concrete case). Volumes, mounts and annotations are unaffected. The same
  holds for any two runs of `Do` and `Undo` that end with the same bindings active; there a root that some undone
  binding left may differ too (`Confluence.RunsConfluent`).
- A `Do` or `Undo` keeps the volumes and secret-backed variables of another secret exactly when the pod holds none of
  them or the binding neither records nor asks for that secret, and likewise for mounts (`Isolation.UndoIsolated`,
  `Isolation.DoIsolated`). So bindings that share a secret erase each other: of that secret a `Do` leaves its own
  volume and variables and no others (`Isolation.DoTakesOver`; `Isolation.SharedSecretCanErase` is a concrete case).
  A binding without a record looks for the secret "" and takes a volume whose secret has no name
  (`Isolation.UnnamedSecretErased`).
- A projection may report any text as the status of its Ready condition. `Ready` is True for exactly the right
  reasons after a report if and only if the text is a known status, or Ready was not True, or the service was not
  available (`Conditions.UnknownStatusSticks`; `Conditions.ReadyCanOutliveProjection` is a concrete case). Over any
  run of reconciles Ready is the last known status reported (`Conditions.ReadyIsLastKnownReport`).
- The duplicate scan indexes its slice of paths by the position in the spec. It gets through exactly when the
  entries that share a name are the leading ones; every other duplicate panics (`Validation.ScanPanicsExactly`,
  `Validation.DuplicateCases`).

The theorems about runs ask of every step (`Runs.Admissible`) that different projections in force have different
name digests, secrets and volume names, that secrets have a name, and that the clean pod does not itself use the
secret or volume name nor an empty root in a targeted container. A clean pod carries no annotation with the
projection prefix, no field path of the injected form and no empty secret name. The conditions on secrets keep out
the cases of the isolation theorems above, the one on roots the growth of `Repetition.RootsGrow`.

## Model

| member | source | states |
|---|---|---|
| PartialSort.InsertionSort | pkg/apis/labsinternal/v1alpha1/servicebindingprojection_lifecycle.go:119-127 | the adjacent-swap sort in place computes `Sort`, which the lemmas below determine completely |
| PartialSort.SiftDown | pkg/apis/labsinternal/v1alpha1/servicebindingprojection_lifecycle.go:119-127 | the inner loop moves one element to its place and touches nothing behind it |
| PartialSort.SortKeeps | pkg/apis/labsinternal/v1alpha1/servicebindingprojection_lifecycle.go:119-127 | the sort permutes, and every element that is not injected keeps its index |
| PartialSort.SortStable | pkg/apis/labsinternal/v1alpha1/servicebindingprojection_lifecycle.go:119-127 | elements that the comparator would not swap are never reordered among themselves |
| PartialSort.SortRun | pkg/apis/labsinternal/v1alpha1/servicebindingprojection_lifecycle.go:119-127 | every maximal run of injected elements is stably sorted by name, in place, ascending: a name comes before those it is a prefix of and those that have a greater character at the first difference |
| Text.LessMeans | pkg/apis/labsinternal/v1alpha1/servicebindingprojection_lifecycle.go:119-127 | a string is less than another exactly when it is a proper prefix or smaller at the first difference |
| PartialSort.StablySortedUnique | pkg/apis/labsinternal/v1alpha1/servicebindingprojection_lifecycle.go:119-127 | a stable sort by name has only one possible result |
| PartialSort.SortPrefixFirst | pkg/apis/labsinternal/v1alpha1/servicebindingprojection_lifecycle.go:119-127 | sorting a prefix early makes no difference; in particular sorting is idempotent |
| PartialSort.SortForget | pkg/apis/labsinternal/v1alpha1/servicebindingprojection_lifecycle.go:119-127 | removing the appended elements after the sort leaves the sort of the others |
| PartialSort.SuffixSortForced | pkg/apis/labsinternal/v1alpha1/servicebindingprojection_lifecycle.go:119-127 | when injected elements form a suffix, a sequence is what any stable sort returns exactly when it is what the insertion sort returns, at any length |
| PartialSort.ComparatorsAgree | pkg/apis/labsinternal/v1alpha1/servicebindingprojection_lifecycle.go:122-126 | on that layout the partial comparator agrees with a total preorder on every later-before-earlier question |
| PartialSort.GatherAnyOrder | pkg/apis/labsinternal/v1alpha1/servicebindingprojection_lifecycle.go:119-127 | the sorted entries of distinct sources do not depend on the order of the sources, if no two share a name |
| PartialSort.SortTellsOrder | pkg/apis/labsinternal/v1alpha1/servicebindingprojection_lifecycle.go:119-127 | when every entry names its source, the sorted entries of two lists of sources are equal exactly when, for each name, the sources that have it come in the same order |
| FieldPath.MatchesExactlyPrinted | pkg/apis/labsinternal/v1alpha1/servicebindingprojection_lifecycle.go:318-328 | the regular expression accepts exactly prefix, non-empty hex, and one of two endings |
| FieldPath.PrintedUnique | pkg/apis/labsinternal/v1alpha1/servicebindingprojection_lifecycle.go:318-318 | digest and ending are recovered uniquely from an accepted path |
| FieldPath.MetaPathMatches | pkg/apis/labsinternal/v1alpha1/servicebindingprojection_lifecycle.go:182-205 | every field path that `Do` prints is recognised, for any name |
| FieldPath.MetaPathUnique | pkg/apis/labsinternal/v1alpha1/servicebindingprojection_lifecycle.go:182-205 | equal field paths come from equal name digests and the same annotation |
| FieldPath.KeysInjective | pkg/apis/labsinternal/v1alpha1/servicebindingprojection_lifecycle.go:296-298 | keys and volume names coincide exactly when the digests do, and all keys carry the projection prefix |
| Lifecycle.IsTargetContainer | pkg/apis/labsinternal/v1alpha1/servicebindingprojection_lifecycle.go:230-241 | a container is a target exactly when the list is empty or some listed name equals its name |
| Lifecycle.InjectedValues | pkg/apis/labsinternal/v1alpha1/servicebindingprojection_lifecycle.go:300-316 | the loops collect all recorded secrets and the names of the volumes that project one first |
| Lifecycle.PredefinedRoot | pkg/apis/labsinternal/v1alpha1/servicebindingprojection_lifecycle.go:147-154 | the loop with break finds the value of the first root entry |
| Lifecycle.SplitVolumes | pkg/apis/labsinternal/v1alpha1/servicebindingprojection_lifecycle.go:258-268 | the volume loop keeps the others in order and names the removed ones |
| Lifecycle.UndoContainer | pkg/apis/labsinternal/v1alpha1/servicebindingprojection_lifecycle.go:278-294 | both filters in place, in order, nothing else changed |
| Lifecycle.Undo | pkg/apis/labsinternal/v1alpha1/servicebindingprojection_lifecycle.go:243-276 | the whole new state of the pod and of every container is `UndoPod` of the old one |
| Lifecycle.DoContainer | pkg/apis/labsinternal/v1alpha1/servicebindingprojection_lifecycle.go:145-228 | the whole new state of the container, root, mount, env and both sorts |
| Lifecycle.ProjectedVolume | pkg/apis/labsinternal/v1alpha1/servicebindingprojection_lifecycle.go:64-115 | the volume with its optional downward-API sources, and the template annotations they read |
| Lifecycle.Do | pkg/apis/labsinternal/v1alpha1/servicebindingprojection_lifecycle.go:55-143 | the whole new state of the pod and of every container is `DoPod` of the old one |
| Contents.UndoLeaves | pkg/apis/labsinternal/v1alpha1/servicebindingprojection_lifecycle.go:243-328 | on any pod an Undo removes the three annotations of the binding, the volumes whose first source is a secret that it asks for or recorded, their mounts, the env vars that read such a secret and those with an injected field path; all else remains in order |
| Contents.DoFills | pkg/apis/labsinternal/v1alpha1/servicebindingprojection_lifecycle.go:55-143 | on any pod a Do then records the secret, sets the overridden annotations, adds one projected volume with its files, fills exactly the listed containers and leaves the others as they were |
| Contents.ContainerFilled | pkg/apis/labsinternal/v1alpha1/servicebindingprojection_lifecycle.go:145-228 | a filled container gets one read-only mount under its first non-empty root or under /bindings, a root entry if it had none, one env var per mapping that reads the mapped key of the secret or the overriding annotation, and nothing else |
| Projection.UndoClears | pkg/apis/labsinternal/v1alpha1/servicebindingprojection_lifecycle.go:243-294 | on any pod, after an Undo no volume and no env var of the recorded or the current secret is left, no mount of a removed volume, and no annotation of the binding |
| Projection.BindingEnvInjected | pkg/apis/labsinternal/v1alpha1/servicebindingprojection_lifecycle.go:180-217 | every env var that is added is recognised later, by secret or by field path |
| Repetition.UndoReversesDo | pkg/apis/labsinternal/v1alpha1/servicebindingprojection_lifecycle.go:55-294 | on any pod, Undo after Do is Undo alone, up to sorted runs of other bindings, one root per targeted container without a usable one, and mounts that had the new volume's name |
| Repetition.DoIdempotent | pkg/apis/labsinternal/v1alpha1/servicebindingprojection_lifecycle.go:55-228 | on any pod, a second Do changes nothing exactly when no kept mount has the new volume's name and every targeted container's first root, if any, has a value |
| Repetition.DoTwiceSettles | pkg/apis/labsinternal/v1alpha1/servicebindingprojection_lifecycle.go:55-228 | on any pod, a third Do changes nothing after two exactly when the roots are usable |
| Repetition.RootsGrow | pkg/apis/labsinternal/v1alpha1/servicebindingprojection_lifecycle.go:147-162 | where the first root of a targeted container is empty, n Dos leave n env vars more than an Undo alone, besides the binding's own |
| Repetition.EmptyRootIsNotIdempotent | pkg/apis/labsinternal/v1alpha1/servicebindingprojection_lifecycle.go:147-162 | a concrete pod with an empty root on which Do is not idempotent |
| Repetition.SortKeepsRoot | pkg/apis/labsinternal/v1alpha1/servicebindingprojection_lifecycle.go:147-162 | sorting env vars never changes which root value is found first |
| Isolation.UndoIsolated | pkg/apis/labsinternal/v1alpha1/servicebindingprojection_lifecycle.go:251-293 | an Undo keeps all volumes and secret-backed env vars of a secret, all mounts of a volume, and the containers' number, order and other fields, exactly when the pod holds none of them or they are not what the binding records, asks for or mounts; other annotations always |
| Isolation.DoIsolated | pkg/apis/labsinternal/v1alpha1/servicebindingprojection_lifecycle.go:55-143 | the same equivalence for a Do, about any secret and volume but its own |
| Isolation.DoTakesOver | pkg/apis/labsinternal/v1alpha1/servicebindingprojection_lifecycle.go:55-143 | of its own secret a Do leaves one volume, its own, and only env vars that it maps itself, in targeted containers; mounts of an earlier volume of that name are replaced too |
| Isolation.SharedSecretErases | pkg/apis/labsinternal/v1alpha1/servicebindingprojection_lifecycle.go:243-294 | on any pod, of another binding with the same secret only entries that both ask for come through a Do |
| Isolation.SharedSecretCanErase | pkg/apis/labsinternal/v1alpha1/servicebindingprojection_lifecycle.go:243-294 | two concrete bindings with one secret, the second Do removes the first one's env var |
| Isolation.UnnamedSecretErased | pkg/apis/labsinternal/v1alpha1/servicebindingprojection_lifecycle.go:245-268 | an Undo without a recorded secret removes a volume whose secret has no name |
| Isolation.OverriddenEnvNotIsolated | pkg/apis/labsinternal/v1alpha1/servicebindingprojection_lifecycle.go:320-328 | of another binding's env vars exactly those without an override survive; all survive exactly when there is none |
| Isolation.MountsStayDeclared | pkg/apis/labsinternal/v1alpha1/servicebindingprojection_lifecycle.go:258-285 | both operations preserve that every mount names a declared volume |
| Isolation.MetaPathsAfter | pkg/apis/labsinternal/v1alpha1/servicebindingprojection_lifecycle.go:320-328 | after Undo no env var has the injected field-path form, after Do only the binding's own do |
| Isolation.PathsResolveAfter | pkg/apis/labsinternal/v1alpha1/servicebindingprojection_lifecycle.go:80-115 | after either, every env var of that form names a template annotation that is present, on any pod |
| Runs.UndoRefines | pkg/apis/labsinternal/v1alpha1/servicebindingprojection_lifecycle.go:243-294 | Undo of a rendered pod renders the ledger without that binding |
| Runs.InjectRefines | pkg/apis/labsinternal/v1alpha1/servicebindingprojection_lifecycle.go:59-142 | injection into a rendered pod renders the ledger with that binding added |
| Runs.StepRefines | pkg/apis/labsinternal/v1alpha1/servicebindingprojection_lifecycle.go:55-294 | every admissible step from a valid ledger renders the next ledger and keeps it valid |
| Runs.RunRefines | pkg/apis/labsinternal/v1alpha1/servicebindingprojection_lifecycle.go:55-294 | over whole runs the pod is base entries, one root per reached container that lacked it, and the active bindings' entries sorted by name, with their annotations |
| Runs.AnnotationsOf | pkg/apis/labsinternal/v1alpha1/servicebindingprojection_lifecycle.go:128-129 | the recorded annotations are exactly one per active binding, holding its secret |
| Runs.RenderedMarks | pkg/apis/labsinternal/v1alpha1/servicebindingprojection_lifecycle.go:300-316 | on rendered pods the injected values mark all entries of active bindings and nothing of the base |
| Runs.VolumesSortForced | pkg/apis/labsinternal/v1alpha1/servicebindingprojection_lifecycle.go:116-127 | on rendered pods any stable sort of the volumes gives the next rendering |
| Runs.MountsSortForced | pkg/apis/labsinternal/v1alpha1/servicebindingprojection_lifecycle.go:165-178 | likewise for the mounts of a targeted container |
| Runs.EnvSortForced | pkg/apis/labsinternal/v1alpha1/servicebindingprojection_lifecycle.go:218-226 | likewise for its env vars |
| AnySort.InjectionForced | pkg/apis/labsinternal/v1alpha1/servicebindingprojection_lifecycle.go:116-227 | an injection into a rendered pod, with any stable sorts, has the next rendering as its only result |
| AnySort.RunForced | pkg/apis/labsinternal/v1alpha1/servicebindingprojection_lifecycle.go:55-294 | over whole runs, with any stable sort at every step, a pod is a possible result exactly when it is the rendering of the ledger |
| Confluence.ActiveExactly | pkg/apis/labsinternal/v1alpha1/servicebindingprojection_lifecycle.go:128-129 | a binding is active exactly when the last step about its name was a Do of it |
| Confluence.ReachedExactly | pkg/apis/labsinternal/v1alpha1/servicebindingprojection_lifecycle.go:131-142 | a container got its root exactly when some Do so far targeted it |
| Confluence.EntriesAscend | pkg/apis/labsinternal/v1alpha1/servicebindingprojection_lifecycle.go:116-226 | after any run volumes, mounts and env vars are the own ones as they were, a root if one was needed, and then the entries of bindings in ascending order of names |
| Confluence.UrlsAscend | pkg/apis/labsinternal/v1alpha1/servicebindingprojection_lifecycle.go:218-226 | two concrete bindings, in either order, give the env list SERVICE_BINDING_ROOT, A_URL, B_URL |
| Confluence.RotationLeavesNothing | pkg/apis/labsinternal/v1alpha1/servicebindingprojection_lifecycle.go:128-129 | a Do with any other spec under the same name replaces that one binding; nothing of the earlier secret is left in any container exactly when the two secrets' digests differ |
| Confluence.RetargetingLeavesNothing | pkg/apis/labsinternal/v1alpha1/servicebindingprojection_lifecycle.go:131-142 | whatever the secrets, a container that the new spec does not target holds no mount and no env var of the binding, old or new |
| Confluence.InjectedSourcesResolve | pkg/apis/labsinternal/v1alpha1/servicebindingprojection_lifecycle.go:80-115 | on reachable pods every downward-API file of an injected volume reads an annotation that is present |
| Confluence.TemplateValue | pkg/apis/labsinternal/v1alpha1/servicebindingprojection_lifecycle.go:80-115 | that annotation carries the active binding's own overridden value |
| Confluence.SameActiveSamePod | pkg/apis/labsinternal/v1alpha1/servicebindingprojection_lifecycle.go:55-294 | two ledgers with the same active bindings render one pod exactly when they root the same containers, show the same overridden values, and agree on the order of bindings that show the same env name |
| Confluence.RunsConfluent | pkg/apis/labsinternal/v1alpha1/servicebindingprojection_lifecycle.go:55-294 | any two runs that end with the same active bindings, whatever happened before, give one pod exactly under those three conditions |
| Confluence.DoAnyOrder | pkg/apis/labsinternal/v1alpha1/servicebindingprojection_lifecycle.go:116-142 | doing a set in any order with repeats gives one pod exactly when the last binding is the same or none of the last overrides, and bindings that show one env name in a container were last done in the same order |
| Confluence.EnvApartSameOrder | pkg/apis/labsinternal/v1alpha1/servicebindingprojection_lifecycle.go:179-227 | the second condition holds by itself when no two bindings that meet in a container map one env name |
| Confluence.OrderCanMatter | pkg/apis/labsinternal/v1alpha1/servicebindingprojection_lifecycle.go:320-328 | two concrete bindings whose order changes the pod |
| Confluence.SharedNameCanMatter | pkg/apis/labsinternal/v1alpha1/servicebindingprojection_lifecycle.go:218-227 | two concrete bindings that map one env name, whose order changes the pod |
| Conditions.ServiceBindingStatus.InitializeConditions | pkg/apis/servicebinding/v1alpha3/servicebinding_lifecycle.go:25-40 | the loop keeps the last entry of each type and replaces the list by the three, in order |
| Conditions.ServiceBindingStatus.MarkServiceAvailable | pkg/apis/servicebinding/v1alpha3/servicebinding_lifecycle.go:42-51 | the whole new list of conditions, step by step assignments included |
| Conditions.ServiceBindingStatus.MarkServiceUnavailable | pkg/apis/servicebinding/v1alpha3/servicebinding_lifecycle.go:53-62 | the same for an unavailable service |
| Conditions.ServiceBindingStatus.PropagateServiceBindingProjectionStatus | pkg/apis/servicebinding/v1alpha3/servicebinding_lifecycle.go:64-92 | the same for a projection's report, with the defaults for missing parts |
| Conditions.ServiceBindingStatus.AggregateReadyCondition | pkg/apis/servicebinding/v1alpha3/servicebinding_lifecycle.go:94-122 | the same for aggregation, where the time moves only with the status |
| Conditions.MarksKeepAggregate | pkg/apis/servicebinding/v1alpha3/servicebinding_lifecycle.go:25-122 | from nothing and after any marks with known statuses, Ready is the three-valued conjunction of the other two |
| Conditions.UnknownStatusSticks | pkg/apis/servicebinding/v1alpha3/servicebinding_lifecycle.go:73-116 | on any status with a known availability, exactly when Ready stays truthful after a report of arbitrary text |
| Conditions.ReadyCanOutliveProjection | pkg/apis/servicebinding/v1alpha3/servicebinding_lifecycle.go:94-116 | a concrete report after which Ready is True and the projection is not |
| Conditions.ReadyIsLastKnownReport | pkg/apis/servicebinding/v1alpha3/servicebinding_lifecycle.go:42-122 | over any run, whatever is reported, Ready is the last known status reported by a reconcile with a secret and a projection, Unknown before the first |
| Conditions.FirstAggregationIsQuiet | pkg/apis/servicebinding/v1alpha3/servicebinding_lifecycle.go:42-51 | within one reconcile the first aggregation never changes Ready, so it changes at most once |
| Conditions.RunsAreSound | pkg/reconciler/servicebinding/servicebinding.go:52-87 | over any run the conditions are the three in order, availability is True or all are Unknown, Ready follows the projection, no reason is empty |
| Conditions.RunsAggregate | pkg/reconciler/servicebinding/servicebinding.go:52-87 | over any run with known reports Ready is the conjunction |
| Conditions.AvailabilityLasts | pkg/reconciler/servicebinding/servicebinding.go:64-74 | once True, ServiceAvailable stays True in every continuation |
| Conditions.TransitionTimesExact | pkg/apis/servicebinding/v1alpha3/servicebinding_lifecycle.go:42-122 | each transition time is the clock of the last reconcile that created the condition or left another status |
| Outcomes.LatestIs | pkg/apis/servicebinding/v1alpha3/servicebinding_lifecycle.go:25-40 | initialisation takes the last condition of a type, or a new one that is Unknown |
| Outcomes.ReadyCarries | pkg/apis/servicebinding/v1alpha3/servicebinding_lifecycle.go:94-122 | on any conditions Ready takes status, reason and message of the worst of the other two, the service first, with its type before the reason; "Ready" if both are True; and stays otherwise |
| Outcomes.UnavailableSays | pkg/apis/servicebinding/v1alpha3/servicebinding_lifecycle.go:53-62 | marking the service unavailable puts reason and message there and into Ready, and leaves the rest |
| Outcomes.RunsSay | pkg/reconciler/servicebinding/servicebinding.go:52-87 | after any run: the generation of the last reconcile without error, the secret of the last resolution, and in each condition type, status, reason and message that the last find, the last report and the last known report account for |
| Reconciler.MakeServiceBindingProjection | pkg/reconciler/servicebinding/resources/servicebindingprojection.go:19-48 | the literal and the annotation loop together give the desired object, whose six spec fields are the binding's |
| Reconciler.Controller.ReconcileServiceBindingProjection | pkg/reconciler/servicebinding/servicebinding.go:135-156 | no write if spec, labels and annotations agree, otherwise an update of just those |
| Reconciler.Controller.EnsureProjection | pkg/reconciler/servicebinding/servicebinding.go:95-127 | lookup, create, refusal, update and every error path |
| Reconciler.Controller.ReconcileKind | pkg/reconciler/servicebinding/servicebinding.go:52-87 | new store, calls and binding, also when an error is returned, and when one is; the generation is observed exactly on success, and the recorded secret is the resolved one, unchanged when resolution fails |
| Outcomes.ReconcileObserves | pkg/reconciler/servicebinding/servicebinding.go:52-87 | one reconcile on any status: generation on success only, secret as resolved, nothing at all once deletion has begun |
| Outcomes.ReconcileSays | pkg/reconciler/servicebinding/servicebinding.go:64-82 | one reconcile that found a secret: the service is available, and type, status, reason and message of the other two are the projection's words, as far as it was got hold of and its text is known |
| Outcomes.ReconcileTimes | pkg/reconciler/servicebinding/servicebinding.go:60-82 | one reconcile on any sound status: its own clock where the status is new, the old time otherwise |
| Outcomes.GoesThroughIsSuccess | pkg/reconciler/servicebinding/servicebinding.go:52-87 | the events whose generation is observed are exactly the reconciles that return no error |
| Outcomes.ReconcileStores | pkg/reconciler/servicebinding/servicebinding.go:95-156 | with any cache and store, a successful reconcile leaves a projection with the binding's six spec fields, its labels and own label, exactly the annotations that mention the group; created with one controlling owner, or with all else as in the cache |
| Outcomes.ControllerIs | pkg/reconciler/servicebinding/servicebinding.go:113-114 | an object is controlled by a uid exactly when the first owner marked as controller has it |
| Reconciler.Converges | pkg/reconciler/servicebinding/servicebinding.go:95-156 | success exactly when the projection is own or absent, then the desired object is stored, all else of it kept, other keys untouched |
| Reconciler.Quiescent | pkg/reconciler/servicebinding/servicebinding.go:52-87 | a second reconcile at any clock issues no call and leaves the identical status |
| Reconciler.EnsureTwice | pkg/reconciler/servicebinding/servicebinding.go:129-150 | a repeated lookup returns the object just stored and writes nothing |
| Reconciler.EnsureWrites | pkg/reconciler/servicebinding/servicebinding.go:95-156 | with any cache, a write puts an own object over nothing or over an own one |
| Reconciler.OwnershipOverRuns | pkg/reconciler/servicebinding/servicebinding.go:113-114 | over any interleaving a reconcile never writes a projection that its binding does not control, and never another key |
| Reconciler.StatusesAreObserved | pkg/reconciler/servicebinding/servicebinding.go:52-87 | the status of a binding in a system is what its own reconciles, as events with their clocks and reports, lead to |
| Outcomes.SystemsSay | pkg/reconciler/servicebinding/servicebinding.go:52-87 | in a system every status says this about the binding's own reconciles |
| Reconciler.TransitionTimesInSystems | pkg/reconciler/servicebinding/servicebinding.go:52-87 | in a system each transition time is the clock of the own reconcile that last changed the condition |
| Reconciler.ReadyInSystems | pkg/reconciler/servicebinding/servicebinding.go:52-87 | in a system Ready is the last known status that the own reconciles saw |
| Stability.BecomesSteady | pkg/reconciler/servicebinding/servicebinding.go:52-156 | from any consistent system a current cache and one reconcile without failures make the binding steady, unless someone else controls its projection |
| Stability.StaysSteady | pkg/reconciler/servicebinding/servicebinding.go:52-156 | a steady binding keeps its projection and status and gets no further create or update over any interleaving of other reconciles, syncs, foreign writes, edits elsewhere, and own reconciles with any clock and failures |
| Stability.StaysAligned | pkg/reconciler/servicebinding/servicebinding.go:95-156 | while others write the status and other metadata of the projection, with a cache that lags behind, and for a secret that fails or disappears, no create or update is ever issued for it as long as spec, labels, annotations and owners stay |
| Stability.SettledThroughErrors | pkg/reconciler/servicebinding/servicebinding.go:64-82 | a failed resolution, lookup or write leaves a settled status exactly as it is |
| Stability.OwnReconcileIsIdle | pkg/reconciler/servicebinding/servicebinding.go:52-87 | a steady binding's own reconcile changes nothing in the whole system |
| Validation.GroupByName | pkg/apis/labsinternal/v1alpha1/servicebindingprojection_types.go:122-131 | each name is mapped to exactly its increasing list of positions |
| Validation.PositionsAre | pkg/apis/labsinternal/v1alpha1/servicebindingprojection_types.go:122-131 | the list of a name is increasing and holds exactly the positions of that name |
| Validation.ConflictPaths | pkg/apis/labsinternal/v1alpha1/servicebindingprojection_types.go:134-141 | the inner loop panics exactly when a position is not below the group's size, otherwise fills every slot |
| Validation.ScanPanicsExactly | pkg/apis/labsinternal/v1alpha1/servicebindingprojection_types.go:133-143 | no panic exactly when the entries that share a name are the leading ones |
| Validation.ValidateEnv | pkg/apis/labsinternal/v1alpha1/servicebindingprojection_types.go:122-143 | panics, reports a conflict, and reports nothing, each exactly when it should, for any map order |
| Validation.DuplicateCases | pkg/apis/labsinternal/v1alpha1/servicebindingprojection_types.go:133-143 | a leading duplicate is reported, a later one panics |
| Validation.ValidateProjection | pkg/apis/labsinternal/v1alpha1/servicebindingprojection_types.go:98-152 | no errors exactly for acceptable projections |
| Validation.ValidateBinding | pkg/apis/servicebinding/v1alpha3/servicebinding_types.go:97-163 | no errors exactly for acceptable bindings |
| Validation.AcceptedMeans | pkg/apis/servicebinding/v1alpha3/servicebinding_types.go:97-163 | acceptable means: names, references without namespace, complete env mappings without a shared name, and for a binding a named service |
| Validation.SetDefaults | pkg/apis/servicebinding/v1alpha3/servicebinding_types.go:165-169 | an empty name becomes the resource's name, a given one is kept, and nothing else changes |
| Validation.TranslationKeepsValidity | pkg/reconciler/servicebinding/resources/servicebindingprojection.go:19-48 | a valid defaulted binding gives a valid projection, made or merged, exactly when it and the secret have names |

## Left out

- PartialSort.InsertionSort: is the path of `sort.SliceStable` for up to 20 elements; the merging path for longer
  lists is not modelled, and only lists whose injected entries form a suffix are covered at any length
  (PartialSort.SuffixSortForced), which is the case on every reachable pod.
- Lifecycle.Do: slices are sequences that are reassigned, sorted through an array of their own; sharing of backing
  arrays between slices is not modelled, nor the difference between nil and empty maps or slices.
- Lifecycle.InjectedValues: map iteration takes keys in any order, which does not show in the resulting sets.
- Text.Sha1Hex: SHA-1 is an uninterpreted function to non-empty hexadecimal text; where theorems need different
  digests they say so.
- Validation.ValidateReference: the library's check of a reference is one uninterpreted predicate, and error
  messages are reduced to their kind.
- Reconciler.Create: the API server only checks the name and assigns a version; UIDs and defaults it may add, and
  the separate status endpoint, are not modelled.
- Reconciler.Update: only conflicts, missing objects and one kind of other failure.
- Service resolution (pkg/resolver), clocks and failures are parameters of a reconcile.
- Writing the binding's own status back (pkg/client) is assumed to succeed whenever the status changed.
- Condition types other than the three, and a condition's own generation field, which the code never sets.
- Generated clients, informers, webhooks, event recording, logging, ProvisionedService and process set-up: wiring
  or single-field copies.
