/**
 Reconciling ServiceBindings against an object store seen through a cache: the desired projection, the
 create and update paths, and what any interleaving of reconciles, cache syncs and foreign writes keeps.
 */
module Reconciler {
  import opened Conditions
  import opened Sequences
  import opened Text
  import opened Types

  const GROUP := "servicebinding.io"
  const LABEL_KEY := GROUP + "/servicebinding"

  type Key = (string, string)

  function KeyOf(meta: ObjectMeta): Key {
    (meta.namespace, meta.name)
  }

  // ---- The desired object ----

  function Forwarded(annotations: map<string, string>): map<string, string> {
    map k | k in annotations && Contains(k, GROUP) :: annotations[k]
  }

  /** A freshly made object has no server-side metadata and no status. */
  function Desired(b: BindingState): ServiceBindingProjection
    requires b.spec.workload.Some? && b.status.binding.Some?
  {
    ServiceBindingProjection(
      ObjectMeta(b.meta.name, b.meta.namespace, "", 0, 0, false,
                 b.meta.labels + map[LABEL_KEY := b.meta.name],
                 Forwarded(b.meta.annotations),
                 [OwnerReference(b.meta.uid, b.meta.name, true)], ""),
      ProjectionSpec(b.spec.name, b.spec.serviceType, b.spec.provider,
                     b.status.binding.value, b.spec.workload.value, b.spec.env),
      ProjectionStatus(None, None, ""))
  }

  method MakeServiceBindingProjection(b: BindingState) returns (projection: ServiceBindingProjection)
    requires b.spec.workload.Some? && b.status.binding.Some?
    ensures projection == Desired(b)
    ensures projection.spec.name == b.spec.name
    ensures projection.spec.serviceType == b.spec.serviceType && projection.spec.provider == b.spec.provider
    ensures Some(projection.spec.binding) == b.status.binding && Some(projection.spec.workload) == b.spec.workload
    ensures projection.spec.env == b.spec.env
  {
    projection := ServiceBindingProjection(
      ObjectMeta(b.meta.name, b.meta.namespace, "", 0, 0, false,
                 b.meta.labels + map[LABEL_KEY := b.meta.name],
                 map[],
                 [OwnerReference(b.meta.uid, b.meta.name, true)], ""),
      ProjectionSpec(b.spec.name, b.spec.serviceType, b.spec.provider,
                     b.status.binding.value, b.spec.workload.value, b.spec.env),
      ProjectionStatus(None, None, ""));
    var made := projection;
    var keys := b.meta.annotations.Keys;
    while keys != {}
      invariant keys <= b.meta.annotations.Keys
      invariant projection == made.(meta := made.meta.(annotations := projection.meta.annotations))
      invariant projection.meta.annotations
             == map k | k in b.meta.annotations && k !in keys && Contains(k, GROUP) :: b.meta.annotations[k]
      decreases keys
    {
      var k :| k in keys;
      keys := keys - {k};
      if Contains(k, GROUP) {
        var annotations := projection.meta.annotations[k := b.meta.annotations[k]];
        projection := projection.(meta := projection.meta.(annotations := annotations));
      }
    }
  }

  predicate SemanticEquals(desired: ServiceBindingProjection, existing: ServiceBindingProjection) {
    && desired.spec == existing.spec
    && desired.meta.labels == existing.meta.labels
    && desired.meta.annotations == existing.meta.annotations
  }

  /** metav1.IsControlledBy: the first controlling owner is the one that counts. */
  predicate ControlledBy(owners: seq<OwnerReference>, uid: string) {
    if owners == [] then false
    else if owners[0].controller then owners[0].uid == uid
    else ControlledBy(owners[1..], uid)
  }

  // ---- The API server and the cache ----

  datatype Call = CreateCall(key: Key) | UpdateCall(key: Key)

  /** store: what the API server holds; lister: the cache; calls: the write requests issued so far. */
  datatype World = World(
    store: map<Key, ServiceBindingProjection>,
    lister: map<Key, ServiceBindingProjection>,
    version: int,
    calls: seq<Call>)

  /** Injected failures of the cache lookup and of the write, for any other reason than the modelled ones. */
  datatype Faults = Faults(lookup: bool, write: bool)

  function Stamped(obj: ServiceBindingProjection, version: int): ServiceBindingProjection {
    obj.(meta := obj.meta.(resourceVersion := version))
  }

  /** Create fails if the name is taken. */
  function Create(w: World, key: Key, obj: ServiceBindingProjection, fault: bool)
    : (World, Result<ServiceBindingProjection>)
  {
    var w' := w.(calls := w.calls + [CreateCall(key)]);
    if fault || key in w.store then (w', Failure)
    else
      var stored := Stamped(obj, w.version + 1);
      (w'.(store := w.store[key := stored], version := w.version + 1), Success(stored))
  }

  /** Update fails if the object is gone or was changed since it was read. */
  function Update(w: World, key: Key, obj: ServiceBindingProjection, fault: bool)
    : (World, Result<ServiceBindingProjection>)
  {
    var w' := w.(calls := w.calls + [UpdateCall(key)]);
    if fault || key !in w.store || w.store[key].meta.resourceVersion != obj.meta.resourceVersion then (w', Failure)
    else
      var stored := Stamped(obj, w.version + 1);
      (w'.(store := w.store[key := stored], version := w.version + 1), Success(stored))
  }

  // ---- One reconcile ----

  /** The existing object with the desired spec, labels and annotations, and all else kept. */
  function Merged(existing: ServiceBindingProjection, desired: ServiceBindingProjection): ServiceBindingProjection {
    existing.(spec := desired.spec,
              meta := existing.meta.(labels := desired.meta.labels, annotations := desired.meta.annotations))
  }

  /** `serviceBindingProjection`: look up, then create, refuse, leave alone or update. */
  function Ensure(w: World, b: BindingState, faults: Faults): (World, Result<ServiceBindingProjection>)
    requires b.spec.workload.Some? && b.status.binding.Some?
  {
    var key := KeyOf(b.meta);
    var desired := Desired(b);
    if faults.lookup then (w, Failure)
    else if key !in w.lister then Create(w, key, desired, faults.write)
    else if !ControlledBy(w.lister[key].meta.owners, b.meta.uid) then (w, Failure)
    else if SemanticEquals(desired, w.lister[key]) then (w, Success(w.lister[key]))
    else Update(w, key, Merged(w.lister[key], desired), faults.write)
  }

  /** What validation guarantees and the code dereferences, unless the binding is being deleted. */
  predicate Complete(b: BindingState) {
    b.meta.deleted || (b.spec.workload.Some? && b.spec.service.Some?)
  }

  function WithSecret(b: BindingState, secret: Option<string>): BindingState {
    b.(status := b.status.(binding := secret))
  }

  /** The projection part of a reconcile, for the secret that was resolved. */
  function Projected(w: World, b: BindingState, secret: Result<Option<string>>, faults: Faults)
    : (World, Result<Option<ServiceBindingProjection>>)
    requires Complete(b)
  {
    if b.meta.deleted || secret.Failure? || secret.value.None? then (w, Success(None))
    else
      var (w', r) := Ensure(w, WithSecret(b, secret.value), faults);
      (w', if r.Success? then Success(Some(r.value)) else Failure)
  }

  /** The event that the status gets to see. */
  function EventOf(b: BindingState, now: int, secret: Result<Option<string>>,
                   projected: Result<Option<ServiceBindingProjection>>): Event
  {
    Event(now, b.meta.generation, b.meta.deleted, secret,
          if projected.Failure? then Failure
          else Success(if projected.value.Some? then projected.value.value.status.ready else None))
  }

  function Reconciled(w: World, b: BindingState, now: int, secret: Result<Option<string>>, faults: Faults)
    : (World, BindingState)
    requires Complete(b)
  {
    var (w', projected) := Projected(w, b, secret, faults);
    (w', b.(status := Observe(b.status, EventOf(b, now, secret, projected))))
  }

  /** ReconcileKind returns no error. */
  predicate Succeeds(w: World, b: BindingState, secret: Result<Option<string>>, faults: Faults)
    requires Complete(b)
  {
    b.meta.deleted || (secret.Success? && Projected(w, b, secret, faults).1.Success?)
  }

  // ---- The reconciler at work ----

  class ServiceBinding {
    const meta: ObjectMeta
    var spec: BindingSpec
    const status: ServiceBindingStatus

    constructor (meta: ObjectMeta, spec: BindingSpec, status: ServiceBindingStatus)
      ensures State() == BindingState(meta, spec, status.State()) && this.status == status
    {
      this.meta, this.spec, this.status := meta, spec, status;
    }

    ghost function State(): BindingState
      reads this, status
    {
      BindingState(meta, spec, status.State())
    }
  }

  class Controller {
    var store: map<Key, ServiceBindingProjection>
    var lister: map<Key, ServiceBindingProjection>
    var version: int
    var calls: seq<Call>

    constructor (w: World)
      ensures Snapshot() == w
    {
      store, lister, version, calls := w.store, w.lister, w.version, w.calls;
    }

    ghost function Snapshot(): World
      reads this
    {
      World(store, lister, version, calls)
    }

    method CreateProjection(key: Key, obj: ServiceBindingProjection, fault: bool)
      returns (r: Result<ServiceBindingProjection>)
      modifies this
      ensures (Snapshot(), r) == Create(old(Snapshot()), key, obj, fault)
    {
      calls := calls + [CreateCall(key)];
      if fault || key in store {
        return Failure;
      }
      version := version + 1;
      store := store[key := Stamped(obj, version)];
      r := Success(store[key]);
    }

    method UpdateProjection(key: Key, obj: ServiceBindingProjection, fault: bool)
      returns (r: Result<ServiceBindingProjection>)
      modifies this
      ensures (Snapshot(), r) == Update(old(Snapshot()), key, obj, fault)
    {
      calls := calls + [UpdateCall(key)];
      if fault || key !in store || store[key].meta.resourceVersion != obj.meta.resourceVersion {
        return Failure;
      }
      version := version + 1;
      store := store[key := Stamped(obj, version)];
      r := Success(store[key]);
    }

    method ReconcileServiceBindingProjection(b: BindingState, projection: ServiceBindingProjection, fault: bool)
      returns (r: Result<ServiceBindingProjection>)
      requires b.spec.workload.Some? && b.status.binding.Some?
      modifies this
      ensures SemanticEquals(Desired(b), projection) ==> r == Success(projection) && Snapshot() == old(Snapshot())
      ensures !SemanticEquals(Desired(b), projection) ==>
                (Snapshot(), r) == Update(old(Snapshot()), KeyOf(b.meta), Merged(projection, Desired(b)), fault)
    {
      var existing := projection;
      var desired := MakeServiceBindingProjection(b);
      if SemanticEquals(desired, existing) {
        return Success(projection);
      }
      existing := existing.(spec := desired.spec);
      existing := existing.(meta := existing.meta.(labels := desired.meta.labels));
      existing := existing.(meta := existing.meta.(annotations := desired.meta.annotations));
      r := UpdateProjection(KeyOf(b.meta), existing, fault);
    }

    method EnsureProjection(b: BindingState, faults: Faults) returns (r: Result<Option<ServiceBindingProjection>>)
      requires b.status.binding.Some? ==> b.spec.workload.Some?
      modifies this
      ensures b.status.binding.None? ==> r == Success(None) && Snapshot() == old(Snapshot())
      ensures b.status.binding.Some? ==>
                var (w, e) := Ensure(old(Snapshot()), b, faults);
                Snapshot() == w && r == if e.Success? then Success(Some(e.value)) else Failure
    {
      if b.status.binding.None? {
        return Success(None);
      }
      var key := KeyOf(b.meta);
      var e: Result<ServiceBindingProjection>;
      if faults.lookup {
        return Failure;
      } else if key !in lister {
        var desired := MakeServiceBindingProjection(b);
        e := CreateProjection(key, desired, faults.write);
      } else if !ControlledBy(lister[key].meta.owners, b.meta.uid) {
        return Failure;
      } else {
        e := ReconcileServiceBindingProjection(b, lister[key], faults.write);
      }
      r := if e.Success? then Success(Some(e.value)) else Failure;
    }

    /** Returns whether the reconcile went through without an error. */
    method ReconcileKind(binding: ServiceBinding, now: int, secret: Result<Option<string>>, faults: Faults)
      returns (ok: bool)
      requires Complete(binding.State())
      modifies this, binding.status
      ensures (Snapshot(), binding.State()) == Reconciled(old(Snapshot()), old(binding.State()), now, secret, faults)
      ensures ok == Succeeds(old(Snapshot()), old(binding.State()), secret, faults)
      ensures binding.status.observedGeneration
           == if ok && !binding.meta.deleted then binding.meta.generation else old(binding.status.observedGeneration)
      ensures binding.status.binding
           == if !binding.meta.deleted && secret.Success? then secret.value else old(binding.status.binding)
    {
      if binding.meta.deleted {
        return true;
      }
      binding.status.InitializeConditions(now);
      if secret.Failure? {
        return false;
      }
      binding.status.binding := None;
      if secret.value.Some? {
        binding.status.binding := Some(secret.value.value);
        binding.status.MarkServiceAvailable(now);
      }
      var current := BindingState(binding.meta, binding.spec,
        StatusState(binding.status.observedGeneration, binding.status.conditions, binding.status.binding));
      if secret.value.Some? { EnsureDependsOn(Snapshot(), current, WithSecret(old(binding.State()), secret.value), faults); }
      var projection := EnsureProjection(current, faults);
      if projection.Failure? {
        return false;
      }
      if projection.value.Some? {
        binding.status.PropagateServiceBindingProjectionStatus(Some(projection.value.value.status), now);
      }
      binding.status.observedGeneration := binding.meta.generation;
      return true;
    }
  }

  // ---- Only the secret of the status enters the desired object ----

  ghost predicate SameDesired(b: BindingState, b': BindingState) {
    b.meta == b'.meta && b.spec == b'.spec && b.status.binding == b'.status.binding
  }

  lemma EnsureDependsOn(w: World, b: BindingState, b': BindingState, faults: Faults)
    requires b.spec.workload.Some? && b.status.binding.Some? && SameDesired(b, b')
    ensures Ensure(w, b, faults) == Ensure(w, b', faults)
  {
  }

  // ---- Convergence ----

  /** The cache agrees with the store on this key. */
  predicate UpToDate(w: World, key: Key) {
    if key in w.store then key in w.lister && w.lister[key] == w.store[key] else key !in w.lister
  }

  /** The stored projection is what the binding asks for. */
  predicate Realizes(w: World, b: BindingState)
    requires b.spec.workload.Some? && b.status.binding.Some?
  {
    KeyOf(b.meta) in w.store && SemanticEquals(Desired(b), w.store[KeyOf(b.meta)])
  }

  /** Nobody else controls the projection at the binding's key. */
  predicate Owns(w: World, b: BindingState) {
    KeyOf(b.meta) in w.store ==> ControlledBy(w.store[KeyOf(b.meta)].meta.owners, b.meta.uid)
  }

  const NO_FAULTS := Faults(false, false)

  /**
   With a current cache and no failures a reconcile of a resolved binding goes through exactly when the
   projection is the binding's own or absent.  It then leaves the desired spec, labels and annotations in
   the store, all other metadata and the status of an existing object as they were, and other keys alone;
   otherwise it writes nothing.
   */
  lemma Converges(w: World, b: BindingState, now: int, secret: string)
    requires Complete(b) && !b.meta.deleted && UpToDate(w, KeyOf(b.meta))
    ensures var (w', b') := Reconciled(w, b, now, Success(Some(secret)), NO_FAULTS);
            var key := KeyOf(b.meta);
            && b'.meta == b.meta && b'.spec == b.spec && b'.status.binding == Some(secret)
            && (Succeeds(w, b, Success(Some(secret)), NO_FAULTS) <==> Owns(w, b))
            && (Owns(w, b) ==> Realizes(w', b') && Owns(w', b'))
            && (Owns(w, b) && key in w.store ==>
                  && w'.store[key].status == w.store[key].status
                  && Stamped(w'.store[key], 0) == Stamped(Merged(w.store[key], Desired(b')), 0))
            && (!Owns(w, b) ==> w' == w)
            && w'.store - {key} == w.store - {key}
  {
  }

  // ---- Quiescence ----

  /** The cache catches up on one key. */
  function Synced(w: World, key: Key): World {
    w.(lister := if key in w.store then w.lister[key := w.store[key]] else w.lister - {key})
  }

  /** Marking an already marked status again is no change, whatever the clock. */
  lemma ObserveTwice(st: StatusState, ev: Event, now: int)
    requires !ev.deleted && ev.secret.Success? && ev.secret.value.Some? && ev.projection.Success?
    ensures Observe(Observe(st, ev), ev.(now := now)) == Observe(st, ev)
  {
    var cs := Initialized(st.conditions, ev.now);
    InitializedShaped(st.conditions, ev.now);
    var once := Observe(st, ev).conditions;
    InitializedIdentity(once, now);
  }

  lemma InitializedShaped(cs: seq<Condition>, now: int)
    ensures Shaped(Initialized(cs, now))
  {
    LatestKind(cs, READY, now);
    LatestKind(cs, SERVICE_AVAILABLE, now);
    LatestKind(cs, PROJECTION_READY, now);
  }

  lemma {:induction false} LatestKind(cs: seq<Condition>, kind: string, now: int)
    ensures Latest(cs, kind, now).kind == kind
  {
    if cs != [] {
      LatestKind(Front(cs), kind, now);
    }
  }

  /** A repeated lookup finds what the first one left, and has nothing to write. */
  lemma EnsureTwice(w: World, b: BindingState)
    requires b.spec.workload.Some? && b.status.binding.Some? && UpToDate(w, KeyOf(b.meta)) && Owns(w, b)
    ensures var (w1, r) := Ensure(w, b, NO_FAULTS);
            var synced := Synced(w1, KeyOf(b.meta));
            r.Success? && Ensure(synced, b, NO_FAULTS) == (synced, r)
  {
  }

  /**
   After a successful reconcile, with the cache caught up and nothing else changed, another reconcile at
   any clock issues no create or update and leaves the same status, so no status write follows either.
   */
  lemma Quiescent(w: World, b: BindingState, now: int, later: int, secret: string)
    requires Complete(b) && !b.meta.deleted && UpToDate(w, KeyOf(b.meta)) && Owns(w, b)
    ensures var (w1, b1) := Reconciled(w, b, now, Success(Some(secret)), NO_FAULTS);
            var synced := Synced(w1, KeyOf(b.meta));
            Reconciled(synced, b1, later, Success(Some(secret)), NO_FAULTS) == (synced, b1)
  {
    var resolved := Success(Some(secret));
    var c := WithSecret(b, Some(secret));
    EnsureTwice(w, c);
    var (w1, r) := Ensure(w, c, NO_FAULTS);
    var (_, b1) := Reconciled(w, b, now, resolved, NO_FAULTS);
    var synced := Synced(w1, KeyOf(b.meta));
    EnsureDependsOn(synced, c, WithSecret(b1, Some(secret)), NO_FAULTS);
    ObserveTwice(b.status, EventOf(b, now, resolved, Success(Some(r.value))), later);
  }

  // ---- Interleavings ----

  datatype System = System(world: World, bindings: map<Key, BindingState>)

  datatype Action =
    | Reconcile(key: Key, now: int, secret: Result<Option<string>>, faults: Faults)
    | Sync(key: Key)
    | Foreign(key: Key, obj: Option<ServiceBindingProjection>)
    | Edit(key: Key, meta: ObjectMeta, spec: BindingSpec)

  /** Reconciles persist the status; syncs, foreign writes and edits of bindings happen at any time in between. */
  function Next(s: System, a: Action): System {
    match a
    case Reconcile(key, now, secret, faults) =>
      if key !in s.bindings || !Complete(s.bindings[key]) then s
      else
        var (w, b) := Reconciled(s.world, s.bindings[key], now, secret, faults);
        System(w, s.bindings[key := b])
    case Sync(key) => s.(world := Synced(s.world, key))
    case Foreign(key, obj) =>
      if obj.None? then s.(world := s.world.(store := s.world.store - {key}))
      else s.(world := s.world.(store := s.world.store[key := Stamped(obj.value, s.world.version + 1)],
                                version := s.world.version + 1))
    case Edit(key, meta, spec) =>
      if KeyOf(meta) != key then s
      else
        var status := if key in s.bindings then s.bindings[key].status else StatusState(0, [], None);
        s.(bindings := s.bindings[key := BindingState(meta, spec, status)])
  }

  function Run(s: System, actions: seq<Action>): System {
    if actions == [] then s else Next(Run(s, Front(actions)), Last(actions))
  }

  /** A version stands for one content, in the store and in the cache. */
  ghost predicate Versioned(w: World) {
    && (forall k | k in w.store :: w.store[k].meta.resourceVersion <= w.version)
    && (forall k | k in w.lister :: w.lister[k].meta.resourceVersion <= w.version)
    && (forall k | k in w.store && k in w.lister && w.store[k].meta.resourceVersion == w.lister[k].meta.resourceVersion ::
          w.store[k] == w.lister[k])
  }

  /** Bindings sit at their own key, and every status is sound. */
  ghost predicate Consistent(s: System) {
    && Versioned(s.world)
    && (forall k | k in s.bindings :: KeyOf(s.bindings[k].meta) == k && Sound(s.bindings[k].status.conditions))
  }

  /** The store after a write of `obj` at `key` with a new version. */
  function Written(w: World, key: Key, obj: ServiceBindingProjection): World {
    w.(store := w.store[key := Stamped(obj, w.version + 1)], version := w.version + 1)
  }

  lemma WrittenVersioned(w: World, key: Key, obj: ServiceBindingProjection)
    requires Versioned(w)
    ensures Versioned(Written(w, key, obj))
  {
  }

  /** All that Ensure does to the store: nothing, or a write of an object that the binding controls over its own. */
  lemma EnsureWrites(w: World, b: BindingState, faults: Faults)
    requires b.spec.workload.Some? && b.status.binding.Some? && Versioned(w)
    ensures var (w', _) := Ensure(w, b, faults);
            var key := KeyOf(b.meta);
            || w'.(calls := w.calls) == w
            || (&& Owns(w, b)
                && exists obj :: w'.(calls := w.calls) == Written(w, key, obj) && ControlledBy(obj.meta.owners, b.meta.uid))
  {
    var key := KeyOf(b.meta);
    var desired := Desired(b);
    if !faults.lookup {
      if key !in w.lister {
        assert ControlledBy(desired.meta.owners, b.meta.uid);
        if !faults.write && key !in w.store {
          assert Create(w, key, desired, false).0.(calls := w.calls) == Written(w, key, desired);
        }
      } else if ControlledBy(w.lister[key].meta.owners, b.meta.uid) && !SemanticEquals(desired, w.lister[key]) {
        var merged := Merged(w.lister[key], desired);
        assert ControlledBy(merged.meta.owners, b.meta.uid);
        if !faults.write && key in w.store && w.store[key].meta.resourceVersion == merged.meta.resourceVersion {
          assert w.store[key] == w.lister[key];
          assert Update(w, key, merged, false).0.(calls := w.calls) == Written(w, key, merged);
        }
      }
    }
  }

  lemma ProjectedWrites(w: World, b: BindingState, secret: Result<Option<string>>, faults: Faults)
    requires Complete(b) && Versioned(w)
    ensures var (w', _) := Projected(w, b, secret, faults);
            var key := KeyOf(b.meta);
            || w'.(calls := w.calls) == w
            || (&& Owns(w, b)
                && exists obj :: w'.(calls := w.calls) == Written(w, key, obj) && ControlledBy(obj.meta.owners, b.meta.uid))
  {
    if !b.meta.deleted && secret.Success? && secret.value.Some? {
      EnsureWrites(w, WithSecret(b, secret.value), faults);
    }
  }

  lemma ReconcileKeepsVersioned(w: World, b: BindingState, secret: Result<Option<string>>, faults: Faults)
    requires Complete(b) && Versioned(w)
    ensures Versioned(Projected(w, b, secret, faults).0)
  {
    ProjectedWrites(w, b, secret, faults);
    var w' := Projected(w, b, secret, faults).0;
    if obj :| w'.(calls := w.calls) == Written(w, KeyOf(b.meta), obj) {
      WrittenVersioned(w, KeyOf(b.meta), obj);
    }
  }

  lemma NextKeepsConsistent(s: System, a: Action)
    requires Consistent(s)
    ensures Consistent(Next(s, a))
  {
    match a
    case Reconcile(key, now, secret, faults) =>
      if key in s.bindings && Complete(s.bindings[key]) {
        var b := s.bindings[key];
        ReconcileKeepsVersioned(s.world, b, secret, faults);
        ObserveStep(b.status, EventOf(b, now, secret, Projected(s.world, b, secret, faults).1));
      }
    case Sync(key) =>
    case Foreign(key, obj) =>
      if obj.Some? {
        WrittenVersioned(s.world, key, obj.value);
      }
    case Edit(key, meta, spec) =>
  }

  lemma {:induction false} RunKeepsConsistent(s: System, actions: seq<Action>)
    requires Consistent(s)
    ensures Consistent(Run(s, actions))
  {
    if actions != [] {
      RunKeepsConsistent(s, Front(actions));
      NextKeepsConsistent(Run(s, Front(actions)), Last(actions));
    }
  }

  /** At most the projection of `uid` at `key` changed, and only from own to own. */
  ghost predicate OwnWrite(w: World, w': World, key: Key, uid: string) {
    && w'.store - {key} == w.store - {key}
    && key in w'.store && ControlledBy(w'.store[key].meta.owners, uid)
    && (key in w.store ==> ControlledBy(w.store[key].meta.owners, uid))
  }

  ghost predicate OnlyOwn(s: System, s': System, key: Key) {
    s'.world.store == s.world.store ||
    (key in s.bindings && OwnWrite(s.world, s'.world, key, s.bindings[key].meta.uid))
  }

  lemma WrittenIsOwn(w: World, key: Key, obj: ServiceBindingProjection, uid: string)
    requires ControlledBy(obj.meta.owners, uid)
    requires key in w.store ==> ControlledBy(w.store[key].meta.owners, uid)
    ensures OwnWrite(w, Written(w, key, obj), key, uid)
  {
  }

  lemma ProjectedIsOwn(w: World, b: BindingState, secret: Result<Option<string>>, faults: Faults)
    requires Complete(b) && Versioned(w)
    ensures var w' := Projected(w, b, secret, faults).0;
            w'.store == w.store || OwnWrite(w, w', KeyOf(b.meta), b.meta.uid)
  {
    ProjectedWrites(w, b, secret, faults);
    var w' := Projected(w, b, secret, faults).0;
    if w'.(calls := w.calls) != w {
      var obj :| w'.(calls := w.calls) == Written(w, KeyOf(b.meta), obj) && ControlledBy(obj.meta.owners, b.meta.uid);
      WrittenIsOwn(w, KeyOf(b.meta), obj, b.meta.uid);
      assert w'.store == Written(w, KeyOf(b.meta), obj).store;
    }
  }

  /** Whatever the cache says, a reconcile never writes over, or into, an object that the binding does not control. */
  lemma ReconcileOwnership(s: System, key: Key, now: int, secret: Result<Option<string>>, faults: Faults)
    requires Consistent(s)
    ensures OnlyOwn(s, Next(s, Reconcile(key, now, secret, faults)), key)
  {
    if key in s.bindings && Complete(s.bindings[key]) {
      ProjectedIsOwn(s.world, s.bindings[key], secret, faults);
    }
  }

  const EMPTY := System(World(map[], map[], 0, []), map[])

  /** Ownership over any interleaving of reconciles, syncs, foreign writes and edits, from an empty system. */
  lemma OwnershipOverRuns(actions: seq<Action>, key: Key, now: int, secret: Result<Option<string>>, faults: Faults)
    ensures var s := Run(EMPTY, actions); OnlyOwn(s, Next(s, Reconcile(key, now, secret, faults)), key)
  {
    RunKeepsConsistent(EMPTY, actions);
    ReconcileOwnership(Run(EMPTY, actions), key, now, secret, faults);
  }

  /** What the reconciles of the binding at `key` got to see, in order, with the clocks at which they ran. */
  function EventsOf(actions: seq<Action>, key: Key): seq<Event> {
    if actions == [] then []
    else
      var s, a, evs := Run(EMPTY, Front(actions)), Last(actions), EventsOf(Front(actions), key);
      if a.Reconcile? && a.key == key && key in s.bindings && Complete(s.bindings[key]) then
        var b := s.bindings[key];
        evs + [EventOf(b, a.now, a.secret, Projected(s.world, b, a.secret, a.faults).1)]
      else evs
  }

  /** Every status in a system is the one that its binding's own reconciles, as events, lead to. */
  lemma {:induction false} StatusesAreObserved(actions: seq<Action>, key: Key)
    ensures var s := Run(EMPTY, actions);
            if key in s.bindings then s.bindings[key].status == ObserveAll(EventsOf(actions, key))
            else EventsOf(actions, key) == []
  {
    if actions != [] {
      var s, a, evs := Run(EMPTY, Front(actions)), Last(actions), EventsOf(Front(actions), key);
      StatusesAreObserved(Front(actions), key);
      if a.Reconcile? && a.key == key && key in s.bindings && Complete(s.bindings[key]) {
        var b := s.bindings[key];
        var ev := EventOf(b, a.now, a.secret, Projected(s.world, b, a.secret, a.faults).1);
        assert Front(evs + [ev]) == evs;
      }
    }
  }

  /** Transition times in a system: the clock of the binding's own reconcile that last changed the condition. */
  lemma TransitionTimesInSystems(actions: seq<Action>, key: Key, k: nat)
    requires key in Run(EMPTY, actions).bindings
    requires k < |Run(EMPTY, actions).bindings[key].status.conditions|
    ensures var evs := EventsOf(actions, key);
            exists j: nat :: LastChangedAt(evs, k, j)
              && Run(EMPTY, actions).bindings[key].status.conditions[k].lastTransitionTime == evs[j].now
  {
    StatusesAreObserved(actions, key);
    TransitionTimesExact(EventsOf(actions, key), k);
  }

  /** Ready in a system, whatever the projections report. */
  lemma ReadyInSystems(actions: seq<Action>, key: Key)
    requires key in Run(EMPTY, actions).bindings
    ensures var cs := Run(EMPTY, actions).bindings[key].status.conditions;
            cs != [] ==> cs[0].status == LastKnownReport(EventsOf(actions, key))
  {
    StatusesAreObserved(actions, key);
    ReadyIsLastKnownReport(EventsOf(actions, key));
  }
}
