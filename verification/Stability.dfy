/** Once a binding has converged it stays so, and nothing is written for it, whatever else goes on. */
module Stability {
  import opened Conditions
  import opened Reconciler
  import opened Sequences
  import opened Types

  /** Looking again, with the secret and the projection as they are, changes nothing at any clock. */
  ghost predicate Settled(b: BindingState, secret: string, ready: Option<ReadyReport>) {
    && Shaped(b.status.conditions)
    && b.status.binding == Some(secret)
    && forall now :: Observe(b.status, Event(now, b.meta.generation, false, Success(Some(secret)), Success(ready))) == b.status
  }

  /** Store, cache and status all agree with what the binding at `key` asks for. */
  ghost predicate Steady(s: System, key: Key, secret: string) {
    && Consistent(s)
    && key in s.bindings && key in s.world.store && key in s.world.lister
    && s.world.lister[key] == s.world.store[key]
    && var b, p := s.bindings[key], s.world.store[key];
      && Complete(b) && !b.meta.deleted
      && Settled(b, secret, p.status.ready)
      && ControlledBy(p.meta.owners, b.meta.uid)
      && SemanticEquals(Desired(b), p)
  }

  /** Anything may happen except a write of, or an edit or another secret for, this very binding. */
  predicate Harmless(a: Action, key: Key, secret: string) {
    match a
    case Sync(_) => true
    case Foreign(k, _) => k != key
    case Edit(k, _, _) => k != key
    case Reconcile(k, _, resolved, _) => k != key || resolved == Success(Some(secret)) || resolved.Failure?
  }

  // ---- Errors do not disturb a settled status ----

  lemma AggregatedTwice(cs: seq<Condition>, now: int)
    requires |cs| == 3
    ensures Aggregated(Aggregated(cs, now), now) == Aggregated(cs, now)
  {
  }

  lemma AvailableFixed(cs: seq<Condition>, report: Option<ReadyReport>, now: int)
    requires |cs| == 3 && Marked(Marked(cs, Available, now), Propagate(report), now) == cs
    ensures Marked(cs, Available, now) == cs
  {
    var available := Marked(cs, Available, now);
    assert available[1] == cs[1];
    assert available == Aggregated(cs, now);
    AggregatedTwice(cs, now);
  }

  /** A failed resolution, lookup or write leaves a settled status exactly as it is. */
  lemma SettledThroughErrors(b: BindingState, secret: string, ready: Option<ReadyReport>, ev: Event)
    requires Settled(b, secret, ready) && !ev.deleted && ev.generation == b.meta.generation
    requires ev.secret.Failure? || (ev.secret == Success(Some(secret)) && (ev.projection.Failure? || ev.projection.value == ready))
    ensures Observe(b.status, ev) == b.status
  {
    var full := Event(ev.now, b.meta.generation, false, Success(Some(secret)), Success(ready));
    assert Observe(b.status, full) == b.status;
    InitializedIdentity(b.status.conditions, ev.now);
    AvailableFixed(b.status.conditions, ready, ev.now);
  }

  // ---- One step ----

  /** Reconciles of the binding itself find nothing to do. */
  lemma OwnReconcileIsIdle(s: System, key: Key, secret: string, now: int, resolved: Result<Option<string>>, faults: Faults)
    requires Steady(s, key, secret) && (resolved == Success(Some(secret)) || resolved.Failure?)
    ensures Next(s, Reconcile(key, now, resolved, faults)) == s
  {
    var b, p := s.bindings[key], s.world.store[key];
    var (w, projected) := Projected(s.world, b, resolved, faults);
    if resolved.Success? {
      EnsureDependsOn(s.world, b, WithSecret(b, Some(secret)), faults);
    }
    assert w == s.world;
    SettledThroughErrors(b, secret, p.status.ready, EventOf(b, now, resolved, projected));
    assert s.bindings[key := b] == s.bindings;
  }

  /** Calls for `key` issued from `w` to `w'`. */
  ghost predicate NoCallsFor(w: World, w': World, key: Key) {
    w'.calls == w.calls || exists c: Call :: w'.calls == w.calls + [c] && c.key != key
  }

  /** From `w` to `w'` nothing about `key` happened. */
  ghost predicate Remote(w: World, w': World, key: Key) {
    && w'.lister == w.lister
    && (key in w.store ==> key in w'.store && w'.store[key] == w.store[key])
    && NoCallsFor(w, w', key)
  }

  lemma EnsureIsRemote(w: World, b: BindingState, faults: Faults, key: Key)
    requires b.spec.workload.Some? && b.status.binding.Some? && KeyOf(b.meta) != key
    ensures Remote(w, Ensure(w, b, faults).0, key)
  {
    var w' := Ensure(w, b, faults).0;
    var k := KeyOf(b.meta);
    assert w'.calls == w.calls || w'.calls == w.calls + [CreateCall(k)] || w'.calls == w.calls + [UpdateCall(k)];
  }

  lemma OtherReconcileIsRemote(s: System, k: Key, key: Key, now: int, resolved: Result<Option<string>>, faults: Faults)
    requires Consistent(s) && k != key
    ensures var s' := Next(s, Reconcile(k, now, resolved, faults));
            && Remote(s.world, s'.world, key)
            && (key in s.bindings ==> key in s'.bindings && s'.bindings[key] == s.bindings[key])
  {
    if k in s.bindings && Complete(s.bindings[k]) {
      var b := s.bindings[k];
      if !b.meta.deleted && resolved.Success? && resolved.value.Some? {
        EnsureIsRemote(s.world, WithSecret(b, resolved.value), faults, key);
      }
    }
  }

  /** What stays: the binding, its projection, and the absence of calls. */
  ghost predicate Untouched(s: System, s': System, key: Key) {
    && key in s.bindings && key in s'.bindings && s'.bindings[key] == s.bindings[key]
    && key in s.world.store && key in s'.world.store && s'.world.store[key] == s.world.store[key]
  }

  lemma SteadyCarries(s: System, s': System, key: Key, secret: string)
    requires Steady(s, key, secret) && Consistent(s') && Untouched(s, s', key)
    requires key in s'.world.lister && s'.world.lister[key] == s.world.lister[key]
    ensures Steady(s', key, secret)
  {
  }

  lemma StepStaysSteady(s: System, a: Action, key: Key, secret: string)
    requires Steady(s, key, secret) && Harmless(a, key, secret)
    ensures var s' := Next(s, a);
            Steady(s', key, secret) && Untouched(s, s', key) && NoCallsFor(s.world, s'.world, key)
  {
    NextKeepsConsistent(s, a);
    if a.Reconcile? && a.key == key {
      OwnReconcileIsIdle(s, key, secret, a.now, a.secret, a.faults);
    } else {
      if a.Reconcile? {
        OtherReconcileIsRemote(s, a.key, key, a.now, a.secret, a.faults);
      }
      SteadyCarries(s, Next(s, a), key, secret);
    }
  }

  // ---- Runs ----

  function CallsFor(calls: seq<Call>, key: Key): seq<Call> {
    Filter(calls, (c: Call) => c.key == key)
  }

  lemma NoCallsNoGrowth(w: World, w': World, key: Key)
    requires NoCallsFor(w, w', key)
    ensures CallsFor(w'.calls, key) == CallsFor(w.calls, key)
  {
    if w'.calls != w.calls {
      var c: Call :| w'.calls == w.calls + [c] && c.key != key;
      assert Front(w.calls + [c]) == w.calls;
    }
  }

  /**
   Over any interleaving of other bindings' reconciles, cache syncs, foreign writes and edits elsewhere, and
   reconciles of this binding at any clock and with any failures: its projection and status stay exactly as
   they are, and no create or update is ever issued for it again.
   */
  lemma {:induction false} StaysSteady(s: System, actions: seq<Action>, key: Key, secret: string)
    requires Steady(s, key, secret)
    requires forall a | a in actions :: Harmless(a, key, secret)
    ensures var s' := Run(s, actions);
            && Steady(s', key, secret) && Untouched(s, s', key)
            && CallsFor(s'.world.calls, key) == CallsFor(s.world.calls, key)
  {
    if actions != [] {
      var f, z := Front(actions), Last(actions);
      assert z in actions && forall a | a in f :: a in actions;
      StaysSteady(s, f, key, secret);
      StepStaysSteady(Run(s, f), z, key, secret);
      NoCallsNoGrowth(Run(s, f).world, Run(s, actions).world, key);
    }
  }

  // ---- Writes by others to the projection itself ----

  /** All of the projection that a reconcile looks at: not its status, nor the rest of its metadata. */
  predicate SameIntent(p: ServiceBindingProjection, q: ServiceBindingProjection) {
    && p.spec == q.spec
    && p.meta.labels == q.meta.labels
    && p.meta.annotations == q.meta.annotations
    && p.meta.owners == q.meta.owners
  }

  /** Store and cache hold versions, maybe different ones, of an own projection `p` that is as the binding asks. */
  ghost predicate Aligned(s: System, key: Key, secret: string, p: ServiceBindingProjection) {
    && Consistent(s)
    && key in s.bindings && key in s.world.store && key in s.world.lister
    && SameIntent(s.world.store[key], p) && SameIntent(s.world.lister[key], p)
    && var b := s.bindings[key];
      && Complete(b) && !b.meta.deleted
      && ControlledBy(p.meta.owners, b.meta.uid)
      && SemanticEquals(Desired(WithSecret(b, Some(secret))), p)
  }

  lemma SteadyIsAligned(s: System, key: Key, secret: string)
    requires Steady(s, key, secret)
    ensures Aligned(s, key, secret, s.world.store[key])
  {
  }

  /**
   Anything may happen but an edit of this binding, another secret for it, and a write that removes its
   projection or changes what `SameIntent` compares.
   */
  predicate Peaceful(a: Action, key: Key, secret: string, p: ServiceBindingProjection) {
    match a
    case Sync(_) => true
    case Foreign(k, obj) => k != key || (obj.Some? && SameIntent(obj.value, p))
    case Edit(k, _, _) => k != key
    case Reconcile(k, _, resolved, _) => k != key || resolved.Failure? || resolved.value in {None, Some(secret)}
  }

  lemma OwnReconcileWritesNothing(
      s: System, key: Key, secret: string, p: ServiceBindingProjection, now: int, resolved: Result<Option<string>>,
      faults: Faults)
    requires Aligned(s, key, secret, p) && (resolved.Failure? || resolved.value in {None, Some(secret)})
    ensures var s' := Next(s, Reconcile(key, now, resolved, faults));
            && s'.world == s.world && key in s'.bindings
            && s'.bindings[key].meta == s.bindings[key].meta && s'.bindings[key].spec == s.bindings[key].spec
  {
  }

  lemma AlignedCarries(s: System, s': System, key: Key, secret: string, p: ServiceBindingProjection)
    requires Aligned(s, key, secret, p) && Consistent(s')
    requires key in s'.bindings && s'.bindings[key].meta == s.bindings[key].meta && s'.bindings[key].spec == s.bindings[key].spec
    requires key in s'.world.store && SameIntent(s'.world.store[key], p)
    requires key in s'.world.lister && SameIntent(s'.world.lister[key], p)
    ensures Aligned(s', key, secret, p)
  {
  }

  lemma WorldStaysAligned(s: System, a: Action, key: Key, p: ServiceBindingProjection)
    requires key in s.world.store && SameIntent(s.world.store[key], p)
    requires key in s.world.lister && SameIntent(s.world.lister[key], p)
    requires !a.Reconcile? && (a.Foreign? && a.key == key ==> a.obj.Some? && SameIntent(a.obj.value, p))
    ensures var w := Next(s, a).world;
            && key in w.store && SameIntent(w.store[key], p)
            && key in w.lister && SameIntent(w.lister[key], p)
  {
  }

  /** Syncs, writes by others and edits of other bindings. */
  lemma OtherStepStaysAligned(s: System, a: Action, key: Key, secret: string, p: ServiceBindingProjection)
    requires Aligned(s, key, secret, p) && Peaceful(a, key, secret, p) && !a.Reconcile?
    ensures Aligned(Next(s, a), key, secret, p) && Next(s, a).world.calls == s.world.calls
  {
    var s' := Next(s, a);
    NextKeepsConsistent(s, a);
    assert s'.world.calls == s.world.calls;
    assert key in s'.bindings && s'.bindings[key] == s.bindings[key];
    WorldStaysAligned(s, a, key, p);
    AlignedCarries(s, s', key, secret, p);
  }

  lemma StepStaysAligned(s: System, a: Action, key: Key, secret: string, p: ServiceBindingProjection)
    requires Aligned(s, key, secret, p) && Peaceful(a, key, secret, p)
    ensures Aligned(Next(s, a), key, secret, p) && NoCallsFor(s.world, Next(s, a).world, key)
  {
    if a.Reconcile? {
      NextKeepsConsistent(s, a);
      if a.key == key {
        OwnReconcileWritesNothing(s, key, secret, p, a.now, a.secret, a.faults);
      } else {
        OtherReconcileIsRemote(s, a.key, key, a.now, a.secret, a.faults);
      }
      AlignedCarries(s, Next(s, a), key, secret, p);
    } else {
      OtherStepStaysAligned(s, a, key, secret, p);
    }
  }

  /**
   Over any interleaving in which others, such as the projection's own controller, also write the status and
   other metadata of this projection, and the cache lags behind: no create or update is ever issued for it.
   */
  lemma {:induction false} StaysAligned(
      s: System, actions: seq<Action>, key: Key, secret: string, p: ServiceBindingProjection)
    requires Aligned(s, key, secret, p)
    requires forall a | a in actions :: Peaceful(a, key, secret, p)
    ensures Aligned(Run(s, actions), key, secret, p)
    ensures CallsFor(Run(s, actions).world.calls, key) == CallsFor(s.world.calls, key)
  {
    if actions != [] {
      var f, z := Front(actions), Last(actions);
      assert z in actions && forall a | a in f :: a in actions;
      StaysAligned(s, f, key, secret, p);
      StepStaysAligned(Run(s, f), z, key, secret, p);
      NoCallsNoGrowth(Run(s, f).world, Run(s, actions).world, key);
    }
  }

  // ---- Getting there ----

  /** From any consistent system, a current cache and one successful reconcile lead into the steady state. */
  lemma BecomesSteady(s: System, key: Key, now: int, secret: string)
    requires Consistent(s) && key in s.bindings && Complete(s.bindings[key]) && !s.bindings[key].meta.deleted
    requires Owns(s.world, s.bindings[key])
    ensures var s1 := Next(s, Sync(key));
            var s2 := Next(s1, Reconcile(key, now, Success(Some(secret)), NO_FAULTS));
            Steady(Next(s2, Sync(key)), key, secret)
  {
    var s1 := Next(s, Sync(key));
    var reconcile := Reconcile(key, now, Success(Some(secret)), NO_FAULTS);
    var s2 := Next(s1, reconcile);
    var s3 := Next(s2, Sync(key));
    NextKeepsConsistent(s, Sync(key));
    NextKeepsConsistent(s1, reconcile);
    NextKeepsConsistent(s2, Sync(key));
    var b := s1.bindings[key];
    Converges(s1.world, b, now, secret);
    BecomesSettled(s1.world, b, now, secret);
  }

  lemma EnsureStores(w: World, b: BindingState)
    requires b.spec.workload.Some? && b.status.binding.Some? && UpToDate(w, KeyOf(b.meta)) && Owns(w, b)
    ensures var (w', r) := Ensure(w, b, NO_FAULTS);
            r.Success? && KeyOf(b.meta) in w'.store && w'.store[KeyOf(b.meta)] == r.value
  {
  }

  lemma ObservedIsSettled(b: BindingState, now: int, secret: string, ready: Option<ReadyReport>)
    requires !b.meta.deleted
    ensures var ev := Event(now, b.meta.generation, false, Success(Some(secret)), Success(ready));
            Settled(b.(status := Observe(b.status, ev)), secret, ready)
  {
    var ev := Event(now, b.meta.generation, false, Success(Some(secret)), Success(ready));
    var st := Observe(b.status, ev);
    InitializedShaped(b.status.conditions, now);
    forall later ensures Observe(st, ev.(now := later)) == st {
      ObserveTwice(b.status, ev, later);
    }
  }

  lemma BecomesSettled(w: World, b: BindingState, now: int, secret: string)
    requires Complete(b) && !b.meta.deleted && UpToDate(w, KeyOf(b.meta)) && Owns(w, b)
    ensures var (w', b') := Reconciled(w, b, now, Success(Some(secret)), NO_FAULTS);
            KeyOf(b.meta) in w'.store && Settled(b', secret, w'.store[KeyOf(b.meta)].status.ready)
  {
    var c := WithSecret(b, Some(secret));
    EnsureStores(w, c);
    var r := Ensure(w, c, NO_FAULTS).1;
    ObservedIsSettled(b, now, secret, r.value.status.ready);
  }
}
