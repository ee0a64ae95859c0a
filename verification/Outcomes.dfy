/**
 What a reconcile leaves in the binding's status and in the stored projection, said field by field in literal texts,
 without the functions that compute it.
 */
module Outcomes {
  import opened Conditions
  import opened Reconciler
  import opened Sequences
  import opened Text
  import opened Types

  // ---- What the events of a run amount to ----

  /** The service was resolved, to a secret or to none. */
  predicate Resolves(ev: Event) {
    !ev.deleted && ev.secret.Success?
  }

  predicate Finds(ev: Event) {
    Resolves(ev) && ev.secret.value.Some?
  }

  /** A secret was found and the projection looked at. */
  predicate Reports(ev: Event) {
    Finds(ev) && ev.projection.Success?
  }

  predicate ReportsKnownText(ev: Event) {
    Reports(ev) && (ev.projection.value.None? || ev.projection.value.value.status in {"", "True", "False", "Unknown"})
  }

  /** No error was returned. */
  predicate GoesThrough(ev: Event) {
    Resolves(ev) && (ev.secret.value.Some? ==> ev.projection.Success?)
  }

  /** The last event with `p`. */
  function LastOf(evs: seq<Event>, p: Event -> bool): Option<Event> {
    if evs == [] then None else if p(Last(evs)) then Some(Last(evs)) else LastOf(Front(evs), p)
  }

  lemma {:induction false} LastOfIs(evs: seq<Event>, p: Event -> bool)
    ensures match LastOf(evs, p)
            case None => forall i | 0 <= i < |evs| :: !p(evs[i])
            case Some(ev) => exists j ::
              0 <= j < |evs| && evs[j] == ev && p(ev) && forall i | j < i < |evs| :: !p(evs[i])
  {
    if evs != [] {
      var f := Front(evs);
      LastOfIs(f, p);
      assert forall i | 0 <= i < |f| :: evs[i] == f[i];
      if p(Last(evs)) {
        assert evs[|evs| - 1] == Last(evs);
      } else if LastOf(f, p).Some? {
        var j :| 0 <= j < |f| && f[j] == LastOf(f, p).value && p(f[j]) && forall i | j < i < |f| :: !p(f[i]);
        assert evs[j] == f[j];
      }
    }
  }

  // ---- What the three conditions say ----

  predicate Says(c: Condition, kind: string, status: string, reason: string, message: string) {
    c.kind == kind && c.status == status && c.reason == reason && c.message == message
  }

  /** The projection's own words, with defaults for what is missing. */
  predicate SaysReport(c: Condition, report: Option<ReadyReport>) {
    match report
    case None => Says(c, "ProjectionReady", "Unknown", "Unknown", "")
    case Some(r) =>
      Says(c, "ProjectionReady",
           if r.status == "" then "Unknown" else r.status,
           if r.reason != "" then r.reason else if r.status == "True" then "Projected" else "Unknown",
           r.message)
  }

  /** Ready for an available service: "Ready", or the projection's words with its type before the reason. */
  predicate SaysReadyFor(c: Condition, report: Option<ReadyReport>) {
    match report
    case None => Says(c, "Ready", "Unknown", "ProjectionReadyUnknown", "")
    case Some(r) =>
      if r.status == "True" then Says(c, "Ready", "True", "Ready", "")
      else Says(c, "Ready",
                if r.status == "" then "Unknown" else r.status,
                if r.reason != "" then "ProjectionReady" + r.reason else "ProjectionReadyUnknown",
                r.message)
  }

  /** The conditions after events of which these were the last to find, to report and to report a known text. */
  predicate Told(cs: seq<Condition>, found: Option<Event>, last: Option<Event>, known: Option<Event>) {
    && |cs| == 3
    && (if found.None? then Says(cs[1], "ServiceAvailable", "Unknown", "Unknown", "")
        else Says(cs[1], "ServiceAvailable", "True", "Available", ""))
    && (if last.None? || last.value.projection.Failure? then Says(cs[2], "ProjectionReady", "Unknown", "Unknown", "")
        else SaysReport(cs[2], last.value.projection.value))
    && (if found.None? then Says(cs[0], "Ready", "Unknown", "Unknown", "")
        else if known.None? || known.value.projection.Failure? then SaysReadyFor(cs[0], None)
        else SaysReadyFor(cs[0], known.value.projection.value))
  }

  /** Only events before deletion create conditions. */
  predicate Looks(ev: Event) {
    !ev.deleted
  }

  /** How the last events of each kind hang together. */
  predicate Linked(found: Option<Event>, last: Option<Event>, known: Option<Event>) {
    && (last.Some? ==> found.Some? && Reports(last.value))
    && (last.None? ==> known.None?)
    && (known.Some? ==> ReportsKnownText(known.value))
    && (last.Some? && ReportsKnownText(last.value) ==> known == last)
  }

  lemma {:induction false} LastsLinked(evs: seq<Event>)
    ensures Linked(LastOf(evs, Finds), LastOf(evs, Reports), LastOf(evs, ReportsKnownText))
  {
    if evs != [] {
      LastsLinked(Front(evs));
    }
  }

  lemma ToldInitially(now: int)
    ensures Told(Initialized([], now), None, None, None)
  {
  }

  lemma ToldAvailable(cs: seq<Condition>, found: Option<Event>, last: Option<Event>, known: Option<Event>, ev: Event)
    requires Told(cs, found, last, known) && Linked(found, last, known) && Finds(ev)
    ensures Told(Marked(cs, Available, ev.now), Some(ev), last, known)
  {
  }

  lemma ToldReport(cs: seq<Condition>, found: Option<Event>, last: Option<Event>, known: Option<Event>, ev: Event)
    requires Told(cs, found, last, known) && found.Some? && Reports(ev)
    ensures Told(Marked(cs, Propagate(ev.projection.value), ev.now), found, Some(ev),
                 if ReportsKnownText(ev) then Some(ev) else known)
  {
  }

  lemma ToldShaped(cs: seq<Condition>, found: Option<Event>, last: Option<Event>, known: Option<Event>)
    requires Told(cs, found, last, known)
    ensures Shaped(cs)
  {
  }

  lemma ToldStep(st: StatusState, found: Option<Event>, last: Option<Event>, known: Option<Event>, ev: Event)
    requires Told(Initialized(st.conditions, ev.now), found, last, known) && Linked(found, last, known) && !ev.deleted
    ensures Told(Observe(st, ev).conditions, if Finds(ev) then Some(ev) else found,
                 if Reports(ev) then Some(ev) else last, if ReportsKnownText(ev) then Some(ev) else known)
  {
    var cs := Initialized(st.conditions, ev.now);
    if Finds(ev) {
      ToldAvailable(cs, found, last, known, ev);
      if Reports(ev) {
        ToldReport(Marked(cs, Available, ev.now), Some(ev), last, known, ev);
      }
    }
  }

  /** All that a status says after the events. */
  predicate StatusSays(st: StatusState, evs: seq<Event>) {
    RecordSays(st, evs) && ConditionsSay(st.conditions, evs)
  }

  predicate RecordSays(st: StatusState, evs: seq<Event>) {
    var through, resolved := LastOf(evs, GoesThrough), LastOf(evs, Resolves);
    && st.observedGeneration == (if through.Some? then through.value.generation else 0)
    && st.binding == (if resolved.Some? && resolved.value.secret.Success? then resolved.value.secret.value else None)
  }

  predicate ConditionsSay(cs: seq<Condition>, evs: seq<Event>) {
    if LastOf(evs, Looks).None? then cs == []
    else Told(cs, LastOf(evs, Finds), LastOf(evs, Reports), LastOf(evs, ReportsKnownText))
  }

  lemma {:induction false} RunsRecord(evs: seq<Event>)
    ensures RecordSays(ObserveAll(evs), evs)
  {
    if evs != [] {
      RunsRecord(Front(evs));
    }
  }

  lemma {:induction false} RunsTell(evs: seq<Event>)
    ensures ConditionsSay(ObserveAll(evs).conditions, evs)
  {
    if evs != [] {
      var f, ev := Front(evs), Last(evs);
      RunsTell(f);
      LastsLinked(f);
      if !ev.deleted {
        InitiallyTold(f, ev.now);
        ToldStep(ObserveAll(f), LastOf(f, Finds), LastOf(f, Reports), LastOf(f, ReportsKnownText), ev);
      }
    }
  }

  /**
   After any run: the generation of the last reconcile without an error, 0 before the first; the secret of the last
   resolution; and in the conditions, the words of the last report, and in Ready those of the last known one.
   */
  lemma RunsSay(evs: seq<Event>)
    ensures StatusSays(ObserveAll(evs), evs)
  {
    RunsRecord(evs);
    RunsTell(evs);
  }

  lemma {:induction false} NothingBefore(evs: seq<Event>)
    requires LastOf(evs, Looks).None?
    ensures LastOf(evs, Finds).None? && LastOf(evs, Reports).None? && LastOf(evs, ReportsKnownText).None?
  {
    if evs != [] {
      NothingBefore(Front(evs));
    }
  }

  lemma InitiallyTold(evs: seq<Event>, now: int)
    requires ConditionsSay(ObserveAll(evs).conditions, evs)
    ensures Told(Initialized(ObserveAll(evs).conditions, now), LastOf(evs, Finds), LastOf(evs, Reports),
                 LastOf(evs, ReportsKnownText))
  {
    if LastOf(evs, Looks).None? {
      NothingBefore(evs);
      ToldInitially(now);
    } else {
      ToldShaped(ObserveAll(evs).conditions, LastOf(evs, Finds), LastOf(evs, Reports), LastOf(evs, ReportsKnownText));
      InitializedIdentity(ObserveAll(evs).conditions, now);
    }
  }

  /** And so in a system, about the binding's own reconciles. */
  lemma SystemsSay(actions: seq<Action>, key: Key)
    requires key in Run(EMPTY, actions).bindings
    ensures StatusSays(Run(EMPTY, actions).bindings[key].status, EventsOf(actions, key))
  {
    StatusesAreObserved(actions, key);
    RunsSay(EventsOf(actions, key));
  }

  /** A reconcile goes through as an event exactly when it returns no error, unless the binding is being deleted. */
  lemma GoesThroughIsSuccess(w: World, b: BindingState, now: int, secret: Result<Option<string>>, faults: Faults)
    requires Complete(b) && !b.meta.deleted
    ensures GoesThrough(EventOf(b, now, secret, Projected(w, b, secret, faults).1)) <==> Succeeds(w, b, secret, faults)
  {
  }

  /**
   One reconcile, also on a status that no run led to: on success the generation is observed, on an error it is not;
   the secret is the resolved one, or what it was if resolution fails.  Nothing changes once deletion has begun.
   */
  lemma ReconcileObserves(w: World, b: BindingState, now: int, secret: Result<Option<string>>, faults: Faults)
    requires Complete(b)
    ensures var b' := Reconciled(w, b, now, secret, faults).1;
            && b'.meta == b.meta && b'.spec == b.spec
            && (b.meta.deleted ==> b' == b)
            && (!b.meta.deleted ==>
                  && b'.status.observedGeneration
                     == (if Succeeds(w, b, secret, faults) then b.meta.generation else b.status.observedGeneration)
                  && b'.status.binding == (if secret.Success? then secret.value else b.status.binding)
                  && |b'.status.conditions| == 3)
  {
  }

  lemma AvailableSays(cs: seq<Condition>, now: int)
    requires Shaped(cs)
    ensures var cs' := Marked(cs, Available, now);
            Shaped(cs') && Says(cs'[1], "ServiceAvailable", "True", "Available", "")
  {
  }

  lemma PropagateSays(cs: seq<Condition>, report: Option<ReadyReport>, now: int)
    requires Shaped(cs) && cs[1].status == "True"
    ensures var cs' := Marked(cs, Propagate(report), now);
            && Shaped(cs') && cs'[1] == cs[1] && SaysReport(cs'[2], report)
            && (report.None? || report.value.status in {"", "True", "False", "Unknown"} ==> SaysReadyFor(cs'[0], report))
  {
  }

  lemma ObserveSays(st: StatusState, ev: Event)
    requires Finds(ev)
    ensures var cs := Observe(st, ev).conditions;
            && |cs| == 3
            && Says(cs[1], "ServiceAvailable", "True", "Available", "")
            && (Reports(ev) ==> SaysReport(cs[2], ev.projection.value))
            && (ReportsKnownText(ev) ==> SaysReadyFor(cs[0], ev.projection.value))
  {
    var cs := Initialized(st.conditions, ev.now);
    InitializedShaped(st.conditions, ev.now);
    AvailableSays(cs, ev.now);
    if Reports(ev) {
      PropagateSays(Marked(cs, Available, ev.now), ev.projection.value, ev.now);
    }
  }

  /**
   What a reconcile with a secret says, whatever the conditions were: the service is available; and with the projection
   at hand, its words, which Ready repeats if the text is known.
   */
  lemma ReconcileSays(w: World, b: BindingState, now: int, secret: string, faults: Faults)
    requires Complete(b) && !b.meta.deleted
    ensures var r := Projected(w, b, Success(Some(secret)), faults).1;
            var cs := Reconciled(w, b, now, Success(Some(secret)), faults).1.status.conditions;
            && |cs| == 3
            && Says(cs[1], "ServiceAvailable", "True", "Available", "")
            && (r.Success? ==>
                  && r.value.Some?
                  && var report := r.value.value.status.ready;
                    && SaysReport(cs[2], report)
                    && (report.None? || report.value.status in {"", "True", "False", "Unknown"} ==> SaysReadyFor(cs[0], report)))
  {
    ObserveSays(b.status, EventOf(b, now, Success(Some(secret)), Projected(w, b, Success(Some(secret)), faults).1));
  }

  /** Transition times of one reconcile: its own clock where the status is new, and otherwise what they were. */
  lemma ReconcileTimes(w: World, b: BindingState, now: int, secret: Result<Option<string>>, faults: Faults)
    requires Complete(b) && !b.meta.deleted && Sound(b.status.conditions)
    ensures var cs, cs' := b.status.conditions, Reconciled(w, b, now, secret, faults).1.status.conditions;
            && |cs'| == 3
            && forall k | 0 <= k < 3 :: cs'[k].lastTransitionTime ==
                 if k < |cs| && cs[k].status == cs'[k].status then cs[k].lastTransitionTime else now
  {
    ObserveStep(b.status, EventOf(b, now, secret, Projected(w, b, secret, faults).1));
  }

  // ---- Marks on any conditions ----

  /** False is worst, then Unknown; other texts do not block. */
  function Rank(status: string): nat {
    if status == "False" then 0 else if status == "Unknown" then 1 else 2
  }

  /** The worst of the conditions 1 and 2 is at `k`, the first of them if they are equally bad. */
  predicate Blocks(cs: seq<Condition>, k: nat)
    requires |cs| >= 3
  {
    && 1 <= k <= 2 && Rank(cs[k].status) < 2
    && forall j | 1 <= j <= 2 :: Rank(cs[k].status) < Rank(cs[j].status) || (Rank(cs[k].status) == Rank(cs[j].status) && k <= j)
  }

  /** Ready carries status, reason and message of the condition that blocks, and its type before the reason. */
  lemma ReadyCarries(cs: seq<Condition>, now: int)
    requires |cs| >= 3
    ensures var r := Aggregated(cs, now)[0];
            && Aggregated(cs, now) == cs[0 := r] && r.kind == cs[0].kind
            && r.lastTransitionTime == (if r.status != cs[0].status then now else cs[0].lastTransitionTime)
            && (forall k: nat | Blocks(cs, k) ::
                  Says(r, cs[0].kind, cs[k].status, (if k == 1 then "ServiceAvailable" else "ProjectionReady") + cs[k].reason,
                       cs[k].message))
            && (cs[1].status == "True" && cs[2].status == "True" ==> Says(r, cs[0].kind, "True", "Ready", ""))
            && ((forall k: nat :: !Blocks(cs, k)) && !(cs[1].status == "True" && cs[2].status == "True") ==> r == cs[0])
  {
    if Rank(cs[1].status) < 2 || Rank(cs[2].status) < 2 {
      assert Blocks(cs, if Rank(cs[1].status) <= Rank(cs[2].status) then 1 else 2);
    }
  }

  lemma UnavailableSays(cs: seq<Condition>, reason: string, message: string, now: int)
    requires |cs| >= 3
    ensures var cs' := Marked(cs, Unavailable(reason, message), now);
            && |cs'| == |cs| && cs'[2..] == cs[2..]
            && Says(cs'[1], cs[1].kind, "False", reason, message)
            && Says(cs'[0], cs[0].kind, "False", "ServiceAvailable" + reason, message)
  {
  }

  /** Initialisation takes the last condition of the type, or makes one that is Unknown. */
  lemma {:induction false} LatestIs(cs: seq<Condition>, kind: string, now: int)
    ensures (exists i :: 0 <= i < |cs| && cs[i].kind == kind && cs[i] == Latest(cs, kind, now)
                         && forall j | i < j < |cs| :: cs[j].kind != kind)
         || ((forall i | 0 <= i < |cs| :: cs[i].kind != kind)
             && Latest(cs, kind, now) == Condition(kind, "Unknown", now, "Unknown", ""))
  {
    if cs != [] {
      var f := Front(cs);
      if Last(cs).kind == kind {
        assert cs[|cs| - 1] == Latest(cs, kind, now);
      } else {
        LatestIs(f, kind, now);
        assert forall i | 0 <= i < |f| :: cs[i] == f[i];
        if i :| 0 <= i < |f| && f[i].kind == kind && f[i] == Latest(f, kind, now) && forall j | i < j < |f| :: f[j].kind != kind {
          assert cs[i] == Latest(cs, kind, now);
        }
      }
    }
  }

  // ---- The stored projection ----

  ghost predicate Mentions(s: string, sub: string) {
    exists front, back :: s == front + sub + back
  }

  /** Spec, labels and annotations of `p` are those that the binding asks for, with this secret. */
  ghost predicate Carries(b: BindingState, secret: string, p: ServiceBindingProjection) {
    && p.spec.name == b.spec.name
    && p.spec.serviceType == b.spec.serviceType
    && p.spec.provider == b.spec.provider
    && p.spec.binding == secret
    && b.spec.workload == Some(p.spec.workload)
    && p.spec.env == b.spec.env
    && "servicebinding.io/servicebinding" in p.meta.labels
    && p.meta.labels["servicebinding.io/servicebinding"] == b.meta.name
    && (forall k | k != "servicebinding.io/servicebinding" ::
          (k in p.meta.labels <==> k in b.meta.labels) && (k in b.meta.labels ==> p.meta.labels[k] == b.meta.labels[k]))
    && (forall k :: k in p.meta.annotations <==> k in b.meta.annotations && Mentions(k, "servicebinding.io"))
    && (forall k | k in p.meta.annotations :: p.meta.annotations[k] == b.meta.annotations[k])
  }

  /** A new object: named after the binding, with it as the one owner, and without status. */
  predicate Fresh(b: BindingState, p: ServiceBindingProjection) {
    && p.meta.name == b.meta.name && p.meta.namespace == b.meta.namespace
    && p.meta.owners == [OwnerReference(b.meta.uid, b.meta.name, true)]
    && !p.meta.deleted && p.status == ProjectionStatus(None, None, "")
  }

  /** What an update keeps of the object that it read. */
  predicate Retained(before: ServiceBindingProjection, p: ServiceBindingProjection) {
    && p.meta.name == before.meta.name && p.meta.namespace == before.meta.namespace && p.meta.uid == before.meta.uid
    && p.meta.generation == before.meta.generation && p.meta.deleted == before.meta.deleted
    && p.meta.owners == before.meta.owners && p.meta.rest == before.meta.rest && p.status == before.status
  }

  lemma MentionsIsContains(s: string, sub: string)
    ensures Mentions(s, sub) <==> Contains(s, sub)
  {
    if i :| 0 <= i <= |s| - |sub| && sub <= s[i..] {
      assert s == s[..i] + sub + s[i + |sub|..];
    }
    if front, back :| s == front + sub + back {
      assert s[|front|..] == sub + back;
    }
  }

  lemma DesiredCarries(b: BindingState, secret: string)
    requires b.spec.workload.Some?
    ensures var d := Desired(WithSecret(b, Some(secret))); Carries(b, secret, d) && Fresh(b, d)
    ensures forall p | SemanticEquals(Desired(WithSecret(b, Some(secret))), p) :: Carries(b, secret, p)
  {
    assert LABEL_KEY == "servicebinding.io/servicebinding";
    forall k ensures Mentions(k, GROUP) <==> Contains(k, GROUP) {
      MentionsIsContains(k, GROUP);
    }
  }

  /**
   A reconcile that found a secret and returned no error, from any cache and store: the projection it got hold of has
   the binding's six spec fields, labels and forwarded annotations.  It was created with one owner, or updated or
   found with everything else as in the cache; and if it was written, or the cache was current, it is what is stored.
   */
  lemma ReconcileStores(w: World, b: BindingState, secret: string, faults: Faults)
    requires Complete(b) && !b.meta.deleted && Succeeds(w, b, Success(Some(secret)), faults)
    ensures var (w', r) := Projected(w, b, Success(Some(secret)), faults);
            var key := (b.meta.namespace, b.meta.name);
            && r.Success? && r.value.Some?
            && var p := r.value.value;
              && Carries(b, secret, p)
              && (key !in w.lister ==> Fresh(b, p) && w'.calls == w.calls + [CreateCall(key)])
              && (key in w.lister ==>
                    && Retained(w.lister[key], p)
                    && ((w' == w && p == w.lister[key]) || w'.calls == w.calls + [UpdateCall(key)]))
              && (w'.calls != w.calls || UpToDate(w, key) ==> key in w'.store && w'.store[key] == p)
  {
    DesiredCarries(b, secret);
  }

  /** Who controls an object: the first owner that is marked as controller, by uid. */
  lemma {:induction false} ControllerIs(owners: seq<OwnerReference>, uid: string)
    ensures ControlledBy(owners, uid) <==>
            exists i :: 0 <= i < |owners| && owners[i].controller && owners[i].uid == uid
                        && forall j | 0 <= j < i :: !owners[j].controller
  {
    if owners != [] && !owners[0].controller {
      var rest := owners[1..];
      ControllerIs(rest, uid);
      if ControlledBy(rest, uid) {
        var i :| 0 <= i < |rest| && rest[i].controller && rest[i].uid == uid && forall j | 0 <= j < i :: !rest[j].controller;
        assert owners[i + 1] == rest[i];
        assert forall j | 0 < j < i + 1 :: owners[j] == rest[j - 1];
      }
      if i :| 0 <= i < |owners| && owners[i].controller && owners[i].uid == uid && forall j | 0 <= j < i :: !owners[j].controller {
        assert rest[i - 1] == owners[i];
        assert forall j | 0 <= j < i - 1 :: rest[j] == owners[j + 1];
      }
    }
  }
}
