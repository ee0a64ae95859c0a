/** The three conditions of a ServiceBinding: initialised, marked and aggregated, with their transition times. */
module Conditions {
  import opened Sequences
  import opened Types

  const READY := "Ready"
  const SERVICE_AVAILABLE := "ServiceAvailable"
  const PROJECTION_READY := "ProjectionReady"

  const TRUE := "True"
  const FALSE := "False"
  const UNKNOWN := "Unknown"

  // ---- The operations, as functions on the list of conditions ----

  /** The last entry of a type, or a fresh one. */
  function Latest(cs: seq<Condition>, kind: string, now: int): Condition {
    if cs == [] then Condition(kind, UNKNOWN, now, UNKNOWN, "")
    else if Last(cs).kind == kind then Last(cs)
    else Latest(Front(cs), kind, now)
  }

  function Initialized(cs: seq<Condition>, now: int): seq<Condition> {
    [Latest(cs, READY, now), Latest(cs, SERVICE_AVAILABLE, now), Latest(cs, PROJECTION_READY, now)]
  }

  /** A condition with a new status; the time moves only if the status does. */
  function Restated(c: Condition, status: string, reason: string, message: string, now: int): Condition {
    c.(status := status, reason := reason, message := message,
       lastTransitionTime := if c.status != status then now else c.lastTransitionTime)
  }

  function Aggregated(cs: seq<Condition>, now: int): seq<Condition>
    requires |cs| >= 3
  {
    var (r, s, p) := (cs[0], cs[1], cs[2]);
    cs[0 :=
      if s.status == TRUE && p.status == TRUE then Restated(r, TRUE, READY, "", now)
      else if s.status == FALSE then Restated(r, FALSE, SERVICE_AVAILABLE + s.reason, s.message, now)
      else if p.status == FALSE then Restated(r, FALSE, PROJECTION_READY + p.reason, p.message, now)
      else if s.status == UNKNOWN then Restated(r, UNKNOWN, SERVICE_AVAILABLE + s.reason, s.message, now)
      else if p.status == UNKNOWN then Restated(r, UNKNOWN, PROJECTION_READY + p.reason, p.message, now)
      else r]
  }

  datatype Mark =
    | Available
    | Unavailable(reason: string, message: string)
    | Propagate(report: Option<ReadyReport>)

  /** The status a projection's Ready condition stands for; a missing or empty one is Unknown. */
  function ReportedStatus(report: Option<ReadyReport>): string {
    if report.None? || report.value.status == "" then UNKNOWN else report.value.status
  }

  function ReportedReason(report: Option<ReadyReport>): string {
    if report.Some? && report.value.reason != "" then report.value.reason
    else if ReportedStatus(report) == TRUE then "Projected"
    else UNKNOWN
  }

  function ReportedMessage(report: Option<ReadyReport>): string {
    if report.Some? then report.value.message else ""
  }

  function Marked(cs: seq<Condition>, mark: Mark, now: int): seq<Condition>
    requires |cs| >= 3
  {
    match mark
    case Available => Aggregated(cs[1 := Restated(cs[1], TRUE, "Available", "", now)], now)
    case Unavailable(reason, message) => Aggregated(cs[1 := Restated(cs[1], FALSE, reason, message, now)], now)
    case Propagate(report) =>
      Aggregated(
        cs[2 := Restated(cs[2], ReportedStatus(report), ReportedReason(report), ReportedMessage(report), now)], now)
  }

  // ---- The operations, on the object ----

  class ServiceBindingStatus {
    var observedGeneration: int
    var conditions: seq<Condition>
    var binding: Option<string>

    constructor (state: StatusState)
      ensures State() == state
    {
      observedGeneration, conditions, binding := state.observedGeneration, state.conditions, state.binding;
    }

    ghost function State(): StatusState
      reads this
    {
      StatusState(observedGeneration, conditions, binding)
    }

    method InitializeConditions(now: int)
      modifies this`conditions
      ensures conditions == Initialized(old(conditions), now)
    {
      var ready := Condition(READY, UNKNOWN, now, UNKNOWN, "");
      var serviceAvailable := Condition(SERVICE_AVAILABLE, UNKNOWN, now, UNKNOWN, "");
      var projectionReady := Condition(PROJECTION_READY, UNKNOWN, now, UNKNOWN, "");
      for i := 0 to |conditions|
        invariant conditions == old(conditions)
        invariant ready == Latest(conditions[..i], READY, now)
        invariant serviceAvailable == Latest(conditions[..i], SERVICE_AVAILABLE, now)
        invariant projectionReady == Latest(conditions[..i], PROJECTION_READY, now)
      {
        assert Front(conditions[..i + 1]) == conditions[..i];
        var c := conditions[i];
        if c.kind == READY {
          ready := c;
        } else if c.kind == SERVICE_AVAILABLE {
          serviceAvailable := c;
        } else if c.kind == PROJECTION_READY {
          projectionReady := c;
        }
      }
      assert conditions[..|conditions|] == conditions;
      conditions := [ready, serviceAvailable, projectionReady];
    }

    method MarkServiceAvailable(now: int)
      requires |conditions| >= 3
      modifies this`conditions
      ensures conditions == Marked(old(conditions), Available, now)
    {
      if conditions[1].status != TRUE {
        conditions := conditions[1 := conditions[1].(lastTransitionTime := now)];
      }
      conditions := conditions[1 := conditions[1].(status := TRUE)];
      conditions := conditions[1 := conditions[1].(reason := "Available")];
      conditions := conditions[1 := conditions[1].(message := "")];
      assert conditions == old(conditions)[1 := Restated(old(conditions)[1], TRUE, "Available", "", now)];
      AggregateReadyCondition(now);
    }

    method MarkServiceUnavailable(reason: string, message: string, now: int)
      requires |conditions| >= 3
      modifies this`conditions
      ensures conditions == Marked(old(conditions), Unavailable(reason, message), now)
    {
      if conditions[1].status != FALSE {
        conditions := conditions[1 := conditions[1].(lastTransitionTime := now)];
      }
      conditions := conditions[1 := conditions[1].(status := FALSE)];
      conditions := conditions[1 := conditions[1].(reason := reason)];
      conditions := conditions[1 := conditions[1].(message := message)];
      assert conditions == old(conditions)[1 := Restated(old(conditions)[1], FALSE, reason, message, now)];
      AggregateReadyCondition(now);
    }

    /** Without a projection nothing happens. */
    method PropagateServiceBindingProjectionStatus(bp: Option<ProjectionStatus>, now: int)
      requires bp.Some? ==> |conditions| >= 3
      modifies this`conditions
      ensures bp.None? ==> conditions == old(conditions)
      ensures bp.Some? ==> conditions == Marked(old(conditions), Propagate(bp.value.ready), now)
    {
      if bp.None? {
        return;
      }
      var report := bp.value.ready;
      var sbpready := if report.Some? then report.value else ReadyReport("", "", "");
      var newStatus := if sbpready.status == "" then UNKNOWN else sbpready.status;
      if conditions[2].status != newStatus {
        conditions := conditions[2 := conditions[2].(lastTransitionTime := now)];
      }
      conditions := conditions[2 := conditions[2].(status := newStatus)];
      if sbpready.reason != "" {
        conditions := conditions[2 := conditions[2].(reason := sbpready.reason)];
      } else if conditions[2].status == TRUE {
        conditions := conditions[2 := conditions[2].(reason := "Projected")];
      } else {
        conditions := conditions[2 := conditions[2].(reason := UNKNOWN)];
      }
      conditions := conditions[2 := conditions[2].(message := sbpready.message)];
      assert conditions == old(conditions)[2 :=
        Restated(old(conditions)[2], ReportedStatus(report), ReportedReason(report), ReportedMessage(report), now)];
      AggregateReadyCondition(now);
    }

    method AggregateReadyCondition(now: int)
      requires |conditions| >= 3
      modifies this`conditions
      ensures conditions == Aggregated(old(conditions), now)
    {
      var currentStatus := conditions[0].status;
      if conditions[1].status == TRUE && conditions[2].status == TRUE {
        SetReady(TRUE, READY, "");
      } else if conditions[1].status == FALSE {
        SetReady(FALSE, SERVICE_AVAILABLE + conditions[1].reason, conditions[1].message);
      } else if conditions[2].status == FALSE {
        SetReady(FALSE, PROJECTION_READY + conditions[2].reason, conditions[2].message);
      } else if conditions[1].status == UNKNOWN {
        SetReady(UNKNOWN, SERVICE_AVAILABLE + conditions[1].reason, conditions[1].message);
      } else if conditions[2].status == UNKNOWN {
        SetReady(UNKNOWN, PROJECTION_READY + conditions[2].reason, conditions[2].message);
      }
      if conditions[0].status != currentStatus {
        conditions := conditions[0 := conditions[0].(lastTransitionTime := now)];
      }
    }

    method SetReady(status: string, reason: string, message: string)
      requires |conditions| >= 3
      modifies this`conditions
      ensures conditions
           == old(conditions)[0 := old(conditions)[0].(status := status, reason := reason, message := message)]
    {
      conditions := conditions[0 := conditions[0].(status := status, reason := reason, message := message)];
    }
  }

  // ---- Readiness after any marks ----

  predicate Known(status: string) {
    status == TRUE || status == FALSE || status == UNKNOWN
  }

  /** Three-valued conjunction: False below Unknown below True. */
  function Conjunction(s: string, t: string): string {
    if s == FALSE || t == FALSE then FALSE
    else if s == UNKNOWN || t == UNKNOWN then UNKNOWN
    else TRUE
  }

  /** Exactly the three types, in order. */
  predicate Shaped(cs: seq<Condition>) {
    |cs| == 3 && cs[0].kind == READY && cs[1].kind == SERVICE_AVAILABLE && cs[2].kind == PROJECTION_READY
  }

  /** Ready is the conjunction of the other two. */
  predicate Aggregate(cs: seq<Condition>) {
    && Shaped(cs)
    && Known(cs[1].status) && Known(cs[2].status)
    && cs[0].status == Conjunction(cs[1].status, cs[2].status)
  }

  function MarkedAll(cs: seq<Condition>, marks: seq<(Mark, int)>): (r: seq<Condition>)
    requires |cs| >= 3
    ensures |r| == |cs|
  {
    if marks == [] then cs else Marked(MarkedAll(cs, Front(marks)), Last(marks).0, Last(marks).1)
  }

  lemma MarkKeepsAggregate(cs: seq<Condition>, mark: Mark, now: int)
    requires Aggregate(cs)
    requires mark.Propagate? ==> Known(ReportedStatus(mark.report))
    ensures Aggregate(Marked(cs, mark, now))
  {
  }

  /** After initialisation from nothing and any marks with known statuses, Ready is the conjunction. */
  lemma {:induction false} MarksKeepAggregate(start: int, marks: seq<(Mark, int)>)
    requires forall m | m in marks && m.0.Propagate? :: Known(ReportedStatus(m.0.report))
    ensures Aggregate(MarkedAll(Initialized([], start), marks))
  {
    if marks != [] {
      assert Last(marks) in marks;
      MarksKeepAggregate(start, Front(marks));
      MarkKeepsAggregate(MarkedAll(Initialized([], start), Front(marks)), Last(marks).0, Last(marks).1);
    }
  }

  /** Ready is True exactly when the other two are. */
  predicate Truthful(cs: seq<Condition>)
    requires |cs| >= 3
  {
    cs[0].status == TRUE <==> cs[1].status == TRUE && cs[2].status == TRUE
  }

  /**
   A projection may report any text as its status.  Ready then says True for the other two exactly
   when the text is a known status, or Ready was not True, or the service is not available.
   */
  lemma UnknownStatusSticks(cs: seq<Condition>, report: Option<ReadyReport>, now: int)
    requires |cs| >= 3 && Known(cs[1].status)
    ensures Truthful(Marked(cs, Propagate(report), now))
       <==> Known(ReportedStatus(report)) || cs[0].status != TRUE || cs[1].status != TRUE
  {
  }

  // ---- Status over whole runs of reconciles ----

  /** What one reconcile gets to see; `projection` matters only once a secret was resolved. */
  datatype Event = Event(
    now: int,
    generation: int,
    deleted: bool,
    secret: Result<Option<string>>,
    projection: Result<Option<ReadyReport>>)

  /** The status that ReconcileKind leaves, also when it returns an error. */
  function Observe(st: StatusState, ev: Event): StatusState {
    if ev.deleted then st
    else
      var cs := Initialized(st.conditions, ev.now);
      if ev.secret.Failure? then st.(conditions := cs)
      else if ev.secret.value.None? then
        st.(conditions := cs, binding := None, observedGeneration := ev.generation)
      else
        var available := Marked(cs, Available, ev.now);
        if ev.projection.Failure? then st.(conditions := available, binding := ev.secret.value)
        else StatusState(ev.generation, Marked(available, Propagate(ev.projection.value), ev.now), ev.secret.value)
  }

  function ObserveAll(evs: seq<Event>): StatusState {
    if evs == [] then StatusState(0, [], None) else Observe(ObserveAll(Front(evs)), Last(evs))
  }

  /** What every reconcile from an empty status keeps, whatever the projection reports. */
  predicate Sound(cs: seq<Condition>) {
    cs == [] ||
    (&& Shaped(cs)
     && (cs[1].status == TRUE || (cs[0].status == cs[1].status == cs[2].status == UNKNOWN))
     && (cs[1].status == TRUE && Known(cs[2].status) ==> cs[0].status == cs[2].status)
     && cs[0].reason != "" && cs[1].reason != "" && cs[2].reason != "")
  }

  lemma InitializedIdentity(cs: seq<Condition>, now: int)
    requires Shaped(cs)
    ensures Initialized(cs, now) == cs
  {
    forall kind ensures Latest(cs, kind, now) == if cs[2].kind == kind then cs[2] else if cs[1].kind == kind then cs[1]
                                                 else if cs[0].kind == kind then cs[0] else Latest([], kind, now) {
      LatestOfThree(cs[0], cs[1], cs[2], kind, now);
      assert cs == [cs[0], cs[1], cs[2]];
    }
  }

  lemma LatestOfThree(a: Condition, b: Condition, c: Condition, kind: string, now: int)
    ensures Latest([a, b, c], kind, now) == if c.kind == kind then c else if b.kind == kind then b
                                            else if a.kind == kind then a else Latest([], kind, now)
  {
    assert Front([a, b, c]) == [a, b] && Front([a, b]) == [a] && Front([a]) == [];
    assert Latest([a, b], kind, now) == if b.kind == kind then b else Latest([a], kind, now);
  }

  /** The first of the two aggregations in a reconcile never changes Ready: only the second one can. */
  lemma FirstAggregationIsQuiet(cs: seq<Condition>, now: int)
    requires Sound(cs)
    ensures var initial := Initialized(cs, now);
            && Sound(initial)
            && Marked(initial, Available, now)[0].status == initial[0].status
            && Marked(initial, Available, now)[0].lastTransitionTime == initial[0].lastTransitionTime
  {
    if cs != [] {
      InitializedIdentity(cs, now);
    }
  }

  /** The status of condition `k` is not what it was, or it was not there. */
  predicate Changed(cs: seq<Condition>, cs': seq<Condition>, k: nat) {
    k < |cs'| && (k >= |cs| || cs[k].status != cs'[k].status)
  }

  /** The times of `cs'` are exact against `cs`. */
  predicate TimesExact(cs: seq<Condition>, cs': seq<Condition>, now: int) {
    forall k | 0 <= k < |cs'| :: cs'[k].lastTransitionTime == if Changed(cs, cs', k) then now else cs[k].lastTransitionTime
  }

  lemma InitializeStep(cs: seq<Condition>, now: int)
    requires Sound(cs)
    ensures var cs' := Initialized(cs, now);
            |cs'| == 3 && Sound(cs') && TimesExact(cs, cs', now) && (cs != [] ==> cs' == cs)
  {
    if cs != [] {
      InitializedIdentity(cs, now);
    }
  }

  lemma AvailableStep(cs: seq<Condition>, now: int)
    requires Sound(cs) && |cs| == 3
    ensures var cs' := Marked(cs, Available, now);
            && |cs'| == 3 && Sound(cs') && cs'[1].status == TRUE
            && cs'[0].status == cs[0].status && cs'[2] == cs[2]
            && TimesExact(cs, cs', now)
  {
  }

  lemma PropagateStep(cs: seq<Condition>, report: Option<ReadyReport>, now: int)
    requires Sound(cs) && |cs| == 3 && cs[1].status == TRUE
    ensures var cs' := Marked(cs, Propagate(report), now);
            && |cs'| == 3 && Sound(cs') && cs'[1] == cs[1]
            && TimesExact(cs, cs', now)
  {
  }

  /** Exactness composes when each condition changes in at most one of the steps. */
  lemma TimesCompose(cs: seq<Condition>, cs': seq<Condition>, cs'': seq<Condition>, now: int)
    requires TimesExact(cs, cs', now) && TimesExact(cs', cs'', now) && |cs'| == |cs''| && |cs| <= |cs'|
    requires forall k | 0 <= k < |cs'| :: !(Changed(cs, cs', k) && k < |cs| && Changed(cs', cs'', k))
    ensures TimesExact(cs, cs'', now)
  {
  }

  /** One reconcile: the invariant is kept, availability is not lost, and times move exactly with statuses. */
  lemma ObserveStep(st: StatusState, ev: Event)
    requires Sound(st.conditions)
    ensures var cs, cs' := st.conditions, Observe(st, ev).conditions;
            && Sound(cs')
            && (!ev.deleted ==> |cs'| == 3) && (ev.deleted ==> cs' == cs)
            && (|cs| == 3 && cs[1].status == TRUE ==> cs'[1].status == TRUE)
            && TimesExact(cs, cs', ev.now)
  {
    var cs := st.conditions;
    var initial := Initialized(cs, ev.now);
    InitializeStep(cs, ev.now);
    if !ev.deleted && ev.secret.Success? && ev.secret.value.Some? {
      var available := Marked(initial, Available, ev.now);
      AvailableStep(initial, ev.now);
      TimesCompose(cs, initial, available, ev.now);
      if ev.projection.Success? {
        PropagateStep(available, ev.projection.value, ev.now);
        TimesCompose(cs, available, Marked(available, Propagate(ev.projection.value), ev.now), ev.now);
      }
    }
  }

  /** Readiness over runs: order and types fixed, Ready following the others, reasons never empty. */
  lemma {:induction false} RunsAreSound(evs: seq<Event>)
    ensures Sound(ObserveAll(evs).conditions)
  {
    if evs != [] {
      RunsAreSound(Front(evs));
      ObserveStep(ObserveAll(Front(evs)), Last(evs));
    }
  }

  /** The event resolves a secret and gets hold of a projection that reports a known status. */
  predicate ReportsKnown(ev: Event) {
    && !ev.deleted && ev.secret.Success? && ev.secret.value.Some?
    && ev.projection.Success? && Known(ReportedStatus(ev.projection.value))
  }

  function LastKnownReport(evs: seq<Event>): string {
    if evs == [] then UNKNOWN
    else if ReportsKnown(Last(evs)) then ReportedStatus(Last(evs).projection.value)
    else LastKnownReport(Front(evs))
  }

  /**
   Ready over every run, whatever texts the projections report: it says what the last known report of a
   reconcile with a secret said, and Unknown before the first.  Reports of other texts leave it behind.
   */
  lemma {:induction false} ReadyIsLastKnownReport(evs: seq<Event>)
    ensures var cs := ObserveAll(evs).conditions; cs != [] ==> cs[0].status == LastKnownReport(evs)
    ensures ObserveAll(evs).conditions == [] ==> LastKnownReport(evs) == UNKNOWN
  {
    if evs != [] {
      var st, ev := ObserveAll(Front(evs)), Last(evs);
      ReadyIsLastKnownReport(Front(evs));
      RunsAreSound(Front(evs));
      FirstAggregationIsQuiet(st.conditions, ev.now);
      if st.conditions != [] {
        InitializedIdentity(st.conditions, ev.now);
      }
    }
  }

  /** With known reports only, Ready is the conjunction after every reconcile. */
  lemma {:induction false} RunsAggregate(evs: seq<Event>)
    requires forall ev | ev in evs && ev.projection.Success? :: Known(ReportedStatus(ev.projection.value))
    ensures var cs := ObserveAll(evs).conditions; cs == [] || Aggregate(cs)
  {
    if evs != [] {
      var st, ev := ObserveAll(Front(evs)), Last(evs);
      assert ev in evs;
      RunsAggregate(Front(evs));
      if st.conditions != [] {
        InitializedIdentity(st.conditions, ev.now);
      }
      if !ev.deleted {
        var cs := Initialized(st.conditions, ev.now);
        MarkKeepsAggregate(cs, Available, ev.now);
        if ev.projection.Success? {
          MarkKeepsAggregate(Marked(cs, Available, ev.now), Propagate(ev.projection.value), ev.now);
        }
      }
    }
  }

  lemma {:induction false} AvailabilityLasts(evs: seq<Event>, more: seq<Event>)
    requires var cs := ObserveAll(evs).conditions; |cs| == 3 && cs[1].status == TRUE
    ensures var cs := ObserveAll(evs + more).conditions; |cs| == 3 && cs[1].status == TRUE
  {
    if more == [] {
      assert evs + more == evs;
    } else {
      AvailabilityLasts(evs, Front(more));
      assert Front(evs + more) == evs + Front(more);
      RunsAreSound(evs + Front(more));
      ObserveStep(ObserveAll(evs + Front(more)), Last(more));
    }
  }

  ghost predicate ChangedAt(evs: seq<Event>, k: nat, j: nat) {
    j < |evs| && Changed(ObserveAll(evs[..j]).conditions, ObserveAll(evs[..j + 1]).conditions, k)
  }

  /** Event `j` is the last that created condition `k` or left its status different from before. */
  ghost predicate LastChangedAt(evs: seq<Event>, k: nat, j: nat) {
    ChangedAt(evs, k, j) && forall i: nat | j < i < |evs| :: !ChangedAt(evs, k, i)
  }

  /** Transition times are exact over every run from an empty status. */
  lemma {:induction false} TransitionTimesExact(evs: seq<Event>, k: nat)
    requires k < |ObserveAll(evs).conditions|
    ensures exists j: nat :: LastChangedAt(evs, k, j) && ObserveAll(evs).conditions[k].lastTransitionTime == evs[j].now
  {
    var n := |evs| - 1;
    var before := ObserveAll(Front(evs)).conditions;
    assert evs[..n] == Front(evs) && evs[..n + 1] == evs;
    RunsAreSound(Front(evs));
    ObserveStep(ObserveAll(Front(evs)), Last(evs));
    if ChangedAt(evs, k, n) {
      assert LastChangedAt(evs, k, n);
    } else {
      TransitionTimesExact(Front(evs), k);
      var j: nat :| LastChangedAt(Front(evs), k, j) && before[k].lastTransitionTime == Front(evs)[j].now;
      assert forall i | 0 <= i <= n :: Front(evs)[..i] == evs[..i];
      assert ChangedAt(evs, k, j);
      forall i: nat | j < i < |evs| ensures !ChangedAt(evs, k, i) {
        if i < n {
          assert !ChangedAt(Front(evs), k, i);
          assert Front(evs)[..i + 1] == evs[..i + 1];
        }
      }
      assert LastChangedAt(evs, k, j);
    }
  }

  /** A concrete case: the projection stops being ready with a status outside the three, and Ready stays True. */
  lemma ReadyCanOutliveProjection(start: int, now: int)
    ensures var cs := MarkedAll(Initialized([], start),
                                [(Available, start), (Propagate(Some(ReadyReport(TRUE, "", ""))), start)]);
            var cs' := Marked(cs, Propagate(Some(ReadyReport("Degraded", "", ""))), now);
            cs'[0].status == TRUE && cs'[2].status == "Degraded"
  {
  }
}
