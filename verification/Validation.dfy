/**
 Defaulting and validation of both resources, with the scan for duplicate env names as it runs: the slice
 of paths is indexed by position in the spec instead of position in the group, so some duplicates panic.
 */
module Validation {
  import opened Reconciler
  import opened Sequences
  import opened Types

  /** A path `spec.env[i].name` is modelled by `i`; a slot that was never written is None. */
  datatype FieldError =
    | Missing(path: string)
    | Disallowed(path: string)
    | MultipleOneOf(paths: seq<Option<nat>>)
    | InvalidReference(path: string)

  datatype Outcome = Panicked | Returned(errs: seq<FieldError>)

  /** The library's check of a reference, left uninterpreted. */
  const ReferenceValid: Reference -> bool

  /** The check is run on a copy with a placeholder namespace. */
  predicate ReferenceAccepted(r: Reference) {
    ReferenceValid(r.(namespace := "fake")) && r.namespace == ""
  }

  // ---- Positions of a name ----

  function Positions(env: seq<EnvMapping>, name: string): seq<nat> {
    if env == [] then []
    else Positions(Front(env), name) + if Last(env).name == name then [|env| - 1] else []
  }

  ghost predicate Increasing(v: seq<nat>) {
    forall i, j | 0 <= i < j < |v| :: v[i] < v[j]
  }

  lemma {:induction false} PositionMembers(env: seq<EnvMapping>, name: string, i: nat)
    ensures i in Positions(env, name) <==> i < |env| && env[i].name == name
  {
    if env != [] {
      var f := Front(env);
      PositionMembers(f, name, i);
      assert i < |f| ==> env[i] == f[i];
    }
  }

  lemma {:induction false} PositionsIncrease(env: seq<EnvMapping>, name: string)
    ensures Increasing(Positions(env, name))
  {
    if env != [] {
      var f := Front(env);
      PositionsIncrease(f, name);
      var v := Positions(f, name);
      forall i | 0 <= i < |v| ensures v[i] < |f| {
        PositionMembers(f, name, v[i]);
        assert v[i] in v;
      }
    }
  }

  lemma PositionsAre(env: seq<EnvMapping>, name: string)
    ensures Increasing(Positions(env, name))
    ensures forall i: nat :: i in Positions(env, name) <==> i < |env| && env[i].name == name
  {
    PositionsIncrease(env, name);
    forall i: nat ensures i in Positions(env, name) <==> i < |env| && env[i].name == name {
      PositionMembers(env, name, i);
    }
  }

  lemma {:induction false} IncreasingAtLeast(v: seq<nat>, i: nat)
    requires Increasing(v) && i < |v|
    ensures v[i] >= i
  {
    if i > 0 {
      IncreasingAtLeast(v, i - 1);
    }
  }

  /** An increasing list of naturals stays below its length exactly when it counts 0, 1, 2, ... */
  lemma {:induction false} IncreasingBelow(v: seq<nat>, i: nat)
    requires Increasing(v) && i < |v| && forall x | x in v :: x < |v|
    ensures v[i] == i
    decreases |v| - i
  {
    IncreasingAtLeast(v, i);
    if i < |v| - 1 {
      IncreasingBelow(v, i + 1);
    } else {
      assert v[i] in v;
    }
  }

  lemma {:induction false} IncreasingFull(v: seq<nat>, i: nat)
    requires Increasing(v) && forall x: nat | x <= i :: x in v
    ensures i < |v| && v[i] == i
  {
    assert i in v;
    var j :| 0 <= j < |v| && v[j] == i;
    IncreasingAtLeast(v, j);
    if j < i {
      IncreasingFull(v, j);
    }
  }

  // ---- The scan ----

  /** Two entries share a name. */
  ghost predicate Conflict(env: seq<EnvMapping>) {
    exists i, j | 0 <= i < j < |env| :: env[i].name == env[j].name
  }

  /** Writing at every position of the group into a slice of the group's length goes out of bounds. */
  predicate OutOfBounds(v: seq<nat>) {
    |v| != 1 && exists x | x in v :: x >= |v|
  }

  ghost predicate Panics(env: seq<EnvMapping>) {
    exists e | e in env :: OutOfBounds(Positions(env, e.name))
  }

  predicate EnvComplete(env: seq<EnvMapping>) {
    forall e | e in env :: e.name != "" && e.key != ""
  }

  lemma GroupNotEmpty(env: seq<EnvMapping>, i: nat)
    requires i < |env|
    ensures |Positions(env, env[i].name)| >= 1
    ensures forall j | i < j < |env| && env[j].name == env[i].name :: |Positions(env, env[i].name)| >= 2
  {
  }

  lemma ConflictPositions(env: seq<EnvMapping>)
    ensures Conflict(env) <==> exists e | e in env :: |Positions(env, e.name)| != 1
    ensures forall e | e in env :: |Positions(env, e.name)| >= 1
  {
    forall e | e in env ensures |Positions(env, e.name)| >= 1 {
      var i :| 0 <= i < |env| && env[i] == e;
      GroupNotEmpty(env, i);
    }
    if i, j :| 0 <= i < j < |env| && env[i].name == env[j].name {
      GroupNotEmpty(env, i);
      assert env[i] in env;
    }
    if e :| e in env && |Positions(env, e.name)| != 1 {
      PositionsAre(env, e.name);
      var v := Positions(env, e.name);
      assert v[0] in v && v[1] in v && v[0] < v[1];
    }
  }

  /** Entries share a name exactly when both lie among the first `k`. */
  ghost predicate OnlyLeading(env: seq<EnvMapping>, k: nat) {
    forall i, j | 0 <= i < j < |env| :: env[i].name == env[j].name <==> j < k
  }

  lemma LeadingGroup(env: seq<EnvMapping>, k: nat, name: string)
    requires OnlyLeading(env, k)
    ensures !OutOfBounds(Positions(env, name)) || Positions(env, name) == []
  {
    var v := Positions(env, name);
    PositionsAre(env, name);
    if |v| >= 2 {
      var top := v[|v| - 1];
      assert v[0] in v && top in v && v[0] < top;
      assert top < k;
      forall x: nat | x <= top ensures x in v {
        if x != top {
          assert env[x].name == env[top].name;
        }
      }
      IncreasingFull(v, top);
      IncreasingAtLeast(v, |v| - 1);
      forall x | x in v ensures x < |v| {
        var i :| 0 <= i < |v| && v[i] == x;
      }
    }
  }

  lemma LeadingDoesNotPanic(env: seq<EnvMapping>, k: nat)
    requires OnlyLeading(env, k)
    ensures !Panics(env)
  {
    forall e | e in env ensures !OutOfBounds(Positions(env, e.name)) {
      LeadingGroup(env, k, e.name);
      PositionsAre(env, e.name);
      var i :| 0 <= i < |env| && env[i] == e;
      assert i in Positions(env, e.name);
    }
  }

  lemma NoPanicIsLeading(env: seq<EnvMapping>)
    requires !Panics(env)
    ensures exists k: nat :: OnlyLeading(env, k)
  {
    if env == [] {
      assert OnlyLeading(env, 0);
    } else {
      var first := Positions(env, env[0].name);
      PositionsAre(env, env[0].name);
      assert env[0] in env;
      var k := |first|;
      forall i, j | 0 <= i < j < |env| ensures env[i].name == env[j].name <==> j < k {
        if env[i].name == env[j].name {
          var v := Positions(env, env[i].name);
          PositionsAre(env, env[i].name);
          assert env[i] in env && i in v && j in v;
          assert !OutOfBounds(v);
          IncreasingBelow(v, 0);
          assert 0 in v;
        }
        if j < k {
          IncreasingBelow(first, i);
          IncreasingBelow(first, j);
          assert first[i] in first && first[j] in first;
        }
      }
      assert OnlyLeading(env, k);
    }
  }

  /**
   The scan gets through exactly when at most one name is duplicated and its occurrences are the first
   entries of the list; every other duplicate makes it panic.
   */
  lemma ScanPanicsExactly(env: seq<EnvMapping>)
    ensures !Panics(env) <==> exists k: nat :: OnlyLeading(env, k)
  {
    if k: nat :| OnlyLeading(env, k) {
      LeadingDoesNotPanic(env, k);
    }
    if !Panics(env) {
      NoPanicIsLeading(env);
    }
  }

  /** EnvVar.Validate. */
  method ValidateMapping(e: EnvMapping) returns (errs: seq<FieldError>)
    ensures errs == [] <==> e.name != "" && e.key != ""
    ensures forall err | err in errs :: err.Missing?
  {
    errs := [];
    if e.name == "" {
      errs := errs + [Missing("name")];
    }
    if e.key == "" {
      errs := errs + [Missing("key")];
    }
  }

  function NamesOf(env: seq<EnvMapping>): set<string> {
    set e | e in env :: e.name
  }

  lemma {:induction false} AbsentPositions(env: seq<EnvMapping>, name: string)
    requires name !in NamesOf(env)
    ensures Positions(env, name) == []
  {
    if env != [] {
      assert Last(env) in env && forall e | e in Front(env) :: e in env;
      AbsentPositions(Front(env), name);
    }
  }

  function Groups(env: seq<EnvMapping>): map<string, seq<nat>> {
    map n | n in NamesOf(env) :: Positions(env, n)
  }

  lemma PositionsSnoc(env: seq<EnvMapping>, e: EnvMapping, name: string)
    ensures Positions(env + [e], name) == if e.name == name then Positions(env, name) + [|env|] else Positions(env, name)
  {
  }

  lemma NamesSnoc(env: seq<EnvMapping>, e: EnvMapping)
    ensures NamesOf(env + [e]) == NamesOf(env) + {e.name}
  {
  }

  /** The group map after one more entry. */
  function Grouped(g: map<string, seq<nat>>, name: string, i: nat): map<string, seq<nat>> {
    g[name := (if name in g then g[name] else []) + [i]]
  }

  lemma GroupsSnocAt(env: seq<EnvMapping>, e: EnvMapping, n: string)
    requires n in NamesOf(env) || n == e.name
    ensures Positions(env + [e], n) == Grouped(Groups(env), e.name, |env|)[n]
  {
    PositionsSnoc(env, e, n);
    if n !in NamesOf(env) {
      AbsentPositions(env, n);
      assert [] + [|env|] == [|env|];
    }
  }

  lemma GroupsSnoc(env: seq<EnvMapping>, e: EnvMapping)
    ensures Groups(env + [e]) == Grouped(Groups(env), e.name, |env|)
  {
    NamesSnoc(env, e);
    forall n | n in Groups(env + [e]) ensures Groups(env + [e])[n] == Grouped(Groups(env), e.name, |env|)[n] {
      GroupsSnocAt(env, e, n);
    }
  }

  lemma CompleteSnoc(env: seq<EnvMapping>, e: EnvMapping)
    ensures EnvComplete(env + [e]) <==> EnvComplete(env) && e.name != "" && e.key != ""
  {
  }

  /** The body of the grouping loop: the entry's own errors, and its position in its group. */
  method GroupOne(e: EnvMapping, i: nat, envSet: map<string, seq<nat>>, errs: seq<FieldError>)
    returns (envSet': map<string, seq<nat>>, errs': seq<FieldError>)
    requires forall err | err in errs :: err.Missing?
    ensures envSet' == Grouped(envSet, e.name, i)
    ensures errs' == [] <==> errs == [] && e.name != "" && e.key != ""
    ensures forall err | err in errs' :: err.Missing?
  {
    var more := ValidateMapping(e);
    errs' := errs + more;
    envSet' := envSet;
    if e.name !in envSet' {
      envSet' := envSet'[e.name := []];
    }
    envSet' := envSet'[e.name := envSet'[e.name] + [i]];
  }

  /** The grouping loop: each name with the increasing list of its positions. */
  method GroupByName(env: seq<EnvMapping>) returns (envSet: map<string, seq<nat>>, errs: seq<FieldError>)
    ensures envSet == Groups(env)
    ensures errs == [] <==> EnvComplete(env)
    ensures forall err | err in errs :: err.Missing?
  {
    envSet, errs := map[], [];
    for i := 0 to |env|
      invariant envSet == Groups(env[..i])
      invariant errs == [] <==> EnvComplete(env[..i])
      invariant forall err | err in errs :: err.Missing?
    {
      assert env[..i + 1] == env[..i] + [env[i]];
      GroupsSnoc(env[..i], env[i]);
      CompleteSnoc(env[..i], env[i]);
      envSet, errs := GroupOne(env[i], i, envSet, errs);
    }
    assert env[..|env|] == env;
  }

  /** The inner loop over one group; None stands for the run-time panic. */
  method ConflictPaths(v: seq<nat>) returns (r: Option<seq<Option<nat>>>)
    requires Increasing(v)
    ensures r.None? <==> exists x | x in v :: x >= |v|
    ensures r.Some? ==> |r.value| == |v| && forall i | 0 <= i < |v| :: r.value[i] == Some(i)
  {
    var paths := new Option<nat>[|v|](_ => None);
    for pi := 0 to |v|
      invariant forall j | 0 <= j < pi :: v[j] < |v|
      invariant forall j | 0 <= j < pi :: paths[v[j]] == Some(j)
    {
      var i := v[pi];
      if i >= |v| {
        assert i in v;
        return None;
      }
      paths[i] := Some(pi);
    }
    forall i | 0 <= i < |v| ensures paths[i] == Some(i) {
      assert forall x | x in v :: x < |v|;
      IncreasingBelow(v, i);
      assert paths[v[i]] == Some(i);
    }
    r := Some(paths[..]);
  }

  /** The env part of both Validate methods. Map iteration takes the groups in any order. */
  method ValidateEnv(env: seq<EnvMapping>) returns (o: Outcome)
    ensures o.Panicked? <==> Panics(env)
    ensures o.Returned? ==> (o.errs == [] <==> EnvComplete(env) && !Conflict(env))
    ensures o.Returned? ==> ((exists err | err in o.errs :: err.MultipleOneOf?) <==> Conflict(env))
  {
    var envSet, errs := GroupByName(env);
    ghost var missing := errs;
    var names := envSet.Keys;
    while names != {}
      invariant names <= envSet.Keys
      invariant forall n | n in envSet && n !in names :: !OutOfBounds(envSet[n])
      invariant Reported(envSet, names, missing, errs)
      decreases names
    {
      var n :| n in names;
      names := names - {n};
      var v := envSet[n];
      if |v| != 1 {
        PositionsAre(env, n);
        var paths := ConflictPaths(v);
        if paths.None? {
          assert OutOfBounds(v);
          GroupsDecide(env, envSet);
          return Panicked;
        }
        errs := errs + [MultipleOneOf(paths.value)];
      }
    }
    GroupsDecide(env, envSet);
    ReportedErrors(envSet, missing, errs);
    return Returned(errs);
  }

  lemma ReportedErrors(envSet: map<string, seq<nat>>, missing: seq<FieldError>, errs: seq<FieldError>)
    requires Reported(envSet, {}, missing, errs) && forall err | err in missing :: err.Missing?
    ensures (exists err | err in errs :: err.MultipleOneOf?) <==> exists n | n in envSet :: |envSet[n]| != 1
  {
    if |errs| > |missing| {
      assert errs[|missing|] in errs;
    } else {
      assert errs == missing;
    }
  }

  /** The errors so far: those of single entries, then one for each group seen with more than one position. */
  ghost predicate Reported(envSet: map<string, seq<nat>>, names: set<string>, missing: seq<FieldError>, errs: seq<FieldError>) {
    && missing <= errs
    && (forall i | |missing| <= i < |errs| :: errs[i].MultipleOneOf?)
    && (|errs| > |missing| <==> exists n | n in envSet && n !in names :: |envSet[n]| != 1)
  }

  lemma GroupsDecide(env: seq<EnvMapping>, envSet: map<string, seq<nat>>)
    requires envSet == Groups(env)
    ensures Panics(env) <==> exists n | n in envSet :: OutOfBounds(envSet[n])
    ensures Conflict(env) <==> exists n | n in envSet :: |envSet[n]| != 1
  {
    ConflictPositions(env);
    forall e | e in env ensures e.name in envSet {
    }
  }

  // ---- The two resources ----

  predicate WorkloadAccepted(w: WorkloadReference) {
    ReferenceAccepted(w.ref)
  }

  ghost predicate EnvAccepted(env: seq<EnvMapping>) {
    EnvComplete(env) && !Conflict(env)
  }

  ghost predicate ProjectionAccepted(p: ServiceBindingProjection) {
    && p.spec.name != "" && p.spec.binding != ""
    && WorkloadAccepted(p.spec.workload)
    && EnvAccepted(p.spec.env)
    && p.status.annotations.None?
  }

  ghost predicate BindingAccepted(spec: BindingSpec) {
    && spec.workload.Some? && WorkloadAccepted(spec.workload.value)
    && spec.service.Some? && ReferenceAccepted(spec.service.value) && spec.service.value.name != ""
    && EnvAccepted(spec.env)
  }

  method ValidateReference(r: Reference, path: string) returns (errs: seq<FieldError>)
    ensures errs == [] <==> ReferenceAccepted(r)
  {
    errs := [];
    var a := r.(namespace := "fake");
    if !ReferenceValid(a) {
      errs := errs + [InvalidReference(path)];
    }
    if r.namespace != "" {
      errs := errs + [Disallowed(path + ".namespace")];
    }
  }

  /** ServiceBindingProjection.Validate: no errors exactly for acceptable objects, when it does not panic. */
  method ValidateProjection(p: ServiceBindingProjection) returns (o: Outcome)
    ensures o.Panicked? <==> Panics(p.spec.env)
    ensures o.Returned? ==> (o.errs == [] <==> ProjectionAccepted(p))
  {
    var errs := [];
    if p.spec.name == "" {
      errs := errs + [Missing("spec.name")];
    }
    if p.spec.binding == "" {
      errs := errs + [Missing("spec.binding")];
    }
    var refErrs := ValidateReference(p.spec.workload.ref, "spec.workload");
    errs := errs + refErrs;
    var env := ValidateEnv(p.spec.env);
    if env.Panicked? {
      return Panicked;
    }
    errs := errs + env.errs;
    if p.status.annotations.Some? {
      errs := errs + [Disallowed("status.annotations")];
    }
    return Returned(errs);
  }

  /** ServiceBinding.Validate. */
  method ValidateBinding(spec: BindingSpec) returns (o: Outcome)
    ensures o.Panicked? <==> Panics(spec.env)
    ensures o.Returned? ==> (o.errs == [] <==> BindingAccepted(spec))
  {
    var errs := [];
    if spec.workload.None? {
      errs := errs + [Missing("spec.workload")];
    } else {
      var refErrs := ValidateReference(spec.workload.value.ref, "spec.workload");
      errs := errs + refErrs;
    }
    if spec.service.None? {
      errs := errs + [Missing("spec.service")];
    } else {
      var refErrs := ValidateReference(spec.service.value, "spec.service");
      errs := errs + refErrs;
      if spec.service.value.name == "" {
        errs := errs + [Missing("spec.service.name")];
      }
    }
    var env := ValidateEnv(spec.env);
    if env.Panicked? {
      return Panicked;
    }
    return Returned(errs + env.errs);
  }

  function Defaulted(b: BindingState): BindingState {
    if b.spec.name == "" then b.(spec := b.spec.(name := b.meta.name)) else b
  }

  /** ServiceBinding.SetDefaults. */
  method SetDefaults(b: ServiceBinding)
    modifies b`spec
    ensures b.State() == Defaulted(old(b.State()))
    ensures b.spec.name == if old(b.spec.name) == "" then b.meta.name else old(b.spec.name)
    ensures b.spec.serviceType == old(b.spec.serviceType) && b.spec.provider == old(b.spec.provider)
    ensures b.spec.workload == old(b.spec.workload) && b.spec.service == old(b.spec.service) && b.spec.env == old(b.spec.env)
  {
    if b.spec.name == "" {
      b.spec := b.spec.(name := b.meta.name);
    }
  }

  /** Both, spelled out: what must be there, what must not, and that no two mappings share a name. */
  lemma AcceptedMeans(p: ServiceBindingProjection, spec: BindingSpec)
    ensures ProjectionAccepted(p) <==>
              && p.spec.name != "" && p.spec.binding != ""
              && ReferenceValid(p.spec.workload.ref.(namespace := "fake")) && p.spec.workload.ref.namespace == ""
              && (forall i | 0 <= i < |p.spec.env| :: p.spec.env[i].name != "" && p.spec.env[i].key != "")
              && (forall i, j | 0 <= i < j < |p.spec.env| :: p.spec.env[i].name != p.spec.env[j].name)
              && p.status.annotations == None
    ensures BindingAccepted(spec) <==>
              && spec.workload.Some? && spec.service.Some?
              && ReferenceValid(spec.workload.value.ref.(namespace := "fake")) && spec.workload.value.ref.namespace == ""
              && ReferenceValid(spec.service.value.(namespace := "fake")) && spec.service.value.namespace == ""
              && spec.service.value.name != ""
              && (forall i | 0 <= i < |spec.env| :: spec.env[i].name != "" && spec.env[i].key != "")
              && (forall i, j | 0 <= i < j < |spec.env| :: spec.env[i].name != spec.env[j].name)
  {
  }

  // ---- Translation keeps validity ----

  lemma AcceptedDoesNotPanic(env: seq<EnvMapping>)
    requires !Conflict(env)
    ensures !Panics(env)
  {
    assert OnlyLeading(env, 0);
    LeadingDoesNotPanic(env, 0);
  }

  /**
   A defaulted binding that passes validation is turned into a projection that passes validation exactly
   when it has a name and the resolved secret has one; the same holds for the object that an update
   stores, unless its status already carried annotations.
   */
  lemma TranslationKeepsValidity(b: BindingState, secret: string, existing: ServiceBindingProjection)
    requires BindingAccepted(Defaulted(b).spec)
    ensures var desired := Desired(WithSecret(Defaulted(b), Some(secret)));
            var named := (b.spec.name != "" || b.meta.name != "") && secret != "";
            && !Panics(desired.spec.env)
            && (ProjectionAccepted(desired) <==> named)
            && (ProjectionAccepted(Merged(existing, desired)) <==> named && existing.status.annotations.None?)
  {
    AcceptedDoesNotPanic(b.spec.env);
  }

  /** A concrete list for each case: a leading duplicate is reported, a later one panics. */
  lemma DuplicateCases(a: EnvMapping, b: EnvMapping)
    requires a.name != b.name
    ensures Conflict([a, a]) && !Panics([a, a])
    ensures Conflict([a, b, b]) && Panics([a, b, b])
  {
    assert [a, a][0].name == [a, a][1].name;
    assert OnlyLeading([a, a], 2);
    LeadingDoesNotPanic([a, a], 2);
    var env := [a, b, b];
    assert env[1].name == env[2].name && env[0].name != env[1].name;
    forall k: nat ensures !OnlyLeading(env, k) {
      assert k > 2 ==> 1 < k;
    }
    ScanPanicsExactly(env);
  }
}
