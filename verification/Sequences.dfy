/** Filtering and gathering of sequences, in the left-to-right order in which the Go loops append. */
module Sequences {

  function Last<T(!new)>(s: seq<T>): T
    requires s != []
  {
    s[|s| - 1]
  }

  function Front<T(!new)>(s: seq<T>): seq<T>
    requires s != []
  {
    s[..|s| - 1]
  }

  /** The elements of `s` that satisfy `p`, in order. */
  function Filter<T(!new)>(s: seq<T>, p: T -> bool): seq<T> {
    if s == [] then [] else Filter(Front(s), p) + if p(Last(s)) then [Last(s)] else []
  }

  lemma {:induction false} FilterConcat<T(!new)>(s: seq<T>, t: seq<T>, p: T -> bool)
    ensures Filter(s + t, p) == Filter(s, p) + Filter(t, p)
  {
    if t == [] {
      assert s + t == s;
    } else {
      FilterConcat(s, Front(t), p);
      assert Front(s + t) == s + Front(t);
    }
  }

  lemma {:induction false} FilterMembers<T(!new)>(s: seq<T>, p: T -> bool)
    ensures forall x :: x in Filter(s, p) <==> x in s && p(x)
    ensures |Filter(s, p)| <= |s|
    ensures multiset(Filter(s, p)) <= multiset(s)
  {
    if s != [] {
      FilterMembers(Front(s), p);
      assert s == Front(s) + [Last(s)];
    }
  }

  lemma {:induction false} FilterAll<T(!new)>(s: seq<T>, p: T -> bool)
    requires forall x | x in s :: p(x)
    ensures Filter(s, p) == s
  {
    if s != [] {
      var f, z := Front(s), Last(s);
      assert s == f + [z];
      assert z in s && forall x | x in f :: x in s;
      FilterAll(f, p);
    }
  }

  lemma {:induction false} FilterNone<T(!new)>(s: seq<T>, p: T -> bool)
    requires forall x | x in s :: !p(x)
    ensures Filter(s, p) == []
  {
    if s != [] {
      FilterNone(Front(s), p);
    }
  }

  lemma FilterOccupied<T(!new)>(s: seq<T>, p: T -> bool)
    ensures |Filter(s, p)| > 0 <==> exists x | x in s :: p(x)
  {
    FilterMembers(s, p);
    if Filter(s, p) != [] {
      assert Filter(s, p)[0] in Filter(s, p);
    }
  }

  /** `at` lists the places of `s` where `p` holds, in order, and `t` what stands there. */
  ghost predicate Selects<T(!new)>(s: seq<T>, t: seq<T>, p: T -> bool, at: seq<nat>) {
    && |at| == |t|
    && (forall i, j | 0 <= i < j < |at| :: at[i] < at[j])
    && (forall i | 0 <= i < |at| :: at[i] < |s| && t[i] == s[at[i]])
    && (forall k: nat | k < |s| :: k in at <==> p(s[k]))
  }

  /** `t` is what remains of `s` when exactly the elements with `p` stay, in their order. */
  ghost predicate Remains<T(!new)>(s: seq<T>, t: seq<T>, p: T -> bool) {
    exists at :: Selects(s, t, p, at)
  }

  lemma SelectsKept<T(!new)>(s: seq<T>, t: seq<T>, x: T, p: T -> bool, at: seq<nat>)
    requires Selects(s, t, p, at) && p(x)
    ensures Selects(s + [x], t + [x], p, at + [|s|])
  {
    var at' := at + [|s|];
    forall k: nat | k < |s| + 1 ensures k in at' <==> p((s + [x])[k]) {
      if k < |s| {
        assert (s + [x])[k] == s[k];
      }
    }
    forall i | 0 <= i < |at| ensures at[i] < |s| && (t + [x])[i] == (s + [x])[at[i]] {
      assert t[i] == s[at[i]];
    }
  }

  lemma SelectsDropped<T(!new)>(s: seq<T>, t: seq<T>, x: T, p: T -> bool, at: seq<nat>)
    requires Selects(s, t, p, at) && !p(x)
    ensures Selects(s + [x], t, p, at)
  {
    assert forall i | 0 <= i < |at| :: at[i] < |s|;
  }

  lemma {:induction false} FilterRemains<T(!new)>(s: seq<T>, p: T -> bool)
    ensures Remains(s, Filter(s, p), p)
  {
    if s == [] {
      assert Selects(s, [], p, []);
    } else {
      var f, x := Front(s), Last(s);
      FilterRemains(f, p);
      var at :| Selects(f, Filter(f, p), p, at);
      assert s == f + [x];
      if p(x) {
        SelectsKept(f, Filter(f, p), x, p, at);
      } else {
        SelectsDropped(f, Filter(f, p), x, p, at);
        assert Filter(f, p) + [] == Filter(f, p);
      }
    }
  }

  /** The first element that a filter keeps. */
  lemma FilterFirst<T(!new)>(s: seq<T>, p: T -> bool)
    requires Filter(s, p) != []
    ensures exists i :: 0 <= i < |s| && s[i] == Filter(s, p)[0] && p(s[i]) && forall j | 0 <= j < i :: !p(s[j])
  {
    FilterRemains(s, p);
    var at :| Selects(s, Filter(s, p), p, at);
    assert at[0] in at && s[at[0]] == Filter(s, p)[0];
    assert forall i | 0 <= i < |at| :: at[0] <= at[i];
    assert forall j: nat | j < at[0] :: j !in at && !p(s[j]);
  }

  /** A filter that drops something shortens the sequence. */
  lemma {:induction false} FilterShorter<T(!new)>(s: seq<T>, x: T, p: T -> bool)
    requires x in s && !p(x)
    ensures |Filter(s, p)| < |s|
  {
    FilterMembers(Front(s), p);
    if x in Front(s) {
      FilterShorter(Front(s), x, p);
    }
  }

  lemma {:induction false} FilterAgree<T(!new)>(s: seq<T>, p: T -> bool, q: T -> bool)
    requires forall x | x in s :: p(x) == q(x)
    ensures Filter(s, p) == Filter(s, q)
  {
    if s != [] {
      var f, z := Front(s), Last(s);
      assert z in s && forall x | x in f :: x in s;
      FilterAgree(f, p, q);
    }
  }

  lemma {:induction false} FilterOnly<T(!new)>(s: seq<T>, p: T -> bool, a: T)
    requires a in s && p(a) && Distinct(s)
    requires forall x | x in s && p(x) :: x == a
    ensures Filter(s, p) == [a]
  {
    var f, z := Front(s), Last(s);
    assert s == f + [z];
    if z == a {
      FilterNone(f, p);
    } else {
      FilterOnly(f, p, a);
    }
  }

  lemma FilterSnoc<T(!new)>(s: seq<T>, x: T, p: T -> bool, q: T -> bool)
    ensures Filter(s + (if p(x) then [x] else []), q) == Filter(s, q) + if p(x) && q(x) then [x] else []
  {
    if p(x) {
      assert Front(s + [x]) == s;
    } else {
      assert s + [] == s;
    }
  }

  lemma {:induction false} FilterCommutes<T(!new)>(s: seq<T>, p: T -> bool, q: T -> bool)
    ensures Filter(Filter(s, p), q) == Filter(Filter(s, q), p)
  {
    if s != [] {
      FilterCommutes(Front(s), p, q);
      FilterSnoc(Filter(Front(s), p), Last(s), p, q);
      FilterSnoc(Filter(Front(s), q), Last(s), q, p);
    }
  }

  // ---- Maps ----

  lemma PutThenRemove<K, V>(m: map<K, V>, k: K, v: V)
    requires k !in m
    ensures m[k := v] - {k} == m
  {
  }

  lemma JoinThenRemove<K, V>(m: map<K, V>, n: map<K, V>, keys: set<K>)
    requires forall k | k in n :: k in keys
    requires forall k | k in m :: k !in keys
    ensures (m + n) - keys == m
  {
  }

  lemma PutOutside<K, V>(m: map<K, V>, k: K, v: V, keys: set<K>)
    requires k in keys
    ensures m - keys == m[k := v] - keys
  {
  }

  lemma JoinOutside<K, V>(m: map<K, V>, n: map<K, V>, keys: set<K>)
    requires forall k | k in n :: k in keys
    ensures m - keys == (m + n) - keys
  {
  }

  /** Removing keys that only the second map has. */
  lemma RemoveBeyond<K, V>(m: map<K, V>, n: map<K, V>, keys: set<K>)
    requires forall k | k in m :: k !in keys
    ensures (m + n) - keys == m + (n - keys)
  {
  }

  lemma PutBeyond<K, V>(m: map<K, V>, n: map<K, V>, k: K, v: V)
    ensures (m + n)[k := v] == m + (n + map[k := v])
  {
  }

  lemma JoinAssociative<K, V>(m: map<K, V>, n: map<K, V>, o: map<K, V>)
    ensures (m + n) + o == m + (n + o)
  {
  }

  /** The maps `f(x)` joined from left to right. */
  function Join<A(!new), K(!new), V(!new)>(xs: seq<A>, f: A -> map<K, V>): map<K, V> {
    if xs == [] then map[] else Join(Front(xs), f) + f(Last(xs))
  }

  lemma JoinSnoc<A(!new), K(!new), V(!new)>(xs: seq<A>, x: A, f: A -> map<K, V>)
    ensures Join(xs + [x], f) == Join(xs, f) + f(x)
  {
  }

  lemma {:induction false} JoinKeys<A(!new), K(!new), V(!new)>(xs: seq<A>, f: A -> map<K, V>)
    ensures forall k :: k in Join(xs, f) <==> exists x | x in xs :: k in f(x)
  {
    if xs != [] {
      JoinKeys(Front(xs), f);
      assert xs == Front(xs) + [Last(xs)];
      forall k ensures k in Join(xs, f) <==> exists x | x in xs :: k in f(x) {
        if x :| x in xs && k in f(x) {
          assert x in Front(xs) || x == Last(xs);
        }
      }
    }
  }

  /** A key that a single source has keeps that source's value. */
  lemma {:induction false} JoinValue<A(!new), K(!new), V(!new)>(xs: seq<A>, f: A -> map<K, V>, a: A, k: K)
    requires a in xs && k in f(a)
    requires forall x | x in xs && x != a :: k !in f(x)
    ensures k in Join(xs, f) && Join(xs, f)[k] == f(a)[k]
  {
    if Last(xs) != a {
      assert xs == Front(xs) + [Last(xs)];
      JoinValue(Front(xs), f, a, k);
    }
  }

  /** Removing the keys of some sources is joining the others. */
  lemma {:induction false} JoinWithout<A(!new), K(!new), V(!new)>(
      xs: seq<A>, f: A -> map<K, V>, stays: A -> bool, keys: set<K>)
    requires forall x, k | x in xs && k in f(x) :: k in keys <==> !stays(x)
    ensures Join(xs, f) - keys == Join(Filter(xs, stays), f)
  {
    if xs != [] {
      var w := Filter(Front(xs), stays);
      JoinWithout(Front(xs), f, stays, keys);
      assert Last(xs) in xs;
      if stays(Last(xs)) {
        assert Front(w + [Last(xs)]) == w;
      } else {
        assert w + [] == w;
      }
    }
  }

  // ---- Gathering ----

  /** The concatenation of `f(x)` for every `x` of `xs`. */
  function Gather<A(!new), T(!new)>(xs: seq<A>, f: A -> seq<T>): seq<T> {
    if xs == [] then [] else Gather(Front(xs), f) + f(Last(xs))
  }

  ghost predicate Distinct<A(!new)>(xs: seq<A>) {
    forall i, j | 0 <= i < j < |xs| :: xs[i] != xs[j]
  }

  lemma {:induction false} GatherMembers<A(!new), T(!new)>(xs: seq<A>, f: A -> seq<T>)
    ensures forall y :: y in Gather(xs, f) <==> exists x | x in xs :: y in f(x)
  {
    if xs != [] {
      GatherMembers(Front(xs), f);
      assert xs == Front(xs) + [Last(xs)];
      forall y ensures y in Gather(xs, f) <==> exists x | x in xs :: y in f(x) {
        if x :| x in xs && y in f(x) {
          assert x in Front(xs) || x == Last(xs);
        }
      }
    }
  }

  lemma {:induction false} GatherNone<A(!new), T(!new)>(xs: seq<A>, f: A -> seq<T>)
    requires forall x | x in xs :: f(x) == []
    ensures Gather(xs, f) == []
  {
    if xs != [] {
      GatherNone(Front(xs), f);
    }
  }

  lemma {:induction false} GatherAgree<A(!new), T(!new)>(xs: seq<A>, f: A -> seq<T>, g: A -> seq<T>)
    requires forall x | x in xs :: f(x) == g(x)
    ensures Gather(xs, f) == Gather(xs, g)
  {
    if xs != [] {
      GatherAgree(Front(xs), f, g);
    }
  }

  /** Filtering what was gathered is gathering again, from the sources that stay. */
  lemma {:induction false} GatherFilter<A(!new), T(!new)>(
      xs: seq<A>, f: A -> seq<T>, g: A -> seq<T>, stays: A -> bool, keep: T -> bool)
    requires forall x | x in xs :: Filter(f(x), keep) == if stays(x) then g(x) else []
    ensures Filter(Gather(xs, f), keep) == Gather(Filter(xs, stays), g)
  {
    if xs != [] {
      GatherFilter(Front(xs), f, g, stays, keep);
      FilterConcat(Gather(Front(xs), f), f(Last(xs)), keep);
      var rest := Filter(Front(xs), stays);
      if stays(Last(xs)) {
        assert Front(rest + [Last(xs)]) == rest;
      } else {
        assert rest + [] == rest;
      }
    }
  }

  lemma {:induction false} GatherFilterNone<A(!new), T(!new)>(xs: seq<A>, f: A -> seq<T>, keep: T -> bool)
    requires forall x | x in xs :: Filter(f(x), keep) == []
    ensures Filter(Gather(xs, f), keep) == []
  {
    if xs != [] {
      GatherFilterNone(Front(xs), f, keep);
      FilterConcat(Gather(Front(xs), f), f(Last(xs)), keep);
    }
  }

  /** When a single source contributes to a filter, the filter sees just that source. */
  lemma {:induction false} GatherFilterOne<A(!new), T(!new)>(xs: seq<A>, f: A -> seq<T>, keep: T -> bool, a: A)
    requires a in xs && Distinct(xs)
    requires forall x | x in xs && x != a :: Filter(f(x), keep) == []
    ensures Filter(Gather(xs, f), keep) == Filter(f(a), keep)
  {
    FilterConcat(Gather(Front(xs), f), f(Last(xs)), keep);
    if Last(xs) == a {
      GatherFilterNone(Front(xs), f, keep);
    } else {
      GatherFilterOne(Front(xs), f, keep, a);
    }
  }

  lemma AppendCancels<T(!new)>(s: seq<T>, t: seq<T>, end: seq<T>)
    requires s + end == t + end
    ensures s == t
  {
    assert (s + end)[..|s|] == s && (t + end)[..|t|] == t;
  }

  /** No two sources hold a common element. */
  ghost predicate Owned<A(!new), T(!new)>(xs: seq<A>, f: A -> seq<T>) {
    forall a, b, y | a in xs && b in xs && y in f(a) && y in f(b) :: a == b
  }

  lemma GatherLast<A(!new), T(!new)>(xs: seq<A>, f: A -> seq<T>)
    requires xs != [] && f(Last(xs)) != []
    ensures Gather(xs, f) != [] && Last(Gather(xs, f)) in f(Last(xs))
  {
    var g := f(Last(xs));
    assert Last(Gather(Front(xs), f) + g) == g[|g| - 1];
  }

  /** Contributions that name their source, and are never empty, tell the sources and their order. */
  lemma {:induction false} GatherTellsSources<A(!new), T(!new)>(xs: seq<A>, ys: seq<A>, f: A -> seq<T>)
    requires Owned(xs + ys, f)
    requires forall a | a in xs + ys :: f(a) != []
    requires Gather(xs, f) == Gather(ys, f)
    ensures xs == ys
    decreases |xs|
  {
    if xs == [] || ys == [] {
      if xs != [] { assert Last(xs) in xs + ys; GatherLast(xs, f); }
      if ys != [] { assert Last(ys) in xs + ys; GatherLast(ys, f); }
    } else {
      var a, b := Last(xs), Last(ys);
      assert a in xs + ys && b in xs + ys;
      GatherLast(xs, f);
      GatherLast(ys, f);
      assert a == b;
      AppendCancels(Gather(Front(xs), f), Gather(Front(ys), f), f(a));
      assert forall x | x in Front(xs) + Front(ys) :: x in xs + ys;
      GatherTellsSources(Front(xs), Front(ys), f);
      assert xs == Front(xs) + [a] && ys == Front(ys) + [b];
    }
  }

  // ---- Iteration ----

  function Iterate<T>(f: T -> T, x: T, n: nat): T {
    if n == 0 then x else f(Iterate(f, x, n - 1))
  }

  /** One `f` leads from `inv` at a number to `goal` at the next. */
  ghost predicate Leads<T(!new)>(f: T -> T, inv: (T, nat) -> bool, goal: (T, nat) -> bool) {
    forall y, m: nat, n: nat | n == m + 1 && inv(y, m) :: goal(f(y), n)
  }

  lemma {:induction false} IterateKeeps<T(!new)>(f: T -> T, x: T, n: nat, inv: (T, nat) -> bool, k: nat)
    requires inv(x, k) && Leads(f, inv, inv)
    ensures inv(Iterate(f, x, n), k + n)
  {
    if n > 0 {
      IterateKeeps(f, x, n - 1, inv, k);
    }
  }

  lemma IterateReaches<T(!new)>(f: T -> T, x: T, n: nat, inv: (T, nat) -> bool, goal: (T, nat) -> bool, k: nat)
    requires n > 0 && inv(x, k) && Leads(f, inv, inv) && Leads(f, inv, goal)
    ensures goal(Iterate(f, x, n), k + n)
  {
    IterateKeeps(f, x, n - 1, inv, k);
  }
}
