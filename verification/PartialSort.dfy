/**
 The stable sort behind the "only sort injected" comparators, as the adjacent-swap insertion sort
 that Go's sort.SliceStable runs on up to 20 elements.  The comparator answers true only
 when both elements are injected, so it is no strict weak order and the outcome has to be
 characterised directly.
 */
module PartialSort {
  import opened Sequences
  import opened Text

  /** The comparator handed to the sort. */
  predicate Before<T(!new)>(x: T, y: T, inj: T -> bool, key: T -> string) {
    inj(x) && inj(y) && Less(key(x), key(y))
  }

  /** Swap `x`, placed after `s`, to the left while it compares before its neighbour. */
  function Insert<T(!new)>(s: seq<T>, x: T, inj: T -> bool, key: T -> string): seq<T> {
    if s != [] && Before(x, Last(s), inj, key) then Insert(Front(s), x, inj, key) + [Last(s)] else s + [x]
  }

  function Sort<T(!new)>(s: seq<T>, inj: T -> bool, key: T -> string): seq<T> {
    if s == [] then [] else Insert(Sort(Front(s), inj, key), Last(s), inj, key)
  }

  /** One swap of the inner loop, seen on the array's contents. */
  lemma SwapKeepsInsert<T(!new)>(s: seq<T>, i: nat, j: nat, inj: T -> bool, key: T -> string)
    requires 0 < j <= i < |s|
    requires Before(s[j], s[j - 1], inj, key)
    ensures var t := s[j := s[j - 1]][j - 1 := s[j]];
            && Insert(t[..j - 1], s[j], inj, key) + t[j..i + 1] == Insert(s[..j], s[j], inj, key) + s[j + 1..i + 1]
            && t[i + 1..] == s[i + 1..]
  {
    var t := s[j := s[j - 1]][j - 1 := s[j]];
    assert Front(s[..j]) == s[..j - 1] == t[..j - 1];
    assert t[j..i + 1] == [s[j - 1]] + s[j + 1..i + 1];
  }

  /** Go's insertion sort in place: every step swaps two neighbours that are out of order. */
  method InsertionSort<T(!new)>(a: array<T>, inj: T -> bool, key: T -> string)
    modifies a
    ensures a[..] == Sort(old(a[..]), inj, key)
  {
    ghost var was := a[..];
    var i := 0;
    while i < a.Length
      invariant 0 <= i <= a.Length
      invariant a[..i] == Sort(was[..i], inj, key)
      invariant a[i..] == was[i..]
    {
      SiftDown(a, i, inj, key);
      assert Front(was[..i + 1]) == was[..i];
      assert was[i] == was[i..][0];
      i := i + 1;
    }
    assert a[..i] == a[..] && was[..i] == was;
  }

  /** The inner loop: bring a[i] to its place in the sorted front. */
  method SiftDown<T(!new)>(a: array<T>, i: nat, inj: T -> bool, key: T -> string)
    requires i < a.Length
    modifies a
    ensures a[..i + 1] == Insert(old(a[..i]), old(a[i]), inj, key)
    ensures a[i + 1..] == old(a[i + 1..])
  {
    ghost var was := a[..];
    var j := i;
    assert a[..j] == was[..i];
    while j > 0 && Before(a[j], a[j - 1], inj, key)
      invariant 0 <= j <= i
      invariant a[j] == was[i]
      invariant Insert(a[..j], a[j], inj, key) + a[j + 1..i + 1] == Insert(was[..i], was[i], inj, key)
      invariant a[i + 1..] == was[i + 1..]
    {
      ghost var before := a[..];
      SwapKeepsInsert(before, i, j, inj, key);
      a[j], a[j - 1] := a[j - 1], a[j];
      assert a[..] == before[j := before[j - 1]][j - 1 := before[j]];
      assert a[..j - 1] == a[..][..j - 1] && a[j..i + 1] == a[..][j..i + 1] && a[i + 1..] == a[..][i + 1..];
      j := j - 1;
    }
    assert a[..i + 1] == (a[..j] + [a[j]]) + a[j + 1..i + 1];
  }

  // ---- What the sort keeps ----

  lemma {:induction false} InsertKeeps<T(!new)>(s: seq<T>, x: T, inj: T -> bool, key: T -> string)
    ensures multiset(Insert(s, x, inj, key)) == multiset(s) + multiset{x}
    ensures |Insert(s, x, inj, key)| == |s| + 1
    ensures forall i | 0 <= i < |s| + 1 ::
              inj(Insert(s, x, inj, key)[i]) == inj((s + [x])[i]) &&
              (!inj((s + [x])[i]) ==> Insert(s, x, inj, key)[i] == (s + [x])[i])
  {
    if s != [] && Before(x, Last(s), inj, key) {
      var f, z := Front(s), Last(s);
      InsertKeeps(f, x, inj, key);
      assert s == f + [z];
      var r, r' := Insert(s, x, inj, key), Insert(f, x, inj, key);
      assert r == r' + [z];
      forall i | 0 <= i < |s| + 1
        ensures inj(r[i]) == inj((s + [x])[i]) && (!inj((s + [x])[i]) ==> r[i] == (s + [x])[i])
      {
        assert i < |s| ==> r[i] == r'[i] && inj(r'[i]) == inj((f + [x])[i]);
      }
    }
  }

  /** The sort permutes, and moves only injected elements among the places of injected elements. */
  lemma {:induction false} SortKeeps<T(!new)>(s: seq<T>, inj: T -> bool, key: T -> string)
    ensures multiset(Sort(s, inj, key)) == multiset(s)
    ensures |Sort(s, inj, key)| == |s|
    ensures forall i | 0 <= i < |s| :: inj(Sort(s, inj, key)[i]) == inj(s[i])
    ensures forall i | 0 <= i < |s| && !inj(s[i]) :: Sort(s, inj, key)[i] == s[i]
  {
    if s != [] {
      var f, z := Front(s), Last(s);
      var t, u := Sort(f, inj, key), Sort(s, inj, key);
      assert s == f + [z];
      SortKeeps(f, inj, key);
      InsertKeeps(t, z, inj, key);
      forall i | 0 <= i < |s| ensures inj(u[i]) == inj(s[i]) && (!inj(s[i]) ==> u[i] == s[i]) {
        assert inj(u[i]) == inj((t + [z])[i]);
        assert i < |f| ==> (t + [z])[i] == t[i] && s[i] == f[i];
      }
    }
  }

  lemma SortMembers<T(!new)>(s: seq<T>, inj: T -> bool, key: T -> string)
    ensures forall x :: x in Sort(s, inj, key) <==> x in s
  {
    SortKeeps(s, inj, key);
    forall x ensures x in Sort(s, inj, key) <==> x in s {
      assert x in Sort(s, inj, key) <==> x in multiset(Sort(s, inj, key));
      assert x in s <==> x in multiset(s);
    }
  }

  /** `p` never tells apart two injected elements the comparator would swap. */
  ghost predicate Unswapped<T(!new)>(p: T -> bool, inj: T -> bool, key: T -> string) {
    forall x, y | p(x) && p(y) :: !Before(x, y, inj, key)
  }

  lemma {:induction false} InsertStable<T(!new)>(s: seq<T>, x: T, p: T -> bool, inj: T -> bool, key: T -> string)
    requires Unswapped(p, inj, key)
    ensures Filter(Insert(s, x, inj, key), p) == Filter(s + [x], p)
  {
    if s != [] && Before(x, Last(s), inj, key) {
      var f, z := Front(s), Last(s);
      InsertStable(f, x, p, inj, key);
      FilterLast(f, x, p);
      FilterLast(s, x, p);
      FilterLast(Insert(f, x, inj, key), z, p);
      assert !(p(x) && p(z));
    }
  }

  /** Stability: elements with the same name, or not injected, are never reordered among themselves. */
  lemma {:induction false} SortStable<T(!new)>(s: seq<T>, p: T -> bool, inj: T -> bool, key: T -> string)
    requires Unswapped(p, inj, key)
    ensures Filter(Sort(s, inj, key), p) == Filter(s, p)
  {
    if s != [] {
      var f, z := Front(s), Last(s);
      SortStable(f, p, inj, key);
      InsertStable(Sort(f, inj, key), z, p, inj, key);
      FilterLast(Sort(f, inj, key), z, p);
    }
  }

  lemma FilterLast<T(!new)>(s: seq<T>, x: T, p: T -> bool)
    ensures Filter(s + [x], p) == Filter(s, p) + if p(x) then [x] else []
  {
  }

  // ---- Order ----

  /** No two injected neighbours are out of order. */
  ghost predicate Settled<T(!new)>(s: seq<T>, inj: T -> bool, key: T -> string) {
    forall i | 0 < i < |s| :: !Before(s[i], s[i - 1], inj, key)
  }

  lemma {:induction false} InsertSettles<T(!new)>(s: seq<T>, x: T, inj: T -> bool, key: T -> string)
    requires Settled(s, inj, key)
    ensures Settled(Insert(s, x, inj, key), inj, key)
  {
    if s != [] && Before(x, Last(s), inj, key) {
      var t := Front(s);
      InsertSettles(t, x, inj, key);
      InsertKeeps(t, x, inj, key);
      LessAsymmetric(key(x), key(Last(s)));
      var u := Insert(t, x, inj, key);
      assert Last(u) == x || (t != [] && Last(u) == Last(t));
      assert t != [] ==> !Before(s[|s| - 1], s[|s| - 2], inj, key);
      assert forall i | 0 < i < |u| :: (u + [Last(s)])[i] == u[i];
    }
  }

  lemma {:induction false} SortSettles<T(!new)>(s: seq<T>, inj: T -> bool, key: T -> string)
    ensures Settled(Sort(s, inj, key), inj, key)
  {
    if s != [] {
      SortSettles(Front(s), inj, key);
      InsertSettles(Sort(Front(s), inj, key), Last(s), inj, key);
    }
  }

  lemma {:induction false} SortOfSettled<T(!new)>(s: seq<T>, inj: T -> bool, key: T -> string)
    requires Settled(s, inj, key)
    ensures Sort(s, inj, key) == s
  {
    if s != [] {
      assert Settled(Front(s), inj, key);
      SortOfSettled(Front(s), inj, key);
      assert s == Front(s) + [Last(s)];
    }
  }

  /** Sorting a part early makes no difference. */
  lemma {:induction false} SortPrefixFirst<T(!new)>(s: seq<T>, t: seq<T>, inj: T -> bool, key: T -> string)
    ensures Sort(Sort(s, inj, key) + t, inj, key) == Sort(s + t, inj, key)
  {
    var u := Sort(s, inj, key);
    if t == [] {
      assert u + t == u && s + t == s;
      SortSettles(s, inj, key);
      SortOfSettled(u, inj, key);
    } else {
      SortPrefixFirst(s, Front(t), inj, key);
      assert Front(u + t) == u + Front(t) && Front(s + t) == s + Front(t);
    }
  }

  lemma {:induction false} InsertAgree<T(!new)>(s: seq<T>, x: T, inj: T -> bool, inj': T -> bool, key: T -> string)
    requires inj(x) == inj'(x) && forall y | y in s :: inj(y) == inj'(y)
    ensures Insert(s, x, inj, key) == Insert(s, x, inj', key)
  {
    if s != [] {
      InsertAgree(Front(s), x, inj, inj', key);
    }
  }

  lemma {:induction false} SortAgree<T(!new)>(s: seq<T>, inj: T -> bool, inj': T -> bool, key: T -> string)
    requires forall x | x in s :: inj(x) == inj'(x)
    ensures Sort(s, inj, key) == Sort(s, inj', key)
  {
    if s != [] {
      SortAgree(Front(s), inj, inj', key);
      SortMembers(Front(s), inj, key);
      InsertAgree(Sort(Front(s), inj, key), Last(s), inj, inj', key);
    }
  }

  // ---- Runs of injected elements ----

  lemma {:induction false} InsertAfterBarrier<T(!new)>(s: seq<T>, t: seq<T>, x: T, inj: T -> bool, key: T -> string)
    requires s == [] || !inj(Last(s)) || !inj((t + [x])[0])
    ensures Insert(s + t, x, inj, key) == s + Insert(t, x, inj, key)
  {
    if t == [] {
      assert s + t == s;
    } else {
      assert Front(s + t) == s + Front(t) && Last(s + t) == Last(t);
      if Before(x, Last(t), inj, key) {
        assert (Front(t) + [x])[0] == if Front(t) == [] then x else t[0];
        InsertAfterBarrier(s, Front(t), x, inj, key);
      }
    }
  }

  /** The first and the last place stay places of (non-)injected elements. */
  lemma SortKeepsEnds<T(!new)>(s: seq<T>, inj: T -> bool, key: T -> string)
    requires s != []
    ensures var t := Sort(s, inj, key); t != [] && inj(t[0]) == inj(s[0]) && inj(Last(t)) == inj(Last(s))
  {
    SortKeeps(s, inj, key);
    assert inj(Sort(s, inj, key)[|s| - 1]) == inj(s[|s| - 1]);
  }

  lemma InsertAfterSorted<T(!new)>(s: seq<T>, t: seq<T>, x: T, inj: T -> bool, key: T -> string)
    requires s == [] || !inj(Last(s)) || !inj((t + [x])[0])
    ensures Insert(Sort(s, inj, key) + Sort(t, inj, key), x, inj, key)
         == Sort(s, inj, key) + Insert(Sort(t, inj, key), x, inj, key)
  {
    var s', t' := Sort(s, inj, key), Sort(t, inj, key);
    if s != [] {
      SortKeepsEnds(s, inj, key);
    }
    if t != [] {
      SortKeepsEnds(t, inj, key);
      assert (t + [x])[0] == t[0] && (t' + [x])[0] == t'[0];
    }
    InsertAfterBarrier(s', t', x, inj, key);
  }

  /** A place where one neighbour is not injected cuts the sort into two independent sorts. */
  lemma {:induction false} SortSplits<T(!new)>(s: seq<T>, t: seq<T>, inj: T -> bool, key: T -> string)
    requires s == [] || t == [] || !inj(Last(s)) || !inj(t[0])
    ensures Sort(s + t, inj, key) == Sort(s, inj, key) + Sort(t, inj, key)
  {
    if t == [] {
      assert s + t == s;
    } else {
      var f, z := Front(t), Last(t);
      assert t == f + [z];
      assert Front(s + t) == s + f && Last(s + t) == z;
      SortSplits(s, f, inj, key);
      InsertAfterSorted(s, f, z, inj, key);
    }
  }

  lemma {:induction false} SortOfOthers<T(!new)>(s: seq<T>, inj: T -> bool, key: T -> string)
    requires forall x | x in s :: !inj(x)
    ensures Sort(s, inj, key) == s
  {
    if s != [] {
      SortOfOthers(Front(s), inj, key);
      assert s == Front(s) + [Last(s)];
    }
  }

  /** Injected elements that form a suffix are sorted among themselves; the rest does not move. */
  lemma SortSuffix<T(!new)>(s: seq<T>, t: seq<T>, inj: T -> bool, key: T -> string)
    requires forall x | x in s :: !inj(x)
    ensures Sort(s + t, inj, key) == s + Sort(t, inj, key)
  {
    SortSplits(s, t, inj, key);
    SortOfOthers(s, inj, key);
  }

  /** Sorted and stable with respect to `key`: what any stable sort of `s` must return. */
  ghost predicate StablySorted<T(!new)>(t: seq<T>, s: seq<T>, key: T -> string) {
    Ordered(t, key) && SameNames(t, s, key)
  }

  function Named<T(!new)>(k: string, key: T -> string): T -> bool {
    (x: T) => key(x) == k
  }

  lemma {:induction false} SettledIsSorted<T(!new)>(s: seq<T>, inj: T -> bool, key: T -> string, i: nat, j: nat)
    requires i < j < |s|
    requires forall x | x in s :: inj(x)
    requires Settled(s, inj, key)
    ensures !Less(key(s[j]), key(s[i]))
    decreases j
  {
    assert !Before(s[j], s[j - 1], inj, key);
    if i < j - 1 {
      SettledIsSorted(s, inj, key, i, j - 1);
      NotLessTransitive(key(s[i]), key(s[j - 1]), key(s[j]));
    }
  }

  lemma NamedUnswapped<T(!new)>(k: string, inj: T -> bool, key: T -> string)
    ensures Unswapped(Named(k, key), inj, key)
  {
    forall x, y | Named(k, key)(x) && Named(k, key)(y) ensures !Before(x, y, inj, key) {
      LessAsymmetric(k, k);
    }
  }

  /** On elements that are all injected the result is the stable sort. */
  lemma SortIsStableSort<T(!new)>(s: seq<T>, inj: T -> bool, key: T -> string)
    requires forall x | x in s :: inj(x)
    ensures StablySorted(Sort(s, inj, key), s, key)
  {
    var t := Sort(s, inj, key);
    SortMembers(s, inj, key);
    SortSettles(s, inj, key);
    forall i, j | 0 <= i < j < |t| ensures !Less(key(t[j]), key(t[i])) {
      SettledIsSorted(t, inj, key, i, j);
    }
    forall k: string ensures Filter(t, Named(k, key)) == Filter(s, Named(k, key)) {
      NamedUnswapped(k, inj, key);
      SortStable(s, Named(k, key), inj, key);
    }
  }

  lemma SortRunAlone<T(!new)>(a: seq<T>, b: seq<T>, c: seq<T>, inj: T -> bool, key: T -> string)
    requires a == [] || !inj(Last(a))
    requires c == [] || !inj(c[0])
    ensures Sort(a + b + c, inj, key) == Sort(a, inj, key) + Sort(b, inj, key) + Sort(c, inj, key)
  {
    SortSplits(a, b, inj, key);
    SortSplits(a + b, c, inj, key);
  }

  lemma SliceOfConcat<T(!new)>(a: seq<T>, b: seq<T>, c: seq<T>)
    ensures (a + b + c)[|a|..|a| + |b|] == b
  {
  }

  /**
   Every maximal run of injected elements comes out stably sorted by name, in the same places.
   Together with SortKeeps this determines the whole result.
   */
  lemma SortRun<T(!new)>(a: seq<T>, run: seq<T>, c: seq<T>, inj: T -> bool, key: T -> string)
    requires forall x | x in run :: inj(x)
    requires a == [] || !inj(Last(a))
    requires c == [] || !inj(c[0])
    ensures |Sort(a + run + c, inj, key)| == |a + run + c|
    ensures StablySorted(Sort(a + run + c, inj, key)[|a|..|a| + |run|], run, key)
    ensures Ascending(Sort(a + run + c, inj, key)[|a|..|a| + |run|], key)
  {
    SortRunAlone(a, run, c, inj, key);
    SortKeeps(a + run + c, inj, key);
    SortKeeps(a, inj, key);
    SortKeeps(run, inj, key);
    SliceOfConcat(Sort(a, inj, key), Sort(run, inj, key), Sort(c, inj, key));
    SortIsStableSort(run, inj, key);
    OrderedAscends(Sort(run, inj, key), key);
  }

  /** In ascending order of names, as strings compare character by character. */
  ghost predicate Ascending<T(!new)>(t: seq<T>, key: T -> string) {
    forall i, j | 0 <= i < j < |t| :: AtMost(key(t[i]), key(t[j]))
  }

  lemma OrderedAscends<T(!new)>(t: seq<T>, key: T -> string)
    ensures Ordered(t, key) <==> Ascending(t, key)
  {
    forall i, j | 0 <= i < j < |t| ensures AtMost(key(t[i]), key(t[j])) <==> !Less(key(t[j]), key(t[i])) {
      AtMostMeans(key(t[i]), key(t[j]));
    }
  }

  // ---- Uniqueness of a stable sort ----

  /** Sorted, and with the elements of each name in the same order. */
  ghost predicate SameNames<T(!new)>(t: seq<T>, u: seq<T>, key: T -> string) {
    forall k: string :: Filter(t, Named(k, key)) == Filter(u, Named(k, key))
  }

  ghost predicate Ordered<T(!new)>(t: seq<T>, key: T -> string) {
    forall i, j | 0 <= i < j < |t| :: !Less(key(t[j]), key(t[i]))
  }

  lemma StablySortedUnique<T(!new)>(t: seq<T>, u: seq<T>, s: seq<T>, key: T -> string)
    requires StablySorted(t, s, key) && StablySorted(u, s, key)
    ensures t == u
  {
    forall k: string ensures Filter(t, Named(k, key)) == Filter(u, Named(k, key)) {
      assert Filter(t, Named(k, key)) == Filter(s, Named(k, key));
      assert Filter(u, Named(k, key)) == Filter(s, Named(k, key));
    }
    OrderedUnique(t, u, key);
  }

  lemma {:induction false} OrderedUnique<T(!new)>(t: seq<T>, u: seq<T>, key: T -> string)
    requires Ordered(t, key) && Ordered(u, key) && SameNames(t, u, key)
    ensures t == u
  {
    if t == [] || u == [] {
      if t != [] { LastSurvives(t, key); }
      if u != [] { LastSurvives(u, key); }
    } else {
      SameLast(t, u, key);
      SameNamesFront(t, u, key);
      OrderedUnique(Front(t), Front(u), key);
      assert t == Front(t) + [Last(t)] && u == Front(u) + [Last(u)];
    }
  }

  lemma SameLast<T(!new)>(t: seq<T>, u: seq<T>, key: T -> string)
    requires t != [] && u != [] && Ordered(t, key) && Ordered(u, key) && SameNames(t, u, key)
    ensures Last(t) == Last(u)
  {
    var k, m := key(Last(t)), key(Last(u));
    LastSurvives(t, key);
    LastSurvives(u, key);
    assert Filter(t, Named(k, key)) == Filter(u, Named(k, key));
    assert Filter(t, Named(m, key)) == Filter(u, Named(m, key));
    LastIsGreatest(t, key, m);
    LastIsGreatest(u, key, k);
    LessTotal(k, m);
  }

  lemma SameNamesFront<T(!new)>(t: seq<T>, u: seq<T>, key: T -> string)
    requires t != [] && u != [] && SameNames(t, u, key) && Last(t) == Last(u)
    ensures SameNames(Front(t), Front(u), key)
  {
    var z := Last(t);
    assert t == Front(t) + [z] && u == Front(u) + [z];
    forall k: string ensures Filter(Front(t), Named(k, key)) == Filter(Front(u), Named(k, key)) {
      assert Filter(t, Named(k, key)) == Filter(u, Named(k, key));
      FilterLast(Front(t), z, Named(k, key));
      FilterLast(Front(u), z, Named(k, key));
      AppendCancels(Filter(Front(t), Named(k, key)), Filter(Front(u), Named(k, key)), if key(z) == k then [z] else []);
    }
  }

  lemma LastSurvives<T(!new)>(t: seq<T>, key: T -> string)
    requires t != []
    ensures var f := Filter(t, Named(key(Last(t)), key)); f != [] && Last(f) == Last(t)
  {
  }

  /** In a sorted sequence a name that occurs is not greater than the last one. */
  lemma LastIsGreatest<T(!new)>(t: seq<T>, key: T -> string, k: string)
    requires t != []
    requires Ordered(t, key)
    requires Filter(t, Named(k, key)) != []
    ensures !Less(key(Last(t)), k)
  {
    FilterMembers(t, Named(k, key));
    var x := Filter(t, Named(k, key))[0];
    assert x in Filter(t, Named(k, key));
    var i :| 0 <= i < |t| && t[i] == x;
    LessAsymmetric(k, k);
  }

  /** Two sequences whose elements of each name come in the same order sort to the same sequence. */
  lemma SortDeterminedByNames<T(!new)>(s: seq<T>, t: seq<T>, inj: T -> bool, key: T -> string)
    requires forall x | x in s || x in t :: inj(x)
    requires SameNames(s, t, key)
    ensures Sort(s, inj, key) == Sort(t, inj, key)
  {
    SortIsStableSort(s, inj, key);
    SortIsStableSort(t, inj, key);
    StablySortedUnique(Sort(s, inj, key), Sort(t, inj, key), s, key);
  }

  lemma {:induction false} FilterSorted<T(!new)>(s: seq<T>, p: T -> bool, key: T -> string)
    requires Ordered(s, key)
    ensures Ordered(Filter(s, p), key)
  {
    if s != [] {
      FilterSorted(Front(s), p, key);
      FilterMembers(Front(s), p);
      var f := Filter(Front(s), p);
      assert forall i | 0 <= i < |f| :: f[i] in f;
    }
  }

  /** On injected elements, dropping some of them commutes with sorting. */
  lemma SortFilter<T(!new)>(s: seq<T>, p: T -> bool, inj: T -> bool, key: T -> string)
    requires forall x | x in s :: inj(x)
    ensures Filter(Sort(s, inj, key), p) == Sort(Filter(s, p), inj, key)
  {
    var t := Sort(s, inj, key);
    SortIsStableSort(s, inj, key);
    FilterMembers(s, p);
    SortIsStableSort(Filter(s, p), inj, key);
    FilterSorted(t, p, key);
    forall k: string ensures Filter(Filter(t, p), Named(k, key)) == Filter(Filter(s, p), Named(k, key)) {
      FilterCommutes(t, p, Named(k, key));
      FilterCommutes(s, p, Named(k, key));
    }
    StablySortedUnique(Filter(t, p), Sort(Filter(s, p), inj, key), Filter(s, p), key);
  }

  lemma {:induction false} FilterInsert<T(!new)>(s: seq<T>, x: T, p: T -> bool, inj: T -> bool, key: T -> string)
    requires !p(x)
    ensures Filter(Insert(s, x, inj, key), p) == Filter(s, p)
  {
    if s != [] && Before(x, Last(s), inj, key) {
      FilterInsert(Front(s), x, p, inj, key);
      FilterConcat(Insert(Front(s), x, inj, key), [Last(s)], p);
    } else {
      FilterConcat(s, [x], p);
    }
  }

  /** Removing what was appended before the sort leaves the sort of the rest, on any sequence. */
  lemma {:induction false} SortForget<T(!new)>(s: seq<T>, t: seq<T>, p: T -> bool, inj: T -> bool, key: T -> string)
    requires forall x | x in t :: !p(x)
    ensures Filter(Sort(s + t, inj, key), p) == Filter(Sort(s, inj, key), p)
  {
    if t == [] {
      assert s + t == s;
    } else {
      assert Front(s + t) == s + Front(t) && Last(s + t) == Last(t);
      SortForget(s, Front(t), p, inj, key);
      FilterInsert(Sort(s + Front(t), inj, key), Last(t), p, inj, key);
    }
  }

  /** No two sources contribute entries of the same name. */
  ghost predicate NamesApart<A(!new), T(!new)>(xs: seq<A>, f: A -> seq<T>, key: T -> string) {
    forall a, b, x, y | a in xs && b in xs && a != b && x in f(a) && y in f(b) :: key(x) != key(y)
  }

  lemma OneSourcePerName<A(!new), T(!new)>(xs: seq<A>, f: A -> seq<T>, key: T -> string, a: A, k: string)
    requires NamesApart(xs, f, key) && a in xs && Filter(f(a), Named(k, key)) != []
    ensures forall b | b in xs && b != a :: Filter(f(b), Named(k, key)) == []
  {
    var p := Named(k, key);
    FilterMembers(f(a), p);
    var x := Filter(f(a), p)[0];
    assert x in Filter(f(a), p);
    forall b | b in xs && b != a ensures Filter(f(b), p) == [] {
      FilterNone(f(b), p);
    }
  }

  lemma GatherSameName<A(!new), T(!new)>(xs: seq<A>, ys: seq<A>, f: A -> seq<T>, key: T -> string, k: string)
    requires Distinct(xs) && Distinct(ys) && NamesApart(xs, f, key)
    requires forall a :: a in xs <==> a in ys
    ensures Filter(Gather(xs, f), Named(k, key)) == Filter(Gather(ys, f), Named(k, key))
  {
    var p := Named(k, key);
    if a :| a in xs && Filter(f(a), p) != [] {
      OneSourcePerName(xs, f, key, a, k);
      GatherFilterOne(xs, f, p, a);
      GatherFilterOne(ys, f, p, a);
    } else {
      GatherFilterNone(xs, f, p);
      GatherFilterNone(ys, f, p);
    }
  }

  /** Gathering distinct sources in any order gives the same sorted result, if no two sources share a name. */
  lemma GatherAnyOrder<A(!new), T(!new)>(xs: seq<A>, ys: seq<A>, f: A -> seq<T>, key: T -> string)
    requires Distinct(xs) && Distinct(ys) && NamesApart(xs, f, key)
    requires forall a :: a in xs <==> a in ys
    ensures Sort(Gather(xs, f), All(), key) == Sort(Gather(ys, f), All(), key)
  {
    forall k: string ensures Filter(Gather(xs, f), Named(k, key)) == Filter(Gather(ys, f), Named(k, key)) {
      GatherSameName(xs, ys, f, key, k);
    }
    SortDeterminedByNames(Gather(xs, f), Gather(ys, f), All(), key);
  }

  /** The entries of this name that a source contributes. */
  function NamedOf<A, T(!new)>(f: A -> seq<T>, k: string, key: T -> string): A -> seq<T> {
    (a: A) => Filter(f(a), Named(k, key))
  }

  function Contributes<A, T(!new)>(f: A -> seq<T>, k: string, key: T -> string): A -> bool {
    (a: A) => |Filter(f(a), Named(k, key))| > 0
  }

  lemma GatherOfName<A(!new), T(!new)>(xs: seq<A>, f: A -> seq<T>, key: T -> string, k: string)
    ensures Filter(Gather(xs, f), Named(k, key)) == Gather(Filter(xs, Contributes(f, k, key)), NamedOf(f, k, key))
  {
    GatherFilter(xs, f, NamedOf(f, k, key), Contributes(f, k, key), Named(k, key));
  }

  lemma NamedOfOwned<A(!new), T(!new)>(xs: seq<A>, f: A -> seq<T>, key: T -> string, k: string)
    requires Owned(xs, f)
    ensures Owned(xs, NamedOf(f, k, key))
  {
    forall a, b, y | a in xs && b in xs && y in NamedOf(f, k, key)(a) && y in NamedOf(f, k, key)(b) ensures a == b {
      FilterMembers(f(a), Named(k, key));
      FilterMembers(f(b), Named(k, key));
    }
  }

  lemma OrderOfName<A(!new), T(!new)>(xs: seq<A>, ys: seq<A>, f: A -> seq<T>, key: T -> string, k: string)
    requires Owned(xs + ys, f)
    ensures Filter(Gather(xs, f), Named(k, key)) == Filter(Gather(ys, f), Named(k, key))
       <==> Filter(xs, Contributes(f, k, key)) == Filter(ys, Contributes(f, k, key))
  {
    var p, g := Contributes(f, k, key), NamedOf(f, k, key);
    GatherOfName(xs, f, key, k);
    GatherOfName(ys, f, key, k);
    FilterMembers(xs, p);
    FilterMembers(ys, p);
    if Filter(Gather(xs, f), Named(k, key)) == Filter(Gather(ys, f), Named(k, key)) {
      NamedOfOwned(xs + ys, f, key, k);
      assert forall a | a in Filter(xs, p) + Filter(ys, p) :: a in xs + ys && p(a);
      GatherTellsSources(Filter(xs, p), Filter(ys, p), g);
    }
  }

  /**
   When every entry names its source, two gatherings sort to the same sequence exactly when, for each
   name, the sources that contribute it come in the same order.
   */
  lemma SortTellsOrder<A(!new), T(!new)>(xs: seq<A>, ys: seq<A>, f: A -> seq<T>, key: T -> string)
    requires Owned(xs + ys, f)
    ensures Sort(Gather(xs, f), All(), key) == Sort(Gather(ys, f), All(), key)
       <==> forall k: string :: Filter(xs, Contributes(f, k, key)) == Filter(ys, Contributes(f, k, key))
  {
    var s, t := Gather(xs, f), Gather(ys, f);
    forall k: string {
      OrderOfName(xs, ys, f, key, k);
    }
    if forall k: string :: Filter(xs, Contributes(f, k, key)) == Filter(ys, Contributes(f, k, key)) {
      assert SameNames(s, t, key);
      SortDeterminedByNames(s, t, All(), key);
    }
    if Sort(s, All(), key) == Sort(t, All(), key) {
      forall k: string ensures Filter(xs, Contributes(f, k, key)) == Filter(ys, Contributes(f, k, key)) {
        NamedUnswapped(k, All(), key);
        SortStable(s, Named(k, key), All(), key);
        SortStable(t, Named(k, key), All(), key);
      }
    }
  }

  function All<T>(): T -> bool {
    (x: T) => true
  }

  /** Appending injected elements to a sorted injected suffix and sorting again. */
  lemma AppendToSuffix<T(!new)>(base: seq<T>, s: seq<T>, t: seq<T>, inj: T -> bool, key: T -> string)
    requires forall x | x in base :: !inj(x)
    requires forall x | x in s || x in t :: inj(x)
    ensures Sort(base + Sort(s, All(), key) + t, inj, key) == base + Sort(s + t, All(), key)
  {
    var u := Sort(s, All(), key);
    SortMembers(s, All(), key);
    assert base + u + t == base + (u + t);
    SortSuffix(base, u + t, inj, key);
    SortAgree(u + t, inj, All(), key);
    SortPrefixFirst(s, t, All(), key);
  }

  // ---- The suffix layout: any stable algorithm agrees ----

  /**
   What a stable sort returns under the total preorder "not injected first, injected ones by name".
   While the injected elements form a suffix, the code's comparator gives the same answer as this
   preorder whenever a later element is compared with an earlier one.
   */
  ghost predicate SuffixSorted<T(!new)>(t: seq<T>, s: seq<T>, inj: T -> bool, key: T -> string) {
    && (forall i, j | 0 <= i < j < |t| && inj(t[i]) :: inj(t[j]) && !Less(key(t[j]), key(t[i])))
    && Filter(t, Not(inj)) == Filter(s, Not(inj))
    && (forall k: string :: Filter(Filter(t, inj), Named(k, key)) == Filter(Filter(s, inj), Named(k, key)))
  }

  function Not<T>(p: T -> bool): T -> bool {
    (x: T) => !p(x)
  }

  lemma {:induction false} OthersThenInjected<T(!new)>(t: seq<T>, inj: T -> bool)
    requires forall i, j | 0 <= i < j < |t| && inj(t[i]) :: inj(t[j])
    ensures t == Filter(t, Not(inj)) + Filter(t, inj)
  {
    if t != [] {
      OthersThenInjected(Front(t), inj);
      assert t == Front(t) + [Last(t)];
      if !inj(Last(t)) {
        FilterNone(Front(t), inj);
      }
    }
  }

  lemma SortIsSuffixSorted<T(!new)>(s: seq<T>, tail: seq<T>, inj: T -> bool, key: T -> string)
    requires forall x | x in s :: !inj(x)
    requires forall x | x in tail :: inj(x)
    ensures SuffixSorted(s + Sort(tail, inj, key), s + tail, inj, key)
  {
    var u := Sort(tail, inj, key);
    SortIsStableSort(tail, inj, key);
    SortMembers(tail, inj, key);
    LayoutFilters(s, tail, inj);
    LayoutFilters(s, u, inj);
    var t := s + u;
    assert forall k | 0 <= k < |s| :: t[k] == s[k] && s[k] in s;
    forall i, j | 0 <= i < j < |t| && inj(t[i]) ensures inj(t[j]) && !Less(key(t[j]), key(t[i])) {
      assert t[j] == u[j - |s|] && t[i] == u[i - |s|] && u[j - |s|] in u;
    }
  }

  lemma SuffixSortedIsSort<T(!new)>(s: seq<T>, tail: seq<T>, t: seq<T>, inj: T -> bool, key: T -> string)
    requires forall x | x in s :: !inj(x)
    requires forall x | x in tail :: inj(x)
    requires SuffixSorted(t, s + tail, inj, key)
    ensures t == s + Sort(tail, inj, key)
  {
    LayoutFilters(s, tail, inj);
    SortIsStableSort(tail, inj, key);
    OthersThenInjected(t, inj);
    InjectedSorted(t, inj, key);
    StablySortedUnique(Filter(t, inj), Sort(tail, inj, key), tail, key);
  }

  /** On a suffix layout the insertion sort returns what every stable sort returns, whatever the length. */
  lemma SuffixSortForced<T(!new)>(s: seq<T>, tail: seq<T>, t: seq<T>, inj: T -> bool, key: T -> string)
    requires forall x | x in s :: !inj(x)
    requires forall x | x in tail :: inj(x)
    ensures SuffixSorted(t, s + tail, inj, key) <==> t == Sort(s + tail, inj, key)
  {
    SortSuffix(s, tail, inj, key);
    SortIsSuffixSorted(s, tail, inj, key);
    if SuffixSorted(t, s + tail, inj, key) {
      SuffixSortedIsSort(s, tail, t, inj, key);
    }
  }

  lemma SuffixSortForcedInParts<T(!new)>(s: seq<T>, u: seq<T>, v: seq<T>, t: seq<T>, inj: T -> bool, key: T -> string)
    requires forall x | x in s :: !inj(x)
    requires forall x | x in u + v :: inj(x)
    ensures SuffixSorted(t, s + u + v, inj, key) <==> t == Sort(s + u + v, inj, key)
  {
    assert s + u + v == s + (u + v);
    SuffixSortForced(s, u + v, t, inj, key);
  }

  lemma LayoutFilters<T(!new)>(s: seq<T>, tail: seq<T>, inj: T -> bool)
    requires forall x | x in s :: !inj(x)
    requires forall x | x in tail :: inj(x)
    ensures Filter(s + tail, inj) == tail
    ensures Filter(s + tail, Not(inj)) == s
  {
    FilterConcat(s, tail, inj);
    FilterConcat(s, tail, Not(inj));
    FilterNone(s, inj);
    FilterAll(s, Not(inj));
    FilterAll(tail, inj);
    FilterNone(tail, Not(inj));
  }

  lemma {:induction false} InjectedSorted<T(!new)>(t: seq<T>, inj: T -> bool, key: T -> string)
    requires forall i, j | 0 <= i < j < |t| && inj(t[i]) :: inj(t[j]) && !Less(key(t[j]), key(t[i]))
    ensures Ordered(Filter(t, inj), key)
  {
    OthersThenInjected(t, inj);
    var o, m := Filter(t, Not(inj)), Filter(t, inj);
    FilterMembers(t, inj);
    forall i, j | 0 <= i < j < |m| ensures !Less(key(m[j]), key(m[i])) {
      assert t[|o| + i] == m[i] && t[|o| + j] == m[j];
      assert m[i] in m;
    }
  }

  /** The total preorder that the suffix layout stands for. */
  predicate Precedes<T(!new)>(x: T, y: T, inj: T -> bool, key: T -> string) {
    (!inj(x) && inj(y)) || Before(x, y, inj, key)
  }

  /** Sorting asks only whether a later element goes before an earlier one; there the two comparators agree. */
  lemma ComparatorsAgree<T(!new)>(s: seq<T>, tail: seq<T>, i: nat, j: nat, inj: T -> bool, key: T -> string)
    requires forall x | x in s :: !inj(x)
    requires forall x | x in tail :: inj(x)
    requires i < j < |s + tail|
    ensures var t := s + tail; Before(t[j], t[i], inj, key) <==> Precedes(t[j], t[i], inj, key)
  {
  }
}
