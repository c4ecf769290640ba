/** The library sort: stable, by a "comes strictly before" test. */
module Sorting {

  function Insert<T>(x: T, sorted: seq<T>, before: (T, T) -> bool): seq<T> {
    if sorted == [] || !before(sorted[0], x) then [x] + sorted
    else [sorted[0]] + Insert(x, sorted[1..], before)
  }

  function Sort<T>(s: seq<T>, before: (T, T) -> bool): seq<T> {
    if s == [] then [] else Insert(s[0], Sort(s[1..], before), before)
  }

  // "Does not come before" is total and transitive, as a consistent comparator makes it.
  ghost predicate IsOrder<T(!new)>(before: (T, T) -> bool) {
    && (forall a, b :: before(a, b) ==> !before(b, a))
    && (forall a, b, c :: !before(b, a) && !before(c, b) ==> !before(c, a))
  }

  ghost predicate Sorted<T>(s: seq<T>, before: (T, T) -> bool) {
    forall i, j | 0 <= i < j < |s| :: !before(s[j], s[i])
  }

  lemma FrontKeepsSorted<T(!new)>(x: T, s: seq<T>, before: (T, T) -> bool)
    requires Sorted(s, before) && forall t | t in s :: !before(t, x)
    ensures Sorted([x] + s, before)
  {
  }

  lemma {:induction false} InsertKeepsSorted<T(!new)>(x: T, sorted: seq<T>, before: (T, T) -> bool)
    requires IsOrder(before) && Sorted(sorted, before)
    ensures Sorted(Insert(x, sorted, before), before)
    ensures multiset(Insert(x, sorted, before)) == multiset(sorted) + multiset{x}
  {
    if sorted == [] || !before(sorted[0], x) {
      forall t | t in sorted ensures !before(t, x) {
        var i :| 0 <= i < |sorted| && sorted[i] == t;
        if 0 < i { assert !before(sorted[i], sorted[0]); }
      }
      hide Sorted;
      FrontKeepsSorted(x, sorted, before);
    } else {
      var rest := sorted[1..];
      assert sorted == [sorted[0]] + rest;
      InsertKeepsSorted(x, rest, before);
      var tail := Insert(x, rest, before);
      hide Insert;
      forall t | t in tail ensures !before(t, sorted[0]) {
        assert t in multiset(tail);
        if t != x {
          var i :| 0 <= i < |rest| && rest[i] == t;
          assert !before(sorted[i + 1], sorted[0]);
        }
      }
      hide Sorted;
      FrontKeepsSorted(sorted[0], tail, before);
      assert Insert(x, sorted, before) == [sorted[0]] + tail by { InsertUnfolds(x, sorted, before); }
    }
  }

  lemma InsertUnfolds<T>(x: T, sorted: seq<T>, before: (T, T) -> bool)
    requires sorted != [] && before(sorted[0], x)
    ensures Insert(x, sorted, before) == [sorted[0]] + Insert(x, sorted[1..], before)
  {
  }

  /** Sorting orders the elements and neither loses nor repeats any. */
  lemma {:induction false} SortIsSortedPermutation<T(!new)>(s: seq<T>, before: (T, T) -> bool)
    requires IsOrder(before)
    ensures Sorted(Sort(s, before), before)
    ensures multiset(Sort(s, before)) == multiset(s)
    ensures |Sort(s, before)| == |s|
  {
    if s != [] {
      SortIsSortedPermutation(s[1..], before);
      InsertKeepsSorted(s[0], Sort(s[1..], before), before);
      assert s == [s[0]] + s[1..];
      assert |multiset(Sort(s, before))| == |multiset(s)|;
    }
  }

  function Among<T>(s: seq<T>, like: T -> bool): seq<T> {
    if s == [] then [] else (if like(s[0]) then [s[0]] else []) + Among(s[1..], like)
  }

  lemma AmongCons<T>(h: T, t: seq<T>, like: T -> bool)
    ensures Among([h] + t, like) == (if like(h) then [h] else []) + Among(t, like)
  {
    assert ([h] + t)[1..] == t;
  }

  lemma {:induction false} InsertIsStable<T(!new)>(x: T, sorted: seq<T>, before: (T, T) -> bool, like: T -> bool)
    requires forall a, b | like(a) && like(b) :: !before(a, b)
    ensures Among(Insert(x, sorted, before), like) == (if like(x) then [x] else []) + Among(sorted, like)
  {
    if sorted == [] || !before(sorted[0], x) {
      AmongCons(x, sorted, like);
    } else {
      InsertIsStable(x, sorted[1..], before, like);
      InsertUnfolds(x, sorted, before);
      AmongCons(sorted[0], Insert(x, sorted[1..], before), like);
      AmongCons(sorted[0], sorted[1..], like);
      assert sorted == [sorted[0]] + sorted[1..];
      hide Insert, Among;
    }
  }

  /** Elements the comparator does not tell apart keep their order. */
  lemma {:induction false} SortIsStable<T(!new)>(s: seq<T>, before: (T, T) -> bool, like: T -> bool)
    requires forall a, b | like(a) && like(b) :: !before(a, b)
    ensures Among(Sort(s, before), like) == Among(s, like)
  {
    if s != [] {
      SortIsStable(s[1..], before, like);
      InsertIsStable(s[0], Sort(s[1..], before), before, like);
    }
  }
}
