/**
  Stable insertion sort by an order passed as a parameter.
 */
module Sorting {
  import opened Keys

  /** `less` is the strict part of a total preorder. */
  ghost predicate Preorder<T(!new)>(less: (T, T) -> bool) {
    && (forall a, b :: less(a, b) ==> !less(b, a))
    && (forall a, b, c :: less(a, c) ==> less(a, b) || less(b, c))
  }

  predicate InOrder<T(!new)>(s: seq<T>, less: (T, T) -> bool) {
    forall i, j :: 0 <= i < j < |s| ==> !less(s[j], s[i])
  }

  function PlaceIn<T>(s: seq<T>, x: T, less: (T, T) -> bool): (r: seq<T>)
    ensures |r| == |s| + 1 && multiset(r) == multiset(s) + multiset{x}
  {
    if s == [] then [x]
    else if less(x, s[|s| - 1]) then
      assert s == s[..|s| - 1] + [s[|s| - 1]];
      PlaceIn(s[..|s| - 1], x, less) + [s[|s| - 1]]
    else s + [x]
  }

  function SortBy<T>(s: seq<T>, less: (T, T) -> bool): (r: seq<T>)
    ensures |r| == |s| && multiset(r) == multiset(s)
  {
    if s == [] then []
    else
      assert s == s[..|s| - 1] + [s[|s| - 1]];
      PlaceIn(SortBy(s[..|s| - 1], less), s[|s| - 1], less)
  }

  lemma {:induction false} PlaceInOrder<T(!new)>(s: seq<T>, x: T, less: (T, T) -> bool)
    requires InOrder(s, less) && Preorder(less)
    ensures InOrder(PlaceIn(s, x, less), less)
  {
    if s != [] {
      var last := s[|s| - 1];
      var init := s[..|s| - 1];
      if less(x, last) {
        PlaceInOrder(init, x, less);
        var r := PlaceIn(init, x, less);
        forall y | y in r ensures !less(last, y) {
          assert y in multiset(r);
          assert y in multiset(init) + multiset{x};
          if y != x {
            assert y in init;
          }
        }
      } else {
        forall i | 0 <= i < |s| ensures !less(x, s[i]) {
          assert i == |s| - 1 || !less(last, s[i]);
        }
      }
    }
  }

  lemma {:induction false} SortByOrder<T(!new)>(s: seq<T>, less: (T, T) -> bool)
    requires Preorder(less)
    ensures InOrder(SortBy(s, less), less)
  {
    if s != [] {
      SortByOrder(s[..|s| - 1], less);
      PlaceInOrder(SortBy(s[..|s| - 1], less), s[|s| - 1], less);
    }
  }

  predicate Tied<T>(x: T, y: T, less: (T, T) -> bool) {
    !less(x, y) && !less(y, x)
  }

  /** The elements that tie with `x`, in their order. */
  function Ties<T>(s: seq<T>, x: T, less: (T, T) -> bool): seq<T> {
    if s == [] then []
    else Ties(s[..|s| - 1], x, less) + if Tied(s[|s| - 1], x, less) then [s[|s| - 1]] else []
  }

  lemma {:induction false} PlaceInTies<T(!new)>(s: seq<T>, y: T, x: T, less: (T, T) -> bool)
    requires Preorder(less)
    ensures Ties(PlaceIn(s, y, less), x, less) == Ties(s, x, less) + if Tied(y, x, less) then [y] else []
  {
    if s != [] && less(y, s[|s| - 1]) {
      var last, init := s[|s| - 1], s[..|s| - 1];
      PlaceInTies(init, y, x, less);
      var r := PlaceIn(init, y, less);
      assert (r + [last])[..|r|] == r;
      assert Ties(r + [last], x, less) == Ties(r, x, less) + if Tied(last, x, less) then [last] else [];
      assert !(Tied(y, x, less) && Tied(last, x, less));
    } else {
      assert (s + [y])[..|s|] == s;
    }
  }

  /** The sort is stable: elements that tie stay in the order they came in. */
  lemma {:induction false} SortByStable<T(!new)>(s: seq<T>, x: T, less: (T, T) -> bool)
    requires Preorder(less)
    ensures Ties(SortBy(s, less), x, less) == Ties(s, x, less)
  {
    if s != [] {
      SortByStable(s[..|s| - 1], x, less);
      PlaceInTies(SortBy(s[..|s| - 1], less), s[|s| - 1], x, less);
    }
  }

  /** The order of `(value, rid)` pairs is one. */
  lemma EntriesOrdered()
    ensures Preorder(EntryLess)
  {
    forall a: Entry, b: Entry ensures EntryLess(a, b) ==> !EntryLess(b, a) {
      EntryTrichotomy(a, b);
    }
    forall a: Entry, b: Entry, c: Entry ensures EntryLess(a, c) ==> EntryLess(a, b) || EntryLess(b, c) {
      EntryTrichotomy(a, b);
      EntryTrichotomy(b, c);
      if Rank(a.key) == Rank(c.key) { RankInjective(a.key, c.key); }
      if Rank(a.key) == Rank(b.key) { RankInjective(a.key, b.key); }
    }
  }

  lemma Twice<T>(s: seq<T>, i: nat, j: nat)
    requires i < j < |s| && s[i] == s[j]
    ensures multiset(s)[s[i]] >= 2
  {
    assert s == s[..j] + [s[j]] + s[j + 1..];
    assert s[i] in s[..j];
    assert multiset(s) == multiset(s[..j]) + multiset{s[j]} + multiset(s[j + 1..]);
  }
}
