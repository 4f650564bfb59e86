/**
 * `Array.prototype.sort` with a comparator.  Since ES2019 the sort is stable, so
 * for a consistent comparator its result is fully determined: the stable
 * ordering of the input.  The model computes that ordering by insertion, where
 * `before(a, b)` means the comparator returns a negative number for `(a, b)`.
 */
module Sorting {

  /** No element is strictly before an element that precedes it. */
  ghost predicate Sorted<T>(s: seq<T>, before: (T, T) -> bool) {
    forall i, j :: 0 <= i < j < |s| ==> !before(s[j], s[i])
  }

  /** What a consistent comparator gives: an irreflexive, transitive "strictly before". */
  ghost predicate StrictOrder<T(!new)>(before: (T, T) -> bool) {
    (forall a :: !before(a, a)) &&
    (forall a, b, c :: before(a, b) && before(b, c) ==> before(a, c))
  }

  /** Places `x` after every element of `t` it is not strictly before. */
  function Insert<T>(x: T, t: seq<T>, before: (T, T) -> bool): (r: seq<T>)
    ensures |r| == |t| + 1
    ensures multiset(r) == multiset(t) + multiset{x}
  {
    if |t| == 0 then [x]
    else if before(x, t[0]) then [x] + t
    else
      assert t == [t[0]] + t[1..];
      [t[0]] + Insert(x, t[1..], before)
  }

  /** The stable sort of `s`: later elements go after the earlier ones they tie with. */
  function Sort<T>(s: seq<T>, before: (T, T) -> bool): (r: seq<T>)
    ensures |r| == |s|
    ensures multiset(r) == multiset(s)
  {
    if |s| == 0 then []
    else
      assert s == s[..|s| - 1] + [s[|s| - 1]];
      Insert(s[|s| - 1], Sort(s[..|s| - 1], before), before)
  }

  lemma {:induction false} InsertSorted<T(!new)>(x: T, t: seq<T>, before: (T, T) -> bool)
    requires StrictOrder(before) && Sorted(t, before)
    ensures Sorted(Insert(x, t, before), before)
  {
    if |t| > 0 && before(x, t[0]) {
      var r := Insert(x, t, before);
      forall j | 0 < j < |r|
        ensures !before(r[j], x)
      {
        assert r[j] == t[j - 1];
        if j > 1 {
          assert !before(t[j - 1], t[0]);
        }
      }
    } else if |t| > 0 {
      InsertSorted(x, t[1..], before);
      var r := Insert(x, t, before);
      forall j | 0 < j < |r|
        ensures !before(r[j], r[0])
      {
        assert r[j] in multiset(t[1..]) + multiset{x};
        if r[j] in multiset(t[1..]) {
          var m :| 0 <= m < |t[1..]| && t[1..][m] == r[j];
          assert t[m + 1] == r[j];
        }
      }
    }
  }

  /** For a consistent comparator the result is sorted. */
  lemma {:induction false} SortSorted<T(!new)>(s: seq<T>, before: (T, T) -> bool)
    requires StrictOrder(before)
    ensures Sorted(Sort(s, before), before)
  {
    if |s| > 0 {
      SortSorted(s[..|s| - 1], before);
      InsertSorted(s[|s| - 1], Sort(s[..|s| - 1], before), before);
    }
  }

  lemma {:induction false} InsertAtEnd<T>(x: T, t: seq<T>, before: (T, T) -> bool)
    requires forall k :: 0 <= k < |t| ==> !before(x, t[k])
    ensures Insert(x, t, before) == t + [x]
  {
    if |t| > 0 {
      InsertAtEnd(x, t[1..], before);
      assert [t[0]] + (t[1..] + [x]) == t + [x];
    }
  }

  /** Stability, in its simplest form: an already ordered input is left as it is. */
  lemma {:induction false} SortOfSorted<T>(s: seq<T>, before: (T, T) -> bool)
    requires Sorted(s, before)
    ensures Sort(s, before) == s
  {
    if |s| > 0 {
      var p := s[..|s| - 1];
      assert Sorted(p, before);
      SortOfSorted(p, before);
      InsertAtEnd(s[|s| - 1], p, before);
      assert p + [s[|s| - 1]] == s;
    }
  }

  /** Neither element is strictly before the other: the comparator returns 0. */
  ghost predicate Tied<T>(before: (T, T) -> bool, a: T, b: T) {
    !before(a, b) && !before(b, a)
  }

  /** A comparator that sorts by a key: a strict order whose ties are an equivalence. */
  ghost predicate StrictWeakOrder<T(!new)>(before: (T, T) -> bool) {
    StrictOrder(before) &&
    (forall a, b, c :: Tied(before, a, b) && Tied(before, b, c) ==> Tied(before, a, c))
  }

  /** The elements of `s` tied with `c`, in their order in `s`. */
  ghost function TiedWith<T>(s: seq<T>, c: T, before: (T, T) -> bool): seq<T> {
    if |s| == 0 then []
    else (if Tied(before, s[0], c) then [s[0]] else []) + TiedWith(s[1..], c, before)
  }

  lemma {:induction false} TiedWithSnoc<T>(s: seq<T>, x: T, c: T, before: (T, T) -> bool)
    ensures TiedWith(s + [x], c, before) ==
      TiedWith(s, c, before) + (if Tied(before, x, c) then [x] else [])
  {
    if |s| > 0 {
      assert (s + [x])[1..] == s[1..] + [x];
      TiedWithSnoc(s[1..], x, c, before);
    } else {
      assert (s + [x])[1..] == [];
    }
  }

  /** Under a strict weak order, whatever lies strictly between two elements sits below the upper
      one or above the lower one. */
  lemma Comparable<T(!new)>(x: T, y: T, z: T, before: (T, T) -> bool)
    requires StrictWeakOrder(before) && before(x, z)
    ensures before(x, y) || before(y, z)
  {
    var xy, yz, xz := Tied(before, x, y), Tied(before, y, z), Tied(before, x, z);
  }

  /** In a sorted sequence nothing after an element that `x` is strictly before ties with `x`. */
  lemma {:induction false} NoTieAfterBigger<T(!new)>(x: T, t: seq<T>, c: T, before: (T, T) -> bool)
    requires StrictWeakOrder(before) && Sorted(t, before)
    requires |t| > 0 && before(x, t[0]) && Tied(before, x, c)
    ensures TiedWith(t, c, before) == []
    decreases |t|
  {
    var ct, xt := Tied(before, c, t[0]), Tied(before, x, t[0]);
    assert !Tied(before, t[0], c);
    if |t| > 1 {
      Comparable(x, t[1], t[0], before);
      assert Sorted(t[1..], before);
      NoTieAfterBigger(x, t[1..], c, before);
    }
  }

  /** Inserting `x` into a sorted sequence puts it after every element it ties with. */
  lemma {:induction false} InsertTies<T(!new)>(x: T, t: seq<T>, c: T, before: (T, T) -> bool)
    requires StrictWeakOrder(before) && Sorted(t, before)
    ensures TiedWith(Insert(x, t, before), c, before) ==
      TiedWith(t, c, before) + (if Tied(before, x, c) then [x] else [])
  {
    if |t| == 0 {
      assert [x][1..] == [];
    } else if before(x, t[0]) {
      var r := Insert(x, t, before);
      assert r[1..] == t;
      if Tied(before, x, c) {
        NoTieAfterBigger(x, t, c, before);
      }
    } else {
      var r := Insert(x, t, before);
      assert r[0] == t[0] && r[1..] == Insert(x, t[1..], before);
      assert Sorted(t[1..], before);
      InsertTies(x, t[1..], c, before);
    }
  }

  /**
   * Stability: the elements tied with any `c` (those the comparator puts level with it)
   * come out of the sort in the order they went in.
   */
  lemma {:induction false} SortStable<T(!new)>(s: seq<T>, c: T, before: (T, T) -> bool)
    requires StrictWeakOrder(before)
    ensures TiedWith(Sort(s, before), c, before) == TiedWith(s, c, before)
  {
    if |s| > 0 {
      var p, x := s[..|s| - 1], s[|s| - 1];
      SortStable(p, c, before);
      SortSorted(p, before);
      InsertTies(x, Sort(p, before), c, before);
      assert s == p + [x];
      TiedWithSnoc(p, x, c, before);
    }
  }

  lemma {:induction false} InsertAgrees<T>(x: T, t: seq<T>, f: (T, T) -> bool, g: (T, T) -> bool, dom: set<T>)
    requires forall a, b :: a in dom && b in dom ==> f(a, b) == g(a, b)
    requires x in dom && forall k :: 0 <= k < |t| ==> t[k] in dom
    ensures Insert(x, t, f) == Insert(x, t, g)
  {
    if |t| > 0 {
      InsertAgrees(x, t[1..], f, g, dom);
    }
  }

  /** The sort only consults the comparator on the input's own elements. */
  lemma {:induction false} SortAgrees<T>(s: seq<T>, f: (T, T) -> bool, g: (T, T) -> bool, dom: set<T>)
    requires forall a, b :: a in dom && b in dom ==> f(a, b) == g(a, b)
    requires forall k :: 0 <= k < |s| ==> s[k] in dom
    ensures Sort(s, f) == Sort(s, g)
  {
    if |s| > 0 {
      var p := s[..|s| - 1];
      SortAgrees(p, f, g, dom);
      var t := Sort(p, g);
      forall k | 0 <= k < |t|
        ensures t[k] in dom
      {
        assert t[k] in multiset(p);
        var m :| 0 <= m < |p| && p[m] == t[k];
      }
      InsertAgrees(s[|s| - 1], t, f, g, dom);
    }
  }

  /** Every element `TiedWith` keeps comes from the input. */
  lemma {:induction false} TiedWithFrom<T>(s: seq<T>, c: T, before: (T, T) -> bool)
    ensures forall k :: 0 <= k < |TiedWith(s, c, before)| ==> TiedWith(s, c, before)[k] in s
  {
    if |s| > 0 {
      TiedWithFrom(s[1..], c, before);
    }
  }

  /** Two tied elements of `s` appear in `TiedWith(s, c, before)` in their order in `s`. */
  lemma {:induction false} TiedWithKeepsOrder<T>(s: seq<T>, c: T, before: (T, T) -> bool, i: nat, j: nat)
    requires i < j < |s| && Tied(before, s[i], c) && Tied(before, s[j], c)
    ensures exists p, q :: 0 <= p < q < |TiedWith(s, c, before)| &&
              TiedWith(s, c, before)[p] == s[i] && TiedWith(s, c, before)[q] == s[j]
  {
    var tw, rest := TiedWith(s, c, before), TiedWith(s[1..], c, before);
    var head := if Tied(before, s[0], c) then [s[0]] else [];
    assert tw == head + rest;
    if i == 0 {
      TiedWithIn(s[1..], c, before, j - 1);
      var q :| 0 <= q < |rest| && rest[q] == s[j];
      assert tw[0] == s[i] && tw[q + 1] == s[j];
    } else {
      TiedWithKeepsOrder(s[1..], c, before, i - 1, j - 1);
      var p, q :| 0 <= p < q < |rest| && rest[p] == s[i] && rest[q] == s[j];
      assert tw[p + |head|] == s[i] && tw[q + |head|] == s[j];
    }
  }

  lemma {:induction false} TiedWithIn<T>(s: seq<T>, c: T, before: (T, T) -> bool, j: nat)
    requires j < |s| && Tied(before, s[j], c)
    ensures s[j] in TiedWith(s, c, before)
  {
    if j > 0 {
      TiedWithIn(s[1..], c, before, j - 1);
    }
  }

  ghost predicate Increasing(s: seq<int>) {
    forall i, j :: 0 <= i < j < |s| ==> s[i] < s[j]
  }

  /** Filtering keeps an increasing sequence increasing. */
  lemma {:induction false} TiedWithIncreasing(s: seq<int>, c: int, before: (int, int) -> bool)
    requires Increasing(s)
    ensures Increasing(TiedWith(s, c, before))
  {
    if |s| > 0 {
      var tw, rest := TiedWith(s, c, before), TiedWith(s[1..], c, before);
      TiedWithIncreasing(s[1..], c, before);
      TiedWithFrom(s[1..], c, before);
      forall k | 0 <= k < |rest|
        ensures s[0] < rest[k]
      {
        var m :| 0 <= m < |s[1..]| && s[1..][m] == rest[k];
        assert s[m + 1] == rest[k];
      }
      if Tied(before, s[0], c) {
        assert tw == [s[0]] + rest;
        ConsIncreasing(s[0], rest);
      }
    }
  }

  lemma ConsIncreasing(x: int, t: seq<int>)
    requires Increasing(t) && forall k :: 0 <= k < |t| ==> x < t[k]
    ensures Increasing([x] + t)
  {
    var r := [x] + t;
    forall i, j | 0 <= i < j < |r|
      ensures r[i] < r[j]
    {
      assert r[j] == t[j - 1];
      if i > 0 {
        assert r[i] == t[i - 1];
      }
    }
  }

  /** Every two tied elements of `r` are in increasing order. */
  ghost predicate TiesIncreasing(r: seq<int>, before: (int, int) -> bool) {
    forall i, j :: 0 <= i < j < |r| && Tied(before, r[i], r[j]) ==> r[i] < r[j]
  }

  /** Sorting increasing integers keeps every run of ties increasing. */
  lemma SortTiesIncreasing(s: seq<int>, before: (int, int) -> bool)
    requires StrictWeakOrder(before) && Increasing(s)
    ensures TiesIncreasing(Sort(s, before), before)
  {
    var r := Sort(s, before);
    forall i, j | 0 <= i < j < |r| && Tied(before, r[i], r[j])
      ensures r[i] < r[j]
    {
      var c := r[i];
      assert Tied(before, r[i], c) && Tied(before, r[j], c);
      TiedWithKeepsOrder(r, c, before, i, j);
      SortStable(s, c, before);
      TiedWithIncreasing(s, c, before);
      var tw := TiedWith(r, c, before);
      var p, q :| 0 <= p < q < |tw| && tw[p] == r[i] && tw[q] == r[j];
    }
  }
}
