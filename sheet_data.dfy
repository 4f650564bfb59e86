// Sheet cells and the index bookkeeping shared by the sheet-side cores
// (src/lib/google-document-util/types.ts and the row and column filters built on it).

module SheetData {
  /** One element of a dated cell: the formatted text, then the timestamp. */
  datatype TupleItem = ItemText(text: string) | ItemNumber(n: int)

  /** A cell of the sheet rows: a plain string, or a `[formatted, timestamp]` array. */
  datatype SheetCell = Plain(text: string) | Tuple(items: seq<TupleItem>)

  /** Index `h` is the first row of maximal length. */
  predicate IsFirstLongest<T>(rows: seq<seq<T>>, h: int) {
    0 <= h < |rows| &&
    (forall i :: 0 <= i < |rows| ==> |rows[i]| <= |rows[h]|) &&
    (forall i :: 0 <= i < h ==> |rows[i]| < |rows[h]|)
  }

  /** The header-row choice of the sheet readers, over the first `n` rows. */
  function FirstLongest<T>(rows: seq<seq<T>>, n: nat): (h: nat)
    requires 0 < n <= |rows|
    ensures IsFirstLongest(rows[..n], h)
  {
    if n == 1 then 0
    else
      var h := FirstLongest(rows, n - 1);
      assert forall i :: 0 <= i < n - 1 ==> rows[..n][i] == rows[..n - 1][i];
      if |rows[n - 1]| > |rows[h]| then n - 1 else h
  }

  /** There is only one first longest row. */
  lemma FirstLongestUnique<T>(rows: seq<seq<T>>, h1: int, h2: int)
    requires IsFirstLongest(rows, h1) && IsFirstLongest(rows, h2)
    ensures h1 == h2
  {
    var len1, len2 := |rows[h1]|, |rows[h2]|;
    assert len1 <= len2 && len2 <= len1;
  }

  /** The scan for the header row: a row replaces the current choice only when it is
      strictly longer. */
  method FindHeaderRow<T>(rows: seq<seq<T>>) returns (h: nat)
    requires |rows| > 0
    ensures IsFirstLongest(rows, h)
    ensures h == FirstLongest(rows, |rows|)
  {
    h := 0;
    for i := 1 to |rows|
      invariant h == FirstLongest(rows, i)
    {
      if |rows[i]| > |rows[h]| {
        h := i;
      }
    }
    assert rows[..|rows|] == rows;
  }

  /** The indices `j` in `[i, n)` with `keep(j)`, in ascending order: what a filter over
      `(element, index)` keeps. */
  function KeptIndices(n: nat, keep: int -> bool, i: nat): (r: seq<int>)
    ensures forall x :: x in r <==> i <= x < n && keep(x)
    ensures forall a, b :: 0 <= a < b < |r| ==> r[a] < r[b]
    ensures forall a :: 0 <= a < |r| ==> i <= r[a] < n
    ensures i <= n ==> |r| <= n - i
    decreases n - i
  {
    if i >= n then []
    else
      var rest := KeptIndices(n, keep, i + 1);
      if keep(i) then [i] + rest else rest
  }

  /** The elements of `xs` at the indices `idx`, in that order. */
  function Select<T>(xs: seq<T>, idx: seq<int>): (r: seq<T>)
    requires forall a :: 0 <= a < |idx| ==> 0 <= idx[a] < |xs|
    ensures |r| == |idx| && forall a :: 0 <= a < |idx| ==> r[a] == xs[idx[a]]
  {
    seq(|idx|, a requires 0 <= a < |idx| => xs[idx[a]])
  }

  /** Filtering a shorter range keeps a prefix of what the longer range keeps. */
  lemma {:induction false} KeptPrefix(m: nat, n: nat, keep: int -> bool, i: nat)
    requires m <= n
    ensures var short, long := KeptIndices(m, keep, i), KeptIndices(n, keep, i);
      |short| <= |long| && forall a :: 0 <= a < |short| ==> short[a] == long[a]
    decreases n - i
  {
    if i < m {
      KeptPrefix(m, n, keep, i + 1);
    }
  }

  /** Keeping every index keeps everything. */
  lemma {:induction false} KeptAll(n: nat, keep: int -> bool, i: nat)
    requires i <= n
    requires forall j :: i <= j < n ==> keep(j)
    ensures var r := KeptIndices(n, keep, i);
      |r| == n - i && forall a :: 0 <= a < |r| ==> r[a] == i + a
    decreases n - i
  {
    if i < n {
      KeptAll(n, keep, i + 1);
      var rest := KeptIndices(n, keep, i + 1);
      assert KeptIndices(n, keep, i) == [i] + rest;
    }
  }

  /** Selecting every index in order gives the sequence back. */
  lemma SelectAll<T>(xs: seq<T>, keep: int -> bool)
    requires forall j :: 0 <= j < |xs| ==> keep(j)
    ensures Select(xs, KeptIndices(|xs|, keep, 0)) == xs
  {
    KeptAll(|xs|, keep, 0);
    var r := Select(xs, KeptIndices(|xs|, keep, 0));
    assert |r| == |xs|;
    assert forall a :: 0 <= a < |r| ==> r[a] == xs[a];
  }

  /** `metadata.flatMap((m, i) => m.hiddenByUser ? i : [])`: the positions of the
      set flags, ascending. */
  function HiddenIndices(hidden: seq<bool>): (r: seq<int>)
    ensures forall x :: x in r <==> 0 <= x < |hidden| && hidden[x]
    ensures forall a, b :: 0 <= a < b < |r| ==> r[a] < r[b]
  {
    KeptIndices(|hidden|, j => 0 <= j < |hidden| && hidden[j], 0)
  }
}
