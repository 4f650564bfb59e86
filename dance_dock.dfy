/**
 * Dock-style magnification of the dance floor and the top-level layout call
 * (`src/lib/dance-party.ts`, the dock and orchestrator sections).  The two
 * falloff bells, `(1 + cos(pi d)) / 2` and `exp(-4 d^2)`, are parameters: the
 * model only relies on their shape (between 0 and 1 on [0, 1), 1 at the centre).
 */
module DanceDock {
  import opened Wrappers
  import opened Sorting
  import opened DanceScoring
  import opened DancePairing
  import opened DanceUnits
  import opened DancePlacement

  /** `DockLayoutEntry`: magnification and horizontal pixel offset of one unit. */
  datatype DockLayoutEntry = DockLayoutEntry(scale: real, dx: real)

  /** The two falloff curves `DockConfig['falloffFn']` selects between. */
  datatype Curves = Curves(cosine: real -> real, gaussian: real -> real)

  /** `Math.abs` */
  function Abs(x: real): (r: real)
    ensures r >= 0.0 && (r == x || r == -x)
  {
    if x < 0.0 then -x else x
  }

  /** A bell on the normalised distance: 1 at the centre, within [0, 1] up to the edge. */
  ghost predicate ValidFalloff(f: real -> real) {
    f(0.0) == 1.0 && forall d :: 0.0 <= d < 1.0 ==> 0.0 <= f(d) <= 1.0
  }

  /** A bell that never rises away from the centre. */
  ghost predicate NonIncreasing(f: real -> real) {
    forall a, b :: 0.0 <= a <= b < 1.0 ==> f(b) <= f(a)
  }

  ghost predicate ValidCurves(c: Curves) {
    ValidFalloff(c.cosine) && ValidFalloff(c.gaussian)
  }

  function Falloff(dock: DockConfig, curves: Curves): real -> real {
    if dock.falloffFn == Gaussian then curves.gaussian else curves.cosine
  }

  // ---------------------------------------------------------------------------
  // getDockScale
  // ---------------------------------------------------------------------------

  /**
   * `getDockScale(distance, neighborRadius, dock)`: 1 from the radius on, and
   * within it `1 + (maxScale - 1) * t` for the falloff `t` of the normalised distance.
   * The source divides by `neighborRadius` unguarded; its one caller,
   * `computeDockLayout`, has already returned for a radius of 0 or less.
   */
  function GetDockScale(distance: real, neighborRadius: real, dock: DockConfig, curves: Curves): (s: real)
    requires neighborRadius > 0.0
    ensures distance / neighborRadius >= 1.0 ==> s == 1.0
    ensures ValidCurves(curves) && distance == 0.0 ==> s == dock.maxScale
  {
    var normalizedDist := distance / neighborRadius;
    if normalizedDist >= 1.0 then 1.0
    else
      var t := Falloff(dock, curves)(normalizedDist);
      1.0 + (dock.maxScale - 1.0) * t
  }

  /** With `maxScale >= 1` every unit is magnified by a factor between 1 and `maxScale`. */
  lemma DockScaleBounds(distance: real, neighborRadius: real, dock: DockConfig, curves: Curves)
    requires neighborRadius > 0.0 && distance >= 0.0 && dock.maxScale >= 1.0 && ValidCurves(curves)
    ensures 1.0 <= GetDockScale(distance, neighborRadius, dock, curves) <= dock.maxScale
  {
    var normalizedDist := distance / neighborRadius;
    if normalizedDist < 1.0 {
      MulNonNeg(distance, 1.0 / neighborRadius);
      assert normalizedDist == distance * (1.0 / neighborRadius);
      var t := Falloff(dock, curves)(normalizedDist);
      assert 0.0 <= t <= 1.0;
      MulNonNeg(dock.maxScale - 1.0, t);
      MulNonNeg(dock.maxScale - 1.0, 1.0 - t);
    }
  }

  /** A unit at or beyond the radius is not magnified. */
  lemma BeyondRadiusIdle(distance: real, neighborRadius: real, dock: DockConfig, curves: Curves)
    requires 0.0 < neighborRadius <= distance
    ensures GetDockScale(distance, neighborRadius, dock, curves) == 1.0
  {
    DivMonotone(neighborRadius, distance, neighborRadius);
  }

  lemma DivMonotone(a: real, b: real, r: real)
    requires 0.0 <= a <= b && r > 0.0
    ensures a / r <= b / r
  {
    var inv := 1.0 / r;
    assert a / r == a * inv && b / r == b * inv;
    MulNonNeg(b - a, inv);
  }

  /** With a non-increasing bell and `maxScale >= 1`, nearer units are magnified at least as much. */
  lemma DockScaleMonotone(d1: real, d2: real, neighborRadius: real, dock: DockConfig, curves: Curves)
    requires neighborRadius > 0.0 && 0.0 <= d1 <= d2 && dock.maxScale >= 1.0
    requires ValidCurves(curves) && NonIncreasing(Falloff(dock, curves))
    ensures GetDockScale(d2, neighborRadius, dock, curves) <= GetDockScale(d1, neighborRadius, dock, curves)
  {
    DivMonotone(d1, d2, neighborRadius);
    DivMonotone(0.0, d1, neighborRadius);
    var f := Falloff(dock, curves);
    var n1, n2 := d1 / neighborRadius, d2 / neighborRadius;
    if n2 < 1.0 {
      assert f(n2) <= f(n1);
      MulNonNeg(dock.maxScale - 1.0, f(n1) - f(n2));
    } else {
      DockScaleBounds(d1, neighborRadius, dock, curves);
    }
  }

  // ---------------------------------------------------------------------------
  // Neighbour radius
  // ---------------------------------------------------------------------------

  /** The comparator `(a, b) => a - b`. */
  function NumericOrder(): (real, real) -> bool {
    (a: real, b: real) => a < b
  }

  /** `[...unitPositions].sort((a, b) => a - b)` */
  function SortedPositions(pos: seq<real>): (s: seq<real>)
    ensures |s| == |pos| && multiset(s) == multiset(pos)
    ensures forall i, j :: 0 <= i < j < |s| ==> s[i] <= s[j]
  {
    assert StrictOrder(NumericOrder());
    SortSorted(pos, NumericOrder());
    Sort(pos, NumericOrder())
  }

  /** The average gap of sorted positions: their spread over the number of gaps, 0.2 for fewer than two. */
  function AverageSpacing(sorted: seq<real>): real {
    if |sorted| <= 1 then 0.2 else (sorted[|sorted| - 1] - sorted[0]) / (|sorted| - 1) as real
  }

  /** `neighborRadius = avgSpacing * dock.neighborCount` */
  function NeighborRadius(pos: seq<real>, dock: DockConfig): real {
    AverageSpacing(SortedPositions(pos)) * dock.neighborCount
  }

  lemma SpacingNonNegative(s: seq<real>)
    requires forall i, j :: 0 <= i < j < |s| ==> s[i] <= s[j]
    ensures AverageSpacing(s) >= 0.0
  {
    if |s| > 1 {
      var gaps := s[|s| - 1] - s[0];
      var inv := 1.0 / (|s| - 1) as real;
      MulNonNeg(gaps, inv);
      assert gaps / (|s| - 1) as real == gaps * inv;
    }
  }

  /** A non-negative neighbour count gives a non-negative radius. */
  lemma NeighborRadiusNonNegative(pos: seq<real>, dock: DockConfig)
    requires dock.neighborCount >= 0.0
    ensures NeighborRadius(pos, dock) >= 0.0
  {
    ScaledSpacingNonNegative(SortedPositions(pos), dock.neighborCount);
  }

  lemma ScaledSpacingNonNegative(s: seq<real>, c: real)
    requires c >= 0.0 && forall i, j :: 0 <= i < j < |s| ==> s[i] <= s[j]
    ensures AverageSpacing(s) * c >= 0.0
  {
    SpacingNonNegative(s);
    MulNonNeg(AverageSpacing(s), c);
  }

  lemma SameEnds(s: seq<real>, pos: seq<real>)
    requires |pos| > 1 && |s| == |pos| && multiset(s) == multiset(pos)
    requires forall k :: 0 <= k < |pos| ==> pos[k] == pos[0]
    ensures AverageSpacing(s) == 0.0
  {
    assert s[0] in multiset(pos) && s[|s| - 1] in multiset(pos);
  }

  /** Two or more units all at one position leave no room for magnification. */
  lemma CoincidentUnitsNoRadius(pos: seq<real>, dock: DockConfig)
    requires |pos| > 1 && forall k :: 0 <= k < |pos| ==> pos[k] == pos[0]
    ensures NeighborRadius(pos, dock) == 0.0
  {
    SameEnds(SortedPositions(pos), pos);
  }

  /** The gap-summing loop of `computeDockLayout`: the gaps telescope to the spread. */
  method AverageGap(sorted: seq<real>) returns (avgSpacing: real)
    ensures avgSpacing == AverageSpacing(sorted)
  {
    if |sorted| <= 1 {
      avgSpacing := 0.2;
    } else {
      var totalGap := 0.0;
      for i := 1 to |sorted|
        invariant totalGap == sorted[i - 1] - sorted[0]
      {
        totalGap := totalGap + (sorted[i] - sorted[i - 1]);
      }
      avgSpacing := totalGap / (|sorted| - 1) as real;
    }
  }

  // ---------------------------------------------------------------------------
  // Order and split
  // ---------------------------------------------------------------------------

  /** The comparator `(a, b) => unitPositions[a] - unitPositions[b]` on indices. */
  function ByValue(pos: seq<real>): (int, int) -> bool {
    (a: int, b: int) => 0 <= a < |pos| && 0 <= b < |pos| && pos[a] < pos[b]
  }

  /** `indices.sort(...)`: every unit index once, by non-decreasing position. */
  function PositionOrder(pos: seq<real>): (idx: seq<int>)
    ensures |idx| == |pos|
    ensures forall j :: 0 <= j < |idx| ==> 0 <= idx[j] < |pos|
    ensures forall i, j :: 0 <= i < j < |idx| ==> idx[i] != idx[j]
    ensures forall k :: 0 <= k < |pos| ==> k in idx
    ensures forall i, j :: 0 <= i < j < |idx| ==> pos[idx[i]] <= pos[idx[j]]
  {
    var r := Sort(Range(|pos|), ByValue(pos));
    assert StrictOrder(ByValue(pos));
    SortSorted(Range(|pos|), ByValue(pos));
    PermutationOfRange(r, |pos|);
    r
  }

  /** The position of an index, with every index outside the units at 0: a total key on `int`. */
  ghost function KeyAt(pos: seq<real>, a: int): real {
    if 0 <= a < |pos| then pos[a] else 0.0
  }

  /** A comparator by that key; on the unit indices it agrees with `ByValue`. */
  ghost function ByKeyAt(pos: seq<real>): (int, int) -> bool {
    (a: int, b: int) => KeyAt(pos, a) < KeyAt(pos, b)
  }

  lemma ByKeyAtIsWeak(pos: seq<real>)
    ensures StrictWeakOrder(ByKeyAt(pos))
  {
    var before := ByKeyAt(pos);
    forall a, b, c | Tied(before, a, b) && Tied(before, b, c)
      ensures Tied(before, a, c)
    {
    }
  }

  lemma PositionOrderByKey(pos: seq<real>)
    ensures PositionOrder(pos) == Sort(Range(|pos|), ByKeyAt(pos))
  {
    var n := |pos|;
    var units := set k | k in Range(n);
    forall a | a in units
      ensures 0 <= a < n
    {
      var m :| 0 <= m < n && Range(n)[m] == a;
    }
    SortAgrees(Range(n), ByValue(pos), ByKeyAt(pos), units);
  }

  lemma KeyTiesIncreasing(pos: seq<real>)
    ensures var r := Sort(Range(|pos|), ByKeyAt(pos));
            forall i, j :: 0 <= i < j < |r| && KeyAt(pos, r[i]) == KeyAt(pos, r[j]) ==> r[i] < r[j]
  {
    var r, g := Sort(Range(|pos|), ByKeyAt(pos)), ByKeyAt(pos);
    ByKeyAtIsWeak(pos);
    SortTiesIncreasing(Range(|pos|), g);
    assert TiesIncreasing(r, g);
    forall i, j | 0 <= i < j < |r| && KeyAt(pos, r[i]) == KeyAt(pos, r[j])
      ensures r[i] < r[j]
    {
      assert Tied(g, r[i], r[j]);
    }
  }

  /** The sort is stable: units at the same position keep the order of their indices. */
  lemma PositionOrderStable(pos: seq<real>)
    ensures var idx := PositionOrder(pos);
            forall i, j :: 0 <= i < j < |idx| && pos[idx[i]] == pos[idx[j]] ==> idx[i] < idx[j]
  {
    var idx := PositionOrder(pos);
    PositionOrderByKey(pos);
    KeyTiesIncreasing(pos);
    forall i, j | 0 <= i < j < |idx| && pos[idx[i]] == pos[idx[j]]
      ensures idx[i] < idx[j]
    {
      assert KeyAt(pos, idx[i]) == KeyAt(pos, idx[j]);
    }
  }



  /** The last index whose value is at most `x`, or -1. */
  function LastAtMost(v: seq<real>, x: real): (r: int)
    ensures -1 <= r < |v|
    ensures r >= 0 ==> v[r] <= x
    ensures forall i :: r < i < |v| ==> v[i] > x
  {
    if |v| == 0 then -1
    else if v[|v| - 1] <= x then |v| - 1
    else LastAtMost(v[..|v| - 1], x)
  }

  /** In a sorted sequence the values at most `x` are exactly those up to the split. */
  lemma SplitOfSorted(v: seq<real>, x: real, j: int)
    requires forall a, b :: 0 <= a < b < |v| ==> v[a] <= v[b]
    requires 0 <= j < |v|
    ensures j <= LastAtMost(v, x) <==> v[j] <= x
  {
    var split := LastAtMost(v, x);
    if j <= split {
      assert v[j] <= v[split];
    }
  }

  /** The split loop of `computeDockLayout`. */
  method FindSplit(v: seq<real>, scrubX: real) returns (splitIdx: int)
    ensures splitIdx == LastAtMost(v, scrubX)
  {
    splitIdx := -1;
    for i := 0 to |v|
      invariant splitIdx == LastAtMost(v[..i], scrubX)
    {
      assert v[..i + 1][..i] == v[..i];
      if v[i] <= scrubX {
        splitIdx := i;
      }
    }
    assert v[..|v|] == v;
  }

  // ---------------------------------------------------------------------------
  // The lens sweeps
  // ---------------------------------------------------------------------------

  /**
   * The right sweep's running total at sorted position `i > split`: half the
   * extra width of every unit from the split item to `i`, counting the inner
   * neighbours twice, so `i` shifts by everything between it and the scrub
   * point plus half its own extra.
   */
  function RightAcc(e: seq<real>, split: int, i: int): real
    requires -1 <= split < i < |e|
    decreases i
  {
    (if i == split + 1 then (if split >= 0 then e[split] / 2.0 else 0.0)
     else RightAcc(e, split, i - 1) + e[i - 1] / 2.0)
    + e[i] / 2.0
  }

  /** The left sweep's running total at sorted position `i <= split`, mirrored. */
  function LeftAcc(e: seq<real>, split: int, i: int): real
    requires 0 <= i <= split < |e|
    decreases split - i
  {
    if i == split then e[i] / 2.0 + (if split + 1 < |e| then e[split + 1] / 2.0 else 0.0)
    else LeftAcc(e, split, i + 1) + e[i + 1] / 2.0 + e[i] / 2.0
  }

  ghost predicate NonNegative(e: seq<real>) {
    forall i :: 0 <= i < |e| ==> e[i] >= 0.0
  }

  lemma {:induction false} RightAccNonNegative(e: seq<real>, split: int, i: int)
    requires NonNegative(e) && -1 <= split < i < |e|
    ensures RightAcc(e, split, i) >= 0.0
    decreases i
  {
    if i > split + 1 {
      RightAccNonNegative(e, split, i - 1);
    }
  }

  lemma {:induction false} LeftAccNonNegative(e: seq<real>, split: int, i: int)
    requires NonNegative(e) && 0 <= i <= split < |e|
    ensures LeftAcc(e, split, i) >= 0.0
    decreases split - i
  {
    if i < split {
      LeftAccNonNegative(e, split, i + 1);
    }
  }

  /** With non-negative extras the right side shifts right, more so further out. */
  lemma {:induction false} RightAccGrows(e: seq<real>, split: int, i: int, j: int)
    requires NonNegative(e) && -1 <= split < i <= j < |e|
    ensures 0.0 <= RightAcc(e, split, i) <= RightAcc(e, split, j)
    decreases j - i
  {
    if i < j {
      RightAccGrows(e, split, i, j - 1);
    } else {
      RightAccNonNegative(e, split, i);
    }
  }

  /** With non-negative extras the left side shifts left, more so further out. */
  lemma {:induction false} LeftAccGrows(e: seq<real>, split: int, i: int, j: int)
    requires NonNegative(e) && 0 <= i <= j <= split < |e|
    ensures 0.0 <= LeftAcc(e, split, j) <= LeftAcc(e, split, i)
    decreases j - i
  {
    if i < j {
      LeftAccGrows(e, split, i + 1, j);
    } else {
      LeftAccNonNegative(e, split, i);
    }
  }

  /** Past two unmagnified units the shift stays flat at the side's total extra so far. */
  lemma RightAccFlat(e: seq<real>, split: int, i: int)
    requires -1 <= split && split + 1 < i < |e| && e[i - 1] == 0.0 && e[i] == 0.0
    ensures RightAcc(e, split, i) == RightAcc(e, split, i - 1)
  {
  }

  lemma LeftAccFlat(e: seq<real>, split: int, i: int)
    requires 0 <= i < split < |e| && e[i + 1] == 0.0 && e[i] == 0.0
    ensures LeftAcc(e, split, i) == LeftAcc(e, split, i + 1)
  {
  }

  /** Indices into `d`, each once. */
  ghost predicate IndexPermutation(indices: seq<int>, n: int) {
    (forall j :: 0 <= j < |indices| ==> 0 <= indices[j] < n)
    && (forall i, j :: 0 <= i < j < |indices| ==> indices[i] != indices[j])
  }

  /** `dx` after the right sweep has reached sorted position `i`. */
  ghost function RightWrites(d: seq<real>, indices: seq<int>, e: seq<real>, split: int, i: int): (r: seq<real>)
    requires |indices| == |e| && -1 <= split && split + 1 <= i <= |indices| && IndexPermutation(indices, |d|)
    ensures |r| == |d|
    decreases i
  {
    if i == split + 1 then d
    else RightWrites(d, indices, e, split, i - 1)[indices[i - 1] := RightAcc(e, split, i - 1)]
  }

  lemma {:induction false} RightWritesAt(d: seq<real>, indices: seq<int>, e: seq<real>, split: int, i: int)
    requires |indices| == |e| && -1 <= split && split + 1 <= i <= |indices| && IndexPermutation(indices, |d|)
    ensures forall j :: split < j < i ==> RightWrites(d, indices, e, split, i)[indices[j]] == RightAcc(e, split, j)
    ensures forall j :: 0 <= j < |indices| && (j <= split || i <= j) ==>
              RightWrites(d, indices, e, split, i)[indices[j]] == d[indices[j]]
    decreases i
  {
    if i > split + 1 {
      RightWritesAt(d, indices, e, split, i - 1);
    }
  }

  /** `dx` after the left sweep has come down to sorted position `i`. */
  ghost function LeftWrites(d: seq<real>, indices: seq<int>, e: seq<real>, split: int, i: int): (r: seq<real>)
    requires |indices| == |e| && 0 <= i <= split + 1 <= |indices| && IndexPermutation(indices, |d|)
    ensures |r| == |d|
    decreases split + 1 - i
  {
    if i == split + 1 then d
    else LeftWrites(d, indices, e, split, i + 1)[indices[i] := -LeftAcc(e, split, i)]
  }

  lemma {:induction false} LeftWritesAt(d: seq<real>, indices: seq<int>, e: seq<real>, split: int, i: int)
    requires |indices| == |e| && 0 <= i <= split + 1 <= |indices| && IndexPermutation(indices, |d|)
    ensures forall j :: i <= j <= split ==> LeftWrites(d, indices, e, split, i)[indices[j]] == -LeftAcc(e, split, j)
    ensures forall j :: 0 <= j < |indices| && (j < i || split < j) ==>
              LeftWrites(d, indices, e, split, i)[indices[j]] == d[indices[j]]
    decreases split + 1 - i
  {
    if i <= split {
      LeftWritesAt(d, indices, e, split, i + 1);
    }
  }

  /** The right sweep of `computeDockLayout`, writing `dx` for the units right of the split. */
  method SweepRight(dx: array<real>, indices: seq<int>, extras: seq<real>, splitIdx: int, ghost e: seq<real>)
    requires |indices| == dx.Length == |extras| == |e| && -1 <= splitIdx < |indices|
    requires IndexPermutation(indices, |extras|)
    requires forall j :: 0 <= j < |indices| ==> e[j] == extras[indices[j]]
    modifies dx
    ensures dx[..] == RightWrites(old(dx[..]), indices, e, splitIdx, |indices|)
  {
    ghost var d0 := dx[..];
    var accumulatedRight := 0.0;
    for i := splitIdx + 1 to |indices|
      invariant i > splitIdx + 1 ==> accumulatedRight == RightAcc(e, splitIdx, i - 1)
      invariant i == splitIdx + 1 ==> accumulatedRight == 0.0
      invariant dx[..] == RightWrites(d0, indices, e, splitIdx, i)
    {
      var idx := indices[i];
      if i == splitIdx + 1 && splitIdx >= 0 {
        accumulatedRight := accumulatedRight + extras[indices[splitIdx]] / 2.0;
      } else if i > splitIdx + 1 {
        accumulatedRight := accumulatedRight + extras[indices[i - 1]] / 2.0;
      }
      accumulatedRight := accumulatedRight + extras[idx] / 2.0;
      assert accumulatedRight == RightAcc(e, splitIdx, i);
      dx[idx] := accumulatedRight;
    }
  }

  /** The left sweep of `computeDockLayout`, writing `-accumulatedLeft` for the units up to the split. */
  method SweepLeft(dx: array<real>, indices: seq<int>, extras: seq<real>, splitIdx: int, ghost e: seq<real>)
    requires |indices| == dx.Length == |extras| == |e| && -1 <= splitIdx < |indices|
    requires IndexPermutation(indices, |extras|)
    requires forall j :: 0 <= j < |indices| ==> e[j] == extras[indices[j]]
    modifies dx
    ensures dx[..] == LeftWrites(old(dx[..]), indices, e, splitIdx, 0)
  {
    ghost var d0 := dx[..];
    var accumulatedLeft := 0.0;
    for i := splitIdx + 1 downto 0
      invariant i <= splitIdx ==> accumulatedLeft == LeftAcc(e, splitIdx, i)
      invariant i == splitIdx + 1 ==> accumulatedLeft == 0.0
      invariant dx[..] == LeftWrites(d0, indices, e, splitIdx, i)
    {
      var idx := indices[i];
      if i == splitIdx && splitIdx + 1 < |indices| {
        accumulatedLeft := accumulatedLeft + extras[idx] / 2.0;
        if splitIdx + 1 < |indices| {
          accumulatedLeft := accumulatedLeft + extras[indices[splitIdx + 1]] / 2.0;
        }
      } else if i < splitIdx {
        accumulatedLeft := accumulatedLeft + extras[indices[i + 1]] / 2.0;
        accumulatedLeft := accumulatedLeft + extras[idx] / 2.0;
      } else {
        accumulatedLeft := accumulatedLeft + extras[idx] / 2.0;
      }
      assert accumulatedLeft == LeftAcc(e, splitIdx, i);
      dx[idx] := -accumulatedLeft;
    }
  }

  // ---------------------------------------------------------------------------
  // computeDockLayout
  // ---------------------------------------------------------------------------

  /** The shift of the unit at sorted position `j`: rightward past the split, leftward up to it. */
  function DockOffset(e: seq<real>, split: int, j: int): real
    requires -1 <= split < |e| && 0 <= j < |e|
  {
    if j > split then RightAcc(e, split, j) else -LeftAcc(e, split, j)
  }

  /** Scale of every unit: `getDockScale(|pos - scrubX|, neighborRadius, dock)`. */
  function Scales(pos: seq<real>, scrubX: real, radius: real, dock: DockConfig, curves: Curves): (scales: seq<real>)
    requires radius > 0.0
    ensures |scales| == |pos|
    ensures forall k :: 0 <= k < |pos| ==> scales[k] == GetDockScale(Abs(pos[k] - scrubX), radius, dock, curves)
  {
    seq(|pos|, k requires 0 <= k < |pos| => GetDockScale(Abs(pos[k] - scrubX), radius, dock, curves))
  }

  /** Extra pixel width of every unit: `baseIconHeight * (scale - 1)`. */
  function Extras(scales: seq<real>, baseWidth: real): (extras: seq<real>)
    ensures |extras| == |scales|
    ensures forall k :: 0 <= k < |scales| ==> extras[k] == baseWidth * (scales[k] - 1.0)
  {
    seq(|scales|, k requires 0 <= k < |scales| => baseWidth * (scales[k] - 1.0))
  }

  /** `s` read in the order `idx`. */
  function Permute(s: seq<real>, idx: seq<int>): (r: seq<real>)
    requires forall j :: 0 <= j < |idx| ==> 0 <= idx[j] < |s|
    ensures |r| == |idx| && forall j :: 0 <= j < |idx| ==> r[j] == s[idx[j]]
  {
    seq(|idx|, j requires 0 <= j < |idx| => s[idx[j]])
  }

  /** The magnified layout for a positive radius: each unit's scale and the lens shift of its sorted place. */
  function LensLayout(pos: seq<real>, scrubX: real, radius: real, dock: DockConfig, curves: Curves): (r: seq<DockLayoutEntry>)
    requires radius > 0.0
    ensures |r| == |pos|
  {
    var scales := Scales(pos, scrubX, radius, dock, curves);
    var idx := PositionOrder(pos);
    var e := Permute(Extras(scales, dock.baseIconHeight), idx);
    var split := LastAtMost(Permute(pos, idx), scrubX);
    seq(|pos|, k requires 0 <= k < |pos| => DockLayoutEntry(scales[k], DockOffset(e, split, Find(idx, k))))
  }

  /** Every unit idle: scale 1 and no shift. */
  function IdleLayout(n: nat): (r: seq<DockLayoutEntry>)
    ensures |r| == n && forall k :: 0 <= k < n ==> r[k] == DockLayoutEntry(1.0, 0.0)
  {
    seq(n, _ => DockLayoutEntry(1.0, 0.0))
  }

  /**
   * What `computeDockLayout` returns: nothing for no units, every unit idle
   * when the radius vanishes, and the lens layout otherwise.
   */
  function DockLayout(pos: seq<real>, scrubX: real, dock: DockConfig, curves: Curves): (r: seq<DockLayoutEntry>)
    ensures |r| == |pos|
  {
    var radius := NeighborRadius(pos, dock);
    if |pos| == 0 then []
    else if radius <= 0.0 then IdleLayout(|pos|)
    else LensLayout(pos, scrubX, radius, dock, curves)
  }

  /** Both sweeps together write every unit's lens shift. */
  lemma SweepsWriteOffsets(d: seq<real>, indices: seq<int>, e: seq<real>, split: int)
    requires |indices| == |e| == |d| && -1 <= split < |indices| && IndexPermutation(indices, |d|)
    ensures forall j :: 0 <= j < |indices| ==>
              LeftWrites(RightWrites(d, indices, e, split, |indices|), indices, e, split, 0)[indices[j]]
              == DockOffset(e, split, j)
  {
    var d1 := RightWrites(d, indices, e, split, |indices|);
    RightWritesAt(d, indices, e, split, |indices|);
    LeftWritesAt(d1, indices, e, split, 0);
  }

  /** Step 3 of `computeDockLayout`: the zero-filled `dx` after both sweeps. */
  method LensOffsets(indices: seq<int>, extras: seq<real>, splitIdx: int) returns (dx: seq<real>)
    requires |indices| == |extras| && -1 <= splitIdx < |indices| && IndexPermutation(indices, |extras|)
    ensures |dx| == |extras|
    ensures forall j :: 0 <= j < |indices| ==> dx[indices[j]] == DockOffset(Permute(extras, indices), splitIdx, j)
  {
    ghost var e := Permute(extras, indices);
    var a := new real[|extras|](_ => 0.0);
    ghost var d0 := a[..];
    SweepRight(a, indices, extras, splitIdx, e);
    SweepLeft(a, indices, extras, splitIdx, e);
    SweepsWriteOffsets(d0, indices, e, splitIdx);
    dx := a[..];
  }

  /** Steps 1 to 3 of `computeDockLayout` for a positive radius. */
  method ComputeLens(unitPositions: seq<real>, scrubX: real, neighborRadius: real, dock: DockConfig, curves: Curves)
    returns (entries: seq<DockLayoutEntry>)
    requires neighborRadius > 0.0
    ensures entries == LensLayout(unitPositions, scrubX, neighborRadius, dock, curves)
  {
    var n := |unitPositions|;
    var scales := Scales(unitPositions, scrubX, neighborRadius, dock, curves);
    var extras := Extras(scales, dock.baseIconHeight);
    var indices := PositionOrder(unitPositions);
    var splitIdx := FindSplit(Permute(unitPositions, indices), scrubX);
    var dx := LensOffsets(indices, extras, splitIdx);
    entries := seq(n, i requires 0 <= i < n => DockLayoutEntry(scales[i], dx[i]));
    ghost var e := Permute(extras, indices);
    forall k | 0 <= k < n
      ensures entries[k] == LensLayout(unitPositions, scrubX, neighborRadius, dock, curves)[k]
    {
      var j := Find(indices, k);
      assert dx[indices[j]] == DockOffset(e, splitIdx, j);
    }
  }

  /**
   * `computeDockLayout(unitPositions, scrubX, containerWidth, dock)`.  The
   * container width is accepted and unused, as in the source.
   */
  method ComputeDockLayout(unitPositions: seq<real>, scrubX: real, containerWidth: real, dock: DockConfig, curves: Curves)
    returns (entries: seq<DockLayoutEntry>)
    ensures entries == DockLayout(unitPositions, scrubX, dock, curves)
  {
    var n := |unitPositions|;
    if n == 0 {
      return [];
    }
    var sorted := SortedPositions(unitPositions);
    var avgSpacing := AverageGap(sorted);
    var neighborRadius := avgSpacing * dock.neighborCount;
    assert neighborRadius == NeighborRadius(unitPositions, dock);
    if neighborRadius <= 0.0 {
      return IdleLayout(n);
    }
    entries := ComputeLens(unitPositions, scrubX, neighborRadius, dock, curves);
  }

  /** Unit `k` of a lens layout: its scale, and the shift of its sorted place. */
  lemma LensLayoutAt(pos: seq<real>, scrubX: real, radius: real, dock: DockConfig, curves: Curves, k: int)
    requires 0 <= k < |pos| && radius > 0.0
    ensures LensLayout(pos, scrubX, radius, dock, curves)[k].scale == GetDockScale(Abs(pos[k] - scrubX), radius, dock, curves)
    ensures LensLayout(pos, scrubX, radius, dock, curves)[k].dx
            == DockOffset(Permute(Extras(Scales(pos, scrubX, radius, dock, curves), dock.baseIconHeight), PositionOrder(pos)),
                          LastAtMost(Permute(pos, PositionOrder(pos)), scrubX), Find(PositionOrder(pos), k))
  {
  }

  /** Unit `k` is shifted by the right sweep exactly when it lies right of the scrub point. */
  lemma SideOfUnit(pos: seq<real>, scrubX: real, k: int)
    requires 0 <= k < |pos|
    ensures Find(PositionOrder(pos), k) > LastAtMost(Permute(pos, PositionOrder(pos)), scrubX) <==> pos[k] > scrubX
  {
    var idx := PositionOrder(pos);
    SplitOfSorted(Permute(pos, idx), scrubX, Find(idx, k));
  }

  /** With `maxScale >= 1` and a non-negative icon height no unit's extra width is negative. */
  lemma ExtrasNonNegative(pos: seq<real>, scrubX: real, radius: real, dock: DockConfig, curves: Curves, idx: seq<int>)
    requires radius > 0.0 && dock.maxScale >= 1.0 && dock.baseIconHeight >= 0.0 && ValidCurves(curves)
    requires forall j :: 0 <= j < |idx| ==> 0 <= idx[j] < |pos|
    ensures NonNegative(Permute(Extras(Scales(pos, scrubX, radius, dock, curves), dock.baseIconHeight), idx))
  {
    var scales := Scales(pos, scrubX, radius, dock, curves);
    forall k | 0 <= k < |pos|
      ensures dock.baseIconHeight * (scales[k] - 1.0) >= 0.0
    {
      DockScaleBounds(Abs(pos[k] - scrubX), radius, dock, curves);
      MulNonNeg(dock.baseIconHeight, scales[k] - 1.0);
    }
  }

  /** Every scale lies between 1 and `maxScale`; a unit under the scrub point gets `maxScale`. */
  lemma DockLayoutScales(pos: seq<real>, scrubX: real, dock: DockConfig, curves: Curves, k: int)
    requires 0 <= k < |pos| && dock.maxScale >= 1.0 && ValidCurves(curves)
    ensures 1.0 <= DockLayout(pos, scrubX, dock, curves)[k].scale <= dock.maxScale
    ensures NeighborRadius(pos, dock) > 0.0 && pos[k] == scrubX ==>
              DockLayout(pos, scrubX, dock, curves)[k].scale == dock.maxScale
    ensures NeighborRadius(pos, dock) > 0.0 && Abs(pos[k] - scrubX) >= NeighborRadius(pos, dock) ==>
              DockLayout(pos, scrubX, dock, curves)[k].scale == 1.0
  {
    var radius := NeighborRadius(pos, dock);
    if radius > 0.0 {
      assert DockLayout(pos, scrubX, dock, curves) == LensLayout(pos, scrubX, radius, dock, curves);
      LensLayoutAt(pos, scrubX, radius, dock, curves, k);
      var d := Abs(pos[k] - scrubX);
      DockScaleBounds(d, radius, dock, curves);
      if d >= radius {
        BeyondRadiusIdle(d, radius, dock, curves);
      }
    }
  }

  /**
   * The lens pushes outward: with `maxScale >= 1` and a non-negative icon
   * height, units right of the scrub point never move left and units at or
   * left of it never move right.
   */
  lemma DockLayoutSides(pos: seq<real>, scrubX: real, dock: DockConfig, curves: Curves, k: int)
    requires 0 <= k < |pos| && dock.maxScale >= 1.0 && dock.baseIconHeight >= 0.0 && ValidCurves(curves)
    ensures pos[k] > scrubX ==> DockLayout(pos, scrubX, dock, curves)[k].dx >= 0.0
    ensures pos[k] <= scrubX ==> DockLayout(pos, scrubX, dock, curves)[k].dx <= 0.0
  {
    var radius := NeighborRadius(pos, dock);
    if radius > 0.0 {
      var idx := PositionOrder(pos);
      var e := Permute(Extras(Scales(pos, scrubX, radius, dock, curves), dock.baseIconHeight), idx);
      var split := LastAtMost(Permute(pos, idx), scrubX);
      var j := Find(idx, k);
      assert DockLayout(pos, scrubX, dock, curves) == LensLayout(pos, scrubX, radius, dock, curves);
      LensLayoutAt(pos, scrubX, radius, dock, curves, k);
      SideOfUnit(pos, scrubX, k);
      ExtrasNonNegative(pos, scrubX, radius, dock, curves, idx);
      if j > split {
        RightAccNonNegative(e, split, j);
      } else {
        LeftAccNonNegative(e, split, j);
      }
    }
  }

  /** In position order, a unit strictly left of another comes first. */
  lemma OrderOfPositions(pos: seq<real>, a: int, b: int)
    requires 0 <= a < |pos| && 0 <= b < |pos| && pos[a] < pos[b]
    ensures Find(PositionOrder(pos), a) < Find(PositionOrder(pos), b)
  {
    var idx := PositionOrder(pos);
    var ja, jb := Find(idx, a), Find(idx, b);
    if jb <= ja {
      assert false;
    }
  }

  /**
   * Shifts grow away from the scrub point: of two units on the same side, the
   * one further out moves at least as far.
   */
  lemma DockLayoutOutward(pos: seq<real>, scrubX: real, dock: DockConfig, curves: Curves, a: int, b: int)
    requires 0 <= a < |pos| && 0 <= b < |pos| && pos[a] < pos[b]
    requires dock.maxScale >= 1.0 && dock.baseIconHeight >= 0.0 && ValidCurves(curves)
    ensures scrubX < pos[a] ==>
              DockLayout(pos, scrubX, dock, curves)[a].dx <= DockLayout(pos, scrubX, dock, curves)[b].dx
    ensures pos[b] <= scrubX ==>
              DockLayout(pos, scrubX, dock, curves)[a].dx <= DockLayout(pos, scrubX, dock, curves)[b].dx
  {
    var radius := NeighborRadius(pos, dock);
    if radius > 0.0 {
      var idx := PositionOrder(pos);
      var e := Permute(Extras(Scales(pos, scrubX, radius, dock, curves), dock.baseIconHeight), idx);
      var split := LastAtMost(Permute(pos, idx), scrubX);
      var ja, jb := Find(idx, a), Find(idx, b);
      assert DockLayout(pos, scrubX, dock, curves) == LensLayout(pos, scrubX, radius, dock, curves);
      LensLayoutAt(pos, scrubX, radius, dock, curves, a);
      LensLayoutAt(pos, scrubX, radius, dock, curves, b);
      SideOfUnit(pos, scrubX, a);
      SideOfUnit(pos, scrubX, b);
      ExtrasNonNegative(pos, scrubX, radius, dock, curves, idx);
      OrderOfPositions(pos, a, b);
      if scrubX < pos[a] {
        RightAccGrows(e, split, ja, jb);
      } else if pos[b] <= scrubX {
        LeftAccGrows(e, split, ja, jb);
      }
    }
  }

  // ---------------------------------------------------------------------------
  // findNearestUnit
  // ---------------------------------------------------------------------------

  /**
   * `findNearestUnit(unitPositions, scrubX)`: -1 for no units, otherwise the
   * first unit at the least distance from the scrub position.
   */
  method FindNearestUnit(unitPositions: seq<real>, scrubX: real) returns (bestIdx: int)
    ensures |unitPositions| == 0 ==> bestIdx == -1
    ensures |unitPositions| > 0 ==> 0 <= bestIdx < |unitPositions|
    ensures |unitPositions| > 0 ==>
              forall i :: 0 <= i < |unitPositions| ==>
                Abs(unitPositions[bestIdx] - scrubX) <= Abs(unitPositions[i] - scrubX)
    ensures |unitPositions| > 0 ==>
              forall i :: 0 <= i < bestIdx ==> Abs(unitPositions[i] - scrubX) > Abs(unitPositions[bestIdx] - scrubX)
  {
    if |unitPositions| == 0 {
      return -1;
    }
    bestIdx := 0;
    var bestDist := Abs(unitPositions[0] - scrubX);
    for i := 1 to |unitPositions|
      invariant 0 <= bestIdx < i && bestDist == Abs(unitPositions[bestIdx] - scrubX)
      invariant forall j :: 0 <= j < i ==> bestDist <= Abs(unitPositions[j] - scrubX)
      invariant forall j :: 0 <= j < bestIdx ==> Abs(unitPositions[j] - scrubX) > bestDist
    {
      var dist := Abs(unitPositions[i] - scrubX);
      if dist < bestDist {
        bestDist := dist;
        bestIdx := i;
      }
    }
  }

  // ---------------------------------------------------------------------------
  // computeDanceFloor
  // ---------------------------------------------------------------------------

  /** The dance units of a placed floor, in order. */
  function UnitsOf(placed: seq<PlacedUnit>): (units: seq<DanceUnit>)
    ensures |units| == |placed| && forall k :: 0 <= k < |placed| ==> units[k] == placed[k].unit
  {
    seq(|placed|, k requires 0 <= k < |placed| => placed[k].unit)
  }

  /**
   * `computeDanceFloor(dancers, formTitle, songNumber, config)`: pairing then
   * placement.  Every dancer appears on the floor exactly once, and with a
   * sane layout every unit stands within the floor.
   */
  method ComputeDanceFloor(dancers: seq<DancerRow>, formTitle: string, songNumber: int, config: DancePartyConfig)
    returns (placed: seq<PlacedUnit>)
    ensures |dancers| == 0 ==> placed == []
    ensures multiset(AllMembers(UnitsOf(placed))) == multiset(dancers)
    ensures UnitLayout(config.layout) && config.layout.minSpacing <= 1.0 ==>
              forall k :: 0 <= k < |placed| ==> 0.0 <= placed[k].x <= 1.0
    ensures forall k :: 0 <= k < |placed| ==>
              -(config.layout.verticalJitter as int) <= placed[k].yOffset <= config.layout.verticalJitter
  {
    var units := BuildDanceUnits(dancers, formTitle, songNumber, config);
    placed := PlaceDanceUnits(units, formTitle, songNumber, config);
    assert UnitsOf(placed) == units;
  }
}
