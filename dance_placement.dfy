/**
 * Placement of dance units on the floor (`src/lib/dance-party.ts`, the
 * placement and bubble-alignment sections): a hash-derived horizontal
 * position pulled towards the centre by priority, vertical jitter, a mirror
 * flag, and the minimum-spacing pass that spreads clumped units apart.
 */
module DancePlacement {
  import opened Wrappers
  import opened JsString
  import opened Djb2
  import opened Sorting
  import opened DanceScoring
  import opened DancePairing
  import opened DanceUnits

  /** `PlacedUnit`: a dance unit with its position in [0, 1], vertical offset and mirror state. */
  datatype PlacedUnit = PlacedUnit(unit: DanceUnit, x: real, yOffset: int, flipped: bool)

  // ---------------------------------------------------------------------------
  // Index order
  // ---------------------------------------------------------------------------

  function Range(n: nat): (r: seq<int>)
    ensures |r| == n && forall k :: 0 <= k < n ==> r[k] == k
  {
    seq(n, k => k)
  }

  /**
   * The comparator of `enforceMinSpacing`'s index sort,
   * `units[a].x - units[b].x || units[a].unitKey.localeCompare(units[b].unitKey)`:
   * by position, ties broken by unit key in code-unit order.
   */
  function ByPosition(units: seq<PlacedUnit>): (int, int) -> bool {
    (a: int, b: int) =>
      0 <= a < |units| && 0 <= b < |units| &&
      (units[a].x < units[b].x ||
       (units[a].x == units[b].x && StringLess(units[a].unit.unitKey, units[b].unit.unitKey)))
  }

  lemma ByPositionIsStrict(units: seq<PlacedUnit>)
    ensures StrictOrder(ByPosition(units))
  {
    var before := ByPosition(units);
    forall a: int
      ensures !before(a, a)
    {
      if 0 <= a < |units| {
        UnitsLessIrreflexive(CodeUnits(units[a].unit.unitKey));
      }
    }
    forall a: int, b: int, c: int | before(a, b) && before(b, c)
      ensures before(a, c)
    {
      if units[a].x == units[b].x && units[b].x == units[c].x {
        UnitsLessTransitive(CodeUnits(units[a].unit.unitKey), CodeUnits(units[b].unit.unitKey),
                            CodeUnits(units[c].unit.unitKey));
      }
    }
  }

  lemma {:induction false} RangeCount(n: nat, v: int)
    ensures multiset(Range(n))[v] == if 0 <= v < n then 1 else 0
  {
    if n > 0 {
      assert Range(n) == Range(n - 1) + [n - 1];
      RangeCount(n - 1, v);
    }
  }

  lemma TwiceCounted(s: seq<int>, i: int, j: int)
    requires 0 <= i < j < |s| && s[i] == s[j]
    ensures multiset(s)[s[i]] >= 2
  {
    var v := s[i];
    assert s == s[..i] + [v] + s[i + 1..j] + [v] + s[j + 1..];
  }

  /** A rearrangement of `0 .. n-1` holds each index exactly once. */
  lemma PermutationOfRange(s: seq<int>, n: nat)
    requires multiset(s) == multiset(Range(n))
    ensures forall j :: 0 <= j < |s| ==> 0 <= s[j] < n
    ensures forall i, j :: 0 <= i < j < |s| ==> s[i] != s[j]
    ensures forall k :: 0 <= k < n ==> k in s
  {
    forall j | 0 <= j < |s|
      ensures 0 <= s[j] < n
    {
      assert s[j] in multiset(s);
      RangeCount(n, s[j]);
    }
    forall i, j | 0 <= i < j < |s|
      ensures s[i] != s[j]
    {
      if s[i] == s[j] {
        TwiceCounted(s, i, j);
        RangeCount(n, s[i]);
        assert false;
      }
    }
    forall k | 0 <= k < n
      ensures k in s
    {
      RangeCount(n, k);
      assert k in multiset(s);
    }
  }

  /**
   * `indices.sort(...)`: every unit index once, in left-to-right order, equal
   * positions ordered by unit key.
   */
  function SortedIndices(units: seq<PlacedUnit>): (idx: seq<int>)
    ensures |idx| == |units|
    ensures forall j :: 0 <= j < |idx| ==> 0 <= idx[j] < |units|
    ensures forall i, j :: 0 <= i < j < |idx| ==> idx[i] != idx[j]
    ensures forall k :: 0 <= k < |units| ==> k in idx
    ensures forall i, j :: 0 <= i < j < |idx| ==>
              units[idx[i]].x < units[idx[j]].x ||
              (units[idx[i]].x == units[idx[j]].x &&
               !StringLess(units[idx[j]].unit.unitKey, units[idx[i]].unit.unitKey))
  {
    var before := ByPosition(units);
    var r := Sort(Range(|units|), before);
    ByPositionIsStrict(units);
    SortSorted(Range(|units|), before);
    PermutationOfRange(r, |units|);
    r
  }

  /** Where `v` occurs in `s`. */
  function Find(s: seq<int>, v: int): (i: int)
    requires v in s
    ensures 0 <= i < |s| && s[i] == v
  {
    if s[0] == v then 0 else 1 + Find(s[1..], v)
  }

  /** `indices.map((i) => units[i].x)` */
  function Positions(units: seq<PlacedUnit>, idx: seq<int>): (xs: seq<real>)
    requires forall j :: 0 <= j < |idx| ==> 0 <= idx[j] < |units|
    ensures |xs| == |idx| && forall j :: 0 <= j < |idx| ==> xs[j] == units[idx[j]].x
  {
    seq(|idx|, j requires 0 <= j < |idx| => units[idx[j]].x)
  }

  // ---------------------------------------------------------------------------
  // The sweep
  // ---------------------------------------------------------------------------

  /** Consecutive values at least `m` apart. */
  ghost predicate Spaced(s: seq<real>, m: real) {
    forall i :: 0 < i < |s| ==> s[i] - s[i - 1] >= m
  }

  /**
   * The left-to-right sweep over the sorted positions: a value closer than `m`
   * to its (already swept) left neighbour is pushed to exactly `m` past it.
   */
  function Swept(xs: seq<real>, m: real): (r: seq<real>)
    ensures |r| == |xs|
    ensures |xs| > 0 ==> r[0] == xs[0]
    ensures Spaced(r, m)
    ensures forall i :: 0 <= i < |r| ==> r[i] >= xs[i]
  {
    if |xs| == 0 then []
    else
      var p := Swept(xs[..|xs| - 1], m);
      var x := xs[|xs| - 1];
      if |p| == 0 then [x]
      else
        var prev := p[|p| - 1];
        p + [if x - prev < m then prev + m else x]
  }

  /** The sweep moves nothing in positions that are already spaced. */
  lemma {:induction false} SweptOfSpaced(xs: seq<real>, m: real)
    requires Spaced(xs, m)
    ensures Swept(xs, m) == xs
  {
    if |xs| > 1 {
      var p := xs[..|xs| - 1];
      SweptOfSpaced(p, m);
      assert p + [xs[|xs| - 1]] == xs;
    }
  }

  /** Sweeping twice is sweeping once. */
  lemma SweptIdempotent(xs: seq<real>, m: real)
    ensures Swept(Swept(xs, m), m) == Swept(xs, m)
  {
    SweptOfSpaced(Swept(xs, m), m);
  }

  /** With a positive spacing, spaced values increase strictly, by at least `m` per step. */
  lemma {:induction false} SpacedIncreasing(s: seq<real>, m: real, i: int, j: int)
    requires Spaced(s, m) && m > 0.0
    requires 0 <= i < j < |s|
    ensures s[j] - s[i] >= m
    decreases j - i
  {
    if i + 1 < j {
      SpacedIncreasing(s, m, i, j - 1);
    }
  }

  // ---------------------------------------------------------------------------
  // Fitting into [margin, 1 - margin]
  // ---------------------------------------------------------------------------

  /** `totalSpread` */
  function Spread(s: seq<real>): real
    requires |s| > 0
  {
    s[|s| - 1] - s[0]
  }

  /** `totalSpread > available`, where `available = 1 - 2 * margin` and `margin = minSpacing / 2`. */
  predicate Compresses(s: seq<real>, m: real)
    requires |s| > 0
  {
    Spread(s) > 1.0 - 2.0 * (m / 2.0)
  }

  /** `clampedShift`: the shift centring the spread, reduced where it would cross a margin. */
  function ClampedShift(s: seq<real>, m: real): real
    requires |s| > 0
  {
    var margin := m / 2.0;
    var shift := 0.5 - (s[0] + s[|s| - 1]) / 2.0;
    var leftOverflow := margin - (s[0] + shift);
    var rightOverflow := s[|s| - 1] + shift - (1.0 - margin);
    shift + MathMax(0.0, leftOverflow) - MathMax(0.0, rightOverflow)
  }

  /** Where the fitting step moves a value `v` of the swept layout `s`. */
  function FitValue(s: seq<real>, m: real, v: real): real
    requires |s| > 0 && (Compresses(s, m) ==> Spread(s) != 0.0)
  {
    var margin := m / 2.0;
    if Compresses(s, m) then margin + (v - s[0]) * ((1.0 - 2.0 * margin) / Spread(s))
    else Clamp(v + ClampedShift(s, m), margin, 1.0 - margin)
  }

  function Fit(s: seq<real>, m: real): (r: seq<real>)
    requires |s| > 0 && (Compresses(s, m) ==> Spread(s) != 0.0)
    ensures |r| == |s| && forall i :: 0 <= i < |s| ==> r[i] == FitValue(s, m, s[i])
  {
    seq(|s|, i requires 0 <= i < |s| => FitValue(s, m, s[i]))
  }

  lemma ScaledPart(off: real, spread: real, avail: real)
    requires 0.0 <= off <= spread && 0.0 <= avail < spread
    ensures 0.0 <= off * (avail / spread) <= avail
  {
    DivUnit(off, spread);
    var f := off / spread;
    assert off * (avail / spread) == avail * f;
    MulNonNeg(avail, f);
    MulNonNeg(avail, 1.0 - f);
  }

  /** For a spacing in (0, 1], every value of the layout lands in [margin, 1 - margin]. */
  lemma FitInRange(s: seq<real>, m: real, v: real)
    requires 0.0 < m <= 1.0 && |s| > 0 && s[0] <= v <= s[|s| - 1]
    ensures Compresses(s, m) ==> Spread(s) != 0.0
    ensures m / 2.0 <= FitValue(s, m, v) <= 1.0 - m / 2.0
  {
    if Compresses(s, m) {
      ScaledPart(v - s[0], Spread(s), 1.0 - 2.0 * (m / 2.0));
    }
  }

  /** For a spacing up to 1 the fitting step keeps the order of the values. */
  lemma FitMonotone(s: seq<real>, m: real, v: real, w: real)
    requires m <= 1.0 && |s| > 0 && s[0] <= s[|s| - 1] && v <= w
    ensures Compresses(s, m) ==> Spread(s) != 0.0
    ensures FitValue(s, m, v) <= FitValue(s, m, w)
  {
    if Compresses(s, m) {
      var scale := (1.0 - 2.0 * (m / 2.0)) / Spread(s);
      MulNonNeg(1.0 - 2.0 * (m / 2.0), 1.0 / Spread(s));
      assert scale >= 0.0;
      MulNonNeg(w - v, scale);
      assert (w - s[0]) * scale - (v - s[0]) * scale == (w - v) * scale;
    } else {
      ClampMonotone(v + ClampedShift(s, m), w + ClampedShift(s, m), m / 2.0, 1.0 - m / 2.0);
    }
  }

  /**
   * When the layout fits, the clamped shift is the plain centring shift and no
   * value is clamped: the spread is moved as a whole so that its middle is 0.5.
   */
  lemma FitCentred(s: seq<real>, m: real, v: real)
    requires |s| > 0 && s[0] <= v <= s[|s| - 1] && !Compresses(s, m)
    ensures ClampedShift(s, m) == 0.5 - (s[0] + s[|s| - 1]) / 2.0
    ensures FitValue(s, m, v) == v + ClampedShift(s, m)
  {
  }

  /** A spread that is too wide is scaled onto exactly [margin, 1 - margin]. */
  lemma FitCompressedEnds(s: seq<real>, m: real)
    requires |s| > 0 && Compresses(s, m) && Spread(s) != 0.0
    ensures FitValue(s, m, s[0]) == m / 2.0
    ensures FitValue(s, m, s[|s| - 1]) == 1.0 - m / 2.0
  {
    var avail := 1.0 - 2.0 * (m / 2.0);
    assert (s[|s| - 1] - s[0]) * (avail / Spread(s)) == avail;
  }

  /** For a spacing in (0, 1) distinct values of the layout stay distinct and ordered. */
  lemma FitStrict(s: seq<real>, m: real, v: real, w: real)
    requires 0.0 < m < 1.0 && |s| > 0 && s[0] <= v < w <= s[|s| - 1]
    ensures Compresses(s, m) ==> Spread(s) != 0.0
    ensures FitValue(s, m, v) < FitValue(s, m, w)
  {
    if Compresses(s, m) {
      var scale := (1.0 - 2.0 * (m / 2.0)) / Spread(s);
      assert scale > 0.0;
      assert (w - s[0]) * scale - (v - s[0]) * scale == (w - v) * scale;
    } else {
      FitCentred(s, m, v);
      FitCentred(s, m, w);
    }
  }

  // ---------------------------------------------------------------------------
  // enforceMinSpacing
  // ---------------------------------------------------------------------------

  lemma SpreadPositive(s: seq<real>, m: real)
    requires |s| > 1 && m > 0.0 && Spaced(s, m)
    ensures Spread(s) >= m
  {
    SpacedIncreasing(s, m, 0, |s| - 1);
  }

  lemma WithinSpread(s: seq<real>, m: real, j: int)
    requires m > 0.0 && Spaced(s, m) && 0 <= j < |s|
    ensures s[0] <= s[j] <= s[|s| - 1]
  {
    if 0 < j {
      SpacedIncreasing(s, m, 0, j);
    }
    if j < |s| - 1 {
      SpacedIncreasing(s, m, j, |s| - 1);
    }
  }

  /** The swept positions of the units, in left-to-right order. */
  function SweptPositions(units: seq<PlacedUnit>, m: real): (s: seq<real>)
    requires |units| > 1 && m > 0.0
    ensures |s| == |units| && Spaced(s, m) && Spread(s) >= m
  {
    var s := Swept(Positions(units, SortedIndices(units)), m);
    SpreadPositive(s, m);
    s
  }

  /** The positions, in left-to-right order, that `enforceMinSpacing` gives the units. */
  function Layout(units: seq<PlacedUnit>, m: real): (r: seq<real>)
    requires |units| > 1 && m > 0.0
    ensures |r| == |units|
  {
    Fit(SweptPositions(units, m), m)
  }

  /** For a spacing in (0, 1] the layout lies within the margins. */
  lemma LayoutInRange(units: seq<PlacedUnit>, m: real, j: int)
    requires |units| > 1 && 0.0 < m <= 1.0 && 0 <= j < |units|
    ensures m / 2.0 <= Layout(units, m)[j] <= 1.0 - m / 2.0
  {
    var s := SweptPositions(units, m);
    WithinSpread(s, m, j);
    FitInRange(s, m, s[j]);
  }

  /** For a spacing in (0, 1] the layout keeps the left-to-right order, strictly below 1. */
  lemma LayoutOrdered(units: seq<PlacedUnit>, m: real, i: int, j: int)
    requires |units| > 1 && 0.0 < m <= 1.0 && 0 <= i < j < |units|
    ensures Layout(units, m)[i] <= Layout(units, m)[j]
    ensures m < 1.0 ==> Layout(units, m)[i] < Layout(units, m)[j]
  {
    var s := SweptPositions(units, m);
    SpacedIncreasing(s, m, i, j);
    WithinSpread(s, m, i);
    WithinSpread(s, m, j);
    FitMonotone(s, m, s[i], s[j]);
    if m < 1.0 {
      FitStrict(s, m, s[i], s[j]);
    }
  }

  /**
   * When the swept spread fits within the margins the layout keeps every gap of
   * the sweep, so neighbours are at least `m` apart, and it is centred on 0.5.
   */
  lemma LayoutSpacedWhenFitting(units: seq<PlacedUnit>, m: real)
    requires |units| > 1 && m > 0.0 && !Compresses(SweptPositions(units, m), m)
    ensures Spaced(Layout(units, m), m)
    ensures (Layout(units, m)[0] + Layout(units, m)[|units| - 1]) / 2.0 == 0.5
  {
    var s := SweptPositions(units, m);
    var r := Layout(units, m);
    forall j | 0 <= j < |s|
      ensures r[j] == s[j] + ClampedShift(s, m)
    {
      WithinSpread(s, m, j);
      FitCentred(s, m, s[j]);
    }
  }

  /** When the swept spread is too wide it is scaled onto exactly [margin, 1 - margin]. */
  lemma LayoutCompressedEnds(units: seq<PlacedUnit>, m: real)
    requires |units| > 1 && m > 0.0 && Compresses(SweptPositions(units, m), m)
    ensures Layout(units, m)[0] == m / 2.0 && Layout(units, m)[|units| - 1] == 1.0 - m / 2.0
  {
    FitCompressedEnds(SweptPositions(units, m), m);
  }

  /** Units with distinct hash positions keep their left-to-right order. */
  lemma LayoutOrderOfUnits(units: seq<PlacedUnit>, m: real, result: seq<PlacedUnit>, a: int, b: int)
    requires |units| > 1 && 0.0 < m <= 1.0 && |result| == |units|
    requires forall j :: 0 <= j < |units| ==> result[SortedIndices(units)[j]].x == Layout(units, m)[j]
    requires 0 <= a < |units| && 0 <= b < |units| && units[a].x < units[b].x
    ensures result[a].x <= result[b].x
    ensures m < 1.0 ==> result[a].x < result[b].x
  {
    var idx := SortedIndices(units);
    assert a in idx && b in idx;
    var i :| 0 <= i < |idx| && idx[i] == a;
    var j :| 0 <= j < |idx| && idx[j] == b;
    SortedOrder(units, i, j);
    ghost var r := Layout(units, m);
    assert result[a].x == r[i] && result[b].x == r[j];
    LayoutOrdered(units, m, i, j);
  }

  /** A unit further left comes earlier in the sorted order. */
  lemma SortedOrder(units: seq<PlacedUnit>, i: int, j: int)
    requires 0 <= i < |units| && 0 <= j < |units|
    ensures units[SortedIndices(units)[i]].x < units[SortedIndices(units)[j]].x ==> i < j
  {
    if j <= i {
      SortedMonotone(units, j, i);
    }
  }

  /** Positions never decrease along the sorted order. */
  lemma SortedMonotone(units: seq<PlacedUnit>, j: int, i: int)
    requires 0 <= j <= i < |units|
    ensures units[SortedIndices(units)[j]].x <= units[SortedIndices(units)[i]].x
  {
    var idx := SortedIndices(units);
    if j < i {
      assert units[idx[j]].x <= units[idx[i]].x;
    }
  }

  lemma LayoutRangeOfUnits(units: seq<PlacedUnit>, m: real, result: seq<PlacedUnit>, k: int)
    requires |units| > 1 && 0.0 < m <= 1.0 && |result| == |units|
    requires forall j :: 0 <= j < |units| ==> result[SortedIndices(units)[j]].x == Layout(units, m)[j]
    requires 0 <= k < |units|
    ensures m / 2.0 <= result[k].x <= 1.0 - m / 2.0
  {
    var j := Find(SortedIndices(units), k);
    LayoutInRange(units, m, j);
  }

  lemma SweptSnoc(xs: seq<real>, m: real, i: int)
    requires 1 <= i < |xs|
    ensures Swept(xs[..i + 1], m) == Swept(xs[..i], m) + [
              if xs[i] - Swept(xs[..i], m)[i - 1] < m then Swept(xs[..i], m)[i - 1] + m else xs[i]]
  {
    assert xs[..i + 1][..i] == xs[..i];
  }

  lemma FitValueCompressed(s: seq<real>, m: real, v: real, margin: real, base: real, scale: real)
    requires |s| > 0 && Compresses(s, m) && Spread(s) != 0.0
    requires margin == m / 2.0 && base == s[0] && scale == (1.0 - 2.0 * margin) / Spread(s)
    ensures FitValue(s, m, v) == margin + (v - base) * scale
  {
  }

  lemma FitValueShifted(s: seq<real>, m: real, v: real, margin: real, clampedShift: real)
    requires |s| > 0 && !Compresses(s, m)
    requires margin == m / 2.0 && clampedShift == ClampedShift(s, m)
    ensures FitValue(s, m, v) == Clamp(v + clampedShift, margin, 1.0 - margin)
  {
  }

  /** Sweeping position `i` extends the swept prefix by one. */
  lemma SweepStep(before: seq<real>, after: seq<real>, xs: seq<real>, m: real, i: nat)
    requires 1 <= i < |before| == |xs| && before[..i] == Swept(xs[..i], m) && before[i] == xs[i]
    requires after == before[i := if before[i] - before[i - 1] < m then before[i - 1] + m else before[i]]
    ensures after[..i + 1] == Swept(xs[..i + 1], m)
  {
    SweptSnoc(xs, m, i);
    assert before[i - 1] == Swept(xs[..i], m)[i - 1];
    assert after[..i + 1] == before[..i] + [after[i]];
  }

  /** The sweep loop of `enforceMinSpacing`, on the sorted positions in place. */
  method SweepApart(sortedX: array<real>, m: real)
    requires sortedX.Length > 0
    modifies sortedX
    ensures sortedX[..] == Swept(old(sortedX[..]), m)
  {
    ghost var xs := sortedX[..];
    assert sortedX[..1] == Swept(xs[..1], m);
    for i := 1 to sortedX.Length
      invariant sortedX[..i] == Swept(xs[..i], m)
      invariant forall j :: i <= j < sortedX.Length ==> sortedX[j] == xs[j]
    {
      ghost var before := sortedX[..];
      var gap := sortedX[i] - sortedX[i - 1];
      if gap < m {
        sortedX[i] := sortedX[i - 1] + m;
      }
      SweepStep(before, sortedX[..], xs, m, i);
    }
    assert xs[..sortedX.Length] == xs;
  }

  /** The fitting step of `enforceMinSpacing`: compress or re-centre the swept positions in place. */
  method FitIntoMargins(sortedX: array<real>, m: real)
    requires sortedX.Length > 0 && (Compresses(sortedX[..], m) ==> Spread(sortedX[..]) != 0.0)
    modifies sortedX
    ensures sortedX[..] == Fit(old(sortedX[..]), m)
  {
    ghost var s := sortedX[..];
    var n := sortedX.Length;
    var margin := m / 2.0;
    var totalSpread := sortedX[n - 1] - sortedX[0];
    var available := 1.0 - 2.0 * margin;
    if totalSpread > available {
      var scale := available / totalSpread;
      var base := sortedX[0];
      for i := 0 to n
        invariant forall j :: 0 <= j < i ==> sortedX[j] == FitValue(s, m, s[j])
        invariant forall j :: i <= j < n ==> sortedX[j] == s[j]
      {
        FitValueCompressed(s, m, s[i], margin, base, scale);
        sortedX[i] := margin + (sortedX[i] - base) * scale;
      }
    } else {
      var currentCenter := (sortedX[0] + sortedX[n - 1]) / 2.0;
      var targetCenter := 0.5;
      var shift := targetCenter - currentCenter;
      var leftOverflow := margin - (sortedX[0] + shift);
      var rightOverflow := sortedX[n - 1] + shift - (1.0 - margin);
      var clampedShift := shift + MathMax(0.0, leftOverflow) - MathMax(0.0, rightOverflow);
      assert clampedShift == ClampedShift(s, m);
      for i := 0 to n
        invariant forall j :: 0 <= j < i ==> sortedX[j] == FitValue(s, m, s[j])
        invariant forall j :: i <= j < n ==> sortedX[j] == s[j]
      {
        FitValueShifted(s, m, s[i], margin, clampedShift);
        sortedX[i] := Clamp(sortedX[i] + clampedShift, margin, 1.0 - margin);
      }
    }
  }

  /** The write-back loop of `enforceMinSpacing`: unit `indices[j]` gets position `xs[j]`. */
  method WriteBack(units: seq<PlacedUnit>, indices: seq<int>, xs: seq<real>) returns (result: seq<PlacedUnit>)
    requires |xs| == |indices|
    requires forall j :: 0 <= j < |indices| ==> 0 <= indices[j] < |units|
    requires forall i, j :: 0 <= i < j < |indices| ==> indices[i] != indices[j]
    ensures |result| == |units|
    ensures forall k :: 0 <= k < |units| ==> result[k] == units[k].(x := result[k].x)
    ensures forall j :: 0 <= j < |indices| ==> result[indices[j]].x == xs[j]
  {
    result := units;
    for i := 0 to |indices|
      invariant |result| == |units|
      invariant forall k :: 0 <= k < |units| ==> result[k] == units[k].(x := result[k].x)
      invariant forall j :: 0 <= j < i ==> result[indices[j]].x == xs[j]
    {
      var origIdx := indices[i];
      if result[origIdx].x != xs[i] {
        result := result[origIdx := result[origIdx].(x := xs[i])];
      }
    }
  }

  /**
   * `enforceMinSpacing(units, minSpacing)`: sorts the unit indices by position,
   * sweeps the sorted positions apart, fits them into the margins and writes
   * each new position back to its unit; nothing but `x` changes.
   */
  method EnforceMinSpacing(units: seq<PlacedUnit>, minSpacing: real) returns (result: seq<PlacedUnit>)
    ensures (|units| <= 1 || minSpacing <= 0.0) ==> result == units
    ensures |result| == |units|
    ensures forall k :: 0 <= k < |units| ==> result[k] == units[k].(x := result[k].x)
    ensures |units| > 1 && minSpacing > 0.0 ==>
              forall j :: 0 <= j < |units| ==> result[SortedIndices(units)[j]].x == Layout(units, minSpacing)[j]
    ensures |units| > 1 && 0.0 < minSpacing <= 1.0 ==>
              forall k :: 0 <= k < |units| ==> minSpacing / 2.0 <= result[k].x <= 1.0 - minSpacing / 2.0
    ensures minSpacing <= 1.0 ==>
              forall a, b :: 0 <= a < |units| && 0 <= b < |units| && units[a].x < units[b].x ==>
                result[a].x <= result[b].x
    ensures minSpacing < 1.0 ==>
              forall a, b :: 0 <= a < |units| && 0 <= b < |units| && units[a].x < units[b].x ==>
                result[a].x < result[b].x
  {
    if |units| <= 1 || minSpacing <= 0.0 {
      return units;
    }
    var m := minSpacing;
    var indices := SortedIndices(units);
    var n := |indices|;
    var sortedX := new real[n](j requires 0 <= j < n => units[indices[j]].x);
    assert sortedX[..] == Positions(units, indices);
    SweepApart(sortedX, m);
    assert sortedX[..] == SweptPositions(units, m);
    FitIntoMargins(sortedX, m);
    assert sortedX[..] == Layout(units, m);
    result := WriteBack(units, indices, sortedX[..]);
    forall k | 0 <= k < |units| && m <= 1.0
      ensures m / 2.0 <= result[k].x <= 1.0 - m / 2.0
    {
      LayoutRangeOfUnits(units, m, result, k);
    }
    forall a, b | 0 <= a < |units| && 0 <= b < |units| && units[a].x < units[b].x && m <= 1.0
      ensures result[a].x <= result[b].x && (m < 1.0 ==> result[a].x < result[b].x)
    {
      LayoutOrderOfUnits(units, m, result, a, b);
    }
  }

  // ---------------------------------------------------------------------------
  // placeDanceUnits
  // ---------------------------------------------------------------------------

  /** The hash position of a unit in a song slot, `hashString(songSlot + '\0pos\0' + unitKey) / MAX_HASH`. */
  function HashPosition(unit: DanceUnit, songSlot: string): real {
    HashFraction(Hash(songSlot + "\U{0}pos\U{0}" + unit.unitKey))
  }

  /** `rawPos`: the hash position, nudged towards the solo cluster centre for solos. */
  function RawPosition(unit: DanceUnit, songSlot: string, soloClusterCenter: real, soloAffinity: real): (r: real)
    ensures unit.kind == PairUnit ==> r == HashPosition(unit, songSlot)
    ensures unit.kind == SoloUnit && 0.0 <= soloAffinity <= 1.0 ==>
              HashPosition(unit, songSlot) <= r <= soloClusterCenter ||
              soloClusterCenter <= r <= HashPosition(unit, songSlot)
  {
    var pos := HashPosition(unit, songSlot);
    if unit.kind == SoloUnit then
      if 0.0 <= soloAffinity <= 1.0 then
        LerpBetween(pos, soloClusterCenter, soloAffinity);
        Lerp(pos, soloClusterCenter, soloAffinity)
      else Lerp(pos, soloClusterCenter, soloAffinity)
    else pos
  }

  /** `bias`: the unit's share of the best possible score, capped at `centerBiasMax`. */
  function CenterBias(priorityScore: real, maxScore: real, centerBiasMax: real): (b: real)
    ensures maxScore <= 0.0 ==> b == 0.0
    ensures 0.0 <= centerBiasMax ==> 0.0 <= b <= centerBiasMax
  {
    if maxScore > 0.0 then Clamp(priorityScore / maxScore, 0.0, centerBiasMax) else 0.0
  }

  /** A higher priority never gets a smaller pull towards the centre. */
  lemma CenterBiasMonotone(s1: real, s2: real, maxScore: real, centerBiasMax: real)
    requires s1 <= s2
    ensures CenterBias(s1, maxScore, centerBiasMax) <= CenterBias(s2, maxScore, centerBiasMax)
  {
    if maxScore > 0.0 {
      var inv := 1.0 / maxScore;
      assert s1 / maxScore == s1 * inv && s2 / maxScore == s2 * inv;
      MulNonNeg(s2 - s1, inv);
      ClampMonotone(s1 / maxScore, s2 / maxScore, 0.0, centerBiasMax);
    }
  }

  /** `lerp(rawPos, 0.5, bias)` shortens the distance to the centre by the factor `1 - bias`. */
  lemma PullTowardsCentre(rawPos: real, bias: real)
    ensures Lerp(rawPos, 0.5, bias) - 0.5 == (1.0 - bias) * (rawPos - 0.5)
  {
  }

  /** Layout settings with the affinity and the bias cap in [0, 1], as documented for `LayoutConfig`. */
  predicate UnitLayout(layout: LayoutConfig) {
    0.0 <= layout.soloAffinity <= 1.0 && 0.0 <= layout.centerBiasMax <= 1.0
  }

  /** `(yHash % (jitterRange * 2 + 1)) - jitterRange`: an offset within ±`jitterRange`. */
  function JitterOffset(yHash: nat, jitterRange: nat): (y: int)
    ensures -(jitterRange as int) <= y <= jitterRange
  {
    (yHash % (jitterRange * 2 + 1)) - jitterRange
  }

  /**
   * The `units.map` of `placeDanceUnits`: position, vertical jitter and flip of
   * one unit, before spacing.
   */
  function PlaceUnit(unit: DanceUnit, songSlot: string, maxScore: real, soloClusterCenter: real,
                     layout: LayoutConfig): (p: PlacedUnit)
    ensures p.unit == unit
    ensures -(layout.verticalJitter as int) <= p.yOffset <= layout.verticalJitter
  {
    var rawPos := RawPosition(unit, songSlot, soloClusterCenter, layout.soloAffinity);
    var bias := CenterBias(unit.priorityScore, maxScore, layout.centerBiasMax);
    var x := Lerp(rawPos, 0.5, bias);
    var yOffset := JitterOffset(Hash(songSlot + "\U{0}y\U{0}" + unit.unitKey), layout.verticalJitter);
    var flipped := Hash(songSlot + "\U{0}flip\U{0}" + unit.unitKey) % 2 == 1;
    PlacedUnit(unit, x, yOffset, flipped)
  }

  /** A unit is pulled towards the centre by the factor `1 - bias` of its raw distance. */
  lemma PlaceUnitPull(unit: DanceUnit, songSlot: string, maxScore: real, soloClusterCenter: real,
                      layout: LayoutConfig)
    ensures PlaceUnit(unit, songSlot, maxScore, soloClusterCenter, layout).x - 0.5
            == (1.0 - CenterBias(unit.priorityScore, maxScore, layout.centerBiasMax))
               * (RawPosition(unit, songSlot, soloClusterCenter, layout.soloAffinity) - 0.5)
  {
    PullTowardsCentre(RawPosition(unit, songSlot, soloClusterCenter, layout.soloAffinity),
                      CenterBias(unit.priorityScore, maxScore, layout.centerBiasMax));
  }

  /** With the documented layout settings a unit is placed within [0, 1]. */
  lemma PlaceUnitInRange(unit: DanceUnit, songSlot: string, maxScore: real, soloClusterCenter: real,
                         layout: LayoutConfig)
    requires UnitLayout(layout) && 0.0 <= soloClusterCenter <= 1.0
    ensures 0.0 <= PlaceUnit(unit, songSlot, maxScore, soloClusterCenter, layout).x <= 1.0
  {
    var rawPos := RawPosition(unit, songSlot, soloClusterCenter, layout.soloAffinity);
    var bias := CenterBias(unit.priorityScore, maxScore, layout.centerBiasMax);
    LerpBetween(rawPos, 0.5, bias);
  }

  /** `hashString(songSlot + '\0soloCenter') / MAX_HASH` */
  function SoloClusterCenter(songSlot: string): (c: real)
    ensures 0.0 <= c <= 1.0
  {
    HashFraction(Hash(songSlot + "\U{0}soloCenter"))
  }

  /** Every unit placed on its own, before spacing. */
  function PlaceAll(units: seq<DanceUnit>, songSlot: string, config: DancePartyConfig): (ps: seq<PlacedUnit>)
    ensures |ps| == |units|
    ensures forall k :: 0 <= k < |units| ==>
              ps[k] == PlaceUnit(units[k], songSlot, MaxPossibleScore(config.weights),
                                 SoloClusterCenter(songSlot), config.layout)
  {
    seq(|units|, k requires 0 <= k < |units| =>
      PlaceUnit(units[k], songSlot, MaxPossibleScore(config.weights), SoloClusterCenter(songSlot), config.layout))
  }

  /**
   * `placeDanceUnits(units, formTitle, songNumber, config)`: each unit keeps its
   * own jitter and flip, and its position is the spaced-out version of its
   * priority-biased hash position.
   */
  method PlaceDanceUnits(units: seq<DanceUnit>, formTitle: string, songNumber: int, config: DancePartyConfig)
    returns (placed: seq<PlacedUnit>)
    ensures |placed| == |units|
    ensures forall k :: 0 <= k < |units| ==>
              placed[k] == PlaceAll(units, GetSongSlot(formTitle, songNumber), config)[k].(x := placed[k].x)
    ensures forall k :: 0 <= k < |units| ==>
              placed[k].unit == units[k] &&
              -(config.layout.verticalJitter as int) <= placed[k].yOffset <= config.layout.verticalJitter
    ensures UnitLayout(config.layout) && config.layout.minSpacing <= 1.0 ==>
              forall k :: 0 <= k < |units| ==> 0.0 <= placed[k].x <= 1.0
    ensures config.layout.minSpacing < 1.0 ==>
              forall a, b ::
                0 <= a < |units| && 0 <= b < |units| &&
                PlaceAll(units, GetSongSlot(formTitle, songNumber), config)[a].x
                < PlaceAll(units, GetSongSlot(formTitle, songNumber), config)[b].x
                ==> placed[a].x < placed[b].x
  {
    if |units| == 0 {
      return [];
    }
    var songSlot := GetSongSlot(formTitle, songNumber);
    var before := PlaceAll(units, songSlot, config);
    placed := EnforceMinSpacing(before, config.layout.minSpacing);
    if UnitLayout(config.layout) && (|units| <= 1 || config.layout.minSpacing <= 0.0) {
      forall k | 0 <= k < |units|
        ensures 0.0 <= placed[k].x <= 1.0
      {
        PlaceUnitInRange(units[k], songSlot, MaxPossibleScore(config.weights), SoloClusterCenter(songSlot),
                         config.layout);
      }
    }
  }

  // ---------------------------------------------------------------------------
  // Bubble alignment
  // ---------------------------------------------------------------------------

  /** `'leader' | 'follower'` */
  datatype MemberSide = Leader | Follower

  /** `{ leftMember, rightMember }` */
  datatype Alignment = Alignment(leftMember: MemberSide, rightMember: MemberSide)

  /** `LEADER_ON_LEFT[1..32]`: whether the leader is drawn on the left of the unflipped image. */
  const LEADER_ON_LEFT_TABLE: seq<bool> := [
    true, false, false, false, true, true,
    true, false, false, false, true, true, false, true, false, true,
    true, true, true, true, false, true, true, true, true, true,
    true, true, true, true, true, true]

  /** `LEADER_ON_LEFT[imageNum]`, absent outside 1..32. */
  function LeaderOnLeft(imageNum: int): (r: Option<bool>)
    ensures r.Some? <==> 1 <= imageNum <= 32
  {
    if 1 <= imageNum <= 32 then Some(LEADER_ON_LEFT_TABLE[imageNum - 1]) else None
  }

  /** `getBubbleAlignment(imageNum, flipped)`: which member's bubble goes left. */
  function GetBubbleAlignment(imageNum: int, flipped: bool): (a: Alignment)
    ensures a.leftMember != a.rightMember
    ensures a.leftMember == Leader <==> LeaderOnLeft(imageNum).GetOr(true) != flipped
  {
    var leaderIsLeft := LeaderOnLeft(imageNum).GetOr(true);
    var effectiveLeaderIsLeft := if flipped then !leaderIsLeft else leaderIsLeft;
    if effectiveLeaderIsLeft then Alignment(Leader, Follower) else Alignment(Follower, Leader)
  }

  /** Mirroring an image swaps the two bubbles. */
  lemma FlipSwapsBubbles(imageNum: int, flipped: bool)
    ensures GetBubbleAlignment(imageNum, !flipped).leftMember == GetBubbleAlignment(imageNum, flipped).rightMember
    ensures GetBubbleAlignment(imageNum, !flipped).rightMember == GetBubbleAlignment(imageNum, flipped).leftMember
  {
  }

  /** An image outside the table puts the leader on the left unless it is mirrored. */
  lemma UnknownImageLeaderLeft(imageNum: int)
    requires imageNum < 1 || imageNum > 32
    ensures GetBubbleAlignment(imageNum, false) == Alignment(Leader, Follower)
    ensures GetBubbleAlignment(imageNum, true) == Alignment(Follower, Leader)
  {
  }

  /** The follower is on the left in exactly the unflipped images 2-4, 8-10, 13, 15 and 21. */
  lemma FollowerLeftImages(imageNum: int)
    ensures GetBubbleAlignment(imageNum, false).leftMember == Follower <==>
              imageNum in {2, 3, 4, 8, 9, 10, 13, 15, 21}
  {
  }
}
