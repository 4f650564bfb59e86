/**
 * Participants, song numbering and priority scoring of the dance-floor engine
 * (`src/lib/dance-party.ts`, the song and priority sections), plus the two
 * numeric helpers `lerp` and `clamp` that the placement code shares.
 * JavaScript numbers are modelled as `real`.
 */
module DanceScoring {
  import opened Wrappers
  import opened JsString

  /** `DancerRow['role']` */
  datatype Role = Lead | Follow | Both | Unknown

  /** `DancerRow`: `ts` is the signup instant in milliseconds, `wish` the optional message. */
  datatype DancerRow = DancerRow(name: string, role: Role, ts: Option<real>, wish: Option<string>, paid: bool)

  /** `PriorityWeights` */
  datatype Weights = Weights(hasMessage: real, hasPaid: real, earlySignup: real, jitterWeight: real)

  /** `LayoutConfig` */
  datatype LayoutConfig = LayoutConfig(centerBiasMax: real, verticalJitter: nat, soloAffinity: real,
                                       messageBalanceRate: real, minSpacing: real)

  /** `DockConfig['falloffFn']` */
  datatype Falloff = Cosine | Gaussian

  /** `DockConfig` */
  datatype DockConfig = DockConfig(maxScale: real, neighborCount: real, falloffFn: Falloff,
                                   baseIconHeight: real, magnifiedSpacing: real)

  /** `DancePartyConfig` */
  datatype DancePartyConfig = DancePartyConfig(weights: Weights, layout: LayoutConfig, dock: DockConfig)

  const DEFAULT_WEIGHTS: Weights := Weights(3.0, 2.0, 1.0, 2.0)
  const DEFAULT_LAYOUT: LayoutConfig := LayoutConfig(0.8, 4, 0.3, 0.5, 0.1)
  const DEFAULT_DOCK: DockConfig := DockConfig(2.0, 2.0, Cosine, 109.0, 4.0)
  const DEFAULT_CONFIG: DancePartyConfig := DancePartyConfig(DEFAULT_WEIGHTS, DEFAULT_LAYOUT, DEFAULT_DOCK)

  /** `{ earliest, latest }` */
  datatype TimestampRange = TimestampRange(earliest: real, latest: real)

  const MS_PER_HOUR: real := 3600000.0

  /** `!!dancer.wish`: a message is present when it is a non-empty string. */
  predicate HasMessage(d: DancerRow) {
    d.wish.Some? && |d.wish.value| > 0
  }

  // ---------------------------------------------------------------------------
  // Song computation
  // ---------------------------------------------------------------------------

  /**
   * `getSongNumber(firstSignupTs, now)`: hours elapsed since the hour of the
   * first signup, counted from 1; the clock reading `nowMs` is a parameter.
   */
  function GetSongNumber(firstSignupTs: Option<real>, nowMs: real): (n: int)
    ensures n >= 1
    ensures (firstSignupTs.None? || firstSignupTs.value <= 0.0) ==> n == 1
  {
    if firstSignupTs.None? || firstSignupTs.value <= 0.0 then 1
    else
      var firstHour := (firstSignupTs.value / MS_PER_HOUR).Floor;
      var currentHour := (nowMs / MS_PER_HOUR).Floor;
      if currentHour - firstHour + 1 > 1 then currentHour - firstHour + 1 else 1
  }

  lemma FloorMonotone(a: real, b: real)
    requires a <= b
    ensures a.Floor <= b.Floor
  {
  }

  /** The song number never goes back as the clock advances. */
  lemma SongNumberMonotone(firstSignupTs: Option<real>, now1: real, now2: real)
    requires now1 <= now2
    ensures GetSongNumber(firstSignupTs, now1) <= GetSongNumber(firstSignupTs, now2)
  {
    FloorMonotone(now1 / MS_PER_HOUR, now2 / MS_PER_HOUR);
  }

  /** Within the hour of the first signup it is song 1; each later hour adds one. */
  lemma SongNumberOfHour(ts: real, nowMs: real, hours: nat)
    requires ts > 0.0
    requires (nowMs / MS_PER_HOUR).Floor == (ts / MS_PER_HOUR).Floor + hours
    ensures GetSongNumber(Some(ts), nowMs) == hours + 1
  {
  }

  /** `` getSongSlot(formTitle, songNumber) = `${formTitle}\0song${songNumber}` `` */
  function GetSongSlot(formTitle: string, songNumber: int): (slot: string)
    ensures |slot| > |formTitle| + 5 && slot[..|formTitle|] == formTitle
  {
    formTitle + "\U{0}song" + IntToString(songNumber)
  }

  /** Different songs of the same form get different slots. */
  lemma SongSlotInjective(formTitle: string, a: int, b: int)
    requires GetSongSlot(formTitle, a) == GetSongSlot(formTitle, b)
    ensures a == b
  {
    var p := formTitle + "\U{0}song";
    assert GetSongSlot(formTitle, a)[|p|..] == IntToString(a);
    assert GetSongSlot(formTitle, b)[|p|..] == IntToString(b);
    IntToStringInjective(a, b);
  }

  // ---------------------------------------------------------------------------
  // Priority scoring
  // ---------------------------------------------------------------------------

  /** `maxPossibleScore(weights)` */
  function MaxPossibleScore(w: Weights): real {
    w.hasMessage + w.hasPaid + w.earlySignup
  }

  /** The message and payment part of the score. */
  function BaseScore(d: DancerRow, w: Weights): real {
    (if HasMessage(d) then w.hasMessage else 0.0) + (if d.paid then w.hasPaid else 0.0)
  }

  /**
   * `computePriority(dancer, timestamps, weights)`: the early-signup bonus is
   * interpolated linearly from the full weight for the earliest signup to
   * nothing for the latest; it is given in full without a timestamp or when
   * all signups share one instant.
   */
  function ComputePriority(d: DancerRow, range: TimestampRange, w: Weights): (score: real)
    ensures (d.ts.None? || range.earliest == range.latest) ==> score == BaseScore(d, w) + w.earlySignup
    ensures d.ts == Some(range.earliest) ==> score == BaseScore(d, w) + w.earlySignup
    ensures d.ts == Some(range.latest) && range.earliest != range.latest ==> score == BaseScore(d, w)
  {
    var score := BaseScore(d, w);
    if d.ts.Some? && range.earliest != range.latest then
      var normalized := 1.0 - (d.ts.value - range.earliest) / (range.latest - range.earliest);
      score + normalized * w.earlySignup
    else
      score + w.earlySignup
  }

  predicate NonNegativeWeights(w: Weights) {
    w.hasMessage >= 0.0 && w.hasPaid >= 0.0 && w.earlySignup >= 0.0
  }

  /** A timestamp inside the range when there is one. */
  predicate InRange(ts: Option<real>, range: TimestampRange) {
    ts.None? || range.earliest <= ts.value <= range.latest
  }

  lemma MulNonNeg(x: real, y: real)
    requires x >= 0.0 && y >= 0.0
    ensures x * y >= 0.0
  {
  }

  /** A part of a positive whole is a fraction in [0, 1]. */
  lemma DivUnit(off: real, span: real)
    requires 0.0 <= off <= span && span > 0.0
    ensures 0.0 <= off / span <= 1.0
  {
    var inv := 1.0 / span;
    assert inv * span == 1.0;
    assert off / span == off * inv;
    MulNonNeg(off, inv);
    MulNonNeg(span - off, inv);
    assert (span - off) * inv == 1.0 - off * inv;
  }

  /** The normalised position of a timestamp inside a non-empty range lies in [0, 1]. */
  lemma NormalizedBounds(ts: real, range: TimestampRange)
    requires range.earliest <= ts <= range.latest && range.earliest != range.latest
    ensures 0.0 <= 1.0 - (ts - range.earliest) / (range.latest - range.earliest) <= 1.0
  {
    DivUnit(ts - range.earliest, range.latest - range.earliest);
  }

  /** With non-negative weights and a timestamp within the range, the score lies in [0, maxPossibleScore]. */
  lemma PriorityBounds(d: DancerRow, range: TimestampRange, w: Weights)
    requires NonNegativeWeights(w) && InRange(d.ts, range)
    ensures 0.0 <= ComputePriority(d, range, w) <= MaxPossibleScore(w)
  {
    if d.ts.Some? && range.earliest != range.latest {
      var f := 1.0 - (d.ts.value - range.earliest) / (range.latest - range.earliest);
      NormalizedBounds(d.ts.value, range);
      assert 0.0 <= f * w.earlySignup <= w.earlySignup by {
        assert (1.0 - f) * w.earlySignup >= 0.0;
      }
    }
  }

  // ---------------------------------------------------------------------------
  // Timestamp range
  // ---------------------------------------------------------------------------

  /** Some dancer of `ds` has a timestamp. */
  ghost predicate AnyTimestamp(ds: seq<DancerRow>) {
    exists k :: 0 <= k < |ds| && ds[k].ts.Some?
  }

  /** `lo` and `hi` are the least and greatest timestamps of `ds`, and both occur. */
  ghost predicate IsTimestampRange(ds: seq<DancerRow>, lo: real, hi: real) {
    (forall k :: 0 <= k < |ds| && ds[k].ts.Some? ==> lo <= ds[k].ts.value <= hi)
    && (exists k :: 0 <= k < |ds| && ds[k].ts == Some(lo))
    && (exists k :: 0 <= k < |ds| && ds[k].ts == Some(hi))
  }

  /** `range` is what `getTimestampRange` gives for `ds`: zeros without timestamps, else their least and greatest. */
  ghost predicate IsRangeOf(ds: seq<DancerRow>, range: TimestampRange) {
    (!AnyTimestamp(ds) ==> range == TimestampRange(0.0, 0.0))
    && (AnyTimestamp(ds) ==> IsTimestampRange(ds, range.earliest, range.latest))
  }

  /** The range of a roster is unique, so it is a function of the roster. */
  lemma RangeOfUnique(ds: seq<DancerRow>, r1: TimestampRange, r2: TimestampRange)
    requires IsRangeOf(ds, r1) && IsRangeOf(ds, r2)
    ensures r1 == r2
  {
    if AnyTimestamp(ds) {
      var a :| 0 <= a < |ds| && ds[a].ts == Some(r1.earliest);
      var b :| 0 <= b < |ds| && ds[b].ts == Some(r2.earliest);
      var c :| 0 <= c < |ds| && ds[c].ts == Some(r1.latest);
      var e :| 0 <= e < |ds| && ds[e].ts == Some(r2.latest);
      assert r1.earliest <= ds[b].ts.value && r2.earliest <= ds[a].ts.value;
      assert ds[e].ts.value <= r1.latest && ds[c].ts.value <= r2.latest;
    }
  }

  /**
   * `getTimestampRange(dancers)`: the running minimum and maximum of the
   * timestamps present; `Infinity` / `-Infinity` become `None`.
   */
  method GetTimestampRange(dancers: seq<DancerRow>) returns (range: TimestampRange)
    ensures !AnyTimestamp(dancers) ==> range == TimestampRange(0.0, 0.0)
    ensures AnyTimestamp(dancers) ==> IsTimestampRange(dancers, range.earliest, range.latest)
    ensures forall k :: 0 <= k < |dancers| ==> InRange(dancers[k].ts, range)
  {
    var earliest: Option<real> := None;
    var latest: Option<real> := None;
    for i := 0 to |dancers|
      invariant earliest.None? <==> latest.None?
      invariant earliest.None? ==> !AnyTimestamp(dancers[..i])
      invariant earliest.Some? ==> IsTimestampRange(dancers[..i], earliest.value, latest.value)
    {
      var d := dancers[i];
      assert dancers[..i + 1] == dancers[..i] + [d];
      if d.ts.Some? {
        if earliest.None? || d.ts.value < earliest.value {
          earliest := d.ts;
        }
        if latest.None? || d.ts.value > latest.value {
          latest := d.ts;
        }
        assert dancers[..i + 1][i] == d;
      }
    }
    assert dancers[..|dancers|] == dancers;
    if earliest.None? {
      range := TimestampRange(0.0, 0.0);
    } else {
      range := TimestampRange(earliest.value, latest.value);
    }
  }

  // ---------------------------------------------------------------------------
  // Utilities
  // ---------------------------------------------------------------------------

  /** `lerp(a, b, t) = a + (b - a) * t`: between `a` and `b` for `t` in [0, 1]. */
  function Lerp(a: real, b: real, t: real): (r: real)
    ensures t == 0.0 ==> r == a
    ensures t == 1.0 ==> r == b
  {
    a + (b - a) * t
  }

  /** For `t` in [0, 1] the interpolation stays between its end points. */
  lemma LerpBetween(a: real, b: real, t: real)
    requires 0.0 <= t <= 1.0
    ensures a <= Lerp(a, b, t) <= b || b <= Lerp(a, b, t) <= a
  {
    assert (b - a) * t + (b - a) * (1.0 - t) == b - a;
    if b >= a {
      MulNonNeg(b - a, t);
      MulNonNeg(b - a, 1.0 - t);
    } else {
      MulNonNeg(a - b, t);
      MulNonNeg(a - b, 1.0 - t);
      assert (a - b) * t == -((b - a) * t);
    }
  }

  /** `clamp(value, min, max) = Math.min(max, Math.max(min, value))` */
  function Clamp(value: real, lo: real, hi: real): (r: real)
    ensures r <= hi
    ensures lo <= hi ==> lo <= r
    ensures lo <= value <= hi ==> r == value
  {
    var m := if lo > value then lo else value;
    if hi < m then hi else m
  }

  /** Clamping keeps the order of its arguments. */
  lemma ClampMonotone(a: real, b: real, lo: real, hi: real)
    requires a <= b
    ensures Clamp(a, lo, hi) <= Clamp(b, lo, hi)
  {
  }

  /** `Math.max(a, b)` */
  function MathMax(a: real, b: real): (m: real)
    ensures m >= a && m >= b && (m == a || m == b)
  {
    if a >= b then a else b
  }
}
