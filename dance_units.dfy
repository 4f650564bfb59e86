/**
 * The assembly step of `buildDanceUnits` in `src/lib/dance-party.ts`: the
 * whole pairing pipeline (classify, shuffle, match, balance) followed by one
 * unit per balanced pair and one per solo, each with its key, score and image.
 */
module DanceUnits {
  import opened Wrappers
  import opened JsString
  import opened DanceScoring
  import opened DancePairing

  /** `DanceUnit['type']` */
  datatype UnitKind = PairUnit | SoloUnit

  /** `DanceUnit` */
  datatype DanceUnit = DanceUnit(kind: UnitKind, members: seq<DancerRow>, unitKey: string,
                                 priorityScore: real, imageNum: int)

  /** `PAIRED_POOL`: the connected dance-hold poses 7 to 32. */
  const PAIRED_POOL: seq<int> := seq(26, k => k + 7)

  /** `SOLO_POOL`: poses 1 to 6, drawn separately for lead and follow solos. */
  const SOLO_POOL: seq<int> := [1, 2, 3, 4, 5, 6]

  lemma PoolsDistinct()
    ensures Distinct(PAIRED_POOL) && |PAIRED_POOL| == 26
    ensures forall v :: v in PAIRED_POOL <==> 7 <= v <= 32
    ensures Distinct(SOLO_POOL) && forall v :: v in SOLO_POOL <==> 1 <= v <= 6
  {
    forall v | 7 <= v <= 32
      ensures v in PAIRED_POOL
    {
      assert PAIRED_POOL[v - 7] == v;
    }
  }

  /** A solo takes a lead image when its role is `lead` or `unknown`. */
  predicate UsesLeadImages(d: DancerRow) {
    d.role == Lead || d.role == Unknown
  }

  /** Everyone in the units, unit by unit. */
  function AllMembers(units: seq<DanceUnit>): seq<DancerRow> {
    if |units| == 0 then []
    else AllMembers(units[..|units| - 1]) + units[|units| - 1].members
  }

  lemma AllMembersSnoc(units: seq<DanceUnit>, u: DanceUnit)
    ensures AllMembers(units + [u]) == AllMembers(units) + u.members
  {
    assert (units + [u])[..|units|] == units;
  }

  lemma {:induction false} AllMembersAppend(a: seq<DanceUnit>, b: seq<DanceUnit>)
    ensures AllMembers(a + b) == AllMembers(a) + AllMembers(b)
    decreases |b|
  {
    if |b| > 0 {
      var front, last := b[..|b| - 1], b[|b| - 1];
      AllMembersAppend(a, front);
      assert a + b == (a + front) + [last];
      assert b == front + [last];
      AllMembersSnoc(a + front, last);
      AllMembersSnoc(front, last);
      assert AllMembers(a + b) == AllMembers(a + front) + last.members;
      assert AllMembers(b) == AllMembers(front) + last.members;
    } else {
      assert a + b == a;
    }
  }

  /** The unit `buildDanceUnits` makes from a balanced pair. */
  ghost predicate IsPairUnitOf(u: DanceUnit, p: Pair, range: TimestampRange, w: Weights) {
    u.kind == PairUnit && u.members == [p.0, p.1] && u.unitKey == KeyOf(Names(u.members))
    && u.priorityScore == MathMax(ComputePriority(p.0, range, w), ComputePriority(p.1, range, w))
    && 7 <= u.imageNum <= 32
  }

  /** The unit `buildDanceUnits` makes from a solo. */
  ghost predicate IsSoloUnitOf(u: DanceUnit, d: DancerRow, range: TimestampRange, w: Weights) {
    u.kind == SoloUnit && u.members == [d] && u.unitKey == KeyOf(Names(u.members))
    && u.priorityScore == ComputePriority(d, range, w) && 1 <= u.imageNum <= 6
  }

  /**
   * The pair loop of `buildDanceUnits`: a key, the better of the two scores
   * and a fresh paired image for each pair, in order.  While fewer than 26
   * pairs have been placed the images never repeat.
   */
  method BuildPairUnits(pairs: seq<Pair>, songSlot: string, allNames: seq<string>, range: TimestampRange, w: Weights)
    returns (units: seq<DanceUnit>)
    ensures |units| == |pairs|
    ensures forall k :: 0 <= k < |pairs| ==> IsPairUnitOf(units[k], pairs[k], range, w)
    ensures forall i, j :: 0 <= i < j < |units| && j < 26 ==> units[i].imageNum != units[j].imageNum
  {
    PoolsDistinct();
    units := [];
    var usedPairImages: set<int> := {};
    for k := 0 to |pairs|
      invariant |units| == k
      invariant forall i :: 0 <= i < k ==> IsPairUnitOf(units[i], pairs[i], range, w)
      invariant ImagesTracked(units, usedPairImages)
    {
      var leader, follower := pairs[k].0, pairs[k].1;
      var unitKey := BuildUnitKey([leader, follower], allNames);
      var leaderScore := ComputePriority(leader, range, w);
      var followerScore := ComputePriority(follower, range, w);
      var priorityScore := MathMax(leaderScore, followerScore);
      var imageNum := AssignUniqueImage(songSlot, unitKey, PAIRED_POOL, usedPairImages);
      var u := DanceUnit(PairUnit, [leader, follower], unitKey, priorityScore, imageNum);
      assert IsPairUnitOf(u, pairs[k], range, w);
      PairUnitsGrow(units, u, pairs, range, w);
      ImagesGrow(units, usedPairImages, u);
      usedPairImages := usedPairImages + {imageNum};
      units := units + [u];
    }
  }

  /**
   * `used` holds the images of `units`, no more of them than there are units,
   * and among the first 26 units no image repeats.
   */
  ghost predicate ImagesTracked(units: seq<DanceUnit>, used: set<int>) {
    (forall i :: 0 <= i < |units| ==> units[i].imageNum in used)
    && |used| <= |units|
    && (forall i, j :: 0 <= i < j < |units| && j < 26 ==> units[i].imageNum != units[j].imageNum)
  }

  lemma ImagesGrow(units: seq<DanceUnit>, used: set<int>, u: DanceUnit)
    requires ImagesTracked(units, used)
    requires |units| < 26 ==> u.imageNum !in used
    ensures ImagesTracked(units + [u], used + {u.imageNum})
  {
    var r := units + [u];
    assert |used + {u.imageNum}| <= |used| + 1;
    forall i, j | 0 <= i < j < |r| && j < 26
      ensures r[i].imageNum != r[j].imageNum
    {
      if j == |units| {
        assert r[i].imageNum in used;
      }
    }
  }

  lemma PairUnitsGrow(units: seq<DanceUnit>, u: DanceUnit, pairs: seq<Pair>, range: TimestampRange, w: Weights)
    requires |units| < |pairs|
    requires forall i :: 0 <= i < |units| ==> IsPairUnitOf(units[i], pairs[i], range, w)
    requires IsPairUnitOf(u, pairs[|units|], range, w)
    ensures forall i :: 0 <= i < |units| + 1 ==> IsPairUnitOf((units + [u])[i], pairs[i], range, w)
  {
  }

  lemma PairMembersStep(pairs: seq<Pair>, k: int)
    requires 0 <= k < |pairs|
    ensures Members(pairs[..k + 1]) == Members(pairs[..k]) + multiset([pairs[k].0, pairs[k].1])
  {
    assert pairs[..k + 1] == pairs[..k] + [pairs[k]];
    MembersCons(pairs[k], []);
    MembersAppend(pairs[..k], [pairs[k]]);
    assert [pairs[k]] + [] == [pairs[k]];
    assert multiset([pairs[k].0, pairs[k].1]) == multiset{pairs[k].0, pairs[k].1};
  }

  /** The pair units hold exactly the members of the pairs they were made from. */
  lemma {:induction false} PairUnitsMembers(units: seq<DanceUnit>, pairs: seq<Pair>)
    requires |units| == |pairs|
    requires forall k :: 0 <= k < |pairs| ==> units[k].members == [pairs[k].0, pairs[k].1]
    ensures multiset(AllMembers(units)) == Members(pairs)
    decreases |pairs|
  {
    if |pairs| > 0 {
      var n := |pairs| - 1;
      var front, x := AllMembers(units[..n]), units[n].members;
      PairUnitsMembers(units[..n], pairs[..n]);
      PairMembersStep(pairs, n);
      assert pairs[..n + 1] == pairs;
      assert AllMembers(units) == front + x;
      assert multiset(front + x) == multiset(front) + multiset(x);
    }
  }

  /** The solo units hold the solos, in order. */
  lemma {:induction false} SoloUnitsMembers(units: seq<DanceUnit>, solos: seq<DancerRow>)
    requires |units| == |solos|
    requires forall k :: 0 <= k < |solos| ==> units[k].members == [solos[k]]
    ensures AllMembers(units) == solos
    decreases |solos|
  {
    if |solos| > 0 {
      var n := |solos| - 1;
      SoloUnitsMembers(units[..n], solos[..n]);
      assert solos == solos[..n] + [solos[n]];
    }
  }

  /** How many of `ds` take their images from the lead pool (`lead`) or from the follow pool. */
  function ClassCount(ds: seq<DancerRow>, lead: bool): (n: nat)
    ensures n <= |ds|
  {
    if |ds| == 0 then 0
    else ClassCount(ds[..|ds| - 1], lead) + (if UsesLeadImages(ds[|ds| - 1]) == lead then 1 else 0)
  }

  /** The used set of the role class of `d`. */
  function UsedOfClass(d: DancerRow, usedLead: set<int>, usedFollow: set<int>): set<int> {
    if UsesLeadImages(d) then usedLead else usedFollow
  }

  /**
   * The solo loop's bookkeeping: each placed solo's image is in its class's
   * used set, each set has no more images than its class has placed solos,
   * and within a class the first six solos never share an image.
   */
  ghost predicate SoloImagesTracked(units: seq<DanceUnit>, solos: seq<DancerRow>, usedLead: set<int>, usedFollow: set<int>) {
    |units| <= |solos|
    && (forall i :: 0 <= i < |units| ==> units[i].imageNum in UsedOfClass(solos[i], usedLead, usedFollow))
    && |usedLead| <= ClassCount(solos[..|units|], true)
    && |usedFollow| <= ClassCount(solos[..|units|], false)
    && SoloImagesDistinct(units, solos)
  }

  /** Solos `i < j` share a role class and `j` is among the first six solos of it. */
  predicate EarlySameClass(solos: seq<DancerRow>, i: int, j: int)
    requires 0 <= i < j <= |solos| - 1
  {
    UsesLeadImages(solos[i]) == UsesLeadImages(solos[j])
    && ClassCount(solos[..j], UsesLeadImages(solos[j])) < |SOLO_POOL|
  }

  /** Two solos of one role class, the later among the first six of its class, have different images. */
  ghost predicate SoloImagesDistinct(units: seq<DanceUnit>, solos: seq<DancerRow>)
    requires |units| <= |solos|
  {
    forall i, j :: 0 <= i < j < |units| && EarlySameClass(solos, i, j) ==> units[i].imageNum != units[j].imageNum
  }

  /** One more solo changes only its own class's count. */
  lemma ClassCountStep(solos: seq<DancerRow>, n: int, lead: bool)
    requires 0 <= n < |solos|
    ensures ClassCount(solos[..n + 1], lead) == ClassCount(solos[..n], lead) + (if UsesLeadImages(solos[n]) == lead then 1 else 0)
  {
    assert solos[..n + 1][..n] == solos[..n];
  }

  /** A new solo whose image is past the used images of its class keeps the class images distinct. */
  lemma SoloDistinctGrow(units: seq<DanceUnit>, solos: seq<DancerRow>, used: set<int>, u: DanceUnit)
    requires |units| < |solos| && SoloImagesDistinct(units, solos)
    requires forall i :: 0 <= i < |units| && UsesLeadImages(solos[i]) == UsesLeadImages(solos[|units|]) ==>
      units[i].imageNum in used
    requires ClassCount(solos[..|units|], UsesLeadImages(solos[|units|])) < |SOLO_POOL| ==> u.imageNum !in used
    ensures SoloImagesDistinct(units + [u], solos)
  {
    var r := units + [u];
    forall i, j | 0 <= i < j < |r| && EarlySameClass(solos, i, j)
      ensures r[i].imageNum != r[j].imageNum
    {
      if j == |units| {
        assert r[i] == units[i];
      } else {
        assert r[i] == units[i] && r[j] == units[j];
      }
    }
  }

  /** Adding one image to the new solo's class keeps each used set within its class's count. */
  lemma UsedSizesGrow(solos: seq<DancerRow>, n: int, usedLead: set<int>, usedFollow: set<int>, img: int)
    requires 0 <= n < |solos|
    requires |usedLead| <= ClassCount(solos[..n], true) && |usedFollow| <= ClassCount(solos[..n], false)
    ensures var lead := UsesLeadImages(solos[n]);
      |if lead then usedLead + {img} else usedLead| <= ClassCount(solos[..n + 1], true) &&
      |if lead then usedFollow else usedFollow + {img}| <= ClassCount(solos[..n + 1], false)
  {
    ClassCountStep(solos, n, true);
    ClassCountStep(solos, n, false);
    assert |usedLead + {img}| <= |usedLead| + 1;
    assert |usedFollow + {img}| <= |usedFollow| + 1;
  }

  /** Adding the new unit's image to its class's set keeps every placed image in its class's set. */
  lemma UsedMembershipGrow(units: seq<DanceUnit>, solos: seq<DancerRow>, usedLead: set<int>, usedFollow: set<int>, u: DanceUnit)
    requires |units| < |solos|
    requires forall i :: 0 <= i < |units| ==> units[i].imageNum in UsedOfClass(solos[i], usedLead, usedFollow)
    ensures var lead := UsesLeadImages(solos[|units|]);
      var newLead := if lead then usedLead + {u.imageNum} else usedLead;
      var newFollow := if lead then usedFollow else usedFollow + {u.imageNum};
      forall i :: 0 <= i < |units| + 1 ==> (units + [u])[i].imageNum in UsedOfClass(solos[i], newLead, newFollow)
  {
  }

  /** One more solo unit, its image drawn past its class's used set, keeps the bookkeeping. */
  lemma SoloImagesGrow(units: seq<DanceUnit>, solos: seq<DancerRow>, usedLead: set<int>, usedFollow: set<int>, u: DanceUnit)
    requires SoloImagesTracked(units, solos, usedLead, usedFollow) && |units| < |solos|
    requires var used := UsedOfClass(solos[|units|], usedLead, usedFollow); |used| < |SOLO_POOL| ==> u.imageNum !in used
    ensures var lead := UsesLeadImages(solos[|units|]);
      SoloImagesTracked(units + [u], solos,
        if lead then usedLead + {u.imageNum} else usedLead,
        if lead then usedFollow else usedFollow + {u.imageNum})
  {
    var n := |units|;
    UsedSizesGrow(solos, n, usedLead, usedFollow, u.imageNum);
    UsedMembershipGrow(units, solos, usedLead, usedFollow, u);
    SoloDistinctGrow(units, solos, UsedOfClass(solos[n], usedLead, usedFollow), u);
  }

  /** Each unit so far is the solo unit of the solo at its index. */
  ghost predicate SoloUnitsOf(units: seq<DanceUnit>, solos: seq<DancerRow>, range: TimestampRange, w: Weights) {
    |units| <= |solos| && forall i :: 0 <= i < |units| ==> IsSoloUnitOf(units[i], solos[i], range, w)
  }

  /** The solo unit of the next solo extends the solo units so far. */
  lemma SoloUnitsGrow(units: seq<DanceUnit>, solos: seq<DancerRow>, range: TimestampRange, w: Weights, u: DanceUnit)
    requires SoloUnitsOf(units, solos, range, w) && |units| < |solos|
    requires IsSoloUnitOf(u, solos[|units|], range, w)
    ensures SoloUnitsOf(units + [u], solos, range, w)
  {
    var r := units + [u];
    forall i | 0 <= i < |r|
      ensures IsSoloUnitOf(r[i], solos[i], range, w)
    {
      if i < |units| {
        assert r[i] == units[i];
      }
    }
  }

  /** The bookkeeping over all solos gives the distinct images of each class. */
  lemma TrackedDistinct(units: seq<DanceUnit>, solos: seq<DancerRow>, usedLead: set<int>, usedFollow: set<int>)
    requires |units| == |solos| && SoloImagesTracked(units, solos, usedLead, usedFollow)
    ensures forall i, j :: 0 <= i < j < |solos| && EarlySameClass(solos, i, j) ==> units[i].imageNum != units[j].imageNum
  {
    assert SoloImagesDistinct(units, solos);
  }

  /**
   * The solo loop of `buildDanceUnits`: a key, the solo's own score and an
   * image from the solo pool, deduplicated separately for lead and follow
   * solos: `lead` and `unknown` solos share one used set, the others the other.
   */
  method BuildSoloUnits(solos: seq<DancerRow>, songSlot: string, allNames: seq<string>, range: TimestampRange, w: Weights)
    returns (units: seq<DanceUnit>)
    ensures |units| == |solos|
    ensures forall k :: 0 <= k < |solos| ==> IsSoloUnitOf(units[k], solos[k], range, w)
    ensures forall i, j :: 0 <= i < j < |solos| && EarlySameClass(solos, i, j) ==> units[i].imageNum != units[j].imageNum
  {
    units := [];
    var usedLeadImages: set<int> := {};
    var usedFollowImages: set<int> := {};
    for k := 0 to |solos|
      invariant |units| == k
      invariant SoloUnitsOf(units, solos, range, w)
      invariant SoloImagesTracked(units, solos, usedLeadImages, usedFollowImages)
    {
      var solo := solos[k];
      var usedPool := UsedOfClass(solo, usedLeadImages, usedFollowImages);
      var u := NewSoloUnit(solo, songSlot, allNames, range, w, usedPool);
      SoloUnitsGrow(units, solos, range, w, u);
      SoloImagesGrow(units, solos, usedLeadImages, usedFollowImages, u);
      if UsesLeadImages(solo) {
        usedLeadImages := usedLeadImages + {u.imageNum};
      } else {
        usedFollowImages := usedFollowImages + {u.imageNum};
      }
      units := units + [u];
    }
    TrackedDistinct(units, solos, usedLeadImages, usedFollowImages);
  }

  /** One solo unit, its image drawn from the solo pool past the images in `used`. */
  method NewSoloUnit(solo: DancerRow, songSlot: string, allNames: seq<string>, range: TimestampRange, w: Weights,
                     used: set<int>)
    returns (u: DanceUnit)
    ensures IsSoloUnitOf(u, solo, range, w)
    ensures |used| < |SOLO_POOL| ==> u.imageNum !in used
  {
    PoolsDistinct();
    var unitKey := BuildUnitKey([solo], allNames);
    var priorityScore := ComputePriority(solo, range, w);
    var imageNum := AssignUniqueImage(songSlot, unitKey, SOLO_POOL, used);
    u := DanceUnit(SoloUnit, [solo], unitKey, priorityScore, imageNum);
  }

  /** The bookkeeping of the pipeline, on multisets: balancing and shuffling keep everyone. */
  lemma PipelineConserves(dancers: seq<DancerRow>, pools: Pools, shuffled: Pools, pairs: seq<Pair>,
                          solos: seq<DancerRow>, balanced: seq<Pair>)
    requires multiset(pools.leaders) + multiset(pools.followers) + multiset(pools.flex) == multiset(dancers)
    requires multiset(shuffled.leaders) == multiset(pools.leaders)
    requires multiset(shuffled.followers) == multiset(pools.followers)
    requires multiset(shuffled.flex) == multiset(pools.flex)
    requires Members(pairs) + multiset(solos)
             == multiset(shuffled.leaders) + multiset(shuffled.followers) + multiset(shuffled.flex)
    requires multiset(Firsts(balanced)) == multiset(Firsts(pairs))
    requires multiset(Seconds(balanced)) == multiset(Seconds(pairs))
    requires 2 * |pairs| + |solos| == |shuffled.leaders| + |shuffled.followers| + |shuffled.flex|
    requires |balanced| == |pairs|
    ensures Members(balanced) + multiset(solos) == multiset(dancers)
    ensures 2 * |balanced| + |solos| == |dancers|
  {
    assert |multiset(shuffled.leaders)| + |multiset(shuffled.followers)| + |multiset(shuffled.flex)|
        == |multiset(dancers)|;
  }

  lemma PartsOfSum(a: multiset<DancerRow>, b: multiset<DancerRow>, c: multiset<DancerRow>)
    requires a + b == c
    ensures a <= c && b <= c
  {
  }

  /** A pair unit scores within the bounds of its members' priorities. */
  lemma PairUnitScore(u: DanceUnit, p: Pair, range: TimestampRange, w: Weights)
    requires IsPairUnitOf(u, p, range, w)
    requires NonNegativeWeights(w) && InRange(p.0.ts, range) && InRange(p.1.ts, range)
    ensures 0.0 <= u.priorityScore <= MaxPossibleScore(w)
  {
    PriorityBounds(p.0, range, w);
    PriorityBounds(p.1, range, w);
  }

  /** The shape of the units `buildDanceUnits` returns: `np` pair units, then the solo units. */
  ghost predicate UnitsShape(units: seq<DanceUnit>, np: int) {
    0 <= np <= |units|
    && (forall k :: 0 <= k < np ==> units[k].kind == PairUnit && |units[k].members| == 2 && 7 <= units[k].imageNum <= 32)
    && (forall k :: np <= k < |units| ==> units[k].kind == SoloUnit && |units[k].members| == 1 && 1 <= units[k].imageNum <= 6)
    && (forall i, j :: 0 <= i < j < np && j < 26 ==> units[i].imageNum != units[j].imageNum)
    && (forall k :: 0 <= k < |units| ==> units[k].unitKey == KeyOf(Names(units[k].members)))
  }

  /**
   * The pairs and solos `buildDanceUnits` makes units from: the pools of the
   * roster, each shuffled by priority, matched, and the pairs balanced.
   */
  function UnitPlan(dancers: seq<DancerRow>, songSlot: string, range: TimestampRange, config: DancePartyConfig): Pairing {
    var w := config.weights;
    var pairing := MatchPlan(PriorityShuffle(PoolOf(dancers, songSlot, ToLeaders), songSlot, range, w),
                             PriorityShuffle(PoolOf(dancers, songSlot, ToFollowers), songSlot, range, w),
                             PriorityShuffle(PoolOf(dancers, songSlot, ToFlex), songSlot, range, w));
    Pairing(BalancePlan(pairing.pairs, songSlot, config.layout.messageBalanceRate), pairing.solos)
  }

  /**
   * The solos of the plan are the last of the shuffled leaders, or the last
   * of the shuffled followers, or at most one flex dancer.
   */
  lemma UnitPlanSolos(dancers: seq<DancerRow>, songSlot: string, range: TimestampRange, config: DancePartyConfig)
    ensures var w := config.weights;
      SolosShape(UnitPlan(dancers, songSlot, range, config).solos,
                 PriorityShuffle(PoolOf(dancers, songSlot, ToLeaders), songSlot, range, w),
                 PriorityShuffle(PoolOf(dancers, songSlot, ToFollowers), songSlot, range, w),
                 PriorityShuffle(PoolOf(dancers, songSlot, ToFlex), songSlot, range, w))
  {
    var w := config.weights;
    MatchSolos(PriorityShuffle(PoolOf(dancers, songSlot, ToLeaders), songSlot, range, w),
               PriorityShuffle(PoolOf(dancers, songSlot, ToFollowers), songSlot, range, w),
               PriorityShuffle(PoolOf(dancers, songSlot, ToFlex), songSlot, range, w));
  }

  /** `units` is one pair unit per pair of `plan`, in order, followed by one solo unit per solo, in order. */
  ghost predicate FollowsPlan(units: seq<DanceUnit>, plan: Pairing, range: TimestampRange, w: Weights) {
    |units| == |plan.pairs| + |plan.solos|
    && (forall k :: 0 <= k < |plan.pairs| ==> IsPairUnitOf(units[k], plan.pairs[k], range, w))
    && (forall k :: 0 <= k < |plan.solos| ==> IsSoloUnitOf(units[|plan.pairs| + k], plan.solos[k], range, w))
  }

  /** Pair units for the plan's pairs followed by solo units for its solos follow the plan. */
  lemma AssembledFollowsPlan(pairUnits: seq<DanceUnit>, soloUnits: seq<DanceUnit>, plan: Pairing, range: TimestampRange, w: Weights)
    requires |pairUnits| == |plan.pairs| && forall k :: 0 <= k < |plan.pairs| ==> IsPairUnitOf(pairUnits[k], plan.pairs[k], range, w)
    requires |soloUnits| == |plan.solos| && forall k :: 0 <= k < |plan.solos| ==> IsSoloUnitOf(soloUnits[k], plan.solos[k], range, w)
    ensures FollowsPlan(pairUnits + soloUnits, plan, range, w)
  {
    var units := pairUnits + soloUnits;
    forall k | 0 <= k < |plan.solos|
      ensures IsSoloUnitOf(units[|plan.pairs| + k], plan.solos[k], range, w)
    {
      assert units[|plan.pairs| + k] == soloUnits[k];
    }
  }

  /**
   * `buildDanceUnits(dancers, formTitle, songNumber, config)`: classify,
   * shuffle each pool, match, balance, then one unit per pair followed by
   * one unit per solo.  Everyone ends up in exactly one unit.
   */
  method BuildDanceUnits(dancers: seq<DancerRow>, formTitle: string, songNumber: int, config: DancePartyConfig)
    returns (units: seq<DanceUnit>)
    ensures |dancers| == 0 ==> units == []
    ensures multiset(AllMembers(units)) == multiset(dancers)
    ensures exists np :: UnitsShape(units, np) && 2 * np + (|units| - np) == |dancers|
    ensures NonNegativeWeights(config.weights) ==> ScoresBounded(units, config.weights)
    ensures |dancers| > 0 ==>
      exists range ::
        IsRangeOf(dancers, range) &&
        FollowsPlan(units, UnitPlan(dancers, GetSongSlot(formTitle, songNumber), range, config), range, config.weights)
  {
    if |dancers| == 0 {
      assert UnitsShape([], 0);
      return [];
    }
    var w := config.weights;
    var songSlot := GetSongSlot(formTitle, songNumber);
    var timestamps := GetTimestampRange(dancers);
    var allNames := Names(dancers);

    var pools := ClassifyDancers(dancers, songSlot);
    ClassifyPartition(dancers, songSlot);

    var shuffled := Pools(PriorityShuffle(pools.leaders, songSlot, timestamps, w),
                          PriorityShuffle(pools.followers, songSlot, timestamps, w),
                          PriorityShuffle(pools.flex, songSlot, timestamps, w));

    var pairing := MatchPairs(shuffled.leaders, shuffled.followers, shuffled.flex);
    MatchConservation(shuffled.leaders, shuffled.followers, shuffled.flex);

    var balanced := BalanceMessages(pairing.pairs, songSlot, config.layout.messageBalanceRate);
    PipelineConserves(dancers, pools, shuffled, pairing.pairs, pairing.solos, balanced);

    var pairUnits := BuildPairUnits(balanced, songSlot, allNames, timestamps, w);
    var soloUnits := BuildSoloUnits(pairing.solos, songSlot, allNames, timestamps, w);
    units := pairUnits + soloUnits;
    AssembleUnits(dancers, timestamps, w, balanced, pairing.solos, pairUnits, soloUnits);
    var plan := UnitPlan(dancers, songSlot, timestamps, config);
    assert plan == Pairing(balanced, pairing.solos);
    AssembledFollowsPlan(pairUnits, soloUnits, plan, timestamps, w);
    assert IsRangeOf(dancers, timestamps);
    assert UnitsShape(units, |pairUnits|) && 2 * |pairUnits| + (|units| - |pairUnits|) == |dancers|;
  }

  /** The pair units followed by the solo units keep everyone, have their shape and their bounded scores. */
  lemma AssembleUnits(dancers: seq<DancerRow>, range: TimestampRange, w: Weights, balanced: seq<Pair>,
                      solos: seq<DancerRow>, pairUnits: seq<DanceUnit>, soloUnits: seq<DanceUnit>)
    requires forall k :: 0 <= k < |dancers| ==> InRange(dancers[k].ts, range)
    requires Members(balanced) + multiset(solos) == multiset(dancers)
    requires 2 * |balanced| + |solos| == |dancers|
    requires |pairUnits| == |balanced| && forall k :: 0 <= k < |balanced| ==> IsPairUnitOf(pairUnits[k], balanced[k], range, w)
    requires forall i, j :: 0 <= i < j < |pairUnits| && j < 26 ==> pairUnits[i].imageNum != pairUnits[j].imageNum
    requires |soloUnits| == |solos| && forall k :: 0 <= k < |solos| ==> IsSoloUnitOf(soloUnits[k], solos[k], range, w)
    ensures multiset(AllMembers(pairUnits + soloUnits)) == multiset(dancers)
    ensures UnitsShape(pairUnits + soloUnits, |pairUnits|) && 2 * |pairUnits| + |soloUnits| == |dancers|
    ensures NonNegativeWeights(w) ==> ScoresBounded(pairUnits + soloUnits, w)
  {
    PairUnitsMembers(pairUnits, balanced);
    SoloUnitsMembers(soloUnits, solos);
    UnitsConserve(dancers, balanced, solos, pairUnits, soloUnits);
    ShapeOfUnits(range, w, balanced, solos, pairUnits, soloUnits);
    if NonNegativeWeights(w) {
      PartsOfSum(Members(balanced), multiset(solos), multiset(dancers));
      PairScoresBounded(dancers, range, w, balanced, pairUnits);
      SoloScoresBounded(dancers, range, w, solos, soloUnits);
      ScoresBoundedAppend(pairUnits, soloUnits, w);
    }
  }

  lemma UnitsConserve(dancers: seq<DancerRow>, balanced: seq<Pair>, solos: seq<DancerRow>,
                      pairUnits: seq<DanceUnit>, soloUnits: seq<DanceUnit>)
    requires multiset(AllMembers(pairUnits)) == Members(balanced) && AllMembers(soloUnits) == solos
    requires Members(balanced) + multiset(solos) == multiset(dancers)
    ensures multiset(AllMembers(pairUnits + soloUnits)) == multiset(dancers)
  {
    AllMembersAppend(pairUnits, soloUnits);
    assert multiset(AllMembers(pairUnits) + AllMembers(soloUnits))
        == multiset(AllMembers(pairUnits)) + multiset(AllMembers(soloUnits));
  }

  lemma ShapeOfUnits(range: TimestampRange, w: Weights, balanced: seq<Pair>, solos: seq<DancerRow>,
                     pairUnits: seq<DanceUnit>, soloUnits: seq<DanceUnit>)
    requires |pairUnits| == |balanced| && forall k :: 0 <= k < |balanced| ==> IsPairUnitOf(pairUnits[k], balanced[k], range, w)
    requires |soloUnits| == |solos| && forall k :: 0 <= k < |solos| ==> IsSoloUnitOf(soloUnits[k], solos[k], range, w)
    requires forall i, j :: 0 <= i < j < |pairUnits| && j < 26 ==> pairUnits[i].imageNum != pairUnits[j].imageNum
    ensures UnitsShape(pairUnits + soloUnits, |pairUnits|)
  {
    var units := pairUnits + soloUnits;
    forall k | 0 <= k < |units|
      ensures units[k].unitKey == KeyOf(Names(units[k].members))
    {
      if k < |pairUnits| {
        assert units[k] == pairUnits[k];
      } else {
        assert units[k] == soloUnits[k - |pairUnits|];
      }
    }
  }

  lemma InRangeMember(dancers: seq<DancerRow>, range: TimestampRange, d: DancerRow)
    requires forall k :: 0 <= k < |dancers| ==> InRange(dancers[k].ts, range)
    requires d in multiset(dancers)
    ensures InRange(d.ts, range)
  {
    assert d in dancers;
  }

  /** Scores bounded unit by unit. */
  ghost predicate ScoresBounded(units: seq<DanceUnit>, w: Weights) {
    forall k :: 0 <= k < |units| ==> 0.0 <= units[k].priorityScore <= MaxPossibleScore(w)
  }

  lemma PairScoresBounded(dancers: seq<DancerRow>, range: TimestampRange, w: Weights, balanced: seq<Pair>,
                          pairUnits: seq<DanceUnit>)
    requires NonNegativeWeights(w)
    requires forall k :: 0 <= k < |dancers| ==> InRange(dancers[k].ts, range)
    requires Members(balanced) <= multiset(dancers)
    requires |pairUnits| == |balanced| && forall k :: 0 <= k < |balanced| ==> IsPairUnitOf(pairUnits[k], balanced[k], range, w)
    ensures ScoresBounded(pairUnits, w)
  {
    forall k | 0 <= k < |pairUnits|
      ensures 0.0 <= pairUnits[k].priorityScore <= MaxPossibleScore(w)
    {
      var p := balanced[k];
      PairMembers(balanced, k);
      InRangeMember(dancers, range, p.0);
      InRangeMember(dancers, range, p.1);
      PairUnitScore(pairUnits[k], p, range, w);
    }
  }

  lemma PairMembers(ps: seq<Pair>, k: int)
    requires 0 <= k < |ps|
    ensures ps[k].0 in Members(ps) && ps[k].1 in Members(ps)
  {
    assert Firsts(ps)[k] == ps[k].0 && Seconds(ps)[k] == ps[k].1;
  }

  lemma SoloScoresBounded(dancers: seq<DancerRow>, range: TimestampRange, w: Weights, solos: seq<DancerRow>,
                          soloUnits: seq<DanceUnit>)
    requires NonNegativeWeights(w)
    requires forall k :: 0 <= k < |dancers| ==> InRange(dancers[k].ts, range)
    requires multiset(solos) <= multiset(dancers)
    requires |soloUnits| == |solos| && forall k :: 0 <= k < |solos| ==> IsSoloUnitOf(soloUnits[k], solos[k], range, w)
    ensures ScoresBounded(soloUnits, w)
  {
    forall k | 0 <= k < |soloUnits|
      ensures 0.0 <= soloUnits[k].priorityScore <= MaxPossibleScore(w)
    {
      assert solos[k] in multiset(solos);
      InRangeMember(dancers, range, solos[k]);
      PriorityBounds(solos[k], range, w);
    }
  }

  lemma ScoresBoundedAppend(a: seq<DanceUnit>, b: seq<DanceUnit>, w: Weights)
    requires ScoresBounded(a, w) && ScoresBounded(b, w)
    ensures ScoresBounded(a + b, w)
  {
    forall k | 0 <= k < |a + b|
      ensures 0.0 <= (a + b)[k].priorityScore <= MaxPossibleScore(w)
    {
      if k >= |a| {
        assert (a + b)[k] == b[k - |a|];
      }
    }
  }
}
