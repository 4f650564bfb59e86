/**
 * The pairing pipeline of `src/lib/dance-party.ts`: classification into
 * leader, follower and flex pools, the priority-biased shuffle, FIFO pair
 * matching, message balancing, unit keys, image assignment and the assembly of
 * dance units.  Every random-looking choice is a djb2 hash of a string built
 * from the song slot.
 */
module DancePairing {
  import opened Wrappers
  import opened JsString
  import opened Djb2
  import opened Sorting
  import opened DanceScoring

  /** `MAX_HASH = 0xffff_ffff` */
  const MAX_HASH: int := 0xffff_ffff

  /** A hash as the fraction `hash / MAX_HASH` in [0, 1]. */
  function HashFraction(h: int): (x: real)
    requires 0 <= h < TWO32
    ensures 0.0 <= x <= 1.0
  {
    h as real / MAX_HASH as real
  }

  /** A `[leader, follower]` tuple. */
  type Pair = (DancerRow, DancerRow)

  // ---------------------------------------------------------------------------
  // Classification
  // ---------------------------------------------------------------------------

  datatype Side = ToLeaders | ToFollowers | ToFlex

  /** Where `classifyDancers` puts a dancer: `unknown` goes by the parity of a hash. */
  function SideOf(d: DancerRow, songSlot: string): Side {
    match d.role
    case Lead => ToLeaders
    case Follow => ToFollowers
    case Both => ToFlex
    case Unknown =>
      if Hash(songSlot + "\U{0}unknown\U{0}" + d.name) % 2 == 0 then ToLeaders else ToFollowers
  }

  /** The dancers of `ds` that go to `side`, in their order. */
  function PoolOf(ds: seq<DancerRow>, songSlot: string, side: Side): (p: seq<DancerRow>)
    ensures |p| <= |ds|
  {
    if |ds| == 0 then []
    else
      var last := ds[|ds| - 1];
      assert ds == ds[..|ds| - 1] + [last];
      PoolOf(ds[..|ds| - 1], songSlot, side) + (if SideOf(last, songSlot) == side then [last] else [])
  }

  /** A pool holds every copy of each dancer that goes to its side, and nothing else. */
  lemma {:induction false} PoolCount(ds: seq<DancerRow>, songSlot: string, side: Side, d: DancerRow)
    ensures multiset(PoolOf(ds, songSlot, side))[d] == if SideOf(d, songSlot) == side then multiset(ds)[d] else 0
  {
    if |ds| > 0 {
      var front, last := ds[..|ds| - 1], ds[|ds| - 1];
      PoolCount(front, songSlot, side, d);
      var keepLast := SideOf(last, songSlot) == side;
      CountSnoc(ds, PoolOf(front, songSlot, side), keepLast, d);
      CountArithmetic(multiset(PoolOf(front, songSlot, side))[d], multiset(front)[d],
        multiset(PoolOf(ds, songSlot, side))[d], multiset(ds)[d], SideOf(d, songSlot) == side, keepLast, last == d);
    }
  }

  /** One more dancer extends exactly the pool of its side. */
  lemma PoolSnoc(front: seq<DancerRow>, last: DancerRow, songSlot: string, side: Side)
    ensures PoolOf(front + [last], songSlot, side) ==
      PoolOf(front, songSlot, side) + (if SideOf(last, songSlot) == side then [last] else [])
  {
    assert (front + [last])[..|front|] == front;
  }

  lemma CountSnoc(ds: seq<DancerRow>, pool: seq<DancerRow>, keep: bool, d: DancerRow)
    requires |ds| > 0
    ensures multiset(pool + (if keep then [ds[|ds| - 1]] else []))[d] ==
      multiset(pool)[d] + (if keep && ds[|ds| - 1] == d then 1 else 0)
    ensures multiset(ds)[d] == multiset(ds[..|ds| - 1])[d] + (if ds[|ds| - 1] == d then 1 else 0)
  {
    assert ds == ds[..|ds| - 1] + [ds[|ds| - 1]];
  }

  lemma CountArithmetic(poolFront: int, front: int, pool: int, all: int, keep: bool, keepLast: bool, same: bool)
    requires poolFront == if keep then front else 0
    requires pool == poolFront + (if keepLast && same then 1 else 0)
    requires all == front + (if same then 1 else 0)
    requires same ==> keepLast == keep
    ensures pool == if keep then all else 0
  {
  }

  /** The three pools split the roster: every dancer lands in exactly one of them. */
  lemma ClassifyPartition(ds: seq<DancerRow>, songSlot: string)
    ensures multiset(PoolOf(ds, songSlot, ToLeaders)) + multiset(PoolOf(ds, songSlot, ToFollowers))
            + multiset(PoolOf(ds, songSlot, ToFlex)) == multiset(ds)
  {
    var l, f, x := multiset(PoolOf(ds, songSlot, ToLeaders)), multiset(PoolOf(ds, songSlot, ToFollowers)),
      multiset(PoolOf(ds, songSlot, ToFlex));
    forall d
      ensures (l + f + x)[d] == multiset(ds)[d]
    {
      PoolCount(ds, songSlot, ToLeaders, d);
      PoolCount(ds, songSlot, ToFollowers, d);
      PoolCount(ds, songSlot, ToFlex, d);
    }
    assert l + f + x == multiset(ds);
  }

  /** `{ leaders, followers, flex }` */
  datatype Pools = Pools(leaders: seq<DancerRow>, followers: seq<DancerRow>, flex: seq<DancerRow>)

  /** `classifyDancers(dancers, songSlot)`: one pass pushing each dancer onto its pool. */
  method ClassifyDancers(dancers: seq<DancerRow>, songSlot: string) returns (pools: Pools)
    ensures pools.leaders == PoolOf(dancers, songSlot, ToLeaders)
    ensures pools.followers == PoolOf(dancers, songSlot, ToFollowers)
    ensures pools.flex == PoolOf(dancers, songSlot, ToFlex)
  {
    var leaders, followers, flex := [], [], [];
    for i := 0 to |dancers|
      invariant leaders == PoolOf(dancers[..i], songSlot, ToLeaders)
      invariant followers == PoolOf(dancers[..i], songSlot, ToFollowers)
      invariant flex == PoolOf(dancers[..i], songSlot, ToFlex)
    {
      var d := dancers[i];
      assert dancers[..i + 1] == dancers[..i] + [d];
      PoolSnoc(dancers[..i], d, songSlot, ToLeaders);
      PoolSnoc(dancers[..i], d, songSlot, ToFollowers);
      PoolSnoc(dancers[..i], d, songSlot, ToFlex);
      match d.role {
        case Lead => leaders := leaders + [d];
        case Follow => followers := followers + [d];
        case Both => flex := flex + [d];
        case Unknown =>
          var h := HashString(songSlot + "\U{0}unknown\U{0}" + d.name);
          if h % 2 == 0 {
            leaders := leaders + [d];
          } else {
            followers := followers + [d];
          }
      }
    }
    assert dancers[..|dancers|] == dancers;
    pools := Pools(leaders, followers, flex);
  }

  // ---------------------------------------------------------------------------
  // Priority-biased shuffle
  // ---------------------------------------------------------------------------

  /** The sort key of `priorityShuffle`: priority plus a hashed jitter scaled by `jitterWeight`. */
  function SortKey(d: DancerRow, songSlot: string, range: TimestampRange, w: Weights): real {
    ComputePriority(d, range, w)
    + HashFraction(Hash(songSlot + "\U{0}jitter\U{0}" + d.name)) * w.jitterWeight
  }

  /** The comparator `(a, b) => b.sortKey - a.sortKey` is negative exactly when `a` has the larger key. */
  function ByKeyDescending(songSlot: string, range: TimestampRange, w: Weights): (DancerRow, DancerRow) -> bool {
    (a: DancerRow, b: DancerRow) => SortKey(a, songSlot, range, w) > SortKey(b, songSlot, range, w)
  }

  lemma ByKeyDescendingIsStrict(songSlot: string, range: TimestampRange, w: Weights)
    ensures StrictOrder(ByKeyDescending(songSlot, range, w))
  {
    var before := ByKeyDescending(songSlot, range, w);
    forall a, b, c | before(a, b) && before(b, c)
      ensures before(a, c)
    {
    }
  }

  /**
   * `priorityShuffle(pool, songSlot, timestamps, weights)`: the stable sort of
   * the pool by descending key.  Sorting the `{dancer, sortKey}` records and
   * mapping back to dancers is sorting the dancers by their keys, since a
   * record's key is a function of its dancer.
   */
  function PriorityShuffle(pool: seq<DancerRow>, songSlot: string, range: TimestampRange, w: Weights)
    : (r: seq<DancerRow>)
    ensures multiset(r) == multiset(pool)
    ensures forall i, j :: 0 <= i < j < |r| ==>
              SortKey(r[i], songSlot, range, w) >= SortKey(r[j], songSlot, range, w)
  {
    var before := ByKeyDescending(songSlot, range, w);
    ByKeyDescendingIsStrict(songSlot, range, w);
    SortSorted(pool, before);
    Sort(pool, before)
  }

  /** Ties are dancers with equal keys, so the descending-key comparator is a strict weak order. */
  lemma ByKeyDescendingIsWeak(songSlot: string, range: TimestampRange, w: Weights)
    ensures StrictWeakOrder(ByKeyDescending(songSlot, range, w))
  {
    var before := ByKeyDescending(songSlot, range, w);
    ByKeyDescendingIsStrict(songSlot, range, w);
    forall a, b, c | Tied(before, a, b) && Tied(before, b, c)
      ensures Tied(before, a, c)
    {
    }
  }

  /**
   * The sort is stable: the dancers whose key equals that of `d` leave the
   * shuffle in the order they had in the pool.
   */
  lemma PriorityShuffleStable(pool: seq<DancerRow>, d: DancerRow, songSlot: string, range: TimestampRange, w: Weights)
    ensures var before := ByKeyDescending(songSlot, range, w);
            TiedWith(PriorityShuffle(pool, songSlot, range, w), d, before) == TiedWith(pool, d, before)
  {
    ByKeyDescendingIsWeak(songSlot, range, w);
    SortStable(pool, d, ByKeyDescending(songSlot, range, w));
  }

  // ---------------------------------------------------------------------------
  // Pair matching
  // ---------------------------------------------------------------------------

  /** The pairs one matching loop makes from the fronts of two queues, and what is left of each. */
  datatype Step = Step(pairs: seq<Pair>, restA: seq<DancerRow>, restB: seq<DancerRow>)

  /** A loop `while (a.length > 0 && b.length > 0) pairs.push([a.shift(), b.shift()])`. */
  function PairUp(a: seq<DancerRow>, b: seq<DancerRow>): (s: Step)
    ensures |s.pairs| <= |a| && |s.pairs| <= |b|
    ensures s.restA == a[|s.pairs|..] && s.restB == b[|s.pairs|..]
  {
    if |a| == 0 || |b| == 0 then Step([], a, b)
    else
      var s := PairUp(a[1..], b[1..]);
      Step([(a[0], b[0])] + s.pairs, s.restA, s.restB)
  }

  /** The last loop: flex members two at a time while at least two remain. */
  function Twos(x: seq<DancerRow>): (ps: seq<Pair>)
    ensures 2 * |ps| <= |x|
  {
    if |x| < 2 then [] else [(x[0], x[1])] + Twos(x[2..])
  }

  /** What `Twos` leaves over: the last member of an odd-length sequence. */
  function Leftover(x: seq<DancerRow>): (r: seq<DancerRow>)
    ensures |r| <= 1 && |r| <= |x| && r == x[|x| - |r|..]
  {
    if |x| < 2 then x else Leftover(x[2..])
  }

  datatype Pairing = Pairing(pairs: seq<Pair>, solos: seq<DancerRow>)

  function MatchPlan(leaders: seq<DancerRow>, followers: seq<DancerRow>, flex: seq<DancerRow>): Pairing {
    var s1 := PairUp(leaders, followers);
    var s2 := PairUp(s1.restA, flex);
    var s3 := PairUp(s2.restB, s1.restB);
    Pairing(s1.pairs + s2.pairs + s3.pairs + Twos(s3.restA), s2.restA + s3.restB + Leftover(s3.restA))
  }

  function Firsts(ps: seq<Pair>): (r: seq<DancerRow>)
    ensures |r| == |ps| && forall k :: 0 <= k < |ps| ==> r[k] == ps[k].0
  {
    seq(|ps|, k requires 0 <= k < |ps| => ps[k].0)
  }

  function Seconds(ps: seq<Pair>): (r: seq<DancerRow>)
    ensures |r| == |ps| && forall k :: 0 <= k < |ps| ==> r[k] == ps[k].1
  {
    seq(|ps|, k requires 0 <= k < |ps| => ps[k].1)
  }

  function Members(ps: seq<Pair>): multiset<DancerRow> {
    multiset(Firsts(ps)) + multiset(Seconds(ps))
  }

  lemma MembersAppend(a: seq<Pair>, b: seq<Pair>)
    ensures Members(a + b) == Members(a) + Members(b)
  {
    assert Firsts(a + b) == Firsts(a) + Firsts(b);
    assert Seconds(a + b) == Seconds(a) + Seconds(b);
  }

  lemma MembersCons(p: Pair, t: seq<Pair>)
    ensures Members([p] + t) == multiset{p.0, p.1} + Members(t)
  {
    MembersAppend([p], t);
    assert Firsts([p]) == [p.0] && Seconds([p]) == [p.1];
  }

  lemma MultisetCons(x: seq<DancerRow>)
    requires |x| >= 1
    ensures multiset(x) == multiset{x[0]} + multiset(x[1..])
  {
    assert x == [x[0]] + x[1..];
  }

  lemma AddPair(a: DancerRow, b: DancerRow, p: multiset<DancerRow>, ra: multiset<DancerRow>,
                rb: multiset<DancerRow>, ta: multiset<DancerRow>, tb: multiset<DancerRow>)
    requires p + ra + rb == ta + tb
    ensures (multiset{a, b} + p) + ra + rb == (multiset{a} + ta) + (multiset{b} + tb)
  {
    forall o
      ensures ((multiset{a, b} + p) + ra + rb)[o] == ((multiset{a} + ta) + (multiset{b} + tb))[o]
    {
      assert (p + ra + rb)[o] == (ta + tb)[o];
    }
  }

  /** A matching loop loses no one: its pairs and what is left of both queues hold them all. */
  lemma {:induction false} PairUpMembers(a: seq<DancerRow>, b: seq<DancerRow>)
    ensures var s := PairUp(a, b); Members(s.pairs) + multiset(s.restA) + multiset(s.restB) == multiset(a) + multiset(b)
    decreases |a|
  {
    if |a| > 0 && |b| > 0 {
      var s := PairUp(a[1..], b[1..]);
      PairUpMembers(a[1..], b[1..]);
      MembersCons((a[0], b[0]), s.pairs);
      MultisetCons(a);
      MultisetCons(b);
      AddPair(a[0], b[0], Members(s.pairs), multiset(s.restA), multiset(s.restB), multiset(a[1..]), multiset(b[1..]));
    }
  }

  lemma TwosCons(x: seq<DancerRow>)
    requires |x| >= 2
    ensures Twos(x) == [(x[0], x[1])] + Twos(x[2..]) && Leftover(x) == Leftover(x[2..])
  {
  }

  lemma MultisetOfFirstTwo(x: seq<DancerRow>)
    requires |x| >= 2
    ensures multiset(x) == multiset{x[0], x[1]} + multiset(x[2..])
  {
    assert x == x[..2] + x[2..];
    assert x[..2] == [x[0], x[1]];
  }

  lemma AddTwo(a: DancerRow, b: DancerRow, p: multiset<DancerRow>, l: multiset<DancerRow>, y: multiset<DancerRow>)
    requires p + l == y
    ensures (multiset{a, b} + p) + l == multiset{a, b} + y
  {
  }

  /** Taking members two at a time loses and duplicates no one. */
  lemma {:induction false} TwosMembers(x: seq<DancerRow>)
    ensures Members(Twos(x)) + multiset(Leftover(x)) == multiset(x)
    ensures 2 * |Twos(x)| + |Leftover(x)| == |x|
    decreases |x|
  {
    if |x| >= 2 {
      var y := x[2..];
      TwosMembers(y);
      TwosCons(x);
      MembersCons((x[0], x[1]), Twos(y));
      MultisetOfFirstTwo(x);
      AddTwo(x[0], x[1], Members(Twos(y)), multiset(Leftover(y)), multiset(y));
    }
  }

  lemma Regroup(p1: multiset<DancerRow>, p2: multiset<DancerRow>, p3: multiset<DancerRow>, p4: multiset<DancerRow>,
                l: multiset<DancerRow>, f: multiset<DancerRow>, x: multiset<DancerRow>,
                l1: multiset<DancerRow>, f1: multiset<DancerRow>, l2: multiset<DancerRow>, x1: multiset<DancerRow>,
                f2: multiset<DancerRow>, x2: multiset<DancerRow>, lo: multiset<DancerRow>)
    requires p1 + l1 + f1 == l + f
    requires p2 + l2 + x1 == l1 + x
    requires p3 + x2 + f2 == x1 + f1
    requires p4 + lo == x2
    ensures (p1 + p2 + p3 + p4) + (l2 + f2 + lo) == l + f + x
  {
    forall o
      ensures ((p1 + p2 + p3 + p4) + (l2 + f2 + lo))[o] == (l + f + x)[o]
    {
      assert (p1 + l1 + f1)[o] == (l + f)[o];
      assert (p2 + l2 + x1)[o] == (l1 + x)[o];
      assert (p3 + x2 + f2)[o] == (x1 + f1)[o];
      assert (p4 + lo)[o] == x2[o];
    }
  }

  lemma Members4(a: seq<Pair>, b: seq<Pair>, c: seq<Pair>, d: seq<Pair>)
    ensures Members(a + b + c + d) == Members(a) + Members(b) + Members(c) + Members(d)
  {
    MembersAppend(a, b);
    MembersAppend(a + b, c);
    MembersAppend(a + b + c, d);
  }

  /** Matching loses and duplicates no one: pairs and solos hold exactly the three pools. */
  lemma MatchConservation(leaders: seq<DancerRow>, followers: seq<DancerRow>, flex: seq<DancerRow>)
    ensures Members(MatchPlan(leaders, followers, flex).pairs) + multiset(MatchPlan(leaders, followers, flex).solos)
            == multiset(leaders) + multiset(followers) + multiset(flex)
    ensures 2 * |MatchPlan(leaders, followers, flex).pairs| + |MatchPlan(leaders, followers, flex).solos|
            == |leaders| + |followers| + |flex|
  {
    var s1 := PairUp(leaders, followers);
    var s2 := PairUp(s1.restA, flex);
    var s3 := PairUp(s2.restB, s1.restB);
    var tw, lo := Twos(s3.restA), Leftover(s3.restA);
    assert MatchPlan(leaders, followers, flex) == Pairing(s1.pairs + s2.pairs + s3.pairs + tw, s2.restA + s3.restB + lo);
    Members4(s1.pairs, s2.pairs, s3.pairs, tw);
    PairUpMembers(leaders, followers);
    PairUpMembers(s1.restA, flex);
    PairUpMembers(s2.restB, s1.restB);
    TwosMembers(s3.restA);
    assert multiset(s2.restA + s3.restB + lo) == multiset(s2.restA) + multiset(s3.restB) + multiset(lo);
    Regroup(Members(s1.pairs), Members(s2.pairs), Members(s3.pairs), Members(tw), multiset(leaders), multiset(followers),
      multiset(flex), multiset(s1.restA), multiset(s1.restB), multiset(s2.restA), multiset(s2.restB), multiset(s3.restB),
      multiset(s3.restA), multiset(lo));
  }

  lemma {:induction false} PairUpIndex(a: seq<DancerRow>, b: seq<DancerRow>, i: int)
    requires 0 <= i < |a| && i < |b|
    ensures i < |PairUp(a, b).pairs| && PairUp(a, b).pairs[i] == (a[i], b[i])
    decreases i
  {
    if i > 0 {
      PairUpIndex(a[1..], b[1..], i - 1);
    }
  }

  /** FIFO order: while both last, the leaders and followers are paired side by side. */
  lemma MatchFifo(leaders: seq<DancerRow>, followers: seq<DancerRow>, flex: seq<DancerRow>, i: int)
    requires 0 <= i < |leaders| && i < |followers|
    ensures i < |MatchPlan(leaders, followers, flex).pairs|
    ensures MatchPlan(leaders, followers, flex).pairs[i] == (leaders[i], followers[i])
  {
    PairUpIndex(leaders, followers, i);
  }

  /** `s` is the last `|s|` elements of `t`. */
  ghost predicate IsSuffix(s: seq<DancerRow>, t: seq<DancerRow>) {
    |s| <= |t| && forall k :: 0 <= k < |s| ==> s[k] == t[|t| - |s| + k]
  }

  lemma DropIsSuffix(t: seq<DancerRow>, i: int)
    requires 0 <= i <= |t|
    ensures IsSuffix(t[i..], t)
  {
  }

  lemma SuffixTrans(a: seq<DancerRow>, b: seq<DancerRow>, c: seq<DancerRow>)
    requires IsSuffix(a, b) && IsSuffix(b, c)
    ensures IsSuffix(a, c)
  {
    forall k | 0 <= k < |a|
      ensures a[k] == c[|c| - |a| + k]
    {
      assert a[k] == b[|b| - |a| + k];
    }
  }

  /** The solos are the last leaders, or the last followers, or at most one flex member. */
  ghost predicate SolosShape(s: seq<DancerRow>, leaders: seq<DancerRow>, followers: seq<DancerRow>, flex: seq<DancerRow>) {
    IsSuffix(s, leaders) || IsSuffix(s, followers) || (|s| <= 1 && IsSuffix(s, flex))
  }

  /** What the matching loops leave, from their own postconditions alone. */
  lemma ShapeOfSteps(leaders: seq<DancerRow>, followers: seq<DancerRow>, flex: seq<DancerRow>,
                     s1: Step, s2: Step, s3: Step, lo: seq<DancerRow>)
    requires IsSuffix(s1.restA, leaders) && IsSuffix(s1.restB, followers)
    requires |s1.restA| == 0 || |s1.restB| == 0
    requires IsSuffix(s2.restA, s1.restA) && IsSuffix(s2.restB, flex)
    requires |s2.restA| == 0 || |s2.restB| == 0
    requires IsSuffix(s3.restA, s2.restB) && IsSuffix(s3.restB, s1.restB)
    requires |s3.restA| == 0 || |s3.restB| == 0
    requires |lo| <= 1 && IsSuffix(lo, s3.restA)
    ensures SolosShape(s2.restA + s3.restB + lo, leaders, followers, flex)
  {
    if |s2.restA| > 0 {
      assert s2.restA + s3.restB + lo == s2.restA;
      SuffixTrans(s2.restA, s1.restA, leaders);
    } else if |s3.restB| > 0 {
      assert s2.restA + s3.restB + lo == s3.restB;
      SuffixTrans(s3.restB, s1.restB, followers);
    } else {
      assert s2.restA + s3.restB + lo == lo;
      SuffixTrans(lo, s3.restA, s2.restB);
      SuffixTrans(lo, s2.restB, flex);
    }
  }

  /** A matching loop leaves the last members of each queue, and empties one of them. */
  lemma PairUpRests(a: seq<DancerRow>, b: seq<DancerRow>)
    ensures IsSuffix(PairUp(a, b).restA, a) && IsSuffix(PairUp(a, b).restB, b)
    ensures |PairUp(a, b).restA| == 0 || |PairUp(a, b).restB| == 0
  {
    PairUpEmpties(a, b);
    DropIsSuffix(a, |PairUp(a, b).pairs|);
    DropIsSuffix(b, |PairUp(a, b).pairs|);
  }

  lemma {:induction false} PairUpEmpties(a: seq<DancerRow>, b: seq<DancerRow>)
    ensures |PairUp(a, b).restA| == 0 || |PairUp(a, b).restB| == 0
    decreases |a|
  {
    if |a| > 0 && |b| > 0 {
      PairUpEmpties(a[1..], b[1..]);
    }
  }

  lemma LeftoverRest(x: seq<DancerRow>)
    ensures |Leftover(x)| <= 1 && IsSuffix(Leftover(x), x)
  {
    DropIsSuffix(x, |x| - |Leftover(x)|);
  }

  lemma MatchSolos(leaders: seq<DancerRow>, followers: seq<DancerRow>, flex: seq<DancerRow>)
    ensures SolosShape(MatchPlan(leaders, followers, flex).solos, leaders, followers, flex)
  {
    var s1 := PairUp(leaders, followers);
    var s2 := PairUp(s1.restA, flex);
    var s3 := PairUp(s2.restB, s1.restB);
    PairUpRests(leaders, followers);
    PairUpRests(s1.restA, flex);
    PairUpRests(s2.restB, s1.restB);
    LeftoverRest(s3.restA);
    ShapeOfSteps(leaders, followers, flex, s1, s2, s3, Leftover(s3.restA));
  }

  lemma PairUpDone(a: seq<DancerRow>, b: seq<DancerRow>)
    requires |a| == 0 || |b| == 0
    ensures PairUp(a, b) == Step([], a, b)
  {
  }

  /** One turn of a matching loop: the two fronts become the next pair. */
  lemma PairUpTurn(pairs: seq<Pair>, a: seq<DancerRow>, b: seq<DancerRow>)
    requires |a| > 0 && |b| > 0
    ensures (pairs + [(a[0], b[0])]) + PairUp(a[1..], b[1..]).pairs == pairs + PairUp(a, b).pairs
    ensures PairUp(a[1..], b[1..]).restA == PairUp(a, b).restA && PairUp(a[1..], b[1..]).restB == PairUp(a, b).restB
  {
    assert PairUp(a, b).pairs == [(a[0], b[0])] + PairUp(a[1..], b[1..]).pairs;
  }

  /** One turn of the last loop: the two front flex members become the next pair. */
  lemma TwosTurn(pairs: seq<Pair>, x: seq<DancerRow>)
    requires |x| >= 2
    ensures (pairs + [(x[0], x[1])]) + Twos(x[2..]) == pairs + Twos(x)
    ensures Leftover(x[2..]) == Leftover(x)
  {
    TwosCons(x);
    AppendAssoc(pairs, (x[0], x[1]), Twos(x[2..]));
  }

  lemma AppendAssoc(pairs: seq<Pair>, p: Pair, t: seq<Pair>)
    ensures (pairs + [p]) + t == pairs + ([p] + t)
  {
  }

  lemma AppendNil(s: seq<Pair>)
    ensures s + [] == s
  {
  }

  lemma TwosDone(x: seq<DancerRow>)
    requires |x| < 2
    ensures Twos(x) == [] && Leftover(x) == x
  {
  }

  /**
   * `matchPairs(leaders, followers, flex)`: FIFO queues; leaders with
   * followers, then leftover leaders with flex, then flex with leftover
   * followers, then flex with flex; whoever is left is a solo.
   */
  method MatchPairs(leaders: seq<DancerRow>, followers: seq<DancerRow>, flex: seq<DancerRow>)
    returns (result: Pairing)
    ensures result == MatchPlan(leaders, followers, flex)
  {
    var pairs: seq<Pair> := [];
    var remainingFlex := flex;
    var leaderQueue := leaders;
    var followerQueue := followers;

    ghost var s1 := PairUp(leaders, followers);
    while |leaderQueue| > 0 && |followerQueue| > 0
      invariant pairs + PairUp(leaderQueue, followerQueue).pairs == s1.pairs
      invariant PairUp(leaderQueue, followerQueue).restA == s1.restA
      invariant PairUp(leaderQueue, followerQueue).restB == s1.restB
      decreases |leaderQueue|
    {
      PairUpTurn(pairs, leaderQueue, followerQueue);
      pairs := pairs + [(leaderQueue[0], followerQueue[0])];
      leaderQueue, followerQueue := leaderQueue[1..], followerQueue[1..];
    }
    PairUpDone(leaderQueue, followerQueue);
    AppendNil(pairs);
    assert pairs == s1.pairs;

    ghost var s2 := PairUp(leaderQueue, remainingFlex);
    ghost var p1 := pairs;
    while |leaderQueue| > 0 && |remainingFlex| > 0
      invariant pairs + PairUp(leaderQueue, remainingFlex).pairs == p1 + s2.pairs
      invariant PairUp(leaderQueue, remainingFlex).restA == s2.restA
      invariant PairUp(leaderQueue, remainingFlex).restB == s2.restB
      decreases |leaderQueue|
    {
      PairUpTurn(pairs, leaderQueue, remainingFlex);
      pairs := pairs + [(leaderQueue[0], remainingFlex[0])];
      leaderQueue, remainingFlex := leaderQueue[1..], remainingFlex[1..];
    }
    PairUpDone(leaderQueue, remainingFlex);
    AppendNil(pairs);
    assert pairs == p1 + s2.pairs;

    ghost var s3 := PairUp(remainingFlex, followerQueue);
    ghost var p2 := pairs;
    while |followerQueue| > 0 && |remainingFlex| > 0
      invariant pairs + PairUp(remainingFlex, followerQueue).pairs == p2 + s3.pairs
      invariant PairUp(remainingFlex, followerQueue).restA == s3.restA
      invariant PairUp(remainingFlex, followerQueue).restB == s3.restB
      decreases |followerQueue|
    {
      PairUpTurn(pairs, remainingFlex, followerQueue);
      pairs := pairs + [(remainingFlex[0], followerQueue[0])];
      followerQueue, remainingFlex := followerQueue[1..], remainingFlex[1..];
    }
    PairUpDone(remainingFlex, followerQueue);
    AppendNil(pairs);
    assert pairs == p2 + s3.pairs;

    ghost var p3 := pairs;
    ghost var x2 := remainingFlex;
    while |remainingFlex| >= 2
      invariant pairs + Twos(remainingFlex) == p3 + Twos(x2)
      invariant Leftover(remainingFlex) == Leftover(x2)
      decreases |remainingFlex|
    {
      TwosTurn(pairs, remainingFlex);
      pairs := pairs + [(remainingFlex[0], remainingFlex[1])];
      remainingFlex := remainingFlex[2..];
    }
    TwosDone(remainingFlex);
    AppendNil(pairs);
    result := Pairing(pairs, leaderQueue + followerQueue + remainingFlex);
    assert pairs == s1.pairs + s2.pairs + s3.pairs + Twos(x2);
  }

  // ---------------------------------------------------------------------------
  // Message balancing
  // ---------------------------------------------------------------------------

  /** How many members of a pair carry a message: 0, 1 or 2. */
  function MessageCount(p: Pair): (n: nat)
    ensures n <= 2
  {
    (if HasMessage(p.0) then 1 else 0) + (if HasMessage(p.1) then 1 else 0)
  }

  /** The "rich" donors open to pair `i`: every other, not yet donated pair whose two members both have messages. */
  function RichCandidates(ps: seq<Pair>, i: int, donated: set<int>, upTo: nat): (c: seq<int>)
    requires upTo <= |ps|
    ensures forall k :: 0 <= k < |c| ==> 0 <= c[k] < upTo && c[k] != i && c[k] !in donated && MessageCount(ps[c[k]]) == 2
    ensures forall j :: 0 <= j < upTo && j != i && j !in donated && MessageCount(ps[j]) == 2 ==> j in c
  {
    if upTo == 0 then []
    else
      var j := upTo - 1;
      RichCandidates(ps, i, donated, j)
        + (if j != i && j !in donated && MessageCount(ps[j]) == 2 then [j] else [])
  }

  /** The inner scan of `balanceMessages` collecting `richCandidates`. */
  method FindRichCandidates(ps: seq<Pair>, i: int, donated: set<int>) returns (rich: seq<int>)
    ensures rich == RichCandidates(ps, i, donated, |ps|)
  {
    rich := [];
    for j := 0 to |ps|
      invariant rich == RichCandidates(ps, i, donated, j)
    {
      if j == i || j in donated {
        continue;
      }
      if HasMessage(ps[j].0) && HasMessage(ps[j].1) {
        rich := rich + [j];
      }
    }
  }

  /** The pairs are `ps` with the leaders (or the followers) of positions `i` and `j` exchanged. */
  function Exchange(ps: seq<Pair>, i: int, j: int, leaderSide: bool): (r: seq<Pair>)
    requires 0 <= i < |ps| && 0 <= j < |ps| && i != j
    ensures |r| == |ps|
    ensures forall k :: 0 <= k < |ps| && k != i && k != j ==> r[k] == ps[k]
  {
    if leaderSide then ps[i := (ps[j].0, ps[i].1)][j := (ps[i].0, ps[j].1)]
    else ps[i := (ps[i].0, ps[j].1)][j := (ps[j].0, ps[i].1)]
  }

  /** An exchange permutes the leaders and permutes the followers. */
  lemma ExchangeKeepsSides(ps: seq<Pair>, i: int, j: int, leaderSide: bool)
    requires 0 <= i < |ps| && 0 <= j < |ps| && i != j
    ensures multiset(Firsts(Exchange(ps, i, j, leaderSide))) == multiset(Firsts(ps))
    ensures multiset(Seconds(Exchange(ps, i, j, leaderSide))) == multiset(Seconds(ps))
  {
    var r := Exchange(ps, i, j, leaderSide);
    var f, s := Firsts(ps), Seconds(ps);
    if leaderSide {
      assert Firsts(r) == f[i := f[j]][j := f[i]];
      assert Seconds(r) == s;
    } else {
      assert Firsts(r) == f;
      assert Seconds(r) == s[i := s[j]][j := s[i]];
    }
  }

  /**
   * Balancing only ever turns a messageless pair or a pair of two message
   * carriers into a pair with exactly one; every other pair is untouched.
   */
  ghost predicate BalancedFrom(ps: seq<Pair>, r: seq<Pair>) {
    |r| == |ps| && forall k :: 0 <= k < |ps| ==> r[k] == ps[k] || (MessageCount(r[k]) == 1 && MessageCount(ps[k]) != 1)
  }

  /** One swap keeps the balancing invariant: a messageless pair and a rich pair each end with one message. */
  lemma ExchangeBalanced(ps: seq<Pair>, r: seq<Pair>, i: int, j: int, leaderSide: bool)
    requires BalancedFrom(ps, r)
    requires 0 <= i < |r| && 0 <= j < |r| && i != j
    requires MessageCount(r[i]) == 0 && MessageCount(r[j]) == 2
    ensures BalancedFrom(ps, Exchange(r, i, j, leaderSide))
  {
    var e := Exchange(r, i, j, leaderSide);
    assert MessageCount(e[i]) == 1 && MessageCount(e[j]) == 1;
    forall k | 0 <= k < |ps|
      ensures e[k] == ps[k] || (MessageCount(e[k]) == 1 && MessageCount(ps[k]) != 1)
    {
      if k != i && k != j {
        assert e[k] == r[k];
      }
    }
  }

  /** The state of the balancing loop: the working pairs and the donors so far. */
  datatype BalanceState = BalanceState(pairs: seq<Pair>, donated: set<int>)

  /** The hashed roll of iteration `i`, as a fraction in [0, 1]. */
  function SwapChance(songSlot: string, i: int): (x: real)
    ensures 0.0 <= x <= 1.0
  {
    HashFraction(Hash(songSlot + "\U{0}msgbal\U{0}" + IntToString(i)))
  }

  /**
   * Iteration `i` of the balancing loop: a messageless pair whose roll is
   * below the rate and that has rich candidates takes one side from the
   * hashed pick among them, which becomes a donor; otherwise nothing changes.
   */
  function BalanceStep(s: BalanceState, songSlot: string, rate: real, i: int): (t: BalanceState)
    requires 0 <= i < |s.pairs|
    ensures |t.pairs| == |s.pairs|
  {
    if MessageCount(s.pairs[i]) != 0 || SwapChance(songSlot, i) >= rate then s
    else
      var rich := RichCandidates(s.pairs, i, s.donated, |s.pairs|);
      if |rich| == 0 then s
      else
        var richIdx := rich[Hash(songSlot + "\U{0}richpick\U{0}" + IntToString(i)) % |rich|];
        var leaderSide := Hash(songSlot + "\U{0}swapside\U{0}" + IntToString(i)) % 2 == 0;
        BalanceState(Exchange(s.pairs, i, richIdx, leaderSide), s.donated + {richIdx})
  }

  /** The loop state after the iterations for the first `n` pairs. */
  function BalanceUpTo(pairs: seq<Pair>, songSlot: string, rate: real, n: nat): (s: BalanceState)
    requires n <= |pairs|
    ensures |s.pairs| == |pairs|
  {
    if n == 0 then BalanceState(pairs, {})
    else BalanceStep(BalanceUpTo(pairs, songSlot, rate, n - 1), songSlot, rate, n - 1)
  }

  /** What `balanceMessages` returns: the input itself for fewer than two pairs or a non-positive rate. */
  function BalancePlan(pairs: seq<Pair>, songSlot: string, rate: real): seq<Pair> {
    if |pairs| < 2 || rate <= 0.0 then pairs else BalanceUpTo(pairs, songSlot, rate, |pairs|).pairs
  }

  /** A pair not yet visited that did not start with two messages is still as it started. */
  lemma {:induction false} UnvisitedKept(pairs: seq<Pair>, songSlot: string, rate: real, n: nat, j: int)
    requires n <= j < |pairs| && MessageCount(pairs[j]) != 2
    ensures BalanceUpTo(pairs, songSlot, rate, n).pairs[j] == pairs[j]
  {
    if n > 0 {
      UnvisitedKept(pairs, songSlot, rate, n - 1, j);
      UnvisitedRichKept(pairs, songSlot, rate, n - 1, j);
    }
  }

  /** The step for pair `n` leaves a later pair that is not rich where it is. */
  lemma UnvisitedRichKept(pairs: seq<Pair>, songSlot: string, rate: real, n: nat, j: int)
    requires n < j < |pairs|
    ensures MessageCount(BalanceUpTo(pairs, songSlot, rate, n).pairs[j]) != 2 ==>
      BalanceUpTo(pairs, songSlot, rate, n + 1).pairs[j] == BalanceUpTo(pairs, songSlot, rate, n).pairs[j]
  {
    if MessageCount(BalanceUpTo(pairs, songSlot, rate, n).pairs[j]) != 2 {
      StepKeepsNonRich(BalanceUpTo(pairs, songSlot, rate, n), songSlot, rate, n, j);
    }
  }

  /** A step touches its own pair and a rich donor only. */
  lemma StepKeepsNonRich(s: BalanceState, songSlot: string, rate: real, i: int, j: int)
    requires 0 <= i < |s.pairs| && 0 <= j < |s.pairs| && i != j && MessageCount(s.pairs[j]) != 2
    ensures BalanceStep(s, songSlot, rate, i).pairs[j] == s.pairs[j]
  {
  }

  /** A visited pair that is not rich is never touched again. */
  lemma {:induction false} SettledStays(pairs: seq<Pair>, songSlot: string, rate: real, j: int, m: nat, n: nat)
    requires 0 <= j < m <= n <= |pairs|
    requires MessageCount(BalanceUpTo(pairs, songSlot, rate, m).pairs[j]) != 2
    ensures BalanceUpTo(pairs, songSlot, rate, n).pairs[j] == BalanceUpTo(pairs, songSlot, rate, m).pairs[j]
    decreases n - m
  {
    if n > m {
      SettledStays(pairs, songSlot, rate, j, m, n - 1);
      var prev := BalanceUpTo(pairs, songSlot, rate, n - 1);
      StepKeepsNonRich(prev, songSlot, rate, n - 1, j);
      assert BalanceUpTo(pairs, songSlot, rate, n) == BalanceStep(prev, songSlot, rate, n - 1);
    }
  }

  /** A swap between a messageless pair and a rich pair leaves each with one message. */
  lemma ExchangeShares(ps: seq<Pair>, i: int, j: int, leaderSide: bool)
    requires 0 <= i < |ps| && 0 <= j < |ps| && i != j
    requires MessageCount(ps[i]) == 0 && MessageCount(ps[j]) == 2
    ensures MessageCount(Exchange(ps, i, j, leaderSide)[i]) == 1
    ensures MessageCount(Exchange(ps, i, j, leaderSide)[j]) == 1
  {
  }

  /** The turn of a messageless pair gives it one message exactly when it swaps. */
  lemma StepOfMessageless(s: BalanceState, songSlot: string, rate: real, i: int)
    requires 0 <= i < |s.pairs| && MessageCount(s.pairs[i]) == 0
    ensures var swaps := SwapChance(songSlot, i) < rate && |RichCandidates(s.pairs, i, s.donated, |s.pairs|)| > 0;
      (swaps ==> MessageCount(BalanceStep(s, songSlot, rate, i).pairs[i]) == 1) &&
      (!swaps ==> BalanceStep(s, songSlot, rate, i).pairs[i] == s.pairs[i])
  {
    var rich := RichCandidates(s.pairs, i, s.donated, |s.pairs|);
    if SwapChance(songSlot, i) < rate && |rich| > 0 {
      var richIdx := rich[Hash(songSlot + "\U{0}richpick\U{0}" + IntToString(i)) % |rich|];
      var leaderSide := Hash(songSlot + "\U{0}swapside\U{0}" + IntToString(i)) % 2 == 0;
      ExchangeShares(s.pairs, i, richIdx, leaderSide);
    }
  }

  /**
   * A pair that starts without a message ends with exactly one when its roll
   * is below the rate and a rich pair is open to it at its turn, and is left
   * as it was otherwise.
   */
  lemma MessagelessPairIff(pairs: seq<Pair>, songSlot: string, rate: real, i: int)
    requires 2 <= |pairs| && rate > 0.0 && 0 <= i < |pairs| && MessageCount(pairs[i]) == 0
    ensures var s := BalanceUpTo(pairs, songSlot, rate, i);
      MessageCount(BalancePlan(pairs, songSlot, rate)[i]) == 1 <==>
        SwapChance(songSlot, i) < rate && |RichCandidates(s.pairs, i, s.donated, |pairs|)| > 0
    ensures var s := BalanceUpTo(pairs, songSlot, rate, i);
      !(SwapChance(songSlot, i) < rate && |RichCandidates(s.pairs, i, s.donated, |pairs|)| > 0) ==>
        BalancePlan(pairs, songSlot, rate)[i] == pairs[i]
  {
    var s := BalanceUpTo(pairs, songSlot, rate, i);
    var t := BalanceStep(s, songSlot, rate, i);
    UnvisitedKept(pairs, songSlot, rate, i, i);
    StepOfMessageless(s, songSlot, rate, i);
    assert MessageCount(t.pairs[i]) != 2;
    assert BalanceUpTo(pairs, songSlot, rate, i + 1) == t;
    SettledStays(pairs, songSlot, rate, i, i + 1, |pairs|);
    assert BalancePlan(pairs, songSlot, rate)[i] == t.pairs[i];
  }

  /** Every donor gave exactly once: it holds one message from its donation on. */
  lemma {:induction false} DonorsGiveOnce(pairs: seq<Pair>, songSlot: string, rate: real, n: nat)
    requires n <= |pairs|
    ensures forall j :: j in BalanceUpTo(pairs, songSlot, rate, n).donated ==>
      0 <= j < |pairs| && MessageCount(BalanceUpTo(pairs, songSlot, rate, n).pairs[j]) == 1
  {
    if n > 0 {
      DonorsGiveOnce(pairs, songSlot, rate, n - 1);
      var s := BalanceUpTo(pairs, songSlot, rate, n - 1);
      var t := BalanceStep(s, songSlot, rate, n - 1);
      assert t == BalanceUpTo(pairs, songSlot, rate, n);
      forall j | j in t.donated
        ensures 0 <= j < |pairs| && MessageCount(t.pairs[j]) == 1
      {
        if j in s.donated {
          assert 0 <= j < |pairs| && MessageCount(s.pairs[j]) == 1;
          if j != n - 1 {
            StepKeepsNonRich(s, songSlot, rate, n - 1, j);
          }
        } else {
          DonorOfStep(s, songSlot, rate, n - 1, j);
        }
      }
    }
  }

  /** A new donor is a rich pair other than the receiver, and is left with one message. */
  lemma DonorOfStep(s: BalanceState, songSlot: string, rate: real, i: int, j: int)
    requires 0 <= i < |s.pairs|
    ensures j in BalanceStep(s, songSlot, rate, i).donated && j !in s.donated ==>
      0 <= j < |s.pairs| && MessageCount(BalanceStep(s, songSlot, rate, i).pairs[j]) == 1
  {
    if j in BalanceStep(s, songSlot, rate, i).donated && j !in s.donated {
      var rich := RichCandidates(s.pairs, i, s.donated, |s.pairs|);
      var richIdx := rich[Hash(songSlot + "\U{0}richpick\U{0}" + IntToString(i)) % |rich|];
      var leaderSide := Hash(songSlot + "\U{0}swapside\U{0}" + IntToString(i)) % 2 == 0;
      assert j == richIdx;
      ExchangeShares(s.pairs, i, richIdx, leaderSide);
    }
  }

  /**
   * `balanceMessages(pairs, songSlot, messageBalanceRate)`: each messageless
   * pair, with a hashed chance below the rate, swaps one side with a hashed
   * pick among the rich pairs that have not donated yet.
   */
  method BalanceMessages(pairs: seq<Pair>, songSlot: string, rate: real) returns (result: seq<Pair>)
    ensures (|pairs| < 2 || rate <= 0.0) ==> result == pairs
    ensures |result| == |pairs|
    ensures multiset(Firsts(result)) == multiset(Firsts(pairs))
    ensures multiset(Seconds(result)) == multiset(Seconds(pairs))
    ensures BalancedFrom(pairs, result)
    ensures forall k :: 0 <= k < |pairs| && MessageCount(pairs[k]) > 0 ==> MessageCount(result[k]) > 0
    ensures result == BalancePlan(pairs, songSlot, rate)
  {
    if |pairs| < 2 || rate <= 0.0 {
      return pairs;
    }
    result := pairs;
    var donated: set<int> := {};
    for i := 0 to |result|
      invariant |result| == |pairs|
      invariant multiset(Firsts(result)) == multiset(Firsts(pairs))
      invariant multiset(Seconds(result)) == multiset(Seconds(pairs))
      invariant BalancedFrom(pairs, result)
      invariant BalanceState(result, donated) == BalanceUpTo(pairs, songSlot, rate, i)
    {
      var (leader, follower) := result[i];
      if HasMessage(leader) || HasMessage(follower) {
        continue;
      }
      var chance := HashString(songSlot + "\U{0}msgbal\U{0}" + IntToString(i));
      if HashFraction(chance) >= rate {
        continue;
      }
      var rich := FindRichCandidates(result, i, donated);
      if |rich| == 0 {
        continue;
      }
      var pick := HashString(songSlot + "\U{0}richpick\U{0}" + IntToString(i));
      var richIdx := rich[pick % |rich|];
      var side := HashString(songSlot + "\U{0}swapside\U{0}" + IntToString(i));
      assert MessageCount(result[i]) == 0 && MessageCount(result[richIdx]) == 2;
      ExchangeKeepsSides(result, i, richIdx, side % 2 == 0);
      ExchangeBalanced(pairs, result, i, richIdx, side % 2 == 0);
      result := Exchange(result, i, richIdx, side % 2 == 0);
      donated := donated + {richIdx};
    }
  }

  // ---------------------------------------------------------------------------
  // Unit keys
  // ---------------------------------------------------------------------------

  /** `allNames.filter((n) => n === name).length` */
  function CountOf(names: seq<string>, name: string): (n: nat)
    ensures n <= |names|
    ensures n == 0 <==> name !in names
  {
    if |names| == 0 then 0
    else
      assert names == names[..|names| - 1] + [names[|names| - 1]];
      CountOf(names[..|names| - 1], name) + (if names[|names| - 1] == name then 1 else 0)
  }

  /** `allNames.indexOf(name)`: the first position holding `name`, -1 when absent. */
  function IndexOfName(names: seq<string>, name: string): (i: int)
    ensures -1 <= i < |names|
    ensures i == -1 <==> name !in names
    ensures i >= 0 ==> names[i] == name && name !in names[..i]
  {
    if |names| == 0 then -1
    else if names[0] == name then 0
    else
      var r := IndexOfName(names[1..], name);
      assert r >= 0 ==> names[1..][..r] == names[1..r + 1];
      if r < 0 then -1 else r + 1
  }

  /**
   * `disambiguate(name, allNames)`.  It counts the occurrences of `name` up
   * to and including the FIRST one, which `indexOf` finds, so the count is
   * always 1 and no `#N` suffix is ever produced.
   */
  method Disambiguate(name: string, allNames: seq<string>) returns (suffix: string)
    ensures suffix == ""
  {
    var count := CountOf(allNames, name);
    if count <= 1 {
      return "";
    }
    var idx := IndexOfName(allNames, name);
    var occurrence := 0;
    var i := 0;
    while i <= idx
      invariant 0 <= i <= idx + 1
      invariant occurrence == CountOf(allNames[..i], name)
    {
      assert allNames[..i + 1][..i] == allNames[..i];
      if allNames[i] == name {
        occurrence := occurrence + 1;
      }
      i := i + 1;
    }
    assert occurrence == 1 by {
      assert allNames[..idx + 1][..idx] == allNames[..idx];
    }
    suffix := if occurrence > 1 then "#" + IntToString(occurrence) else "";
  }

  /** The default `sort()` order: UTF-16 code units. */
  function CodeUnitOrder(): (string, string) -> bool {
    (a: string, b: string) => StringLess(a, b)
  }

  lemma CodeUnitOrderIsStrict()
    ensures StrictOrder(CodeUnitOrder())
  {
    forall a: string
      ensures !StringLess(a, a)
    {
      UnitsLessIrreflexive(CodeUnits(a));
    }
    forall a: string, b: string, c: string | StringLess(a, b) && StringLess(b, c)
      ensures StringLess(a, c)
    {
      UnitsLessTransitive(CodeUnits(a), CodeUnits(b), CodeUnits(c));
    }
  }

  function Names(members: seq<DancerRow>): (r: seq<string>)
    ensures |r| == |members| && forall k :: 0 <= k < |members| ==> r[k] == members[k].name
  {
    seq(|members|, k requires 0 <= k < |members| => members[k].name)
  }

  /** The unit key of the given member names: sorted by code units and joined with NUL. */
  function KeyOf(names: seq<string>): string {
    Join(Sort(names, CodeUnitOrder()), "\U{0}")
  }

  /**
   * `buildUnitKey(members, allNames)`: each name with its (always empty)
   * suffix, sorted and joined with `\0`.
   */
  method BuildUnitKey(members: seq<DancerRow>, allNames: seq<string>) returns (key: string)
    ensures key == KeyOf(Names(members))
  {
    var keys: seq<string> := [];
    for k := 0 to |members|
      invariant keys == Names(members[..k])
    {
      var suffix := Disambiguate(members[k].name, allNames);
      assert members[k].name + suffix == members[k].name;
      assert Names(members[..k + 1]) == Names(members[..k]) + [members[k].name];
      keys := keys + [members[k].name + suffix];
    }
    assert members[..|members|] == members;
    key := Join(Sort(keys, CodeUnitOrder()), "\U{0}");
  }

  /** A unit key lists its names in code-unit order. */
  lemma KeyOfSorted(names: seq<string>)
    ensures Sorted(Sort(names, CodeUnitOrder()), CodeUnitOrder())
    ensures multiset(Sort(names, CodeUnitOrder())) == multiset(names)
  {
    CodeUnitOrderIsStrict();
    SortSorted(names, CodeUnitOrder());
  }

  /** Sorting two elements puts the second first exactly when it is strictly before the first. */
  lemma SortTwo<T>(x: T, y: T, before: (T, T) -> bool)
    ensures Sort([x, y], before) == if before(y, x) then [y, x] else [x, y]
  {
    assert [x, y][..1] == [x];
    assert Sort([x], before) == [x] by {
      assert [x][..0] == [];
    }
  }

  /** A pair's key does not depend on which member is the leader. */
  lemma PairKeySymmetric(a: string, b: string)
    ensures KeyOf([a, b]) == KeyOf([b, a])
  {
    SortTwo(a, b, CodeUnitOrder());
    SortTwo(b, a, CodeUnitOrder());
    if a != b {
      StringLessTotal(a, b);
      if StringLess(a, b) && StringLess(b, a) {
        UnitsLessTransitive(CodeUnits(a), CodeUnits(b), CodeUnits(a));
        UnitsLessIrreflexive(CodeUnits(a));
      }
    }
  }

  // ---------------------------------------------------------------------------
  // Image assignment
  // ---------------------------------------------------------------------------

  predicate Distinct(s: seq<int>) {
    forall i, j :: 0 <= i < j < |s| ==> s[i] != s[j]
  }

  /** The probe of attempt `n` (0 is the first choice) and the linear fallback. */
  function Probe(songSlot: string, unitKey: string, attempt: nat): string {
    if attempt == 0 then songSlot + "\U{0}img\U{0}" + unitKey
    else songSlot + "\U{0}img\U{0}" + unitKey + "\U{0}" + IntToString(attempt)
  }

  /** How far past `start` position `j` lies, going round a pool of `n`. */
  function Offset(start: int, j: int, n: int): (k: int)
    requires n > 0
    ensures 0 <= k < n
  {
    (j - start) % n
  }

  /** Going `Offset(start, j, n)` steps round from `start` arrives at `j`. */
  lemma OffsetArrives(start: int, j: int, n: int)
    requires 0 <= start < n && 0 <= j < n
    ensures (start + Offset(start, j, n)) % n == j
  {
    var d := j - start;
    if d >= 0 {
      ModOfSmall(d, n);
      ModOfSmall(j, n);
    } else {
      ModOfNegative(d, n);
      ModOfWrapped(j, n);
    }
  }

  lemma ModOfSmall(x: int, n: int)
    requires 0 <= x < n
    ensures x % n == x
  {
  }

  lemma ModOfNegative(x: int, n: int)
    requires -n <= x < 0
    ensures x % n == x + n
  {
  }

  lemma ModOfWrapped(x: int, n: int)
    requires 0 <= x < n
    ensures (x + n) % n == x
  {
  }

  /**
   * `assignUniqueImage(songSlot, unitKey, pool, usedImages)`: the hashed first
   * choice; when it is taken, up to `pool.length - 1` re-hashed attempts, then
   * a linear scan from the first choice.  The result is always from the pool:
   * the first choice when the pool counts as exhausted or the first choice is
   * free, otherwise a free image whenever there is one.
   */
  method AssignUniqueImage(songSlot: string, unitKey: string, pool: seq<int>, used: set<int>)
    returns (img: int)
    requires |pool| > 0
    ensures img in pool
    ensures |used| >= |pool| ==> img == pool[Hash(Probe(songSlot, unitKey, 0)) % |pool|]
    ensures pool[Hash(Probe(songSlot, unitKey, 0)) % |pool|] !in used ==> img == pool[Hash(Probe(songSlot, unitKey, 0)) % |pool|]
    ensures |used| < |pool| && (exists v :: v in pool && v !in used) ==> img !in used
    ensures Distinct(pool) && |used| < |pool| ==> img !in used
  {
    if Distinct(pool) && |used| < |pool| {
      FreeImageExists(pool, used);
    }
    var baseHash := HashString(songSlot + "\U{0}img\U{0}" + unitKey);
    var firstChoice := pool[baseHash % |pool|];
    if |used| >= |pool| {
      return firstChoice;
    }
    if firstChoice !in used {
      return firstChoice;
    }
    for attempt := 1 to |pool| {
      var h := HashString(songSlot + "\U{0}img\U{0}" + unitKey + "\U{0}" + IntToString(attempt));
      var candidate := pool[h % |pool|];
      if candidate !in used {
        return candidate;
      }
    }
    var startIdx := baseHash % |pool|;
    for offset := 0 to |pool|
      invariant forall j :: 0 <= j < |pool| && Offset(startIdx, j, |pool|) < offset ==> pool[j] in used
    {
      var candidate := pool[(startIdx + offset) % |pool|];
      if candidate !in used {
        return candidate;
      }
      forall j | 0 <= j < |pool| && Offset(startIdx, j, |pool|) == offset
        ensures pool[j] in used
      {
        OffsetArrives(startIdx, j, |pool|);
      }
    }
    img := firstChoice;
  }

  lemma {:induction false} DistinctCard(s: seq<int>)
    requires Distinct(s)
    ensures |set x | x in s| == |s|
  {
    if |s| > 0 {
      var p := s[..|s| - 1];
      DistinctCard(p);
      assert (set x | x in s) == (set x | x in p) + {s[|s| - 1]};
      assert s[|s| - 1] !in p;
    }
  }

  lemma SubsetCard(a: set<int>, b: set<int>)
    requires a <= b
    ensures |a| <= |b|
  {
    assert b == a + (b - a);
    assert a * (b - a) == {};
  }

  /** A pool without repeats has a free image while fewer images than it holds are used. */
  lemma FreeImageExists(pool: seq<int>, used: set<int>)
    requires Distinct(pool) && |used| < |pool|
    ensures exists v :: v in pool && v !in used
  {
    DistinctCard(pool);
    var all := set x | x in pool;
    if forall v :: v in pool ==> v in used {
      assert all <= used;
      SubsetCard(all, used);
      assert false;
    }
  }
}
