/**
 * The seeded randomness of `src/lib/util.ts`: the Mulberry32 generator, the
 * Fisher-Yates shuffle driven by it, and the shuffle-bag image assignment.
 */
module Prng {
  import opened Djb2

  const GOLDEN: nat := 0x6d2b79f5
  const TWO32_REAL: real := 4294967296.0

  /** Bitwise `^` on non-negative integers. */
  function Xor(a: nat, b: nat): nat
    decreases a + b
  {
    if a == 0 then b
    else if b == 0 then a
    else 2 * Xor(a / 2, b / 2) + (a + b) % 2
  }

  /** Bitwise `|` on non-negative integers. */
  function Or(a: nat, b: nat): nat
    decreases a + b
  {
    if a == 0 then b
    else if b == 0 then a
    else 2 * Or(a / 2, b / 2) + (if a % 2 == 1 || b % 2 == 1 then 1 else 0)
  }

  /**
   * `Math.imul(a, b)`, read back as an unsigned 32-bit value: the product
   * modulo 2^32, computed by binary long multiplication.
   */
  function Imul(a: nat, b: nat): (r: nat)
    ensures r < TWO32
  {
    if b == 0 then 0 else (2 * Imul(a, b / 2) + (if b % 2 == 1 then a else 0)) % TWO32
  }

  lemma ModShift(p: int, c: int)
    ensures (2 * (p % TWO32) + c) % TWO32 == (2 * p + c) % TWO32
  {
    var q := p / TWO32;
    assert 2 * p + c == (2 * (p % TWO32) + c) + TWO32 * (2 * q);
  }

  /** One step of long multiplication: `a * b` from `a * (b / 2)`. */
  lemma HalveProduct(a: nat, b: nat)
    ensures a * b == 2 * (a * (b / 2)) + (if b % 2 == 1 then a else 0)
  {
    var h, c := b / 2, b % 2;
    assert b == 2 * h + c;
    assert a * b == a * (2 * h) + a * c;
    assert a * (2 * h) == 2 * (a * h);
  }

  /** The long multiplication is the 32-bit product. */
  lemma {:induction false} ImulIsProduct(a: nat, b: nat)
    ensures Imul(a, b) == (a * b) % TWO32
  {
    if b > 0 {
      ImulIsProduct(a, b / 2);
      HalveProduct(a, b);
      ModShift(a * (b / 2), if b % 2 == 1 then a else 0);
    }
  }

  /**
   * The first `k` of the three mixing steps of Mulberry32 applied to the
   * advanced state `t`.  Every intermediate value is kept as the unsigned
   * reading of its 32 bits: `>>>` is division by a power of two, and `+`
   * followed by a bitwise operator wraps.
   */
  function MixSteps(k: nat, t: nat): (m: nat)
    requires k <= 3
    ensures k == 3 ==> m < TWO32
    decreases k
  {
    if k == 0 then t
    else
      var r := MixSteps(k - 1, t);
      if k == 1 then Imul(Xor(r, r / 0x8000), Or(r, 1))
      else if k == 2 then Xor(r, (r + Imul(Xor(r, r / 0x80), Or(r, 61))) % TWO32)
      else Xor(r, r / 0x4000) % TWO32
  }

  /** The whole output mix. */
  function Mix(t: nat): (m: nat)
    ensures m < TWO32
  {
    MixSteps(3, t)
  }

  /** The float a call returns once the state has been advanced to `t`. */
  function Output(t: nat): (x: real)
    ensures 0.0 <= x < 1.0
  {
    Mix(t) as real / TWO32_REAL
  }

  /** The state after `n` calls starting from `t`. */
  function Advance(t: nat, n: nat): (r: nat)
    ensures n > 0 ==> r < TWO32
    ensures n == 0 ==> r == t
  {
    if n == 0 then t else (Advance(t, n - 1) + GOLDEN) % TWO32
  }

  /** One call adds the golden increment, wrapping at 32 bits. */
  lemma AdvanceOnce(t: nat)
    ensures Advance(t, 1) == (t + GOLDEN) % TWO32
  {
  }

  /** One more call after `n` calls. */
  lemma AdvanceStep(t: nat, n: nat)
    ensures Advance(Advance(t, n), 1) == Advance(t, n + 1)
  {
  }

  /** `mulberry32(seed)`: the closure's captured state `t` becomes a field. */
  class Mulberry32 {
    var t: nat

    /** `t = seed >>> 0` */
    constructor (seed: int)
      ensures t == seed % TWO32
    {
      t := seed % TWO32;
    }

    /** One call of the returned closure: advance the state, return its mix in [0, 1). */
    method Next() returns (x: real)
      modifies this
      ensures t == Advance(old(t), 1)
      ensures x == Output(t)
      ensures 0.0 <= x < 1.0
    {
      AdvanceOnce(t);
      t := (t + GOLDEN) % TWO32;
      x := Output(t);
    }
  }

  /** `seededRandom(seed)` */
  method SeededRandom(seed: string) returns (rng: Mulberry32)
    ensures fresh(rng)
    ensures rng.t == Hash(seed)
  {
    var h := HashString(seed);
    rng := new Mulberry32(h);
  }

  // ---------------------------------------------------------------------------
  // Fisher-Yates
  // ---------------------------------------------------------------------------

  function Swap<T>(a: seq<T>, i: int, j: int): (r: seq<T>)
    requires 0 <= i < |a| && 0 <= j < |a|
    ensures |r| == |a| && multiset(r) == multiset(a)
  {
    a[i := a[j]][j := a[i]]
  }

  /** `Math.floor(rand() * (i + 1))` for a draw `x` in [0, 1): always an index in [0, i]. */
  function PickIndex(x: real, i: nat): (j: int)
    requires 0.0 <= x < 1.0
    ensures 0 <= j <= i
  {
    var n := (i + 1) as real;
    var y := x * n;
    assert y < n by {
      assert (1.0 - x) * n > 0.0;
      assert (1.0 - x) * n == n - y;
    }
    y.Floor
  }

  /** `m * n` by repeated addition. */
  function Scale(m: nat, n: nat): (p: nat)
    requires m < TWO32
    ensures n > 0 ==> p < TWO32 * n
  {
    if n == 0 then 0 else Scale(m, n - 1) + m
  }

  lemma {:induction false} ScaleIsProduct(m: nat, n: nat)
    requires m < TWO32
    ensures Scale(m, n) == m * n
  {
    if n > 0 {
      ScaleIsProduct(m, n - 1);
    }
  }

  /**
   * The index drawn for position `i` from the mix value `m`: the draw is
   * exactly `m / 2^32`, so its floor times `i + 1` is an integer division.
   */
  function DrawIndex(m: nat, i: nat): (j: int)
    requires m < TWO32
    ensures 0 <= j <= i
  {
    Scale(m, i + 1) / TWO32
  }

  /** The floor of `p / 2^32` is the integer quotient. */
  lemma FloorOfQuotient(p: nat)
    ensures (p as real / TWO32_REAL).Floor == p / TWO32
  {
    var q, r := p / TWO32, p % TWO32;
    assert p as real == q as real * TWO32_REAL + r as real;
    assert p as real / TWO32_REAL == q as real + r as real / TWO32_REAL;
    FloorOfSum(q, r as real / TWO32_REAL);
  }

  lemma FloorOfSum(q: int, f: real)
    requires 0.0 <= f < 1.0
    ensures (q as real + f).Floor == q
  {
  }

  /** For a draw `m / 2^32`, `Math.floor(draw * (i + 1))` is the integer quotient of `m * (i + 1)` by `2^32`. */
  lemma PickIndexOfFraction(m: nat, i: nat)
    requires m < TWO32
    ensures PickIndex(m as real / TWO32_REAL, i) == DrawIndex(m, i)
  {
    var p := Scale(m, i + 1);
    ScaleIsProduct(m, i + 1);
    assert (m as real / TWO32_REAL) * (i + 1) as real == p as real / TWO32_REAL;
    FloorOfQuotient(p);
  }

  /** The index the source computes from a call's float equals the integer draw. */
  lemma PickIndexExact(t: nat, i: nat)
    ensures PickIndex(Output(t), i) == DrawIndex(Mix(t), i)
  {
    PickIndexOfFraction(Mix(t), i);
  }

  /** `js` holds an index in `[0, i - k]` at each position `k`: one draw per step of the loop from `i`. */
  ghost predicate ValidDraws(js: seq<int>, i: int) {
    |js| == (if i > 0 then i else 0) && forall k :: 0 <= k < |js| ==> 0 <= js[k] <= i - k
  }

  /** The indices the shuffle loop draws from generator state `t`, for positions `i` down to 1. */
  function Draws(t: nat, i: int): (js: seq<int>)
    ensures ValidDraws(js, i)
    decreases i
  {
    if i <= 0 then []
    else
      var t' := Advance(t, 1);
      [DrawIndex(Mix(t'), i)] + Draws(t', i - 1)
  }

  /** The Fisher-Yates loop from position `i` down to 1: swap position `i` with the drawn index. */
  function ShuffleWith<T>(a: seq<T>, i: int, js: seq<int>): seq<T>
    requires i < |a| && ValidDraws(js, i)
    decreases i
  {
    if i <= 0 then a
    else ShuffleWith(Swap(a, i, js[0]), i - 1, js[1..])
  }

  /** The shuffle is a permutation of its input, whatever the draws. */
  lemma {:induction false} ShufflePermutes<T>(a: seq<T>, i: int, js: seq<int>)
    requires i < |a| && ValidDraws(js, i)
    ensures |ShuffleWith(a, i, js)| == |a|
    ensures multiset(ShuffleWith(a, i, js)) == multiset(a)
    decreases i
  {
    if i > 0 {
      ShufflePermutes(Swap(a, i, js[0]), i - 1, js[1..]);
    }
  }

  /** One iteration of the shuffle loop: draw `j` in [0, i] and swap `out[i]` with `out[j]`. */
  method SwapWithDrawn<T>(out: array<T>, i: int, rng: Mulberry32)
    requires 0 < i < out.Length
    modifies out, rng
    ensures rng.t == Advance(old(rng.t), 1)
    ensures ShuffleWith(out[..], i - 1, Draws(rng.t, i - 1))
         == ShuffleWith(old(out[..]), i, Draws(old(rng.t), i))
  {
    ghost var prior := out[..];
    ghost var js := Draws(rng.t, i);
    var x := rng.Next();
    var j := PickIndex(x, i);
    PickIndexExact(rng.t, i);
    assert js == [j] + Draws(rng.t, i - 1);
    assert ShuffleWith(prior, i, js) == ShuffleWith(Swap(prior, i, j), i - 1, js[1..]);
    out[i], out[j] := out[j], out[i];
    assert out[..] == Swap(prior, i, j);
  }

  /** `[...arr]`: a fresh array holding `arr`. */
  method CopyOf<T>(arr: seq<T>) returns (out: array<T>)
    ensures fresh(out) && out[..] == arr
  {
    out := new T[|arr|](k requires 0 <= k < |arr| => arr[k]);
  }

  /**
   * `seededShuffle(arr, rand)`: a new array holding a permutation of `arr`,
   * produced by the Fisher-Yates loop from the last index down to 1, which
   * calls the generator once per index.
   */
  method SeededShuffle<T>(arr: seq<T>, rng: Mulberry32) returns (out: array<T>)
    modifies rng
    ensures fresh(out)
    ensures out[..] == ShuffleWith(arr, |arr| - 1, Draws(old(rng.t), |arr| - 1))
    ensures rng.t == Advance(old(rng.t), if |arr| > 1 then |arr| - 1 else 0)
    ensures multiset(out[..]) == multiset(arr)
  {
    ghost var t0 := rng.t;
    ghost var shuffled := ShuffleWith(arr, |arr| - 1, Draws(t0, |arr| - 1));
    out := CopyOf(arr);
    var i := |arr| - 1;
    ghost var calls := 0;
    while i > 0
      invariant -1 <= i < |arr| && out.Length == |arr|
      invariant ShuffleWith(out[..], i, Draws(rng.t, i)) == shuffled
      invariant rng.t == Advance(t0, calls)
      invariant calls == (if |arr| > 1 then |arr| - 1 else 0) - (if i > 0 then i else 0)
      decreases i
    {
      AdvanceStep(t0, calls);
      ghost var rest := ShuffleWith(out[..], i, Draws(rng.t, i));
      SwapWithDrawn(out, i, rng);
      assert ShuffleWith(out[..], i - 1, Draws(rng.t, i - 1)) == rest;
      i := i - 1;
      calls := calls + 1;
    }
    ShufflePermutes(arr, |arr| - 1, Draws(t0, |arr| - 1));
  }

  // ---------------------------------------------------------------------------
  // Shuffle bag
  // ---------------------------------------------------------------------------

  /** `Array.from({ length: n }, (_, i) => i + 1)` */
  function Pool(n: nat): (p: seq<int>)
    ensures |p| == n && forall k :: 0 <= k < n ==> p[k] == k + 1
  {
    seq(n, k requires 0 <= k < n => k + 1)
  }

  lemma {:induction false} PoolCounts(n: nat)
    ensures forall v :: multiset(Pool(n))[v] == if 1 <= v <= n then 1 else 0
  {
    if n > 0 {
      PoolCounts(n - 1);
      assert Pool(n) == Pool(n - 1) + [n];
    }
  }

  /** A permutation of the pool holds `1..n`, each once. */
  lemma PermutationOfPool(b: seq<int>, n: nat)
    requires multiset(b) == multiset(Pool(n))
    ensures |b| == n
    ensures forall k :: 0 <= k < |b| ==> 1 <= b[k] <= n
    ensures forall i, j :: 0 <= i < j < |b| ==> b[i] != b[j]
  {
    assert |b| == |multiset(b)| == |multiset(Pool(n))| == n;
    PoolCounts(n);
    forall k | 0 <= k < |b|
      ensures 1 <= b[k] <= n
    {
      assert b[k] in multiset(b);
    }
    forall i, j | 0 <= i < j < |b|
      ensures b[i] != b[j]
    {
      assert b == b[..j] + [b[j]] + b[j + 1..];
      assert b[..j][i] == b[i];
      assert multiset(b)[b[j]] >= multiset(b[..j])[b[j]] + 1;
    }
  }

  /** Only a pool of one image has a permutation whose entries all equal the first. */
  lemma ConstantPermutation(b: seq<int>, n: nat)
    requires multiset(b) == multiset(Pool(n)) && |b| >= 1
    requires forall k :: 1 <= k < |b| ==> b[k] == b[0]
    ensures n == 1
  {
    PermutationOfPool(b, n);
    assert b[|b| - 1] == b[0];
  }

  /** `r` is a sequence of whole bags: consecutive permutations of `1..n`. */
  ghost predicate WholeBags(r: seq<int>, n: nat)
    requires n >= 1
    decreases |r|
  {
    |r| == 0 || (|r| >= n && multiset(r[..n]) == multiset(Pool(n)) && WholeBags(r[n..], n))
  }

  /** `r` is whole bags followed by part of one more bag: the shape the shuffle bag produces. */
  ghost predicate BagFill(r: seq<int>, n: nat)
    requires n >= 1
    decreases |r|
  {
    if |r| <= n then multiset(r) <= multiset(Pool(n))
    else multiset(r[..n]) == multiset(Pool(n)) && BagFill(r[n..], n)
  }

  /** Whole bags followed by a prefix of one more bag fill bags. */
  lemma {:induction false} AppendPartialBag(r: seq<int>, b: seq<int>, k: nat, n: nat)
    requires n >= 1 && WholeBags(r, n)
    requires multiset(b) == multiset(Pool(n)) && |b| == n && k <= n
    ensures BagFill(r + b[..k], n)
    decreases |r|
  {
    var s := r + b[..k];
    if |r| == 0 {
      assert s == b[..k];
      assert b == b[..k] + b[k..];
    } else if |s| <= n {
      assert s == r[..n];
    } else {
      assert s[..n] == r[..n];
      assert s[n..] == r[n..] + b[..k];
      AppendPartialBag(r[n..], b, k, n);
    }
  }

  /** Whole bags followed by one more whole bag are whole bags. */
  lemma {:induction false} AppendWholeBag(r: seq<int>, b: seq<int>, n: nat)
    requires n >= 1 && WholeBags(r, n)
    requires multiset(b) == multiset(Pool(n)) && |b| == n
    ensures WholeBags(r + b, n)
    decreases |r|
  {
    var s := r + b;
    if |r| == 0 {
      assert s == b && s[..n] == b && s[n..] == [];
    } else {
      assert s[..n] == r[..n];
      assert s[n..] == r[n..] + b;
      AppendWholeBag(r[n..], b, n);
    }
  }

  /**
   * The boundary fix of `assignDancerImages`: `bag[0]` repeats the last image
   * assigned, so it is swapped with the first entry that differs from it.
   */
  method AvoidRepeatAtBoundary(bag: array<int>, n: nat)
    requires multiset(bag[..]) == multiset(Pool(n)) && bag.Length >= 1
    modifies bag
    ensures multiset(bag[..]) == multiset(Pool(n))
    ensures n >= 2 ==> bag[0] != old(bag[0])
    ensures n >= 2 ==> bag.Length >= 2 && bag[..] == Swap(old(bag[..]), 0, 1)
    ensures n < 2 ==> bag[..] == old(bag[..])
  {
    var i := 1;
    while i < bag.Length && bag[i] == bag[0]
      invariant 1 <= i <= bag.Length
      invariant forall k :: 1 <= k < i ==> bag[k] == bag[0]
    {
      i := i + 1;
    }
    PermutationOfPool(bag[..], n);
    if i < bag.Length {
      ghost var prior := bag[..];
      assert prior[1] != prior[0];
      bag[0], bag[i] := bag[i], bag[0];
      assert bag[..] == Swap(prior, 0, i);
    } else {
      ConstantPermutation(bag[..], n);
    }
  }

  /** The push loop of `assignDancerImages`: takes images from the bag until `count` are assigned. */
  method TakeFromBag(result: seq<int>, bag: seq<int>, count: int) returns (r: seq<int>, k: nat)
    requires |result| <= count
    ensures k <= |bag| && r == result + bag[..k]
    ensures |r| <= count
    ensures k == |bag| || |r| == count
  {
    r := result;
    k := 0;
    while k < |bag|
      invariant k <= |bag| && r == result + bag[..k]
      invariant |r| <= count
    {
      if |r| >= count {
        break;
      }
      r := r + [bag[k]];
      k := k + 1;
      assert bag[..k] == bag[..k - 1] + [bag[k - 1]];
    }
  }

  /** No image directly follows itself. */
  predicate NoAdjacentRepeats(s: seq<int>) {
    forall k :: 0 < k < |s| ==> s[k] != s[k - 1]
  }

  predicate ImagesInRange(s: seq<int>, n: nat) {
    forall k :: 0 <= k < |s| ==> 1 <= s[k] <= n
  }

  lemma AppendBagPrefix(prior: seq<int>, b: seq<int>, k: nat, n: nat)
    requires multiset(b) == multiset(Pool(n)) && k <= |b|
    requires ImagesInRange(prior, n)
    requires n >= 2 ==> NoAdjacentRepeats(prior)
    requires n >= 2 && |prior| > 0 && |b| > 0 ==> b[0] != prior[|prior| - 1]
    ensures ImagesInRange(prior + b[..k], n)
    ensures n >= 2 ==> NoAdjacentRepeats(prior + b[..k])
  {
    PermutationOfPool(b, n);
    var s := prior + b[..k];
    forall m | |prior| <= m < |s|
      ensures s[m] == b[m - |prior|]
    {
    }
  }

  /** One round of the shuffle bag keeps every invariant of the assignment. */
  lemma BagRound(prior: seq<int>, b: seq<int>, k: nat, n: nat)
    requires n >= 1 && multiset(b) == multiset(Pool(n)) && k <= |b|
    requires WholeBags(prior, n) && ImagesInRange(prior, n)
    requires n >= 2 ==> NoAdjacentRepeats(prior)
    requires n >= 2 && |prior| > 0 ==> b[0] != prior[|prior| - 1]
    ensures ImagesInRange(prior + b[..k], n)
    ensures n >= 2 ==> NoAdjacentRepeats(prior + b[..k])
    ensures BagFill(prior + b[..k], n)
    ensures k == |b| ==> WholeBags(prior + b[..k], n)
  {
    PermutationOfPool(b, n);
    AppendBagPrefix(prior, b, k, n);
    AppendPartialBag(prior, b, k, n);
    if k == |b| {
      assert b[..k] == b;
      AppendWholeBag(prior, b, n);
    }
  }

  /**
   * `assignDancerImages(seed, count, numImages)`: `count` image numbers in
   * `1..numImages`, drawn bag by bag from one generator seeded by `seed`; a bag
   * whose first image repeats the last one assigned has that image swapped
   * with the first entry that differs.  For an empty pool the loop only ends
   * when `count` is not positive, which is what the precondition demands.
   */
  method AssignDancerImages(seed: string, count: int, numImages: nat) returns (result: seq<int>)
    requires count <= 0 || numImages >= 1
    ensures |result| == if count > 0 then count else 0
    ensures ImagesInRange(result, numImages)
    ensures numImages >= 2 ==> NoAdjacentRepeats(result)
    ensures count > 0 ==> BagFill(result, numImages)
  {
    if count == 0 {
      return [];
    }
    var rng := SeededRandom(seed);
    var pool := Pool(numImages);
    result := [];
    while |result| < count
      invariant |result| <= (if count > 0 then count else 0)
      invariant ImagesInRange(result, numImages)
      invariant numImages >= 2 ==> NoAdjacentRepeats(result)
      invariant count > 0 ==> BagFill(result, numImages)
      invariant count > 0 && |result| < count ==> WholeBags(result, numImages)
      decreases count - |result|
    {
      var bag := SeededShuffle(pool, rng);
      PermutationOfPool(bag[..], numImages);
      if |result| > 0 && bag[0] == result[|result| - 1] {
        AvoidRepeatAtBoundary(bag, numImages);
      }
      ghost var prior := result;
      var k;
      result, k := TakeFromBag(result, bag[..], count);
      BagRound(prior, bag[..], k, numImages);
    }
  }
}
