/** The djb2 string hash of `src/lib/util.ts`, the source of every deterministic choice. */
module Djb2 {
  import opened JsString

  const TWO32: int := 0x1_0000_0000
  const DJB2_SEED: int := 5381

  /** The djb2 fold continued from the hash `h`: `h := (h * 33 + unit) mod 2^32`. */
  function HashFold(h: int, v: seq<int>): (r: int)
    requires 0 <= h < TWO32
    ensures 0 <= r < TWO32
    ensures |v| == 0 ==> r == h
  {
    if |v| == 0 then h else (HashFold(h, v[..|v| - 1]) * 33 + v[|v| - 1]) % TWO32
  }

  /** `hashString(s)`: djb2 over the UTF-16 code units of `s`, starting at 5381. */
  function Hash(s: string): (h: int)
    ensures 0 <= h < TWO32
  {
    HashFold(DJB2_SEED, CodeUnits(s))
  }

  /** Folding a concatenation is folding its second part from the first part's hash. */
  lemma {:induction false} HashFoldAppend(h: int, u: seq<int>, v: seq<int>)
    requires 0 <= h < TWO32
    ensures HashFold(h, u + v) == HashFold(HashFold(h, u), v)
    decreases |v|
  {
    if |v| > 0 {
      assert (u + v)[..|u + v| - 1] == u + v[..|v| - 1];
      HashFoldAppend(h, u, v[..|v| - 1]);
    } else {
      assert u + v == u;
    }
  }

  /** The hash of a concatenation depends on the prefix only through the prefix's hash. */
  lemma HashConcat(a: string, b: string)
    ensures Hash(a + b) == HashFold(Hash(a), CodeUnits(b))
  {
    CodeUnitsAppend(a, b);
    HashFoldAppend(DJB2_SEED, CodeUnits(a), CodeUnits(b));
  }

  /**
   * `hashString`: the loop over `charCodeAt`.  `(h << 5) + h + c` is a signed
   * 32-bit shift plus an exact addition, so after `>>> 0` it is `33h + c` mod 2^32.
   */
  method HashString(s: string) returns (hash: int)
    ensures hash == Hash(s)
    ensures 0 <= hash < TWO32
  {
    var units := CodeUnits(s);
    hash := DJB2_SEED;
    var i := 0;
    while i < |units|
      invariant 0 <= i <= |units|
      invariant hash == HashFold(DJB2_SEED, units[..i])
    {
      assert units[..i + 1][..i] == units[..i];
      hash := (hash * 33 + units[i]) % TWO32;
      i := i + 1;
    }
    assert units[..i] == units;
  }
}
