// The pieces of JavaScript regular-expression matching the URL recognisers of
// src/lib/google-document-util/url-id.ts and src/lib/common.ts use: a prefix anchored
// with `^` in which an unescaped `.` matches any UTF-16 code unit but a line
// terminator, and a greedy run of characters outside a negated class.

module UrlPatterns {

  /** The characters `.` does not match. */
  predicate IsLineTerminator(c: char) {
    c == '\n' || c == '\r' || c == '\U{2028}' || c == '\U{2029}'
  }

  /** A character JavaScript stores as one UTF-16 code unit. */
  predicate IsSingleUnit(c: char) {
    (c as int) < 0x1_0000
  }

  /** One pattern character: `.` is the wildcard, anything else stands for itself.
      The regexes have no `u` flag, so `.` consumes one code unit: at a character
      outside the Basic Multilingual Plane it takes the high surrogate, and the literal
      that follows every `.` in these patterns then fails on the low one. */
  predicate CharMatches(c: char, p: char) {
    if p == '.' then !IsLineTerminator(c) && IsSingleUnit(c) else c == p
  }

  /** `pat` matches `s` at position `k`. */
  predicate MatchesAt(s: string, pat: string, k: nat) {
    k + |pat| <= |s| && forall j :: 0 <= j < |pat| ==> CharMatches(s[k + j], pat[j])
  }

  /** The length of the greedy run `[^stops]*` at position `k`. */
  function RunFrom(s: string, k: nat, stops: set<char>): (n: nat)
    requires k <= |s|
    ensures k + n <= |s|
    ensures forall j :: k <= j < k + n ==> s[j] !in stops
    ensures k + n == |s| || s[k + n] in stops
    decreases |s| - k
  {
    if k == |s| || s[k] in stops then 0 else 1 + RunFrom(s, k + 1, stops)
  }

  /** The named groups `beforeId` and `id` of a match. */
  datatype Captured = Captured(beforeId: string, id: string)

  /** The groups of a match whose `beforeId` ends at `start`, with an `id` of the
      greedy run there. */
  function CaptureAt(s: string, start: nat, stops: set<char>): (c: Captured)
    requires start <= |s|
    ensures c.beforeId + c.id == s[..start + RunFrom(s, start, stops)]
    ensures forall ch :: ch in c.id ==> ch !in stops
  {
    var n := RunFrom(s, start, stops);
    var c := Captured(s[..start], s[start..start + n]);
    assert s[..start + n] == s[..start] + s[start..start + n];
    c
  }

  /** Two patterns that insist on different characters at one position never both
      match. */
  lemma DisjointAt(s: string, p: string, q: string, k: nat, j: nat)
    requires j < |p| && j < |q| && p[j] != '.' && q[j] != '.' && p[j] != q[j]
    ensures !(MatchesAt(s, p, k) && MatchesAt(s, q, k))
  {
    if MatchesAt(s, p, k) {
      assert s[k + j] == p[j];
    }
  }
}
