/**
 * The parts of JavaScript string semantics the model relies on.  A JavaScript
 * string is a sequence of UTF-16 code units; here a string is a `seq<char>` of
 * Unicode scalar values, and `CodeUnits` gives its UTF-16 encoding wherever the
 * source depends on code units (hashing, `.length`, the default sort order).
 */
module JsString {

  const TWO16: int := 0x1_0000

  /** The UTF-16 code units of one character: one unit in the BMP, else a surrogate pair. */
  function UnitsOf(c: char): (u: seq<int>)
    ensures |u| == if c as int < TWO16 then 1 else 2
    ensures forall k :: 0 <= k < |u| ==> 0 <= u[k] < TWO16
    ensures (c as int < TWO16) <==> (u == [c as int])
  {
    var n := c as int;
    if n < TWO16 then [n]
    else [0xD800 + (n - TWO16) / 0x400, 0xDC00 + (n - TWO16) % 0x400]
  }

  /** What `charCodeAt` walks over: the UTF-16 encoding of `s`. */
  function CodeUnits(s: string): (u: seq<int>)
    ensures |u| >= |s|
    ensures forall k :: 0 <= k < |u| ==> 0 <= u[k] < TWO16
  {
    if |s| == 0 then [] else CodeUnits(s[..|s| - 1]) + UnitsOf(s[|s| - 1])
  }

  /** JavaScript's `s.length`. */
  function Length(s: string): nat {
    |CodeUnits(s)|
  }

  lemma {:induction false} CodeUnitsAppend(a: string, b: string)
    ensures CodeUnits(a + b) == CodeUnits(a) + CodeUnits(b)
    decreases |b|
  {
    if |b| == 0 {
      assert a + b == a;
    } else {
      var b' := b[..|b| - 1];
      assert (a + b)[..|a + b| - 1] == a + b';
      assert (a + b)[|a + b| - 1] == b[|b| - 1];
      CodeUnitsAppend(a, b');
    }
  }

  /** A string without characters outside the BMP has one code unit per character. */
  lemma {:induction false} BmpLength(s: string)
    requires forall k :: 0 <= k < |s| ==> s[k] as int < TWO16
    ensures CodeUnits(s) == seq(|s|, k requires 0 <= k < |s| => s[k] as int)
    ensures Length(s) == |s|
  {
    if |s| > 0 {
      BmpLength(s[..|s| - 1]);
    }
  }

  // ---------------------------------------------------------------------------
  // Whitespace and trimming
  // ---------------------------------------------------------------------------

  /** The characters `\s` matches and `trim` removes (WhiteSpace and LineTerminator). */
  predicate IsWhitespace(c: char) {
    c == '\t' || c == '\n' || c == '\U{000B}' || c == '\U{000C}' || c == '\r' || c == ' ' ||
    c == '\U{00A0}' || c == '\U{1680}' || ('\U{2000}' <= c <= '\U{200A}') || c == '\U{2028}' ||
    c == '\U{2029}' || c == '\U{202F}' || c == '\U{205F}' || c == '\U{3000}' || c == '\U{FEFF}'
  }

  predicate AllWhitespace(s: string) {
    forall k :: 0 <= k < |s| ==> IsWhitespace(s[k])
  }

  /** Neither end of `s` is whitespace. */
  predicate IsTrimmed(s: string) {
    |s| == 0 || (!IsWhitespace(s[0]) && !IsWhitespace(s[|s| - 1]))
  }

  /** `s.trimStart()` */
  function TrimStart(s: string): (r: string)
    ensures |r| <= |s| && r == s[|s| - |r|..]
    ensures AllWhitespace(s[..|s| - |r|])
    ensures |r| > 0 ==> !IsWhitespace(r[0])
  {
    if |s| > 0 && IsWhitespace(s[0]) then TrimStart(s[1..]) else s
  }

  /** `s.trimEnd()` */
  function TrimEnd(s: string): (r: string)
    ensures |r| <= |s| && r == s[..|r|]
    ensures AllWhitespace(s[|r|..])
    ensures |r| > 0 ==> !IsWhitespace(r[|r| - 1])
  {
    if |s| > 0 && IsWhitespace(s[|s| - 1]) then TrimEnd(s[..|s| - 1]) else s
  }

  /** `s.trim()` */
  function Trim(s: string): string {
    TrimEnd(TrimStart(s))
  }

  lemma TrimEndKeepsFirst(s: string)
    requires |s| > 0 && !IsWhitespace(s[0])
    ensures |TrimEnd(s)| > 0 && TrimEnd(s)[0] == s[0]
  {
  }

  lemma TrimIsTrimmed(s: string)
    ensures IsTrimmed(Trim(s))
  {
    var t := TrimStart(s);
    if |t| > 0 {
      TrimEndKeepsFirst(t);
    }
  }

  lemma {:induction false} TrimmedFixed(s: string)
    requires IsTrimmed(s)
    ensures TrimStart(s) == s && TrimEnd(s) == s && Trim(s) == s
  {
  }

  lemma TrimIdempotent(s: string)
    ensures Trim(Trim(s)) == Trim(s)
  {
    TrimIsTrimmed(s);
    TrimmedFixed(Trim(s));
  }

  /** `s.trim() === ''` exactly when every character of `s` is whitespace. */
  lemma {:induction false} TrimEmptyIffBlank(s: string)
    ensures Trim(s) == "" <==> AllWhitespace(s)
  {
    var t := TrimStart(s);
    if |t| > 0 {
      TrimEndKeepsFirst(t);
      assert !IsWhitespace(s[|s| - |t|]);
    }
  }

  // ---------------------------------------------------------------------------
  // Searching, splitting, joining
  // ---------------------------------------------------------------------------

  predicate StartsWith(s: string, prefix: string) {
    |prefix| <= |s| && s[..|prefix|] == prefix
  }

  /** `s.indexOf(c)` for a single character, -1 when absent. */
  function IndexOf(s: string, c: char): (i: int)
    ensures -1 <= i < |s|
    ensures i == -1 <==> c !in s
    ensures i >= 0 ==> s[i] == c && c !in s[..i]
  {
    if |s| == 0 then -1
    else if s[0] == c then 0
    else
      var r := IndexOf(s[1..], c);
      assert s[1..][..if r < 0 then 0 else r] == s[1..if r < 0 then 1 else r + 1];
      if r == -1 then -1 else r + 1
  }

  /** `s.split(c)` for a one-character separator. */
  function Split(s: string, c: char): (parts: seq<string>)
    ensures |parts| >= 1
    ensures forall k :: 0 <= k < |parts| ==> c !in parts[k]
    decreases |s|
  {
    var i := IndexOf(s, c);
    if i < 0 then [s] else [s[..i]] + Split(s[i + 1..], c)
  }

  /** `parts.join(sep)` */
  function Join(parts: seq<string>, sep: string): string {
    if |parts| == 0 then ""
    else if |parts| == 1 then parts[0]
    else parts[0] + sep + Join(parts[1..], sep)
  }

  lemma IndexOfJoined(a: string, c: char, b: string)
    requires c !in a
    ensures IndexOf(a + [c] + b, c) == |a|
  {
    var s := a + [c] + b;
    assert s[..|a|] == a;
    assert s[..|a| + 1][|a|] == c;
    assert forall j :: |a| < j <= |s| ==> s[..j][|a|] == c;
  }

  /** Splitting a join on the separator gives the parts back. */
  lemma {:induction false} SplitJoin(parts: seq<string>, c: char)
    requires |parts| >= 1
    requires forall k :: 0 <= k < |parts| ==> c !in parts[k]
    ensures Split(Join(parts, [c]), c) == parts
  {
    if |parts| > 1 {
      var rest := Join(parts[1..], [c]);
      var s := parts[0] + [c] + rest;
      assert Join(parts, [c]) == s;
      IndexOfJoined(parts[0], c, rest);
      assert s[..|parts[0]|] == parts[0];
      assert s[|parts[0]| + 1..] == rest;
      SplitJoin(parts[1..], c);
    }
  }

  /** Joining the pieces of a split on the separator gives the string back. */
  lemma {:induction false} JoinSplit(s: string, c: char)
    ensures Join(Split(s, c), [c]) == s
    decreases |s|
  {
    var i := IndexOf(s, c);
    if i >= 0 {
      var rest := Split(s[i + 1..], c);
      assert Split(s, c) == [s[..i]] + rest;
      JoinOfCons(s[..i], rest, [c]);
      JoinSplit(s[i + 1..], c);
      assert s == s[..i] + [c] + s[i + 1..];
    }
  }

  lemma JoinOfCons(a: string, rest: seq<string>, sep: string)
    requires |rest| >= 1
    ensures Join([a] + rest, sep) == a + sep + Join(rest, sep)
  {
    assert ([a] + rest)[1..] == rest;
  }

  /** Drops one trailing carriage return: the `\r?` of the separator `\r?\n`. */
  function DropTrailingCR(line: string): string {
    if |line| > 0 && line[|line| - 1] == '\r' then line[..|line| - 1] else line
  }

  /** `s.split(/\r?\n/)`: split on line feeds, a carriage return just before one belongs to the separator. */
  function SplitLines(s: string): (lines: seq<string>)
    ensures |lines| >= 1
    ensures forall k :: 0 <= k < |lines| ==> '\n' !in lines[k]
  {
    var parts := Split(s, '\n');
    seq(|parts|, k requires 0 <= k < |parts| =>
      if k < |parts| - 1 then DropTrailingCR(parts[k]) else parts[k])
  }

  /** Splitting a `\n`-join of lines that hold no line break gives the lines back. */
  lemma SplitLinesJoin(lines: seq<string>)
    requires |lines| >= 1
    requires forall k :: 0 <= k < |lines| ==> '\n' !in lines[k] && '\r' !in lines[k]
    ensures SplitLines(Join(lines, "\n")) == lines
  {
    SplitJoin(lines, '\n');
    SplitLinesWithoutCr(Join(lines, "\n"));
  }

  /** Without carriage returns, splitting into lines is splitting on line feeds. */
  lemma SplitLinesWithoutCr(s: string)
    requires forall k :: 0 <= k < |Split(s, '\n')| ==> '\r' !in Split(s, '\n')[k]
    ensures SplitLines(s) == Split(s, '\n')
  {
    var parts := Split(s, '\n');
    forall k | 0 <= k < |parts|
      ensures DropTrailingCR(parts[k]) == parts[k]
    {
      DropTrailingCRWithoutCr(parts[k]);
    }
  }

  lemma DropTrailingCRWithoutCr(line: string)
    requires '\r' !in line
    ensures DropTrailingCR(line) == line
  {
    if |line| > 0 {
      assert line[|line| - 1] in line;
    }
  }

  // ---------------------------------------------------------------------------
  // Numbers as text
  // ---------------------------------------------------------------------------

  predicate IsDigit(c: char) {
    '0' <= c <= '9'
  }

  function DigitChar(d: int): (c: char)
    requires 0 <= d < 10
    ensures IsDigit(c) && c as int - '0' as int == d
  {
    (d + '0' as int) as char
  }

  /** Decimal rendering of a natural number, as template literals and `String(n)` give it. */
  function NatToString(n: nat): (s: string)
    ensures |s| >= 1
    ensures forall k :: 0 <= k < |s| ==> IsDigit(s[k])
    decreases n
  {
    if n < 10 then [DigitChar(n)] else NatToString(n / 10) + [DigitChar(n % 10)]
  }

  function IntToString(i: int): (s: string) {
    if i < 0 then "-" + NatToString(-i) else NatToString(i)
  }

  /** `parseInt(s, 10)` of a run of decimal digits. */
  function ParseDigits(s: string): nat
    requires forall k :: 0 <= k < |s| ==> IsDigit(s[k])
  {
    if |s| == 0 then 0
    else
      var d := s[|s| - 1];
      assert IsDigit(d);
      10 * ParseDigits(s[..|s| - 1]) + (d as int - '0' as int)
  }

  /** Parsing undoes rendering. */
  lemma {:induction false} ParseNatToString(n: nat)
    ensures ParseDigits(NatToString(n)) == n
    decreases n
  {
    if n >= 10 {
      var s := NatToString(n);
      assert s[..|s| - 1] == NatToString(n / 10);
      ParseNatToString(n / 10);
    }
  }

  /** Different numbers render differently. */
  lemma NatToStringInjective(a: nat, b: nat)
    requires NatToString(a) == NatToString(b)
    ensures a == b
  {
    ParseNatToString(a);
    ParseNatToString(b);
  }

  lemma IntToStringInjective(a: int, b: int)
    requires IntToString(a) == IntToString(b)
    ensures a == b
  {
    var sa, sb := IntToString(a), IntToString(b);
    assert a >= 0 ==> IsDigit(sa[0]);
    assert b >= 0 ==> IsDigit(sb[0]);
    if a < 0 {
      assert sa[1..] == NatToString(-a);
      assert sb[1..] == NatToString(-b);
      NatToStringInjective(-a, -b);
    } else {
      NatToStringInjective(a, b);
    }
  }

  // ---------------------------------------------------------------------------
  // Case and ordering
  // ---------------------------------------------------------------------------

  /** Lower-cases ASCII letters.  Case-insensitive regular expressions without the
      `u` flag fold only ASCII letters among the characters the model compares. */
  function LowerChar(c: char): char {
    if 'A' <= c <= 'Z' then (c as int + 32) as char else c
  }

  function AsciiLower(s: string): (r: string)
    ensures |r| == |s| && forall k :: 0 <= k < |s| ==> r[k] == LowerChar(s[k])
  {
    seq(|s|, k requires 0 <= k < |s| => LowerChar(s[k]))
  }

  /** `/pat/i.test(s)` for a literal pattern `pat` written in lower case. */
  function ContainsIgnoringCase(s: string, pat: string): bool
    decreases |s|
  {
    if |pat| > |s| then false
    else if AsciiLower(s[..|pat|]) == pat then true
    else |s| > 0 && ContainsIgnoringCase(s[1..], pat)
  }

  /** `pat` occurs in `s` at index `k`. */
  predicate OccursAt(s: string, pat: string, k: int) {
    0 <= k && k + |pat| <= |s| && s[k..k + |pat|] == pat
  }

  /** `s.includes(pat)`: `pat` occurs in `s` at some index. */
  function Includes(s: string, pat: string): (b: bool)
    ensures b <==> exists k :: OccursAt(s, pat, k)
    decreases |s|
  {
    if |pat| > |s| then false
    else if s[..|pat|] == pat then assert OccursAt(s, pat, 0); true
    else if |s| == 0 then false
    else
      var r := Includes(s[1..], pat);
      assert forall k :: OccursAt(s[1..], pat, k) <==> OccursAt(s, pat, k + 1);
      assert forall k :: OccursAt(s, pat, k) ==> k >= 1 && OccursAt(s[1..], pat, k - 1);
      r
  }

  /** Lexicographic order on code units: JavaScript's `<` on strings. */
  predicate UnitsLess(a: seq<int>, b: seq<int>) {
    if |a| == 0 then |b| > 0
    else if |b| == 0 then false
    else if a[0] != b[0] then a[0] < b[0]
    else UnitsLess(a[1..], b[1..])
  }

  predicate StringLess(a: string, b: string) {
    UnitsLess(CodeUnits(a), CodeUnits(b))
  }

  lemma {:induction false} UnitsLessTransitive(a: seq<int>, b: seq<int>, c: seq<int>)
    requires UnitsLess(a, b) && UnitsLess(b, c)
    ensures UnitsLess(a, c)
  {
    if |a| > 0 && |b| > 0 && |c| > 0 && a[0] == b[0] && b[0] == c[0] {
      UnitsLessTransitive(a[1..], b[1..], c[1..]);
    }
  }

  lemma {:induction false} UnitsLessIrreflexive(a: seq<int>)
    ensures !UnitsLess(a, a)
  {
    if |a| > 0 {
      UnitsLessIrreflexive(a[1..]);
    }
  }

  /** Distinct code-unit sequences are ordered one way or the other. */
  lemma {:induction false} UnitsLessTotal(a: seq<int>, b: seq<int>)
    requires a != b
    ensures UnitsLess(a, b) || UnitsLess(b, a)
  {
    if |a| > 0 && |b| > 0 && a[0] == b[0] {
      assert a == [a[0]] + a[1..] && b == [b[0]] + b[1..];
      UnitsLessTotal(a[1..], b[1..]);
    }
  }

  /** The last code unit tells whether the last character lies outside the BMP. */
  lemma UnitsOfLast(c: char)
    ensures (c as int >= TWO16) <==> (0xDC00 <= UnitsOf(c)[|UnitsOf(c)| - 1] < 0xE000)
  {
  }

  /** A character outside the BMP is recovered from its surrogate pair. */
  lemma UnitsOfPair(c: char, d: char)
    requires c as int >= TWO16 && d as int >= TWO16 && UnitsOf(c) == UnitsOf(d)
    ensures c == d
  {
    var n, m := c as int - TWO16, d as int - TWO16;
    assert n / 0x400 == m / 0x400 && n % 0x400 == m % 0x400;
    assert n == 0x400 * (n / 0x400) + n % 0x400;
    assert m == 0x400 * (m / 0x400) + m % 0x400;
  }

  lemma ConcatLast(p: seq<int>, q: seq<int>)
    requires |q| > 0
    ensures (p + q)[|p + q| - 1] == q[|q| - 1]
  {
  }

  lemma ConcatSplit(p1: seq<int>, q1: seq<int>, p2: seq<int>, q2: seq<int>)
    requires p1 + q1 == p2 + q2 && |q1| == |q2|
    ensures p1 == p2 && q1 == q2
  {
    assert p1 == (p1 + q1)[..|p1|];
    assert p2 == (p2 + q2)[..|p2|];
    assert q1 == (p1 + q1)[|p1|..];
    assert q2 == (p2 + q2)[|p2|..];
  }

  /** Equal encodings end in the same character, after equal encodings of the rest. */
  lemma SameLastChar(a: string, b: string)
    requires |a| > 0 && |b| > 0 && CodeUnits(a) == CodeUnits(b)
    ensures a[|a| - 1] == b[|b| - 1]
    ensures CodeUnits(a[..|a| - 1]) == CodeUnits(b[..|b| - 1])
  {
    var c, d := a[|a| - 1], b[|b| - 1];
    var pa, pb := CodeUnits(a[..|a| - 1]), CodeUnits(b[..|b| - 1]);
    var uc, ud := UnitsOf(c), UnitsOf(d);
    assert pa + uc == pb + ud;
    ConcatLast(pa, uc);
    ConcatLast(pb, ud);
    UnitsOfLast(c);
    UnitsOfLast(d);
    assert (c as int < TWO16) == (d as int < TWO16);
    ConcatSplit(pa, uc, pb, ud);
    if c as int >= TWO16 {
      UnitsOfPair(c, d);
    }
  }

  lemma SnocEqual(a: string, b: string)
    requires |a| > 0 && |b| > 0
    requires a[..|a| - 1] == b[..|b| - 1] && a[|a| - 1] == b[|b| - 1]
    ensures a == b
  {
    assert a == a[..|a| - 1] + [a[|a| - 1]];
    assert b == b[..|b| - 1] + [b[|b| - 1]];
  }

  /** Different strings have different UTF-16 encodings. */
  lemma {:induction false} CodeUnitsInjective(a: string, b: string)
    requires CodeUnits(a) == CodeUnits(b)
    ensures a == b
    decreases |a|
  {
    if |a| == 0 || |b| == 0 {
      assert |CodeUnits(a)| >= |a| && |CodeUnits(b)| >= |b|;
    } else {
      SameLastChar(a, b);
      CodeUnitsInjective(a[..|a| - 1], b[..|b| - 1]);
      SnocEqual(a, b);
    }
  }

  /** The default sort order of strings is total. */
  lemma StringLessTotal(a: string, b: string)
    requires a != b
    ensures StringLess(a, b) || StringLess(b, a)
  {
    if CodeUnits(a) == CodeUnits(b) {
      CodeUnitsInjective(a, b);
      assert false;
    }
    UnitsLessTotal(CodeUnits(a), CodeUnits(b));
  }
}
