// The `undent` template tag of src/lib/tag-functions/undent.ts, over the string the
// template has already interpolated: line endings normalised, blank first and last
// lines dropped, the common indentation removed, the result trimmed.

module Undent {
  import opened Wrappers
  import opened JsString

  /** `raw.replace(/\r\n?/g, '\n')` */
  function NormalizeLineEndings(s: string): (r: string)
    ensures '\r' !in r
    decreases |s|
  {
    if |s| == 0 then ""
    else if s[0] == '\r' then
      if |s| > 1 && s[1] == '\n' then "\n" + NormalizeLineEndings(s[2..])
      else "\n" + NormalizeLineEndings(s[1..])
    else [s[0]] + NormalizeLineEndings(s[1..])
  }

  /** `line.trim() === ''`, which holds exactly when every character is whitespace
      (`JsString.TrimEmptyIffBlank`). */
  predicate IsBlank(line: string) {
    AllWhitespace(line)
  }

  /** The filter on the split lines from position `i` on: the first and the last line
      are kept only when they are not blank, every other line is kept. */
  function DropBlankEdges(lines: seq<string>, i: nat): seq<string>
    requires i <= |lines|
    decreases |lines| - i
  {
    if i == |lines| then []
    else if (i == 0 || i == |lines| - 1) && IsBlank(lines[i]) then DropBlankEdges(lines, i + 1)
    else [lines[i]] + DropBlankEdges(lines, i + 1)
  }

  /** The length of the `^(\s*)` match. */
  function LeadingWhitespace(line: string): (k: nat)
    ensures k <= |line| && AllWhitespace(line[..k])
    ensures k < |line| ==> !IsWhitespace(line[k])
  {
    if |line| > 0 && IsWhitespace(line[0]) then
      var k := 1 + LeadingWhitespace(line[1..]);
      assert line[..k] == [line[0]] + line[1..][..k - 1];
      k
    else 0
  }

  /** The `reduce` for the indentation, `None` standing for its `Infinity` seed. */
  function MinIndent(lines: seq<string>): (m: Option<nat>)
    ensures m.None? <==> forall k :: 0 <= k < |lines| ==> IsBlank(lines[k])
    ensures m.Some? ==>
      forall k :: 0 <= k < |lines| && !IsBlank(lines[k]) ==> m.value <= LeadingWhitespace(lines[k])
    ensures m.Some? ==>
      exists k :: 0 <= k < |lines| && !IsBlank(lines[k]) && m.value == LeadingWhitespace(lines[k])
  {
    if |lines| == 0 then None
    else
      var init := lines[..|lines| - 1];
      var line := lines[|lines| - 1];
      var m := MinIndent(init);
      assert forall k :: 0 <= k < |init| ==> init[k] == lines[k];
      if IsBlank(line) then m
      else
        var len := LeadingWhitespace(line);
        if m.Some? && m.value <= len then m else Some(len)
  }

  /** `line.slice(indent)`: slicing from `Infinity` or past the end gives `''`. */
  function SliceFrom(line: string, indent: Option<nat>): string {
    match indent
    case None => ""
    case Some(k) => if k <= |line| then line[k..] else ""
  }

  function Dedent(lines: seq<string>, indent: Option<nat>): (r: seq<string>)
    ensures |r| == |lines| && forall k :: 0 <= k < |lines| ==> r[k] == SliceFrom(lines[k], indent)
  {
    seq(|lines|, k requires 0 <= k < |lines| => SliceFrom(lines[k], indent))
  }

  /** The lines `undent` works on. */
  function UndentLines(raw: string): seq<string> {
    DropBlankEdges(Split(NormalizeLineEndings(raw), '\n'), 0)
  }

  /** `undent`, over the interpolated string. */
  function Undent(raw: string): string {
    var lines := UndentLines(raw);
    Trim(Join(Dedent(lines, MinIndent(lines)), "\n"))
  }

  // ---------------------------------------------------------------------------
  // Line endings

  /** Text without carriage returns is left as it is. */
  lemma {:induction false} NormalizeWithoutCr(s: string)
    requires '\r' !in s
    ensures NormalizeLineEndings(s) == s
    decreases |s|
  {
    if |s| > 0 {
      assert '\r' !in s[1..] by {
        assert forall c :: c in s[1..] ==> c in s;
      }
      NormalizeWithoutCr(s[1..]);
      assert s == [s[0]] + s[1..];
    }
  }

  lemma NormalizeCons(x: char, rest: string)
    requires x != '\r'
    ensures NormalizeLineEndings([x] + rest) == [x] + NormalizeLineEndings(rest)
  {
    assert ([x] + rest)[1..] == rest;
  }

  lemma NormalizeCrLfFirst(b: string)
    ensures NormalizeLineEndings("\r\n" + b) == "\n" + NormalizeLineEndings(b)
  {
    var s := "\r\n" + b;
    assert s[0] == '\r' && s[1] == '\n' && s[2..] == b;
  }

  lemma NormalizeCrFirst(b: string)
    requires |b| == 0 || b[0] != '\n'
    ensures NormalizeLineEndings("\r" + b) == "\n" + NormalizeLineEndings(b)
  {
    var s := "\r" + b;
    assert s[0] == '\r' && s[1..] == b;
    assert |s| > 1 ==> s[1] == b[0];
  }

  /** A CR LF pair becomes one line feed. */
  lemma {:induction false} CrLfBecomesLf(a: string, b: string)
    requires '\r' !in a
    ensures NormalizeLineEndings(a + "\r\n" + b) == a + "\n" + NormalizeLineEndings(b)
    decreases |a|
  {
    if |a| == 0 {
      assert a + "\r\n" + b == "\r\n" + b;
      NormalizeCrLfFirst(b);
    } else {
      var tail := a[1..] + "\r\n" + b;
      assert a + "\r\n" + b == [a[0]] + tail;
      NormalizeCons(a[0], tail);
      CrLfBecomesLf(a[1..], b);
      assert a == [a[0]] + a[1..];
    }
  }

  /** A lone carriage return becomes a line feed. */
  lemma {:induction false} LoneCrBecomesLf(a: string, b: string)
    requires '\r' !in a && (|b| == 0 || b[0] != '\n')
    ensures NormalizeLineEndings(a + "\r" + b) == a + "\n" + NormalizeLineEndings(b)
    decreases |a|
  {
    if |a| == 0 {
      assert a + "\r" + b == "\r" + b;
      NormalizeCrFirst(b);
    } else {
      var tail := a[1..] + "\r" + b;
      assert a + "\r" + b == [a[0]] + tail;
      NormalizeCons(a[0], tail);
      LoneCrBecomesLf(a[1..], b);
      assert a == [a[0]] + a[1..];
    }
  }

  // ---------------------------------------------------------------------------
  // Edge lines

  lemma {:induction false} DropBlankEdgesFrom(lines: seq<string>, i: nat)
    requires 1 <= i <= |lines|
    ensures var b := if IsBlank(lines[|lines| - 1]) then |lines| - 1 else |lines|;
      DropBlankEdges(lines, i) == if i <= b then lines[i..b] else []
    decreases |lines| - i
  {
    if i < |lines| {
      DropBlankEdgesFrom(lines, i + 1);
      var b := if IsBlank(lines[|lines| - 1]) then |lines| - 1 else |lines|;
      if i + 1 <= b {
        assert lines[i..b] == [lines[i]] + lines[i + 1..b];
      }
    }
  }

  /** Only the first and the last line can be dropped, and only when blank: the result
      is the slice from `a` to `b` where `a` skips a blank first line and `b` a blank
      last one (a single blank line is dropped). */
  lemma BlankEdgesDropped(lines: seq<string>)
    requires |lines| >= 1
    ensures var a := if IsBlank(lines[0]) then 1 else 0;
      var b := if IsBlank(lines[|lines| - 1]) then |lines| - 1 else |lines|;
      DropBlankEdges(lines, 0) == if a <= b then lines[a..b] else []
  {
    DropBlankEdgesFrom(lines, 1);
    var b := if IsBlank(lines[|lines| - 1]) then |lines| - 1 else |lines|;
    if !IsBlank(lines[0]) && 1 <= b {
      assert lines[0..b] == [lines[0]] + lines[1..b];
    }
  }

  // ---------------------------------------------------------------------------
  // Indentation

  /** Every non-blank line loses exactly its first `m` characters, all of them
      whitespace, where `m` is the smallest indentation of a non-blank line; some
      non-blank line starts with a non-whitespace character afterwards. */
  lemma IndentRemoved(lines: seq<string>)
    requires exists k :: 0 <= k < |lines| && !IsBlank(lines[k])
    ensures var indent := MinIndent(lines);
      indent.Some? &&
      (forall k :: 0 <= k < |lines| && !IsBlank(lines[k]) ==>
        indent.value <= |lines[k]| && AllWhitespace(lines[k][..indent.value]) &&
        Dedent(lines, indent)[k] == lines[k][indent.value..]) &&
      (exists k :: 0 <= k < |lines| && !IsBlank(lines[k]) && |Dedent(lines, indent)[k]| > 0 &&
        !IsWhitespace(Dedent(lines, indent)[k][0]))
  {
    var indent := MinIndent(lines);
    var m := indent.value;
    forall k | 0 <= k < |lines| && !IsBlank(lines[k])
      ensures AllWhitespace(lines[k][..m])
    {
      assert lines[k][..m] == lines[k][..LeadingWhitespace(lines[k])][..m];
    }
    var k :| 0 <= k < |lines| && !IsBlank(lines[k]) && m == LeadingWhitespace(lines[k]);
    assert lines[k][..|lines[k]|] == lines[k];
    assert m < |lines[k]|;
    assert Dedent(lines, indent)[k][0] == lines[k][m];
  }

  /** Blank lines between the kept ones carry no text afterwards but whitespace. */
  lemma BlankLinesStayBlank(lines: seq<string>, k: nat)
    requires k < |lines| && IsBlank(lines[k])
    ensures AllWhitespace(Dedent(lines, MinIndent(lines))[k])
  {
  }

  // ---------------------------------------------------------------------------
  // The result

  /** The result is trimmed. */
  lemma UndentTrimmed(raw: string)
    ensures IsTrimmed(Undent(raw))
  {
    var lines := UndentLines(raw);
    TrimIsTrimmed(Join(Dedent(lines, MinIndent(lines)), "\n"));
  }

  predicate NoCR(ls: seq<string>) {
    forall k :: 0 <= k < |ls| ==> '\r' !in ls[k]
  }

  lemma {:induction false} SplitNoCR(s: string)
    requires '\r' !in s
    ensures NoCR(Split(s, '\n'))
    decreases |s|
  {
    var i := IndexOf(s, '\n');
    if i >= 0 {
      SplitNoCR(s[i + 1..]);
      assert '\r' !in s[..i] by {
        assert forall c :: c in s[..i] ==> c in s;
      }
      assert forall c :: c in s[i + 1..] ==> c in s;
    }
  }

  lemma {:induction false} DropBlankEdgesNoCR(lines: seq<string>, i: nat)
    requires i <= |lines| && NoCR(lines)
    ensures NoCR(DropBlankEdges(lines, i))
    decreases |lines| - i
  {
    if i < |lines| {
      DropBlankEdgesNoCR(lines, i + 1);
    }
  }

  lemma {:induction false} JoinNoCR(parts: seq<string>)
    requires NoCR(parts)
    ensures '\r' !in Join(parts, "\n")
  {
    if |parts| > 1 {
      JoinNoCR(parts[1..]);
    }
  }

  /** The result holds no carriage return. */
  lemma UndentNoCR(raw: string)
    ensures '\r' !in Undent(raw)
  {
    var lines := UndentLines(raw);
    SplitNoCR(NormalizeLineEndings(raw));
    DropBlankEdgesNoCR(Split(NormalizeLineEndings(raw), '\n'), 0);
    var dedented := Dedent(lines, MinIndent(lines));
    forall k | 0 <= k < |dedented|
      ensures '\r' !in dedented[k]
    {
      assert forall c :: c in dedented[k] ==> c in lines[k];
    }
    JoinNoCR(dedented);
    var joined := Join(dedented, "\n");
    assert forall c :: c in Trim(joined) ==> c in TrimStart(joined);
    assert forall c :: c in TrimStart(joined) ==> c in joined;
  }

  lemma {:induction false} SplitFirst(s: string, c: char)
    requires |s| > 0 && s[0] != c
    ensures |Split(s, c)[0]| > 0 && Split(s, c)[0][0] == s[0]
  {
  }

  lemma {:induction false} SplitLast(s: string, c: char)
    requires |s| > 0 && s[|s| - 1] != c
    ensures var parts := Split(s, c);
      |parts[|parts| - 1]| > 0 && parts[|parts| - 1][|parts[|parts| - 1]| - 1] == s[|s| - 1]
    decreases |s|
  {
    var i := IndexOf(s, c);
    if i >= 0 {
      assert i < |s| - 1;
      var t := s[i + 1..];
      assert |t| > 0 && t[|t| - 1] == s[|s| - 1];
      SplitLast(t, c);
      var rest := Split(t, c);
      assert Split(s, c) == [s[..i]] + rest;
      assert Split(s, c)[|Split(s, c)| - 1] == rest[|rest| - 1];
    }
  }

  lemma EdgesKept(lines: seq<string>)
    requires |lines| >= 1 && !IsBlank(lines[0]) && !IsBlank(lines[|lines| - 1])
    ensures DropBlankEdges(lines, 0) == lines
  {
    BlankEdgesDropped(lines);
    assert lines[0..|lines|] == lines;
  }

  lemma NotBlankAtStart(line: string)
    requires |line| > 0 && !IsWhitespace(line[0])
    ensures !IsBlank(line) && LeadingWhitespace(line) == 0
  {
  }

  lemma NotBlankAtEnd(line: string)
    requires |line| > 0 && !IsWhitespace(line[|line| - 1])
    ensures !IsBlank(line)
  {
  }

  /** A trimmed text keeps all its lines, and its first line is not indented. */
  lemma TrimmedLines(t: string)
    requires IsTrimmed(t) && '\r' !in t && |t| > 0
    ensures var parts := Split(t, '\n');
      UndentLines(t) == parts && !IsBlank(parts[0]) && LeadingWhitespace(parts[0]) == 0
  {
    NormalizeWithoutCr(t);
    TrimmedSplit(t);
  }

  lemma TrimmedSplit(t: string)
    requires IsTrimmed(t) && |t| > 0
    ensures var parts := Split(t, '\n');
      DropBlankEdges(parts, 0) == parts && !IsBlank(parts[0]) && LeadingWhitespace(parts[0]) == 0
  {
    FirstLineNotBlank(t);
    LastLineNotBlank(t);
    EdgesKept(Split(t, '\n'));
  }

  lemma FirstLineNotBlank(t: string)
    requires |t| > 0 && !IsWhitespace(t[0])
    ensures var first := Split(t, '\n')[0]; !IsBlank(first) && LeadingWhitespace(first) == 0
  {
    SplitFirst(t, '\n');
    NotBlankAtStart(Split(t, '\n')[0]);
  }

  lemma LastLineNotBlank(t: string)
    requires |t| > 0 && !IsWhitespace(t[|t| - 1])
    ensures var parts := Split(t, '\n'); !IsBlank(parts[|parts| - 1])
  {
    var parts := Split(t, '\n');
    SplitLast(t, '\n');
    var last := parts[|parts| - 1];
    assert last[|last| - 1] == t[|t| - 1];
    NotBlankAtEnd(last);
  }

  lemma MinIndentZero(lines: seq<string>)
    requires |lines| > 0 && !IsBlank(lines[0]) && LeadingWhitespace(lines[0]) == 0
    ensures MinIndent(lines) == Some(0)
  {
  }

  lemma DedentZero(lines: seq<string>)
    ensures Dedent(lines, Some(0)) == lines
  {
  }

  /** A trimmed string without carriage returns is its own undent. */
  lemma UndentFixed(t: string)
    requires IsTrimmed(t) && '\r' !in t
    ensures Undent(t) == t
  {
    if |t| == 0 {
      NormalizeWithoutCr(t);
      assert Split(t, '\n') == [""];
      assert UndentLines(t) == [];
    } else {
      TrimmedLines(t);
      var lines := UndentLines(t);
      MinIndentZero(lines);
      DedentZero(lines);
      JoinSplit(t, '\n');
      TrimmedFixed(t);
    }
  }

  /** `undent` is idempotent on its output. */
  lemma UndentIdempotent(raw: string)
    ensures Undent(Undent(raw)) == Undent(raw)
  {
    UndentTrimmed(raw);
    UndentNoCR(raw);
    UndentFixed(Undent(raw));
  }
}
