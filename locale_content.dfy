// Bilingual Korean/English text utilities (src/lib/locale-content.ts): script
// classification, splitting a label at its trailing parenthetical group, and cutting
// multi-line content into shared, Korean-only and English-only segments at marker lines.

module LocaleContent {
  import opened Wrappers
  import opened JsString
  import opened FormTypes

  // ---------------------------------------------------------------------------
  // Script classification
  // ---------------------------------------------------------------------------

  /** Hangul syllables, Hangul jamo and Hangul compatibility jamo.  All three ranges
      lie in the basic plane, so counting characters counts the matching code units. */
  predicate IsHangul(c: char) {
    ('\U{AC00}' <= c <= '\U{D7AF}') || ('\U{1100}' <= c <= '\U{11FF}') ||
    ('\U{3130}' <= c <= '\U{318F}')
  }

  predicate IsLatinLetter(c: char) {
    ('A' <= c <= 'Z') || ('a' <= c <= 'z')
  }

  function KoreanCount(s: string): nat {
    if |s| == 0 then 0 else (if IsHangul(s[0]) then 1 else 0) + KoreanCount(s[1..])
  }

  function LatinCount(s: string): nat {
    if |s| == 0 then 0 else (if IsLatinLetter(s[0]) then 1 else 0) + LatinCount(s[1..])
  }

  datatype Script = Korean | English | Mixed

  /** A share above 60%, compared as an exact fraction, is the integer test `5a > 3t`. */
  lemma AboveThreeFifths(a: nat, t: nat)
    requires t > 0
    ensures (a as real) / (t as real) > 0.6 <==> 5 * a > 3 * t
  {
    var r := (a as real) / (t as real);
    assert r * (t as real) == a as real;
    if r > 0.6 {
      assert (a as real) > 0.6 * (t as real);
    } else {
      assert (a as real) <= 0.6 * (t as real);
    }
  }

  /** `classifyScript`: a script wins when it has more than 60% of the Hangul and
      ASCII letters; with none of either, or no clear majority, the text is mixed. */
  function ClassifyScript(text: string): (s: Script)
    ensures s == Korean <==>
      5 * KoreanCount(text) > 3 * (KoreanCount(text) + LatinCount(text))
    ensures s == English <==>
      5 * LatinCount(text) > 3 * (KoreanCount(text) + LatinCount(text))
    ensures KoreanCount(text) + LatinCount(text) == 0 ==> s == Mixed
  {
    var ko := KoreanCount(text);
    var en := LatinCount(text);
    var total := ko + en;
    if total == 0 then Mixed
    else
      AboveThreeFifths(ko, total);
      AboveThreeFifths(en, total);
      if (ko as real) / (total as real) > 0.6 then Korean
      else if (en as real) / (total as real) > 0.6 then English
      else Mixed
  }

  // ---------------------------------------------------------------------------
  // Trailing parenthetical group
  // ---------------------------------------------------------------------------

  function Delta(c: char): int {
    if c == ')' then 1 else if c == '(' then -1 else 0
  }

  /** Closing minus opening parentheses in `t[i..]`. */
  function Depth(t: string, i: nat): int
    requires i <= |t|
    decreases |t| - i
  {
    if i == |t| then 0 else Delta(t[i]) + Depth(t, i + 1)
  }

  /** The largest `k < j` whose suffix `t[k..]` is balanced, or -1. */
  function LastBalanced(t: string, j: nat): (k: int)
    requires j <= |t|
    ensures -1 <= k < j
    ensures k >= 0 ==> Depth(t, k) == 0
    ensures forall m :: k < m < j ==> Depth(t, m) != 0
  {
    if j == 0 then -1 else if Depth(t, j - 1) == 0 then j - 1 else LastBalanced(t, j - 1)
  }

  /** The pair (primary, secondary) of a text ending in a balanced group: the secondary
      part is inside the group whose `(` matches the final `)`, the primary part is
      everything before it, right-trimmed.  None when there is no such group, when the
      group starts the text, or when either part is empty. */
  function TrailingParenGroup(text: string): (r: Option<(string, string)>)
  {
    var t := TrimEnd(text);
    if |t| == 0 || t[|t| - 1] != ')' then None
    else
      assert Depth(t, |t| - 1) == 1;
      var k := LastBalanced(t, |t|);
      if k <= 0 then None
      else
        var primary := TrimEnd(t[..k]);
        var secondary := t[k + 1..|t| - 1];
        if primary == "" || secondary == "" then None else Some((primary, secondary))
  }

  /** `splitTrailingParenGroup`: the backward scan with a depth counter. */
  method SplitTrailingParenGroup(text: string) returns (r: Option<(string, string)>)
    ensures r == TrailingParenGroup(text)
  {
    var trimmed := TrimEnd(text);
    if !(|trimmed| > 0 && trimmed[|trimmed| - 1] == ')') {
      return None;
    }
    var i, depth := ScanToOpening(trimmed);
    if depth != 0 || i <= 0 {
      return None;
    }
    assert Depth(trimmed, |trimmed| - 1) == 1;
    var primary := TrimEnd(trimmed[..i]);
    var secondary := trimmed[i + 1..|trimmed| - 1];
    if primary == "" || secondary == "" {
      return None;
    }
    return Some((primary, secondary));
  }

  /** The loop of `splitTrailingParenGroup`: walking back from the end, stop where the
      depth first returns to zero; `depth` stays non-zero only when no suffix balances. */
  method ScanToOpening(t: string) returns (i: int, depth: int)
    requires |t| > 0 && t[|t| - 1] == ')'
    ensures i == LastBalanced(t, |t|)
    ensures depth == 0 <==> i >= 0
  {
    depth := 0;
    i := |t| - 1;
    while i >= 0
      invariant -1 <= i < |t|
      invariant depth == Depth(t, i + 1)
      invariant LastBalanced(t, |t|) == LastBalanced(t, i + 1)
      invariant i < |t| - 1 ==> depth != 0
      decreases i + 1
    {
      if t[i] == ')' {
        depth := depth + 1;
      } else if t[i] == '(' {
        depth := depth - 1;
      }
      if depth == 0 {
        break;
      }
      i := i - 1;
    }
  }

  /** Every suffix holds at least as many `)` as `(`, and the whole has as many: the
      parentheses of `s` nest properly. */
  predicate Balanced(s: string) {
    Depth(s, 0) == 0 && forall m :: 0 <= m <= |s| ==> Depth(s, m) >= 0
  }

  /** The depth of a suffix of a slice is measured against the slice's end. */
  lemma {:induction false} DepthOfSlice(t: string, a: nat, b: nat, m: nat)
    requires a <= m <= b <= |t|
    ensures Depth(t[a..b], m - a) == Depth(t, m) - Depth(t, b)
    decreases b - m
  {
    if m < b {
      assert t[a..b][m - a] == t[m];
      DepthOfSlice(t, a, b, m + 1);
    }
  }

  /** Above the last balanced suffix start, every suffix has a surplus of `)`. */
  lemma {:induction false} SurplusAboveMatch(t: string, k: int, m: nat)
    requires |t| > 0 && t[|t| - 1] == ')'
    requires -1 <= k < m <= |t| - 1
    requires forall j :: k < j < |t| ==> Depth(t, j) != 0
    ensures Depth(t, m) > 0
    decreases |t| - m
  {
    if m < |t| - 1 {
      SurplusAboveMatch(t, k, m + 1);
    }
  }

  /** The shape of a split: the secondary part is what lies strictly inside the `(` at
      index `k` and the final `)`, properly nested; the primary part is the right-trimmed
      text before `k`; both are non-empty. */
  lemma TrailingParenGroupShape(text: string) returns (k: nat)
    requires TrailingParenGroup(text).Some?
    ensures var t := TrimEnd(text);
      var (primary, secondary) := TrailingParenGroup(text).value;
      0 < k < |t| - 1 && t[k] == '(' && t[|t| - 1] == ')' &&
      secondary == t[k + 1..|t| - 1] && Balanced(secondary) &&
      primary == TrimEnd(t[..k]) && primary != "" && secondary != ""
  {
    var t := TrimEnd(text);
    assert Depth(t, |t| - 1) == 1;
    k := LastBalanced(t, |t|);
    InnerBalanced(t, k);
  }

  /** The text strictly inside the group that closes `t` nests properly. */
  lemma InnerBalanced(t: string, k: nat)
    requires |t| > 0 && t[|t| - 1] == ')' && Depth(t, |t| - 1) == 1
    requires k < |t| - 1 && Depth(t, k) == 0
    requires forall m :: k < m < |t| ==> Depth(t, m) != 0
    ensures t[k] == '(' && Balanced(t[k + 1..|t| - 1])
  {
    SurplusAboveMatch(t, k, k + 1);
    var s := t[k + 1..|t| - 1];
    DepthOfSlice(t, k + 1, |t| - 1, k + 1);
    forall m | 0 <= m <= |s|
      ensures Depth(s, m) >= 0
    {
      DepthOfSlice(t, k + 1, |t| - 1, k + 1 + m);
      if k + 1 + m < |t| - 1 {
        SurplusAboveMatch(t, k, k + 1 + m);
      }
    }
  }

  // ---------------------------------------------------------------------------
  // Bilingual labels
  // ---------------------------------------------------------------------------

  datatype BilingualText = BilingualText(ko: string, en: string, original: string)

  /** `splitBilingualLabel`: a label splits when its trailing group and the text before
      it are one Korean and one English. */
  function SplitBilingualLabel(text: string): (r: Option<BilingualText>)
    ensures r.Some? <==>
      TrailingParenGroup(text).Some? &&
      {ClassifyScript(TrailingParenGroup(text).value.0),
       ClassifyScript(TrailingParenGroup(text).value.1)} == {Korean, English}
    ensures r.Some? ==>
      r.value.original == text &&
      ClassifyScript(r.value.ko) == Korean && ClassifyScript(r.value.en) == English &&
      {r.value.ko, r.value.en} ==
        {TrailingParenGroup(text).value.0, TrailingParenGroup(text).value.1}
  {
    if text == "" then None
    else
      var parts := TrailingParenGroup(text);
      if parts.None? then None
      else
        var (primary, secondary) := parts.value;
        var primaryScript := ClassifyScript(primary);
        var secondaryScript := ClassifyScript(secondary);
        if primaryScript == Mixed || secondaryScript == Mixed then None
        else if primaryScript == secondaryScript then None
        else
          Some(BilingualText(
            if primaryScript == Korean then primary else secondary,
            if primaryScript == English then primary else secondary,
            text))
  }

  // ---------------------------------------------------------------------------
  // Content segmentation
  // ---------------------------------------------------------------------------

  /** The language of a segment: Korean only, English only, or always shown. */
  datatype Lang = Ko | En | Shared

  datatype Segment = Segment(lang: Lang, text: string)

  /** The first index at or after `i` that is not whitespace, or `|s|`. */
  function SkipWhitespace(s: string, i: nat): (r: nat)
    requires i <= |s|
    ensures i <= r <= |s|
    ensures forall j :: i <= j < r ==> IsWhitespace(s[j])
    ensures r < |s| ==> !IsWhitespace(s[r])
    decreases |s| - i
  {
    if i < |s| && IsWhitespace(s[i]) then SkipWhitespace(s, i + 1) else i
  }

  /** The literal `lit`, written in lower case, occurs at index `i` of `s` up to ASCII case. */
  predicate LiteralAt(s: string, i: nat, lit: string) {
    i + |lit| <= |s| && forall j :: 0 <= j < |lit| ==> LowerChar(s[i + j]) == lit[j]
  }

  /** The language named by a line matching `^\s*~~\s*KEYWORD\s+(korean|english)\s*~~\s*$`
      case-insensitively.  Each `\s*` or `\s+` in the pattern is followed by a character
      that is not whitespace, so matching consumes whole whitespace runs. */
  function MarkerLanguage(line: string, keyword: string): (r: Option<Lang>)
    ensures r != Some(Shared)
  {
    var a := SkipWhitespace(line, 0);
    if !LiteralAt(line, a, "~~") then None
    else
      var b := SkipWhitespace(line, a + 2);
      if !LiteralAt(line, b, keyword) then None
      else
        var c := b + |keyword|;
        if c == |line| || !IsWhitespace(line[c]) then None
        else
          var d := SkipWhitespace(line, c);
          var lang := if LiteralAt(line, d, "korean") then Some(Ko)
            else if LiteralAt(line, d, "english") then Some(En) else None;
          if lang.None? then None
          else
            var e := SkipWhitespace(line, d + (if lang == Some(Ko) then 6 else 7));
            if LiteralAt(line, e, "~~") && SkipWhitespace(line, e + 2) == |line| then lang
            else None
  }

  /** What a line does to the segmenter: a begin marker switches to its language, an end
      marker back to shared; None for a content line. */
  function LineMarker(line: string): Option<Lang> {
    var begin := MarkerLanguage(line, "begin");
    if begin.Some? then begin
    else if MarkerLanguage(line, "end").Some? then Some(Shared)
    else None
  }

  /** The segment a flush emits: the buffered lines joined and trimmed, if anything is left. */
  function Flushed(lang: Lang, buffer: seq<string>): seq<Segment> {
    var joined := Trim(Join(buffer, "\n"));
    if joined != "" then [Segment(lang, joined)] else []
  }

  /** The segmenter's state, plus the buffered lines each segment was made of. */
  datatype SegState = SegState(
    segments: seq<Segment>, blocks: seq<seq<string>>, lang: Lang, buffer: seq<string>,
    found: bool)

  function Flush(st: SegState): SegState {
    var out := Flushed(st.lang, st.buffer);
    st.(segments := st.segments + out,
        blocks := st.blocks + (if out == [] then [] else [st.buffer]),
        buffer := [])
  }

  /** One line: a marker flushes and switches language, a content line is buffered. */
  function Step(st: SegState, line: string, mark: Option<Lang>): SegState {
    match mark
    case Some(l) => Flush(st).(lang := l, found := true)
    case None => st.(buffer := st.buffer + [line])
  }

  /** The segmenter's state after `lines`, for a line classifier `marker`. */
  function Scan(lines: seq<string>, marker: string -> Option<Lang>): SegState
    decreases |lines|
  {
    if |lines| == 0 then SegState([], [], Shared, [], false)
    else
      var last := lines[|lines| - 1];
      Step(Scan(lines[..|lines| - 1], marker), last, marker(last))
  }

  /** The segments of `text`: None for empty text or text without a marker line. */
  function SegmentContent(text: string): Option<seq<Segment>> {
    SegmentWith(text, LineMarker)
  }

  /** Segmentation for a line classifier `marker`. */
  function SegmentWith(text: string, marker: string -> Option<Lang>): Option<seq<Segment>> {
    if text == "" then None
    else
      var st := Flush(Scan(Split(text, '\n'), marker));
      if st.found then Some(st.segments) else None
  }

  /** `flush` */
  method FlushBuffer(segments: seq<Segment>, lang: Lang, buffer: seq<string>)
    returns (result: seq<Segment>)
    ensures result == segments + Flushed(lang, buffer)
  {
    var joined := Trim(Join(buffer, "\n"));
    result := segments;
    if joined != "" {
      result := result + [Segment(lang, joined)];
    }
  }

  /** `segmentBilingualContent` */
  method SegmentBilingualContent(text: string) returns (r: Option<seq<Segment>>)
    ensures r == SegmentContent(text)
  {
    if text == "" {
      return None;
    }
    var lines := Split(text, '\n');
    var segments: seq<Segment> := [];
    var currentLang := Shared;
    var buffer: seq<string> := [];
    var foundMarker := false;
    for i := 0 to |lines|
      invariant Scan(lines[..i], LineMarker).segments == segments
      invariant Scan(lines[..i], LineMarker).lang == currentLang
      invariant Scan(lines[..i], LineMarker).buffer == buffer
      invariant Scan(lines[..i], LineMarker).found == foundMarker
    {
      assert lines[..i + 1][..i] == lines[..i];
      var line := lines[i];
      var beginMatch := MarkerLanguage(line, "begin");
      if beginMatch.Some? {
        foundMarker := true;
        segments := FlushBuffer(segments, currentLang, buffer);
        buffer := [];
        currentLang := beginMatch.value;
        continue;
      }
      var endMatch := MarkerLanguage(line, "end");
      if endMatch.Some? {
        foundMarker := true;
        segments := FlushBuffer(segments, currentLang, buffer);
        buffer := [];
        currentLang := Shared;
        continue;
      }
      buffer := buffer + [line];
    }
    assert lines[..|lines|] == lines;
    segments := FlushBuffer(segments, currentLang, buffer);
    if !foundMarker {
      return None;
    }
    return Some(segments);
  }

  /** Scanning finds a marker exactly when some line is one. */
  lemma {:induction false} ScanFound(lines: seq<string>, marker: string -> Option<Lang>)
    ensures Scan(lines, marker).found <==>
      exists k :: 0 <= k < |lines| && marker(lines[k]).Some?
    decreases |lines|
  {
    if |lines| > 0 {
      var init := lines[..|lines| - 1];
      var last := lines[|lines| - 1];
      ScanFound(init, marker);
      StepFound(Scan(init, marker), last, marker(last));
      if exists k :: 0 <= k < |init| && marker(init[k]).Some? {
        var k :| 0 <= k < |init| && marker(init[k]).Some?;
        assert lines[k] == init[k];
      }
      if exists k :: 0 <= k < |lines| && marker(lines[k]).Some? {
        var k :| 0 <= k < |lines| && marker(lines[k]).Some?;
        if k < |init| {
          assert init[k] == lines[k];
        }
      }
    }
  }

  lemma StepFound(st: SegState, line: string, mark: Option<Lang>)
    ensures Step(st, line, mark).found == (st.found || mark.Some?)
  {
  }

  lemma SegmentWithNone(text: string, marker: string -> Option<Lang>)
    ensures SegmentWith(text, marker).None? <==>
      text == "" ||
      forall k :: 0 <= k < |Split(text, '\n')| ==> marker(Split(text, '\n')[k]).None?
  {
    var lines := Split(text, '\n');
    ScanFound(lines, marker);
    var st := Scan(lines, marker);
    assert Flush(st).found == st.found;
  }

  /** `segmentBilingualContent` returns null exactly for empty text and for text
      without a marker line. */
  lemma SegmentContentNone(text: string)
    ensures SegmentContent(text).None? <==>
      text == "" ||
      forall k :: 0 <= k < |Split(text, '\n')| ==> LineMarker(Split(text, '\n')[k]).None?
  {
    SegmentWithNone(text, LineMarker);
  }

  /** The invariant of the segmenter: each segment is the trimmed join of its block,
      and every buffered or block line is a content line of the input. */
  ghost predicate Sound(st: SegState, lines: seq<string>, marker: string -> Option<Lang>) {
    SegmentsOfBlocks(st.segments, st.blocks) && ContentOnly(st.blocks, st.buffer, lines, marker)
  }

  ghost predicate SegmentsOfBlocks(segments: seq<Segment>, blocks: seq<seq<string>>) {
    |segments| == |blocks| &&
    forall k :: 0 <= k < |segments| ==>
      segments[k].text == Trim(Join(blocks[k], "\n")) && segments[k].text != ""
  }

  ghost predicate ContentOnly(blocks: seq<seq<string>>, buffer: seq<string>, lines: seq<string>,
                              marker: string -> Option<Lang>) {
    (forall k, l :: 0 <= k < |blocks| && l in blocks[k] ==> l in lines && marker(l).None?) &&
    (forall l :: l in buffer ==> l in lines && marker(l).None?)
  }

  lemma FlushSegments(segments: seq<Segment>, blocks: seq<seq<string>>, buffer: seq<string>,
                      lang: Lang)
    requires SegmentsOfBlocks(segments, blocks)
    ensures var out := Flushed(lang, buffer);
      SegmentsOfBlocks(segments + out, blocks + (if out == [] then [] else [buffer]))
  {
  }

  lemma FlushContent(blocks: seq<seq<string>>, buffer: seq<string>, flushed: bool,
                     init: seq<string>, line: string, marker: string -> Option<Lang>)
    requires ContentOnly(blocks, buffer, init, marker)
    ensures ContentOnly(blocks + (if flushed then [buffer] else []), [], init + [line], marker)
  {
    var lines := init + [line];
    assert forall l :: l in init ==> l in lines;
  }

  lemma BufferContent(blocks: seq<seq<string>>, buffer: seq<string>,
                      init: seq<string>, line: string, marker: string -> Option<Lang>)
    requires ContentOnly(blocks, buffer, init, marker)
    requires marker(line).None?
    ensures ContentOnly(blocks, buffer + [line], init + [line], marker)
  {
    var lines := init + [line];
    assert forall l :: l in init ==> l in lines;
  }

  lemma StepSound(st: SegState, init: seq<string>, line: string,
                  marker: string -> Option<Lang>)
    ensures Sound(st, init, marker) ==> Sound(Step(st, line, marker(line)), init + [line], marker)
  {
    if Sound(st, init, marker) {
      if marker(line).Some? {
        var out := Flushed(st.lang, st.buffer);
        FlushSegments(st.segments, st.blocks, st.buffer, st.lang);
        FlushContent(st.blocks, st.buffer, out != [], init, line, marker);
      } else {
        BufferContent(st.blocks, st.buffer, init, line, marker);
      }
    }
  }

  lemma {:induction false} ScanSound(lines: seq<string>, marker: string -> Option<Lang>)
    ensures Sound(Scan(lines, marker), lines, marker)
    decreases |lines|
  {
    if |lines| > 0 {
      var init := lines[..|lines| - 1];
      ScanSound(init, marker);
      StepSound(Scan(init, marker), init, lines[|lines| - 1], marker);
      assert init + [lines[|lines| - 1]] == lines;
    }
  }

  /** The blocks of input lines the segments are made of, one per segment. */
  ghost function BlocksWith(text: string, marker: string -> Option<Lang>): seq<seq<string>> {
    if text == "" then [] else Flush(Scan(Split(text, '\n'), marker)).blocks
  }

  lemma FinalSound(text: string, marker: string -> Option<Lang>)
    requires text != ""
    ensures var st := Flush(Scan(Split(text, '\n'), marker));
      SegmentsOfBlocks(st.segments, st.blocks) &&
      ContentOnly(st.blocks, st.buffer, Split(text, '\n'), marker)
  {
    var lines := Split(text, '\n');
    ScanSound(lines, marker);
    var sc := Scan(lines, marker);
    var out := Flushed(sc.lang, sc.buffer);
    FlushSegments(sc.segments, sc.blocks, sc.buffer, sc.lang);
    FlushContentOnly(sc.blocks, sc.buffer, out != [], lines, marker);
    assert Flush(sc).blocks == sc.blocks + (if out == [] then [] else [sc.buffer]);
  }

  lemma FlushContentOnly(blocks: seq<seq<string>>, buffer: seq<string>, flushed: bool,
                         lines: seq<string>, marker: string -> Option<Lang>)
    requires ContentOnly(blocks, buffer, lines, marker)
    ensures ContentOnly(blocks + (if flushed then [buffer] else []), [], lines, marker)
  {
  }

  lemma SegmentWithTrimmed(text: string, marker: string -> Option<Lang>)
    requires SegmentWith(text, marker).Some?
    ensures var segments := SegmentWith(text, marker).value;
      var blocks := BlocksWith(text, marker);
      |blocks| == |segments| &&
      forall k :: 0 <= k < |segments| ==>
        segments[k].text != "" && IsTrimmed(segments[k].text) &&
        segments[k].text == Trim(Join(blocks[k], "\n"))
  {
    FinalSound(text, marker);
    var st := Flush(Scan(Split(text, '\n'), marker));
    assert SegmentWith(text, marker).value == st.segments;
    assert BlocksWith(text, marker) == st.blocks;
    forall k | 0 <= k < |st.segments|
      ensures IsTrimmed(st.segments[k].text)
    {
      TrimIsTrimmed(Join(st.blocks[k], "\n"));
    }
  }

  /** The blocks hold lines of the input, none of which the classifier marks; for
      `segmentBilingualContent` the classifier is `LineMarker`. */
  lemma SegmentWithContent(text: string, marker: string -> Option<Lang>)
    requires SegmentWith(text, marker).Some?
    ensures var blocks := BlocksWith(text, marker);
      forall k, l :: 0 <= k < |blocks| && l in blocks[k] ==>
        l in Split(text, '\n') && marker(l).None?
  {
    FinalSound(text, marker);
    var st := Flush(Scan(Split(text, '\n'), marker));
    assert BlocksWith(text, marker) == st.blocks;
  }

  /** Every segment text is non-empty and trimmed. */
  lemma SegmentsTrimmed(text: string)
    requires SegmentContent(text).Some?
    ensures forall seg :: seg in SegmentContent(text).value ==> seg.text != "" && IsTrimmed(seg.text)
  {
    SegmentWithTrimmed(text, LineMarker);
  }

  /** The blocks of input lines the segments of `text` are made of, one per segment. */
  ghost function SegmentBlocks(text: string): seq<seq<string>> {
    BlocksWith(text, LineMarker)
  }

  /** Every segment is the trimmed join of its block. */
  lemma SegmentsOfBlocksText(text: string)
    requires SegmentContent(text).Some?
    ensures var segments := SegmentContent(text).value;
      |SegmentBlocks(text)| == |segments| &&
      forall k :: 0 <= k < |segments| ==>
        segments[k].text == Trim(Join(SegmentBlocks(text)[k], "\n"))
  {
    SegmentWithTrimmed(text, LineMarker);
  }

  /** Content lines only extend the buffer. */
  lemma {:induction false} ScanContentLines(lines: seq<string>, n: nat,
                                            marker: string -> Option<Lang>)
    requires n <= |lines|
    requires forall m :: n <= m < |lines| ==> marker(lines[m]).None?
    ensures Scan(lines, marker) ==
      Scan(lines[..n], marker).(buffer := Scan(lines[..n], marker).buffer + lines[n..])
    decreases |lines| - n
  {
    if n < |lines| {
      var init := lines[..|lines| - 1];
      assert init[..n] == lines[..n];
      ScanContentLines(init, n, marker);
      assert init[n..] + [lines[|lines| - 1]] == lines[n..];
    } else {
      assert lines[..n] == lines;
    }
  }

  lemma SegmentWithLastMarker(text: string, k: nat, marker: string -> Option<Lang>)
    requires text != ""
    requires k < |Split(text, '\n')| && marker(Split(text, '\n')[k]).Some?
    requires forall m :: k < m < |Split(text, '\n')| ==> marker(Split(text, '\n')[m]).None?
    ensures var lines := Split(text, '\n');
      SegmentWith(text, marker) ==
        Some(Scan(lines[..k + 1], marker).segments +
             Flushed(marker(lines[k]).value, lines[k + 1..]))
  {
    ScanAfterLastMarker(Split(text, '\n'), k, marker);
  }

  /** After the last marker line the scan only buffers, in that marker's language. */
  lemma ScanAfterLastMarker(lines: seq<string>, k: nat, marker: string -> Option<Lang>)
    requires k < |lines| && marker(lines[k]).Some?
    requires forall m :: k < m < |lines| ==> marker(lines[m]).None?
    ensures var st := Scan(lines, marker);
      st.segments == Scan(lines[..k + 1], marker).segments && st.found &&
      st.lang == marker(lines[k]).value && st.buffer == lines[k + 1..]
  {
    ScanContentLines(lines, k + 1, marker);
    ScanAtMarker(lines[..k + 1], marker);
    assert lines[..k + 1][k] == lines[k];
  }

  /** A marker line empties the buffer, switches language and records the find. */
  lemma ScanAtMarker(lines: seq<string>, marker: string -> Option<Lang>)
    requires |lines| > 0 && marker(lines[|lines| - 1]).Some?
    ensures var st := Scan(lines, marker);
      st.buffer == [] && st.found && st.lang == marker(lines[|lines| - 1]).value
  {
  }

  /** After the last marker line, at index `k`, the rest of the text forms at most one
      segment, in the marker's language: an end marker resets to shared, a begin marker
      switches to Korean or English. */
  lemma LastMarkerLanguage(text: string, k: nat)
    requires text != ""
    requires k < |Split(text, '\n')| && LineMarker(Split(text, '\n')[k]).Some?
    requires forall m :: k < m < |Split(text, '\n')| ==> LineMarker(Split(text, '\n')[m]).None?
    ensures var lines := Split(text, '\n');
      SegmentContent(text) ==
        Some(Scan(lines[..k + 1], LineMarker).segments +
             Flushed(LineMarker(lines[k]).value, lines[k + 1..]))
  {
    SegmentWithLastMarker(text, k, LineMarker);
  }

  // ---------------------------------------------------------------------------
  // Questions
  // ---------------------------------------------------------------------------

  /** A question with the bilingual splits of its title, description and options. */
  datatype BilingualQuestion = BilingualQuestion(
    question: Question,
    bilingualTitle: Option<BilingualText>,
    bilingualDescription: Option<BilingualText>,
    bilingualOptions: Option<seq<Option<BilingualText>>>)

  /** `addBilingualData`: the question's own fields are kept as they are; the option
      splits are attached, one per option, only when at least one option splits. */
  function AddBilingualData(q: Question): (r: BilingualQuestion)
    ensures r.question == q
    ensures r.bilingualTitle == SplitBilingualLabel(q.title)
    ensures r.bilingualDescription ==
      (if q.description.Some? then SplitBilingualLabel(q.description.value) else None)
    ensures r.bilingualOptions.Some? <==>
      exists k :: 0 <= k < |q.options| && SplitBilingualLabel(q.options[k]).Some?
    ensures r.bilingualOptions.Some? ==>
      |r.bilingualOptions.value| == |q.options| &&
      forall k :: 0 <= k < |q.options| ==>
        r.bilingualOptions.value[k] == SplitBilingualLabel(q.options[k])
  {
    var splits := seq(|q.options|, k requires 0 <= k < |q.options| =>
      SplitBilingualLabel(q.options[k]));
    assert forall k :: 0 <= k < |q.options| ==> splits[k] == SplitBilingualLabel(q.options[k]);
    BilingualQuestion(
      q,
      SplitBilingualLabel(q.title),
      if q.description.Some? && q.description.value != "" then
        SplitBilingualLabel(q.description.value)
      else None,
      if |q.options| > 0 && exists k :: 0 <= k < |splits| && splits[k].Some? then Some(splits)
      else None)
  }

  /** `localeText`: the Korean part for the `ko` locale, the English part otherwise. */
  function LocaleText(bilingual: Option<BilingualText>, locale: string, fallback: string): string {
    if bilingual.None? then fallback
    else if locale == "ko" then bilingual.value.ko
    else bilingual.value.en
  }

  /** `localeTooltip`: the other language's part. */
  function LocaleTooltip(bilingual: Option<BilingualText>, locale: string): Option<string> {
    if bilingual.None? then None
    else if locale == "ko" then Some(bilingual.value.en)
    else Some(bilingual.value.ko)
  }

  /** For a split label the shown text is in the locale's script and the tooltip in the
      other one; an unsplit label shows the fallback and no tooltip. */
  lemma LocaleTextAndTooltip(text: string, locale: string, fallback: string)
    ensures var b := SplitBilingualLabel(text);
      (b.None? ==> LocaleText(b, locale, fallback) == fallback && LocaleTooltip(b, locale).None?) &&
      (b.Some? ==>
        LocaleTooltip(b, locale).Some? &&
        ClassifyScript(LocaleText(b, locale, fallback)) ==
          (if locale == "ko" then Korean else English) &&
        ClassifyScript(LocaleTooltip(b, locale).value) ==
          (if locale == "ko" then English else Korean) &&
        LocaleText(b, locale, fallback) != LocaleTooltip(b, locale).value &&
        {LocaleText(b, locale, fallback), LocaleTooltip(b, locale).value} == {b.value.ko, b.value.en})
  {
  }
}
