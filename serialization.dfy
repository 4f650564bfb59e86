/**
 * The compact text format of additional group members
 * (`src/lib/group-registration/serialization.ts`): one member per line as
 * `L:Name`, `Name`, `1F` or `1`, read back by a quote-aware tokenizer that
 * also accepts counted tokens such as `3ㄹ` and names spread over several
 * words after a role prefix.
 */
module GroupSerialization {
  import opened Wrappers
  import opened JsString

  /** `Role` without its `null`, which is `None` of an `Option<Role>`. */
  datatype Role = Leader | Follower | Both

  /** `GroupMember` */
  datatype GroupMember = GroupMember(name: string, role: Option<Role>)

  const LetterRieul: char := '\U{3139}'   // ㄹ, Korean for "leader"
  const LetterPieup: char := '\U{314D}'   // ㅍ, Korean for "follower"

  // ---------------------------------------------------------------------------
  // Role prefixes
  // ---------------------------------------------------------------------------

  /** `ROLE_LETTER[c]` for an already lower-cased character. */
  function RoleLetter(c: char): Option<Role> {
    if c == 'l' || c == LetterRieul then Some(Leader)
    else if c == 'f' || c == LetterPieup then Some(Follower)
    else None
  }

  /** A character of the class `[LlFfBbㄹㅍ]`. */
  predicate IsRoleChar(c: char) {
    c == 'L' || c == 'l' || c == 'F' || c == 'f' || c == 'B' || c == 'b' || c == LetterRieul || c == LetterPieup
  }

  /**
   * `resolvePrefix(raw)`.  `toLowerCase` is ASCII lower-casing here: no other
   * character lower-cases onto a role letter, so every outcome agrees.
   */
  function ResolvePrefix(raw: string): (r: Option<Role>)
    ensures r.Some? ==> 1 <= |raw| <= 2 && forall i :: 0 <= i < |raw| ==> IsRoleChar(raw[i])
  {
    var lc := AsciiLower(raw);
    if lc == "b" then Some(Both)
    else if |lc| == 1 && RoleLetter(lc[0]).Some? then RoleLetter(lc[0])
    else if |lc| == 2 && RoleLetter(lc[0]).Some? && RoleLetter(lc[1]).Some? && RoleLetter(lc[0]) != RoleLetter(lc[1])
    then Some(Both)
    else None
  }

  /** The single-letter and two-letter cases of `resolvePrefix`, both directions. */
  lemma ResolvePrefixCases(raw: string)
    ensures ResolvePrefix(raw) == Some(Leader) <==> |raw| == 1 && (raw[0] == 'l' || raw[0] == 'L' || raw[0] == LetterRieul)
    ensures ResolvePrefix(raw) == Some(Follower) <==> |raw| == 1 && (raw[0] == 'f' || raw[0] == 'F' || raw[0] == LetterPieup)
    ensures ResolvePrefix(raw) == Some(Both) <==>
              (|raw| == 1 && (raw[0] == 'b' || raw[0] == 'B')) ||
              (|raw| == 2 && RoleLetter(LowerChar(raw[0])).Some? && RoleLetter(LowerChar(raw[1])).Some? &&
               RoleLetter(LowerChar(raw[0])) != RoleLetter(LowerChar(raw[1])))
  {
    var lc := AsciiLower(raw);
    if |raw| == 1 {
      assert lc == [LowerChar(raw[0])];
    }
  }

  /** `ROLE_PREFIX[role]`, and `''` for no role. */
  function RolePrefix(role: Option<Role>): string {
    match role
    case None => ""
    case Some(Leader) => "L"
    case Some(Follower) => "F"
    case Some(Both) => "LF"
  }

  /** The serializer's canonical prefixes resolve back to their roles. */
  lemma ResolveRolePrefix(r: Role)
    ensures ResolvePrefix(RolePrefix(Some(r))) == Some(r)
  {
    var p := RolePrefix(Some(r));
    assert AsciiLower(p) == if r == Leader then "l" else if r == Follower then "f" else "lf";
  }

  // ---------------------------------------------------------------------------
  // serialize
  // ---------------------------------------------------------------------------

  /** The line `serialize` writes for one member. */
  function MemberLine(m: GroupMember): string {
    var prefix := RolePrefix(m.role);
    if m.name != "" then (if prefix != "" then prefix + ":" + m.name else m.name)
    else if prefix != "" then "1" + prefix
    else "1"
  }

  function MemberLines(members: seq<GroupMember>): (lines: seq<string>)
    ensures |lines| == |members| && forall k :: 0 <= k < |members| ==> lines[k] == MemberLine(members[k])
  {
    seq(|members|, k requires 0 <= k < |members| => MemberLine(members[k]))
  }

  /** What `serialize` returns: `''` for no members, else their lines joined by line feeds. */
  function SerializeText(members: seq<GroupMember>): string {
    if |members| == 0 then "" else Join(MemberLines(members), "\n")
  }

  /** `serialize(members)` */
  method Serialize(members: seq<GroupMember>) returns (text: string)
    ensures text == SerializeText(members)
    ensures |members| == 0 <==> text == ""
  {
    if |members| == 0 {
      return "";
    }
    var lines: seq<string> := [];
    for k := 0 to |members|
      invariant lines == MemberLines(members[..k])
    {
      var m := members[k];
      var prefix := RolePrefix(m.role);
      if m.name != "" {
        lines := lines + [if prefix != "" then prefix + ":" + m.name else m.name];
      } else if prefix != "" {
        lines := lines + ["1" + prefix];
      } else {
        lines := lines + ["1"];
      }
      assert members[..k + 1] == members[..k] + [m];
    }
    assert members[..|members|] == members;
    text := Join(lines, "\n");
    JoinStartsWithFirst(lines, "\n");
  }

  lemma {:induction false} JoinStartsWithFirst(parts: seq<string>, sep: string)
    requires |parts| >= 1
    ensures |Join(parts, sep)| >= |parts[0]| && Join(parts, sep)[..|parts[0]|] == parts[0]
  {
    if |parts| > 1 {
      assert Join(parts, sep) == parts[0] + (sep + Join(parts[1..], sep));
    }
  }

  // ---------------------------------------------------------------------------
  // Tokens
  // ---------------------------------------------------------------------------

  /** The number of leading decimal digits. */
  function LeadingDigits(t: string): (k: nat)
    ensures k <= |t| && (forall i :: 0 <= i < k ==> IsDigit(t[i])) && (k < |t| ==> !IsDigit(t[k]))
  {
    if |t| > 0 && IsDigit(t[0]) then 1 + LeadingDigits(t[1..]) else 0
  }

  /** `RE_COUNTED.test(t)`: `^(\d+)([LlFfBbㄹㅍ]{1,2})$`. */
  predicate IsCounted(t: string) {
    var k := LeadingDigits(t);
    k >= 1 && 1 <= |t| - k <= 2 && forall i :: k <= i < |t| ==> IsRoleChar(t[i])
  }

  /** `RE_BARE_COUNT.test(t)`: `^(\d+)$`. */
  predicate IsBareCount(t: string) {
    |t| >= 1 && forall i :: 0 <= i < |t| ==> IsDigit(t[i])
  }

  /** `isPlainWord(token)`: no colon and neither count pattern. */
  predicate IsPlainWord(token: string) {
    ':' !in token && !IsCounted(token) && !IsBareCount(token)
  }

  /** `n` copies of one member: `Array.from({ length: n }, () => m)`. */
  function Copies(n: nat, m: GroupMember): (ms: seq<GroupMember>)
    ensures |ms| == n && forall k :: 0 <= k < n ==> ms[k] == m
  {
    seq(n, _ => m)
  }

  /** `parseToken(token)` */
  function ParseToken(token: string): (ms: seq<GroupMember>)
    ensures |ms| != 1 ==> token == "" || IsCounted(token) || IsBareCount(token)
    ensures IsPlainWord(token) && token != "" ==> ms == [GroupMember(token, None)]
  {
    if token == "" then []
    else if IsCounted(token) then
      var k := LeadingDigits(token);
      Copies(ParseDigits(token[..k]), GroupMember("", ResolvePrefix(token[k..])))
    else if IsBareCount(token) then Copies(ParseDigits(token), GroupMember("", None))
    else if ':' in token then
      var colon := IndexOf(token, ':');
      var role := ResolvePrefix(token[..colon]);
      if role.Some? then [GroupMember(token[colon + 1..], role)] else [GroupMember(token, None)]
    else [GroupMember(token, None)]
  }

  /** A counted token expands to exactly its count of unnamed members, all with its letters' role. */
  lemma CountedToken(digits: string, letters: string)
    requires |digits| >= 1 && forall i :: 0 <= i < |digits| ==> IsDigit(digits[i])
    requires 1 <= |letters| <= 2 && forall i :: 0 <= i < |letters| ==> IsRoleChar(letters[i])
    ensures ParseToken(digits + letters) == Copies(ParseDigits(digits), GroupMember("", ResolvePrefix(letters)))
  {
    var t := digits + letters;
    LeadingDigitsOf(digits, letters);
    assert t[..|digits|] == digits && t[|digits|..] == letters;
  }

  lemma {:induction false} LeadingDigitsOf(digits: string, rest: string)
    requires forall i :: 0 <= i < |digits| ==> IsDigit(digits[i])
    requires |rest| > 0 ==> !IsDigit(rest[0])
    ensures LeadingDigits(digits + rest) == |digits|
  {
    if |digits| > 0 {
      assert (digits + rest)[1..] == digits[1..] + rest;
      LeadingDigitsOf(digits[1..], rest);
    } else {
      assert digits + rest == rest;
    }
  }

  /** Two letters of the same role resolve to no role, so `2LL` is two unnamed role-less members. */
  lemma SameRolePairIsNull()
    ensures ParseToken("2LL") == Copies(2, GroupMember("", None))
  {
    assert AsciiLower("LL") == "ll";
    CountedToken("2", "LL");
    assert ParseDigits("2") == 2;
  }

  /** A colon token whose prefix does not resolve keeps the whole token as a role-less name. */
  lemma UnrecognisedPrefix(token: string)
    requires ':' in token && !IsCounted(token) && !IsBareCount(token)
    requires ResolvePrefix(token[..IndexOf(token, ':')]).None?
    ensures ParseToken(token) == [GroupMember(token, None)]
  {
  }

  // ---------------------------------------------------------------------------
  // tokenizeLine
  // ---------------------------------------------------------------------------

  /** The first index from `i` on that is not whitespace. */
  function SkipSpace(s: string, i: nat): (j: nat)
    requires i <= |s|
    ensures i <= j <= |s| && (j < |s| ==> !IsWhitespace(s[j]))
    ensures forall k :: i <= k < j ==> IsWhitespace(s[k])
    decreases |s| - i
  {
    if i < |s| && IsWhitespace(s[i]) then SkipSpace(s, i + 1) else i
  }

  /** The first index from `i` on holding `q`, or the end. */
  function ScanTo(s: string, i: nat, q: char): (j: nat)
    requires i <= |s|
    ensures i <= j <= |s| && (j < |s| ==> s[j] == q)
    ensures forall k :: i <= k < j ==> s[k] != q
    decreases |s| - i
  {
    if i < |s| && s[i] != q then ScanTo(s, i + 1, q) else i
  }

  /** The first index from `i` on that is whitespace, or the end. */
  function ScanWord(s: string, i: nat): (j: nat)
    requires i <= |s|
    ensures i <= j <= |s| && (j < |s| ==> IsWhitespace(s[j]))
    ensures forall k :: i <= k < j ==> !IsWhitespace(s[k])
    decreases |s| - i
  {
    if i < |s| && !IsWhitespace(s[i]) then ScanWord(s, i + 1) else i
  }

  predicate IsQuote(c: char) {
    c == '"' || c == '\''
  }

  /**
   * The tokens of `s` from index `i`: whitespace separates unquoted tokens, and
   * a quote opens a token that runs to the same quote or to the end.
   */
  function TokensFrom(s: string, i: nat): seq<string>
    requires i <= |s|
    decreases |s| - i
  {
    var k := SkipSpace(s, i);
    if k >= |s| then []
    else
      var (piece, next) := TokenAt(s, k);
      [piece] + TokensFrom(s, next)
  }

  /** The token starting at the non-blank index `k`, and the index after it. */
  function TokenAt(s: string, k: nat): (t: (string, nat))
    requires k < |s| && !IsWhitespace(s[k])
    ensures k < t.1 <= |s|
  {
    if IsQuote(s[k]) then
      var e := ScanTo(s, k + 1, s[k]);
      (s[k + 1..e], if e < |s| then e + 1 else e)
    else
      var e := ScanWord(s, k);
      (s[k..e], e)
  }

  function Tokenize(line: string): seq<string> {
    TokensFrom(line, 0)
  }

  /** A quoted token starting at the first non-blank index `k` runs to the matching quote `e`. */
  lemma QuotedStep(s: string, i: nat, k: nat, e: nat)
    requires i <= k < |s| && k == SkipSpace(s, i) && IsQuote(s[k]) && e == ScanTo(s, k + 1, s[k])
    ensures TokensFrom(s, i) == [s[k + 1..e]] + TokensFrom(s, if e < |s| then e + 1 else e)
  {
    assert TokenAt(s, k) == (s[k + 1..e], if e < |s| then e + 1 else e);
  }

  /** An unquoted token starting at the first non-blank index `k` runs to the next blank `e`. */
  lemma WordStep(s: string, i: nat, k: nat, e: nat)
    requires i <= k < |s| && k == SkipSpace(s, i) && !IsQuote(s[k]) && e == ScanWord(s, k)
    ensures TokensFrom(s, i) == [s[k..e]] + TokensFrom(s, e)
  {
  }

  /** An unclosed quote runs to the end of the line. */
  lemma UnclosedQuote(q: char, body: string)
    requires IsQuote(q) && q !in body
    ensures Tokenize([q] + body) == [body]
  {
    var s := [q] + body;
    assert SkipSpace(s, 0) == 0;
    var e := ScanTo(s, 1, q);
    QuotedStep(s, 0, 0, e);
    assert SkipSpace(s, |s|) == |s|;
    assert s[1..|s|] == body;
  }

  /** The whitespace-skipping loop of `tokenizeLine`. */
  method SkipBlanks(line: string, from: nat) returns (i: nat)
    requires from <= |line|
    ensures i == SkipSpace(line, from)
  {
    i := from;
    while i < |line| && IsWhitespace(line[i])
      invariant from <= i <= |line| && SkipSpace(line, i) == SkipSpace(line, from)
    {
      i := i + 1;
    }
  }

  /** The loop of `tokenizeLine` that reads a quoted token's body up to the closing quote. */
  method ScanQuoted(line: string, from: nat, quote: char) returns (i: nat)
    requires from <= |line|
    ensures i == ScanTo(line, from, quote)
  {
    i := from;
    while i < |line| && line[i] != quote
      invariant from <= i <= |line| && ScanTo(line, i, quote) == ScanTo(line, from, quote)
    {
      i := i + 1;
    }
  }

  /** The loop of `tokenizeLine` that reads an unquoted token up to the next blank. */
  method ScanUnquoted(line: string, from: nat) returns (i: nat)
    requires from <= |line|
    ensures i == ScanWord(line, from)
  {
    i := from;
    while i < |line| && !IsWhitespace(line[i])
      invariant from <= i <= |line| && ScanWord(line, i) == ScanWord(line, from)
    {
      i := i + 1;
    }
  }

  /** One token of `tokenizeLine`, read from its first non-blank index `k`. */
  method NextToken(line: string, i: nat, k: nat) returns (piece: string, j: nat)
    requires i <= k < |line| && k == SkipSpace(line, i)
    ensures k < j <= |line| && TokensFrom(line, i) == [piece] + TokensFrom(line, j)
  {
    if line[k] == '"' || line[k] == '\'' {
      piece, j := NextQuoted(line, i, k);
    } else {
      j := ScanUnquoted(line, k);
      WordStep(line, i, k, j);
      piece := line[k..j];
    }
  }

  /** A quoted token: its body runs to the closing quote, which is skipped, or to the end. */
  method NextQuoted(line: string, i: nat, k: nat) returns (piece: string, j: nat)
    requires i <= k < |line| && k == SkipSpace(line, i) && IsQuote(line[k])
    ensures k < j <= |line| && TokensFrom(line, i) == [piece] + TokensFrom(line, j)
  {
    var close := ScanQuoted(line, k + 1, line[k]);
    QuotedStep(line, i, k, close);
    piece := line[k + 1..close];
    j := if close < |line| then close + 1 else close;
  }

  /** `tokenizeLine(line)` */
  method TokenizeLine(line: string) returns (tokens: seq<string>)
    ensures tokens == Tokenize(line)
  {
    tokens := [];
    var i := 0;
    var len := |line|;
    while i < len
      invariant 0 <= i <= len && tokens + TokensFrom(line, i) == Tokenize(line)
      decreases len - i
    {
      var k := SkipBlanks(line, i);
      if k >= len {
        assert TokensFrom(line, i) == [];
        assert tokens + [] == tokens;
        break;
      }
      var piece;
      piece, i := NextToken(line, i, k);
      AppendAssoc(tokens, [piece], TokensFrom(line, i));
      tokens := tokens + [piece];
    }
  }

  // ---------------------------------------------------------------------------
  // parseLine
  // ---------------------------------------------------------------------------

  /** `' ' + w` for every word, in order. */
  function SpacedWords(words: seq<string>): string {
    if |words| == 0 then "" else SpacedWords(words[..|words| - 1]) + " " + words[|words| - 1]
  }

  lemma SpacedWordsSnoc(words: seq<string>, w: string)
    ensures SpacedWords(words + [w]) == SpacedWords(words) + (" " + w)
  {
    assert (words + [w])[..|words|] == words;
  }

  /** Taking one more word into a name. */
  lemma AbsorbWord(tokens: seq<string>, from: nat, j: nat, base: string)
    requires from <= j < |tokens|
    ensures base + SpacedWords(tokens[from..j + 1]) == (base + SpacedWords(tokens[from..j])) + (" " + tokens[j])
  {
    assert tokens[from..j + 1] == tokens[from..j] + [tokens[j]];
    SpacedWordsSnoc(tokens[from..j], tokens[j]);
  }

  /** The end of the run of plain words from `i`. */
  function PlainRun(tokens: seq<string>, i: nat): (j: nat)
    requires i <= |tokens|
    ensures i <= j <= |tokens| && (forall k :: i <= k < j ==> IsPlainWord(tokens[k]))
    ensures j < |tokens| ==> !IsPlainWord(tokens[j])
    decreases |tokens| - i
  {
    if i < |tokens| && IsPlainWord(tokens[i]) then PlainRun(tokens, i + 1) else i
  }

  /** A token that opens a multi-word name: one named member with a role, written with a colon. */
  predicate OpensName(token: string) {
    var parsed := ParseToken(token);
    |parsed| == 1 && parsed[0].role.Some? && parsed[0].name != "" && ':' in token
  }

  /** The members of the tokens from `i` on. */
  function LineMembers(tokens: seq<string>, i: nat): seq<GroupMember>
    requires i <= |tokens|
    decreases |tokens| - i
  {
    if i == |tokens| then []
    else if OpensName(tokens[i]) then
      var parsed := ParseToken(tokens[i]);
      var j := PlainRun(tokens, i + 1);
      [GroupMember(parsed[0].name + SpacedWords(tokens[i + 1..j]), parsed[0].role)] + LineMembers(tokens, j)
    else ParseToken(tokens[i]) + LineMembers(tokens, i + 1)
  }

  function ParsedLine(line: string): seq<GroupMember> {
    LineMembers(Tokenize(line), 0)
  }

  /** A name-opening token takes the following run of plain words into its member's name. */
  lemma OpenStep(tokens: seq<string>, i: nat, j: nat)
    requires i < |tokens| && OpensName(tokens[i]) && j == PlainRun(tokens, i + 1)
    ensures LineMembers(tokens, i)
            == [GroupMember(ParseToken(tokens[i])[0].name + SpacedWords(tokens[i + 1..j]), ParseToken(tokens[i])[0].role)]
               + LineMembers(tokens, j)
  {
  }

  /** Any other token contributes what it parses to on its own. */
  lemma TokenStep(tokens: seq<string>, i: nat)
    requires i < |tokens| && !OpensName(tokens[i])
    ensures LineMembers(tokens, i) == ParseToken(tokens[i]) + LineMembers(tokens, i + 1)
  {
  }

  /** The inner loop of `parseLine`: append the run of plain words from `from` to a name. */
  method AbsorbWords(tokens: seq<string>, from: nat, base: string) returns (name: string, j: nat)
    requires from <= |tokens|
    ensures j == PlainRun(tokens, from) && name == base + SpacedWords(tokens[from..j])
  {
    name := base;
    j := from;
    assert tokens[from..j] == [];
    while j < |tokens| && IsPlainWord(tokens[j])
      invariant from <= j <= |tokens| && PlainRun(tokens, j) == PlainRun(tokens, from)
      invariant name == base + SpacedWords(tokens[from..j])
    {
      AbsorbWord(tokens, from, j, base);
      name := name + (" " + tokens[j]);
      j := j + 1;
    }
  }

  /** One step of `parseLine`: the members of the token at `i`, with the words it absorbs. */
  method NextMembers(tokens: seq<string>, i: nat) returns (ms: seq<GroupMember>, j: nat)
    requires i < |tokens|
    ensures i < j <= |tokens| && LineMembers(tokens, i) == ms + LineMembers(tokens, j)
  {
    var token := tokens[i];
    var parsed := ParseToken(token);
    if |parsed| == 1 && parsed[0].role.Some? && parsed[0].name != "" && ':' in token {
      var name;
      name, j := AbsorbWords(tokens, i + 1, parsed[0].name);
      OpenStep(tokens, i, j);
      ms := [GroupMember(name, parsed[0].role)];
    } else {
      TokenStep(tokens, i);
      ms := parsed;
      j := i + 1;
    }
  }

  /** `parseLine(line)` */
  method ParseLine(line: string) returns (members: seq<GroupMember>)
    ensures members == ParsedLine(line)
  {
    var tokens := TokenizeLine(line);
    members := [];
    var i := 0;
    while i < |tokens|
      invariant 0 <= i <= |tokens| && members + LineMembers(tokens, i) == LineMembers(tokens, 0)
      decreases |tokens| - i
    {
      var ms, j := NextMembers(tokens, i);
      AppendAssoc(members, ms, LineMembers(tokens, j));
      members := members + ms;
      i := j;
    }
    assert members + [] == members;
  }

  lemma AppendAssoc<T>(a: seq<T>, b: seq<T>, c: seq<T>)
    ensures a + (b + c) == (a + b) + c
  {
  }

  // ---------------------------------------------------------------------------
  // parse
  // ---------------------------------------------------------------------------

  /** The members of every line, in order. */
  function LinesMembers(lines: seq<string>): seq<GroupMember> {
    if |lines| == 0 then [] else LinesMembers(lines[..|lines| - 1]) + ParsedLine(lines[|lines| - 1])
  }

  /** What `parse(text)` returns: nothing for blank text, else each line's members in order. */
  function ParseText(text: string): seq<GroupMember> {
    if Trim(text) == "" then [] else LinesMembers(SplitLines(text))
  }

  /** `parse(text)` */
  method Parse(text: string) returns (members: seq<GroupMember>)
    ensures members == ParseText(text)
  {
    if text == "" || Trim(text) == "" {
      return [];
    }
    members := [];
    var lines := SplitLines(text);
    for k := 0 to |lines|
      invariant members == LinesMembers(lines[..k])
    {
      var lineMembers := ParseLine(lines[k]);
      assert lines[..k + 1][..k] == lines[..k];
      members := members + lineMembers;
    }
    assert lines[..|lines|] == lines;
  }

  /** Blank text parses to no members. */
  lemma ParseBlank(text: string)
    requires AllWhitespace(text)
    ensures ParseText(text) == []
  {
    TrimEmptyIffBlank(text);
  }

  // ---------------------------------------------------------------------------
  // Name absorption and the round trip
  // ---------------------------------------------------------------------------

  /**
   * A role-prefixed named token followed by plain words yields one member whose
   * name is the token's name and the words, joined by single spaces.
   */
  lemma NameAbsorbsWords(tokens: seq<string>)
    requires |tokens| >= 1 && OpensName(tokens[0])
    requires forall k :: 1 <= k < |tokens| ==> IsPlainWord(tokens[k])
    ensures LineMembers(tokens, 0)
            == [GroupMember(ParseToken(tokens[0])[0].name + SpacedWords(tokens[1..]), ParseToken(tokens[0])[0].role)]
  {
    PlainRunAll(tokens, 1);
    OpenToEnd(tokens);
  }

  /** A name-opening token whose run of plain words reaches the end of the line. */
  lemma OpenToEnd(tokens: seq<string>)
    requires |tokens| >= 1 && OpensName(tokens[0])
    ensures PlainRun(tokens, 1) == |tokens| ==>
      LineMembers(tokens, 0)
      == [GroupMember(ParseToken(tokens[0])[0].name + SpacedWords(tokens[1..]), ParseToken(tokens[0])[0].role)]
  {
    if PlainRun(tokens, 1) == |tokens| {
      OpenStep(tokens, 0, |tokens|);
      assert tokens[1..|tokens|] == tokens[1..];
    }
  }

  lemma {:induction false} PlainRunAll(tokens: seq<string>, i: nat)
    requires i <= |tokens| && forall k :: i <= k < |tokens| ==> IsPlainWord(tokens[k])
    ensures PlainRun(tokens, i) == |tokens|
    decreases |tokens| - i
  {
    if i < |tokens| {
      PlainRunAll(tokens, i + 1);
    }
  }

  /** A token with no whitespace that does not open with a quote is read back whole. */
  lemma SingleToken(t: string)
    requires |t| > 0 && !IsQuote(t[0]) && forall k :: 0 <= k < |t| ==> !IsWhitespace(t[k])
    ensures Tokenize(t) == [t]
  {
    assert SkipSpace(t, 0) == 0;
    assert ScanWord(t, 0) == |t|;
    WordStep(t, 0, 0, |t|);
    assert SkipSpace(t, |t|) == |t|;
    assert t[0..|t|] == t;
  }

  /**
   * The members `serialize` and `parse` agree on: names hold no whitespace,
   * and a role-less name neither starts with a quote, nor holds a colon, nor
   * reads as a count.
   */
  predicate Serializable(m: GroupMember) {
    (forall k :: 0 <= k < |m.name| ==> !IsWhitespace(m.name[k]))
    && (m.role.None? && m.name != "" ==>
          !IsQuote(m.name[0]) && ':' !in m.name && !IsCounted(m.name) && !IsBareCount(m.name))
  }

  /** A line holding a single token parses as that token does on its own. */
  lemma SingleTokenLine(t: string)
    requires Tokenize(t) == [t]
    ensures ParsedLine(t) == ParseToken(t)
  {
    var tokens := [t];
    assert LineMembers(tokens, 1) == [];
    if OpensName(t) {
      var p := ParseToken(t);
      assert PlainRun(tokens, 1) == 1;
      OpenStep(tokens, 0, 1);
      assert tokens[1..1] == [];
      assert p[0].name + SpacedWords([]) == p[0].name;
      assert [GroupMember(p[0].name, p[0].role)] + [] == p;
    } else {
      TokenStep(tokens, 0);
      assert ParseToken(t) + [] == ParseToken(t);
    }
  }

  /** `P:name` with a resolving prefix `P` free of colons is that name with that role. */
  lemma PrefixedToken(prefix: string, name: string)
    requires ResolvePrefix(prefix).Some? && ':' !in prefix
    ensures ParseToken(prefix + ":" + name) == [GroupMember(name, ResolvePrefix(prefix))]
  {
    var t := prefix + ":" + name;
    assert t == prefix + [':'] + name;
    IndexOfJoined(prefix, ':', name);
    assert t[..|prefix|] == prefix && t[|prefix| + 1..] == name;
    assert !IsDigit(t[0]);
    assert LeadingDigits(t) == 0;
  }

  /** The one-member count `1` is one unnamed member without a role. */
  lemma BareOne()
    ensures ParseToken("1") == [GroupMember("", None)]
  {
    assert ParseDigits("1") == 1;
    assert LeadingDigits("1") == 1;
  }

  /** The one-member counted token `1P` is one unnamed member with `P`'s role. */
  lemma CountedOne(prefix: string)
    requires 1 <= |prefix| <= 2 && forall i :: 0 <= i < |prefix| ==> IsRoleChar(prefix[i])
    ensures ParseToken("1" + prefix) == [GroupMember("", ResolvePrefix(prefix))]
  {
    CountedToken("1", prefix);
    assert ParseDigits("1") == 1;
  }

  /** The token `serialize` writes for a member parses back to that member. */
  lemma ParseMemberToken(m: GroupMember)
    requires Serializable(m)
    ensures ParseToken(MemberLine(m)) == [m]
  {
    var prefix := RolePrefix(m.role);
    if m.role.Some? {
      ResolveRolePrefix(m.role.value);
    }
    if m.name != "" && prefix != "" {
      PrefixedToken(prefix, m.name);
    } else if m.name == "" && prefix != "" {
      CountedOne(prefix);
    } else if m.name == "" {
      BareOne();
    }
  }

  lemma MemberLineBlankFree(m: GroupMember)
    requires Serializable(m)
    ensures |MemberLine(m)| > 0 && !IsQuote(MemberLine(m)[0])
    ensures forall k :: 0 <= k < |MemberLine(m)| ==> !IsWhitespace(MemberLine(m)[k])
  {
    var prefix := RolePrefix(m.role);
    if m.name != "" && prefix != "" {
      var line := prefix + ":" + m.name;
      forall k | 0 <= k < |line|
        ensures !IsWhitespace(line[k])
      {
        if k > |prefix| {
          assert line[k] == m.name[k - |prefix| - 1];
        }
      }
    }
  }

  /** Every serialized line is a single token that parses back to its member. */
  lemma ParseMemberLine(m: GroupMember)
    requires Serializable(m)
    ensures ParsedLine(MemberLine(m)) == [m]
    ensures |MemberLine(m)| > 0 && !IsWhitespace(MemberLine(m)[0])
    ensures '\n' !in MemberLine(m) && '\r' !in MemberLine(m)
  {
    var line := MemberLine(m);
    MemberLineBlankFree(m);
    SingleToken(line);
    SingleTokenLine(line);
    ParseMemberToken(m);
  }

  lemma LinesMembersSnoc(lines: seq<string>, init: seq<string>, last: string, before: seq<GroupMember>, m: GroupMember)
    requires lines == init + [last] && LinesMembers(init) == before && ParsedLine(last) == [m]
    ensures LinesMembers(lines) == before + [m]
  {
    assert lines[..|lines| - 1] == init;
  }

  lemma MemberLinesSnoc(init: seq<GroupMember>, m: GroupMember)
    ensures MemberLines(init + [m]) == MemberLines(init) + [MemberLine(m)]
  {
  }

  lemma {:induction false} LinesMembersOfLines(members: seq<GroupMember>)
    requires forall k :: 0 <= k < |members| ==> Serializable(members[k])
    ensures LinesMembers(MemberLines(members)) == members
    decreases |members|
  {
    if |members| > 0 {
      var n := |members| - 1;
      LinesMembersOfLines(members[..n]);
      assert members == members[..n] + [members[n]];
      AppendMemberLine(members[..n], members[n]);
    }
  }

  /** Serialising one more member adds one line, which parses back to that member. */
  lemma AppendMemberLine(init: seq<GroupMember>, m: GroupMember)
    requires Serializable(m) && LinesMembers(MemberLines(init)) == init
    ensures LinesMembers(MemberLines(init + [m])) == init + [m]
  {
    ParseMemberLine(m);
    MemberLinesSnoc(init, m);
    LinesMembersSnoc(MemberLines(init + [m]), MemberLines(init), MemberLine(m), init, m);
  }

  /** `parse(serialize(members))` gives the members back. */
  lemma RoundTrip(members: seq<GroupMember>)
    requires forall k :: 0 <= k < |members| ==> Serializable(members[k])
    ensures ParseText(SerializeText(members)) == members
  {
    if |members| > 0 {
      var lines := MemberLines(members);
      var text := Join(lines, "\n");
      forall k | 0 <= k < |lines|
        ensures '\n' !in lines[k] && '\r' !in lines[k]
      {
        ParseMemberLine(members[k]);
      }
      SplitLinesJoin(lines);
      ParseMemberLine(members[0]);
      JoinStartsWithFirst(lines, "\n");
      assert text[0] == lines[0][0];
      TrimEmptyIffBlank(text);
      LinesMembersOfLines(members);
    }
  }
}
