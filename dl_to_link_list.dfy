// The definition-list rewriting of src/lib/markdown/dl-to-link-list.ts: a term followed
// by a single `~ URL` line becomes a Markdown link item, and blank lines between link
// items are dropped.

module LinkList {
  import opened Wrappers
  import opened JsString
  import opened SheetData

  predicate IsDefLine(line: string) {
    StartsWith(line, "~")
  }

  /** The end of the run of definition lines starting at `j`. */
  function DefsEnd(lines: seq<string>, j: nat): (e: nat)
    requires j <= |lines|
    ensures j <= e <= |lines|
    ensures forall k :: j <= k < e ==> IsDefLine(lines[k])
    ensures e == |lines| || !IsDefLine(lines[e])
    decreases |lines| - j
  {
    if j < |lines| && IsDefLine(lines[j]) then DefsEnd(lines, j + 1) else j
  }

  /** The position of the first whitespace character, or the length. */
  function FirstWhitespace(s: string): (k: nat)
    ensures k <= |s| && (forall i :: 0 <= i < k ==> !IsWhitespace(s[i]))
    ensures k == |s| || IsWhitespace(s[k])
  {
    if |s| == 0 || IsWhitespace(s[0]) then 0 else 1 + FirstWhitespace(s[1..])
  }

  predicate IsHttpUrl(url: string) {
    (StartsWith(url, "http://") && |url| > 7) || (StartsWith(url, "https://") && |url| > 8)
  }

  /** The captured URL of `/^~\s*(https?:\/\/\S+)\s*$/`: after the `~` and any
      whitespace, a run without whitespace that starts with `http://` or `https://`
      and has something after it, followed by nothing but whitespace. */
  function DefinitionUrl(def: string): (r: Option<string>)
    ensures r.Some? ==> IsHttpUrl(r.value) && forall k :: 0 <= k < |r.value| ==> !IsWhitespace(r.value[k])
  {
    if !IsDefLine(def) then None
    else
      var rest := TrimStart(def[1..]);
      var k := FirstWhitespace(rest);
      var url := rest[..k];
      if AllWhitespace(rest[k..]) && IsHttpUrl(url) then Some(url) else None
  }

  /** `- [term](url)` */
  function LinkLine(term: string, url: string): string {
    "- [" + term + "](" + url + ")"
  }

  /** The first pass from line `i` on: a term followed by `~` lines is one block,
      rewritten as a link when it holds a single URL definition and kept as it is
      otherwise; any other line is copied. */
  function ListifyFrom(lines: seq<string>, i: nat): seq<string>
    requires i <= |lines|
    decreases |lines| - i
  {
    if i == |lines| then []
    else if i + 1 < |lines| && IsDefLine(lines[i + 1]) then
      var j := DefsEnd(lines, i + 1);
      Block(lines[i], lines[i + 1..j]) + ListifyFrom(lines, j)
    else [lines[i]] + ListifyFrom(lines, i + 1)
  }

  /** A term with its definition lines: one link item when there is a single URL
      definition, the lines unchanged otherwise. */
  function Block(term: string, defs: seq<string>): seq<string> {
    if |defs| == 1 && DefinitionUrl(defs[0]).Some? then [LinkLine(term, DefinitionUrl(defs[0]).value)]
    else [term] + defs
  }

  /** The final pass drops a blank line between two lines starting with `- `. */
  predicate DropsBlank(line: string, prev: string, next: string) {
    Trim(line) == "" && StartsWith(prev, "- ") && StartsWith(next, "- ")
  }

  /** `joined[k + 1] || ''` */
  function NextOf(joined: seq<string>, k: nat): string {
    if k + 1 < |joined| then joined[k + 1] else ""
  }

  /** The last kept line, `''` when none is kept yet. */
  function LastKept(joined: seq<string>, idx: seq<int>): string
    requires forall a :: 0 <= a < |idx| ==> 0 <= idx[a] < |joined|
  {
    if |idx| == 0 then "" else joined[idx[|idx| - 1]]
  }

  /** The positions among the first `n` lines that a pass keeps when it drops a line
      as `drop` says, given the line, the last kept line and the next line. */
  function Kept(joined: seq<string>, n: nat, drop: (string, string, string) -> bool): (idx: seq<int>)
    requires n <= |joined|
    ensures forall a :: 0 <= a < |idx| ==> 0 <= idx[a] < n
    ensures forall a, b :: 0 <= a < b < |idx| ==> idx[a] < idx[b]
  {
    if n == 0 then []
    else
      var prev := Kept(joined, n - 1, drop);
      if drop(joined[n - 1], LastKept(joined, prev), NextOf(joined, n - 1)) then prev
      else prev + [n - 1]
  }

  /** `linkListifyDefinitionList`, as a function of the input. */
  function LinkListify(markdown: string): string {
    var out := ListifyFrom(SplitLines(markdown), 0);
    var joined := Split(Join(out, "\n"), '\n');
    Join(Select(joined, Kept(joined, |joined|, DropsBlank)), "\n")
  }

  /** `linkListifyDefinitionList` */
  method LinkListifyDefinitionList(markdown: string) returns (r: string)
    ensures r == LinkListify(markdown)
  {
    var lines := SplitLines(markdown);
    var out := ListifyLines(lines);
    var joined := Split(Join(out, "\n"), '\n');
    var finalLines := RemoveBlanks(joined);
    r := Join(finalLines, "\n");
  }

  /** The first loop over the lines. */
  method ListifyLines(lines: seq<string>) returns (out: seq<string>)
    ensures out == ListifyFrom(lines, 0)
  {
    out := [];
    var i := 0;
    while i < |lines|
      invariant 0 <= i <= |lines|
      invariant out + ListifyFrom(lines, i) == ListifyFrom(lines, 0)
      decreases |lines| - i
    {
      var term := lines[i];
      if i + 1 < |lines| && StartsWith(lines[i + 1], "~") {
        var defs, j := CollectDefinitions(lines, i + 1);
        var block := Block(term, defs);
        assert out + ListifyFrom(lines, i) == (out + block) + ListifyFrom(lines, j);
        out := out + block;
        i := j;
      } else {
        assert out + ListifyFrom(lines, i) == (out + [term]) + ListifyFrom(lines, i + 1);
        out := out + [term];
        i := i + 1;
      }
    }
  }

  /** The inner loop gathering the `~` lines from `start` on. */
  method CollectDefinitions(lines: seq<string>, start: nat) returns (defs: seq<string>, j: nat)
    requires start <= |lines|
    ensures j == DefsEnd(lines, start) && defs == lines[start..j]
  {
    defs := [];
    j := start;
    while j < |lines| && StartsWith(lines[j], "~")
      invariant start <= j <= |lines|
      invariant defs == lines[start..j]
      invariant DefsEnd(lines, j) == DefsEnd(lines, start)
      decreases |lines| - j
    {
      defs := defs + [lines[j]];
      j := j + 1;
    }
  }

  lemma KeptNext(joined: seq<string>, k: nat, drop: (string, string, string) -> bool, d: bool)
    requires k < |joined|
    ensures d == drop(joined[k], LastKept(joined, Kept(joined, k, drop)), NextOf(joined, k)) ==>
      Kept(joined, k + 1, drop) == if d then Kept(joined, k, drop) else Kept(joined, k, drop) + [k]
  {
  }

  lemma SelectAppend(xs: seq<string>, idx: seq<int>, i: nat)
    requires i < |xs| && forall a :: 0 <= a < |idx| ==> 0 <= idx[a] < |xs|
    ensures Select(xs, idx + [i]) == Select(xs, idx) + [xs[i]]
  {
  }

  /** The final loop, dropping blank lines between link items. */
  method RemoveBlanks(joined: seq<string>) returns (finalLines: seq<string>)
    ensures finalLines == Select(joined, Kept(joined, |joined|, DropsBlank))
  {
    finalLines := [];
    ghost var kept: seq<int> := [];
    for k := 0 to |joined|
      invariant kept == Kept(joined, k, DropsBlank)
      invariant finalLines == Select(joined, kept)
    {
      finalLines, kept := RemoveBlankStep(joined, k, finalLines, kept);
    }
  }

  /** One line of the final loop. */
  method RemoveBlankStep(joined: seq<string>, k: nat, finalLines: seq<string>, ghost kept: seq<int>)
    returns (finalLines': seq<string>, ghost kept': seq<int>)
    requires k < |joined| && kept == Kept(joined, k, DropsBlank)
    requires finalLines == Select(joined, kept)
    ensures finalLines' == Select(joined, Kept(joined, k + 1, DropsBlank))
    ensures kept' == Kept(joined, k + 1, DropsBlank)
  {
    var line := joined[k];
    var prev := if |finalLines| > 0 then finalLines[|finalLines| - 1] else "";
    var next := if k + 1 < |joined| then joined[k + 1] else "";
    assert prev == LastKept(joined, kept) && next == NextOf(joined, k);
    var drop := DropsBlank(line, prev, next);
    KeptNext(joined, k, DropsBlank, drop);
    finalLines', kept' := finalLines, kept;
    if !drop {
      SelectAppend(joined, kept, k);
      finalLines' := finalLines + [line];
      kept' := kept + [k];
    }
  }

  // ---------------------------------------------------------------------------
  // Properties of the first pass

  /** A single `~ URL` line after a term becomes one link item. */
  lemma SingleUrlDefinition(lines: seq<string>, i: nat)
    requires i + 1 < |lines| && IsDefLine(lines[i + 1])
    requires i + 2 == |lines| || !IsDefLine(lines[i + 2])
    requires DefinitionUrl(lines[i + 1]).Some?
    ensures ListifyFrom(lines, i) ==
      [LinkLine(lines[i], DefinitionUrl(lines[i + 1]).value)] + ListifyFrom(lines, i + 2)
  {
    assert DefsEnd(lines, i + 2) == i + 2;
    assert DefsEnd(lines, i + 1) == i + 2;
    assert lines[i + 1..i + 2] == [lines[i + 1]];
    BlockSingle(lines[i], lines[i + 1]);
  }

  lemma BlockSingle(term: string, def: string)
    requires DefinitionUrl(def).Some?
    ensures Block(term, [def]) == [LinkLine(term, DefinitionUrl(def).value)]
  {
  }

  /** A term with two or more `~` lines, or with one that is not a URL definition, is
      kept with those lines. */
  lemma KeptBlock(lines: seq<string>, i: nat)
    requires i + 1 < |lines| && IsDefLine(lines[i + 1])
    requires DefsEnd(lines, i + 1) - (i + 1) >= 2 || DefinitionUrl(lines[i + 1]).None?
    ensures var j := DefsEnd(lines, i + 1);
      ListifyFrom(lines, i) == lines[i..j] + ListifyFrom(lines, j)
  {
    var j := DefsEnd(lines, i + 1);
    var defs := lines[i + 1..j];
    assert defs[0] == lines[i + 1];
    BlockUnchanged(lines[i], defs);
    ConsSlice(lines, i, j);
  }

  lemma BlockUnchanged(term: string, defs: seq<string>)
    requires |defs| >= 2 || (|defs| == 1 && DefinitionUrl(defs[0]).None?)
    ensures Block(term, defs) == [term] + defs
  {
  }

  lemma ConsSlice(xs: seq<string>, i: nat, j: nat)
    requires i < j <= |xs|
    ensures xs[i..j] == [xs[i]] + xs[i + 1..j]
  {
  }

  /** A line not followed by a `~` line is copied. */
  lemma PassThrough(lines: seq<string>, i: nat)
    requires i < |lines| && !(i + 1 < |lines| && IsDefLine(lines[i + 1]))
    ensures ListifyFrom(lines, i) == [lines[i]] + ListifyFrom(lines, i + 1)
  {
  }

  /** Text without definition lines passes the first pass unchanged. */
  lemma {:induction false} NoDefinitionsUnchanged(lines: seq<string>, i: nat)
    requires i <= |lines| && forall k :: 0 <= k < |lines| ==> !IsDefLine(lines[k])
    ensures ListifyFrom(lines, i) == lines[i..]
    decreases |lines| - i
  {
    if i < |lines| {
      NoDefinitionsUnchanged(lines, i + 1);
      assert lines[i..] == [lines[i]] + lines[i + 1..];
    }
  }

  /** A URL line written `~ URL` gives that URL back. */
  lemma DefinitionUrlOf(url: string)
    requires IsHttpUrl(url) && forall k :: 0 <= k < |url| ==> !IsWhitespace(url[k])
    ensures DefinitionUrl("~ " + url) == Some(url)
  {
    var def := "~ " + url;
    assert def[1..] == " " + url;
    var rest := TrimStart(def[1..]);
    assert rest == TrimStart(url);
    assert rest == url;
    var k := FirstWhitespace(rest);
    assert k == |url|;
    assert rest[..k] == url;
  }

  predicate NoBreaks(ls: seq<string>) {
    forall k :: 0 <= k < |ls| ==> '\n' !in ls[k]
  }

  lemma NoBreaksAppend(a: seq<string>, b: seq<string>)
    requires NoBreaks(a) && NoBreaks(b)
    ensures NoBreaks(a + b)
  {
  }

  /** A URL definition's URL comes from its line. */
  lemma UrlNoBreak(def: string)
    requires '\n' !in def && DefinitionUrl(def).Some?
    ensures '\n' !in DefinitionUrl(def).value
  {
    var rest := TrimStart(def[1..]);
    var url := rest[..FirstWhitespace(rest)];
    assert forall c :: c in url ==> c in rest;
    assert forall c :: c in rest ==> c in def;
  }

  lemma LinkLineNoBreak(term: string, url: string)
    requires '\n' !in term && '\n' !in url
    ensures '\n' !in LinkLine(term, url)
  {
  }

  /** The first pass never produces a line break inside a line. */
  lemma {:induction false} ListifyNoBreaks(lines: seq<string>, i: nat)
    requires i <= |lines| && NoBreaks(lines)
    ensures NoBreaks(ListifyFrom(lines, i))
    decreases |lines| - i
  {
    if i < |lines| {
      if i + 1 < |lines| && IsDefLine(lines[i + 1]) {
        var j := DefsEnd(lines, i + 1);
        ListifyNoBreaks(lines, j);
        BlockNoBreaks(lines[i], lines[i + 1..j]);
        NoBreaksAppend(Block(lines[i], lines[i + 1..j]), ListifyFrom(lines, j));
      } else {
        ListifyNoBreaks(lines, i + 1);
        NoBreaksAppend([lines[i]], ListifyFrom(lines, i + 1));
      }
    }
  }

  lemma BlockNoBreaks(term: string, defs: seq<string>)
    requires '\n' !in term && NoBreaks(defs)
    ensures NoBreaks(Block(term, defs))
  {
    if |defs| == 1 && DefinitionUrl(defs[0]).Some? {
      UrlNoBreak(defs[0]);
      LinkLineNoBreak(term, DefinitionUrl(defs[0]).value);
    } else {
      assert NoBreaks([term] + defs);
    }
  }

  /** The first pass keeps at least one line, since the split gives at least one. */
  lemma {:induction false} ListifyNonEmpty(lines: seq<string>, i: nat)
    requires i < |lines|
    ensures |ListifyFrom(lines, i)| >= 1
  {
  }

  /** The join and split between the passes change nothing. */
  lemma JoinedIsOut(markdown: string)
    ensures var out := ListifyFrom(SplitLines(markdown), 0);
      Split(Join(out, "\n"), '\n') == out
  {
    var lines := SplitLines(markdown);
    ListifyNoBreaks(lines, 0);
    ListifyNonEmpty(lines, 0);
    SplitJoin(ListifyFrom(lines, 0), '\n');
  }

  // ---------------------------------------------------------------------------
  // Properties of the final pass

  /** Only blank lines are ever dropped. */
  lemma NonBlankKept(joined: seq<string>, n: nat, k: nat)
    requires n <= |joined| && k < n && Trim(joined[k]) != ""
    ensures k in Kept(joined, n, DropsBlank)
  {
    NeverDroppedKept(joined, n, k, DropsBlank);
  }

  /** A line that `drop` rejects whatever its neighbours is kept. */
  lemma {:induction false} NeverDroppedKept(joined: seq<string>, n: nat, k: nat, drop: (string, string, string) -> bool)
    requires n <= |joined| && k < n && forall p, q :: !drop(joined[k], p, q)
    ensures k in Kept(joined, n, drop)
  {
    var prev := Kept(joined, n - 1, drop);
    KeptNext(joined, n - 1, drop, drop(joined[n - 1], LastKept(joined, prev), NextOf(joined, n - 1)));
    if k < n - 1 {
      NeverDroppedKept(joined, n - 1, k, drop);
    }
  }

  /** A line is dropped exactly when it is blank, the line kept last before it starts
      with `- ` and the line after it starts with `- `. */
  lemma DroppedIff(joined: seq<string>, k: nat)
    requires k < |joined|
    ensures k !in Kept(joined, k + 1, DropsBlank) <==>
      DropsBlank(joined[k], LastKept(joined, Kept(joined, k, DropsBlank)), NextOf(joined, k))
  {
    var prev := Kept(joined, k, DropsBlank);
    assert forall a :: 0 <= a < |prev| ==> prev[a] < k;
  }

  lemma KeptStep(joined: seq<string>, n: nat, drop: (string, string, string) -> bool)
    requires 0 < n <= |joined|
    ensures Kept(joined, n, drop) == Kept(joined, n - 1, drop) ||
      Kept(joined, n, drop) == Kept(joined, n - 1, drop) + [n - 1]
  {
  }

  /** A decision once made is not revisited by later lines. */
  lemma {:induction false} KeptStable(joined: seq<string>, k: nat, n: nat, drop: (string, string, string) -> bool)
    requires k < n <= |joined|
    ensures k in Kept(joined, n, drop) <==> k in Kept(joined, k + 1, drop)
    decreases n
  {
    if n > k + 1 {
      KeptStable(joined, k, n - 1, drop);
      KeptStep(joined, n, drop);
    }
  }
}
