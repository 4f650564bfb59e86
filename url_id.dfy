// The Veneer id format and the URL helpers of src/lib/google-document-util/url-id.ts.
// A Veneer id is `{prefix}.{id}`; the prefixes `s` and `f` name Google sheets and
// forms, `g`, `b` and `h` short links.

module UrlId {
  import opened Wrappers
  import opened JsString
  import opened UrlPatterns

  // ---------------------------------------------------------------------------
  // VENEER_ID_REGEX

  /** `[sfgbh]` */
  predicate IsVeneerPrefix(c: char) {
    c == 's' || c == 'f' || c == 'g' || c == 'b' || c == 'h'
  }

  /** `[a-zA-Z0-9_-]` */
  predicate IsIdChar(c: char) {
    ('a' <= c <= 'z') || ('A' <= c <= 'Z') || ('0' <= c <= '9') || c == '_' || c == '-'
  }

  /** `VENEER_ID_REGEX.test(s)`: `/^(?<prefix>[sfgbh])\.(?<id>[a-zA-Z0-9_-]+)$/` */
  predicate IsVeneerId(s: string) {
    |s| >= 3 && IsVeneerPrefix(s[0]) && s[1] == '.' && forall k :: 2 <= k < |s| ==> IsIdChar(s[k])
  }

  /** The `prefix` and `id` groups of a Veneer id, `None` when the regex fails. */
  function VeneerIdGroups(s: string): (g: Option<(char, string)>)
    ensures g.Some? <==> IsVeneerId(s)
    ensures g.Some? ==> s == [g.value.0] + "." + g.value.1
  {
    if IsVeneerId(s) then
      assert s == [s[0]] + "." + s[2..];
      Some((s[0], s[2..]))
    else None
  }

  /** The regex accepts exactly one prefix letter, a dot and a non-empty id. */
  lemma VeneerIdShape(p: char, id: string)
    ensures IsVeneerId([p] + "." + id) <==>
      IsVeneerPrefix(p) && |id| >= 1 && forall k :: 0 <= k < |id| ==> IsIdChar(id[k])
  {
    var s := [p] + "." + id;
    assert s[0] == p && s[1] == '.' && s[2..] == id;
    assert forall k :: 0 <= k < |id| ==> s[k + 2] == id[k];
  }

  /** `veneerId.split('.')` of a Veneer id is its prefix and its id. */
  lemma VeneerIdSplit(s: string)
    requires IsVeneerId(s)
    ensures Split(s, '.') == [s[..1], s[2..]]
  {
    assert '.' !in s[..1];
    assert '.' !in s[2..] by {
      forall k | 0 <= k < |s[2..]|
        ensures s[2..][k] != '.'
      {
        assert IsIdChar(s[k + 2]);
      }
    }
    assert s == s[..1] + ['.'] + s[2..];
    SplitJoin([s[..1], s[2..]], '.');
  }

  // ---------------------------------------------------------------------------
  // urlFromVeneerId

  /** `URL_TEMPLATES` */
  const UrlTemplates: map<string, string> := map[
    "s" := "https://docs.google.com/spreadsheets/d/{ID}",
    "f" := "https://docs.google.com/forms/d/e/{ID}/viewform",
    "g" := "https://forms.gle/{ID}",
    "b" := "https://bit.ly/{ID}",
    "h" := "https://shorturl.at/{ID}"
  ]

  /** The first position where `pat` occurs at or after `i`, -1 when none. */
  function IndexOfFrom(s: string, pat: string, i: nat): (k: int)
    ensures k == -1 || (i <= k && OccursAt(s, pat, k))
    ensures forall j :: i <= j && (k == -1 || j < k) ==> !OccursAt(s, pat, j)
    decreases |s| - i
  {
    if i + |pat| > |s| then -1
    else if s[i..i + |pat|] == pat then i
    else IndexOfFrom(s, pat, i + 1)
  }

  /** The replacement text `rep` after JavaScript's `$` patterns for a match of a string
      pattern (GetSubstitution in section 22.1.3.19.1 of ECMA-262): `$$` is a dollar sign,
      `$&` the matched text, `` $` `` the text before the match and `$'` the text after
      it.  A string pattern has no capture groups, so `$1` or `$<` stays as written. */
  function Substitute(rep: string, matched: string, before: string, after: string): (r: string)
    ensures '$' !in rep ==> r == rep
  {
    if |rep| == 0 then ""
    else if rep[0] == '$' && |rep| >= 2 && rep[1] == '$' then
      "$" + Substitute(rep[2..], matched, before, after)
    else if rep[0] == '$' && |rep| >= 2 && rep[1] == '&' then
      matched + Substitute(rep[2..], matched, before, after)
    else if rep[0] == '$' && |rep| >= 2 && rep[1] == '`' then
      before + Substitute(rep[2..], matched, before, after)
    else if rep[0] == '$' && |rep| >= 2 && rep[1] == '\'' then
      after + Substitute(rep[2..], matched, before, after)
    else
      [rep[0]] + Substitute(rep[1..], matched, before, after)
  }

  /** `s.replace(pat, rep)` with a string pattern: the first occurrence is replaced by
      `rep` with its `$` patterns expanded. */
  function ReplaceFirst(s: string, pat: string, rep: string): (r: string)
    ensures IndexOfFrom(s, pat, 0) == -1 ==> r == s
  {
    var k := IndexOfFrom(s, pat, 0);
    if k < 0 then s else s[..k] + Substitute(rep, pat, s[..k], s[k + |pat|..]) + s[k + |pat|..]
  }

  /** `makeGoogleSheetUrl(id)`: the sheets API address of a sheet.  The encoded query
      (the requested range, fields and key) does not depend on the id. */
  function SheetApiUrl(id: string, query: string): string {
    "https://sheets.googleapis.com/v4/spreadsheets/" + id + "?" + query
  }

  /** `urlFromVeneerId(veneerId, apiUrl)`.  An input without a dot leaves `id`
      undefined: reading its length throws, and substituting it writes `undefined`;
      an unknown prefix has no template and `.replace` throws. */
  function UrlFromVeneerId(veneerId: string, apiUrl: bool, query: string): (r: Result<string, string>)
  {
    var parts := Split(veneerId, '.');
    var prefix := parts[0];
    if apiUrl && prefix == "s" && |parts| < 2 then Err("TypeError: id is undefined")
    else if apiUrl && prefix == "s" && Length(parts[1]) == 44 then Ok(SheetApiUrl(parts[1], query))
    else if prefix !in UrlTemplates then Err("TypeError: no URL template for prefix " + prefix)
    else Ok(ReplaceFirst(UrlTemplates[prefix], "{ID}", if |parts| < 2 then "undefined" else parts[1]))
  }

  /** The text of each template around its `{ID}`. */
  function TemplateAround(p: char): (string, string) {
    match p
    case 's' => ("https://docs.google.com/spreadsheets/d/", "")
    case 'f' => ("https://docs.google.com/forms/d/e/", "/viewform")
    case 'g' => ("https://forms.gle/", "")
    case 'b' => ("https://bit.ly/", "")
    case _ => ("https://shorturl.at/", "")
  }

  lemma {:induction false} NoBraceNoOccurrence(before: string, after: string, i: nat)
    requires '{' !in before && i <= |before|
    ensures IndexOfFrom(before + "{ID}" + after, "{ID}", i) == |before|
    decreases |before| - i
  {
    var s := before + "{ID}" + after;
    assert s[|before|..|before| + 4] == "{ID}";
    if i < |before| {
      assert s[i] == before[i] && s[i] != '{';
      assert s[i..i + 4][0] == s[i];
      NoBraceNoOccurrence(before, after, i + 1);
    }
  }

  /** Replacing the first `{ID}` of a template whose text before it has no brace: the
      id, its `$` patterns expanded against that occurrence, goes between the halves. */
  lemma ReplaceTemplate(before: string, after: string, id: string)
    requires '{' !in before
    ensures ReplaceFirst(before + "{ID}" + after, "{ID}", id) ==
      before + Substitute(id, "{ID}", before, after) + after
  {
    var s := before + "{ID}" + after;
    NoBraceNoOccurrence(before, after, 0);
    assert s[..|before|] == before;
    assert s[|before| + 4..] == after;
  }

  lemma TemplateS()
    ensures "s" in UrlTemplates && UrlTemplates["s"] == TemplateAround('s').0 + "{ID}" + TemplateAround('s').1
    ensures '{' !in TemplateAround('s').0
  {
    assert TemplateAround('s') == ("https://docs.google.com/spreadsheets/d/", "");
  }

  lemma TemplateF()
    ensures "f" in UrlTemplates && UrlTemplates["f"] == TemplateAround('f').0 + "{ID}" + TemplateAround('f').1
    ensures '{' !in TemplateAround('f').0
  {
    assert TemplateAround('f') == ("https://docs.google.com/forms/d/e/", "/viewform");
  }

  lemma TemplateG()
    ensures "g" in UrlTemplates && UrlTemplates["g"] == TemplateAround('g').0 + "{ID}" + TemplateAround('g').1
    ensures '{' !in TemplateAround('g').0
  {
    assert TemplateAround('g') == ("https://forms.gle/", "");
  }

  lemma TemplateB()
    ensures "b" in UrlTemplates && UrlTemplates["b"] == TemplateAround('b').0 + "{ID}" + TemplateAround('b').1
    ensures '{' !in TemplateAround('b').0
  {
    assert TemplateAround('b') == ("https://bit.ly/", "");
  }

  lemma TemplateH()
    ensures "h" in UrlTemplates && UrlTemplates["h"] == TemplateAround('h').0 + "{ID}" + TemplateAround('h').1
    ensures '{' !in TemplateAround('h').0
  {
    assert TemplateAround('h') == ("https://shorturl.at/", "");
  }

  lemma TemplateOf(p: char)
    requires IsVeneerPrefix(p)
    ensures [p] in UrlTemplates && '{' !in TemplateAround(p).0
    ensures UrlTemplates[[p]] == TemplateAround(p).0 + "{ID}" + TemplateAround(p).1
  {
    if p == 's' {
      assert [p] == "s";
      TemplateS();
    } else if p == 'f' {
      assert [p] == "f";
      TemplateF();
    } else if p == 'g' {
      assert [p] == "g";
      TemplateG();
    } else if p == 'b' {
      assert [p] == "b";
      TemplateB();
    } else {
      assert [p] == "h";
      TemplateH();
    }
  }

  /** A sheet id of 44 code units asked for with `apiUrl` gives the sheets API address. */
  lemma ApiUrlOfSheet(id: string, query: string)
    requires IsVeneerId("s." + id) && Length(id) == 44
    ensures UrlFromVeneerId("s." + id, true, query) == Ok(SheetApiUrl(id, query))
  {
    var s := "s." + id;
    VeneerIdSplit(s);
    assert s[..1] == "s" && s[2..] == id;
  }

  /** Every other Veneer id gives its template with the id in place of `{ID}`. */
  lemma TemplateUrlOfVeneerId(p: char, id: string, apiUrl: bool, query: string)
    requires IsVeneerId([p] + "." + id)
    requires !(apiUrl && p == 's' && Length(id) == 44)
    ensures UrlFromVeneerId([p] + "." + id, apiUrl, query) ==
      Ok(TemplateAround(p).0 + id + TemplateAround(p).1)
  {
    var s := [p] + "." + id;
    VeneerIdShape(p, id);
    assert '.' !in id by {
      forall k | 0 <= k < |id| ensures id[k] != '.' { assert IsIdChar(id[k]); }
    }
    assert '$' !in id by {
      forall k | 0 <= k < |id| ensures id[k] != '$' { assert IsIdChar(id[k]); }
    }
    TemplateUrlOfId(p, id, apiUrl, query);
  }

  /** Any dot-free id under a known prefix, such as one taken from a document address,
      gives its template with the id, `$` patterns expanded, in place of `{ID}`. */
  lemma TemplateUrlOfId(p: char, id: string, apiUrl: bool, query: string)
    requires IsVeneerPrefix(p) && '.' !in id
    requires !(apiUrl && p == 's' && Length(id) == 44)
    ensures UrlFromVeneerId([p] + "." + id, apiUrl, query) ==
      Ok(TemplateAround(p).0 + Substitute(id, "{ID}", TemplateAround(p).0, TemplateAround(p).1) +
         TemplateAround(p).1)
  {
    var s := [p] + "." + id;
    assert s == Join([[p], id], ".");
    SplitJoin([[p], id], '.');
    TemplateOf(p);
    ReplaceTemplate(TemplateAround(p).0, TemplateAround(p).1, id);
  }

  /** `$&` in a replacement stands for the matched text. */
  lemma DollarAmpersand(before: string, after: string)
    ensures Substitute("a$&b", "{ID}", before, after) == "a{ID}b"
  {
    var tail := "$&b";
    assert tail[0] == '$' && tail[1] == '&' && tail[2..] == "b";
    assert Substitute(tail, "{ID}", before, after) == "{ID}" + Substitute("b", "{ID}", before, after);
    assert "a$&b"[0] == 'a' && "a$&b"[1..] == tail;
  }

  /** A sheet id holding `$&` puts the placeholder itself back into the address. */
  lemma DollarAmpersandId(id: string, query: string)
    requires id == "a$&b"
    ensures UrlFromVeneerId("s." + id, false, query) ==
      Ok("https://docs.google.com/spreadsheets/d/" + "a{ID}b")
  {
    assert "s." + id == ['s'] + "." + id;
    assert '.' !in id;
    TemplateUrlOfId('s', id, false, query);
    var (before, after) := TemplateAround('s');
    assert before == "https://docs.google.com/spreadsheets/d/" && after == "";
    DollarAmpersand(before, after);
    assert Substitute(id, "{ID}", before, after) == "a{ID}b";
    assert before + "a{ID}b" + after == before + "a{ID}b";
  }

  /** A prefix without a template is an error. */
  lemma UnknownPrefixFails(veneerId: string, apiUrl: bool, query: string)
    requires Split(veneerId, '.')[0] !in UrlTemplates
    ensures UrlFromVeneerId(veneerId, apiUrl, query).Err?
  {
  }

  // ---------------------------------------------------------------------------
  // googleDocumentIdFromUrl

  /** `DOCUMENT_URL_REGEX.s`: a docs or sheets-API spreadsheet address, then `d/`,
      `d/e/` or neither, then an id of one or more characters other than `?` and `/`.
      The optional parts are tried longest first, as the regex backtracks. */
  function MatchSheetUrl(url: string): (m: Option<Captured>)
    ensures m.Some? ==> |m.value.id| >= 1 && '?' !in m.value.id && '/' !in m.value.id
  {
    var host :=
      if MatchesAt(url, "https://docs.google.com/spreadsheets/", 0) then 37
      else if MatchesAt(url, "https://sheets.googleapis.com/v4/spreadsheets/", 0) then 46
      else 0;
    if host == 0 then None else SheetIdAfter(url, host)
  }

  /** `(d\/(e\/)?)?(?<id>[^?/]+)` at `host`. */
  function SheetIdAfter(url: string, host: nat): (m: Option<Captured>)
    requires host <= |url|
    ensures m.Some? ==> |m.value.id| >= 1 && '?' !in m.value.id && '/' !in m.value.id
  {
    var stops := {'?', '/'};
    if MatchesAt(url, "d/e/", host) && RunFrom(url, host + 4, stops) >= 1 then
      Some(CaptureAt(url, host + 4, stops))
    else if MatchesAt(url, "d/", host) && RunFrom(url, host + 2, stops) >= 1 then
      Some(CaptureAt(url, host + 2, stops))
    else if RunFrom(url, host, stops) >= 1 then Some(CaptureAt(url, host, stops))
    else None
  }

  /** `DOCUMENT_URL_REGEX.f`: a form address, then an id of one or more characters
      other than `/`. */
  function MatchFormUrl(url: string): (m: Option<Captured>)
    ensures m.Some? ==> |m.value.id| >= 1 && '/' !in m.value.id
  {
    if MatchesAt(url, "https://docs.google.com/forms/d/e/", 0) && RunFrom(url, 34, {'/'}) >= 1 then
      Some(CaptureAt(url, 34, {'/'}))
    else None
  }

  /** `googleDocumentIdFromUrl(url)`: the loop over `GOOGLE_FORM_OR_SHEET_REGEX`
      tries the sheet pattern before the form one and returns `prefix.id` for the first
      match, `null` when neither matches. */
  function GoogleDocumentIdFromUrl(url: string): Option<string> {
    match MatchSheetUrl(url)
    case Some(c) => Some("s." + c.id)
    case None =>
      match MatchFormUrl(url)
      case Some(c) => Some("f." + c.id)
      case None => None
  }

  /** A character outside the Basic Multilingual Plane where `docs.google.com` has its
      first unescaped dot: the source's `.` takes only its high surrogate, so neither
      pattern matches and no id is found. */
  lemma AstralHostRejected(c: char, rest: string)
    requires !IsSingleUnit(c)
    ensures GoogleDocumentIdFromUrl("https://docs" + [c] + rest).None?
  {
    var url := "https://docs" + [c] + rest;
    assert url[8] == 'd' && url[12] == c;
    var docs := "https://docs.google.com/spreadsheets/";
    assert docs[12] == '.' && !CharMatches(url[12], docs[12]);
    var api := "https://sheets.googleapis.com/v4/spreadsheets/";
    assert api[8] == 's' && !CharMatches(url[8], api[8]);
    var form := "https://docs.google.com/forms/d/e/";
    assert form[12] == '.' && !CharMatches(url[12], form[12]);
  }

  /** A sheet address and a form address are never confused. */
  lemma SheetAndFormDisjoint(url: string)
    ensures !(MatchSheetUrl(url).Some? && MatchFormUrl(url).Some?)
  {
    DisjointAt(url, "https://docs.google.com/spreadsheets/", "https://docs.google.com/forms/d/e/", 0, 24);
    DisjointAt(url, "https://sheets.googleapis.com/v4/spreadsheets/", "https://docs.google.com/forms/d/e/", 0, 8);
  }

  /** Since the two patterns never both match, the order of the tries does not matter:
      the result names a sheet exactly when the sheet pattern matches, and a form
      exactly when the form pattern does. */
  lemma DocumentIdFromUrlIff(url: string, id: string)
    ensures GoogleDocumentIdFromUrl(url) == Some("s." + id) <==>
      MatchSheetUrl(url).Some? && MatchSheetUrl(url).value.id == id
    ensures GoogleDocumentIdFromUrl(url) == Some("f." + id) <==>
      MatchFormUrl(url).Some? && MatchFormUrl(url).value.id == id
    ensures GoogleDocumentIdFromUrl(url).None? <==> MatchSheetUrl(url).None? && MatchFormUrl(url).None?
  {
    SheetAndFormDisjoint(url);
    var r := GoogleDocumentIdFromUrl(url);
    if r.Some? {
      assert r.value[..2] == "s." || r.value[..2] == "f.";
      assert ("s." + id)[..2] == "s." && ("f." + id)[..2] == "f.";
      assert ("s." + id)[2..] == id && ("f." + id)[2..] == id;
      if MatchSheetUrl(url).Some? {
        assert r.value[2..] == MatchSheetUrl(url).value.id;
      } else {
        assert r.value[2..] == MatchFormUrl(url).value.id;
      }
    }
  }

  /** A document id found in an address is a Veneer-style id whose id part is the
      captured text; a sheet id has neither `?` nor `/`, a form id has no `/`. */
  lemma FoundIdShape(url: string)
    requires GoogleDocumentIdFromUrl(url).Some?
    ensures var r := GoogleDocumentIdFromUrl(url).value;
      |r| >= 3 && (r[0] == 's' || r[0] == 'f') && r[1] == '.' &&
      (r[0] == 's' ==> '?' !in r[2..] && '/' !in r[2..]) && '/' !in r[2..]
  {
    var r := GoogleDocumentIdFromUrl(url).value;
    if MatchSheetUrl(url).Some? {
      assert r[2..] == MatchSheetUrl(url).value.id;
    } else {
      SheetAndFormDisjoint(url);
      assert r[2..] == MatchFormUrl(url).value.id;
    }
  }
}
