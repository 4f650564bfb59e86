// The `DocumentId` class of src/lib/common.ts: recognising a Google sheet, Google form
// or short-link address, and keeping its id and a canonical address.

module DocumentIds {
  import opened Wrappers
  import opened JsString
  import opened UrlPatterns

  /** The keys of `documentIdRegex`, in their order. */
  datatype Prefix = S | F | G | B | H

  const Prefixes: seq<Prefix> := [S, F, G, B, H]

  function Letter(p: Prefix): string {
    match p
    case S => "s"
    case F => "f"
    case G => "g"
    case B => "b"
    case H => "h"
  }

  /** The fixed start of each pattern's `beforeId` group. */
  function BeforeIdPattern(p: Prefix): string {
    match p
    case S => "https://docs.google.com/spreadsheets/"
    case F => "https://docs.google.com/forms/d/e/"
    case G => "https://forms.gle/"
    case B => "https://bit.ly/"
    case H => "https://shorturl.at/"
  }

  /** The greedy `(d\/(e\/)?)?` that ends the sheet pattern's `beforeId`. */
  function SheetPathLength(url: string, k: nat): (n: nat)
    ensures n == 0 || n == 2 || n == 4
    ensures k + n <= |url| || n == 0
  {
    if MatchesAt(url, "d/e/", k) then 4 else if MatchesAt(url, "d/", k) then 2 else 0
  }

  /** `url.match(documentIdRegex[p])`: the `beforeId` and the (possibly empty) `id`
      made of characters other than `/`. */
  function MatchDocument(url: string, p: Prefix): (m: Option<Captured>)
    ensures m.Some? <==> MatchesAt(url, BeforeIdPattern(p), 0)
    ensures m.Some? ==> '/' !in m.value.id && m.value.beforeId + m.value.id <= url
  {
    var pat := BeforeIdPattern(p);
    if !MatchesAt(url, pat, 0) then None
    else
      var start := |pat| + if p == S then SheetPathLength(url, |pat|) else 0;
      var c := CaptureAt(url, start, {'/'});
      Some(c)
  }

  /** The fields of a `DocumentId`. */
  datatype Fields = Fields(
    url: string, urlOrig: string, id: string, idForm: Option<string>, idSheet: Option<string>)

  function Initial(url: string): Fields {
    Fields(url, url, "", None, None)
  }

  /** The loop body for a matching pattern. */
  function Step(f: Fields, p: Prefix, c: Captured): Fields {
    var id := Letter(p) + "." + c.id;
    match p
    case S =>
      var url := if Length(c.id) == 44 then "https://docs.google.com/spreadsheets/d/" + c.id else f.url;
      Fields(url, f.urlOrig, id, f.idForm, Some(c.id))
    case F =>
      var url := if Length(c.id) == 56 then "https://docs.google.com/forms/d/e/" + c.id + "/viewform" else f.url;
      Fields(url, f.urlOrig, id, Some(c.id), f.idSheet)
    case _ => Fields(c.beforeId + c.id, f.urlOrig, id, f.idForm, f.idSheet)
  }

  /** What each pattern of `documentIdRegex` matches in `url`, in order. */
  function Matches(url: string): (ms: seq<Option<Captured>>)
    ensures |ms| == |Prefixes| && forall k :: 0 <= k < |Prefixes| ==> ms[k] == MatchDocument(url, Prefixes[k])
  {
    seq(|Prefixes|, k requires 0 <= k < |Prefixes| => MatchDocument(url, Prefixes[k]))
  }

  /** The fields after the loop has tried the first `n` patterns, the `k`th having
      matched as `ms[k]` says. */
  function FieldsAfter(init: Fields, ms: seq<Option<Captured>>, n: nat): Fields
    requires n <= |ms| <= |Prefixes|
  {
    if n == 0 then init
    else
      var f := FieldsAfter(init, ms, n - 1);
      match ms[n - 1]
      case None => f
      case Some(c) => Step(f, Prefixes[n - 1], c)
  }

  /** The fields a `DocumentId` built from `url` ends with. */
  function DocumentIdOf(url: string): Fields {
    FieldsAfter(Initial(url), Matches(url), |Prefixes|)
  }

  class DocumentId {
    var url: string
    var urlOrig: string
    var id: string
    var idForm: Option<string>
    var idSheet: Option<string>

    function State(): Fields
      reads this
    {
      Fields(url, urlOrig, id, idForm, idSheet)
    }

    /** `new DocumentId(url)` */
    constructor(url: string)
      ensures State() == DocumentIdOf(url)
    {
      this.urlOrig := url;
      this.url := url;
      this.id := "";
      this.idForm := None;
      this.idSheet := None;
      new;
      for i := 0 to |Prefixes|
        invariant State() == FieldsAfter(Initial(url), Matches(url), i)
      {
        TryPattern(url, i);
      }
    }

    /** One turn of the constructor's loop: the `i`th pattern. */
    method TryPattern(url: string, i: nat)
      requires i < |Prefixes| && State() == FieldsAfter(Initial(url), Matches(url), i)
      modifies this
      ensures State() == FieldsAfter(Initial(url), Matches(url), i + 1)
    {
      var m := MatchDocument(url, Prefixes[i]);
      assert Matches(url)[i] == m;
      if m.Some? {
        ApplyMatch(Prefixes[i], m.value.id, m.value.beforeId);
      }
    }

    /** The loop body for a match of the pattern `prefix`. */
    method ApplyMatch(prefix: Prefix, matchId: string, matchBeforeId: string)
      modifies this
      ensures State() == Step(old(State()), prefix, Captured(matchBeforeId, matchId))
    {
      ghost var before := State();
      if prefix == S {
        this.idSheet := Some(matchId);
        if Length(matchId) == 44 {
          this.url := "https://docs.google.com/spreadsheets/d/" + matchId;
        }
      } else if prefix == F {
        this.idForm := Some(matchId);
        if Length(matchId) == 56 {
          this.url := "https://docs.google.com/forms/d/e/" + matchId + "/viewform";
        }
      } else {
        this.url := matchBeforeId + matchId;
      }
      this.id := Letter(prefix) + "." + matchId;
      StepFields(before, State(), prefix, Captured(matchBeforeId, matchId));
    }
  }

  /** The fields the constructor's loop body leaves, in terms of the ones it found. */
  lemma StepFields(before: Fields, after: Fields, p: Prefix, c: Captured)
    requires after.urlOrig == before.urlOrig && after.id == Letter(p) + "." + c.id
    requires after.idSheet == (if p == S then Some(c.id) else before.idSheet)
    requires after.idForm == (if p == F then Some(c.id) else before.idForm)
    requires after.url == match p
      case S => if Length(c.id) == 44 then "https://docs.google.com/spreadsheets/d/" + c.id else before.url
      case F => if Length(c.id) == 56 then "https://docs.google.com/forms/d/e/" + c.id + "/viewform" else before.url
      case _ => c.beforeId + c.id
    ensures after == Step(before, p, c)
  {
  }

  // ---------------------------------------------------------------------------
  // Properties

  /** The patterns start with different fixed characters, so at most one matches. */
  lemma PatternsDisjoint(url: string, p: Prefix, q: Prefix)
    requires p != q
    ensures !(MatchDocument(url, p).Some? && MatchDocument(url, q).Some?)
  {
    var pp, qq := BeforeIdPattern(p), BeforeIdPattern(q);
    if (p == S && q == F) || (p == F && q == S) {
      DisjointAt(url, pp, qq, 0, 24);
    } else {
      DisjointAt(url, pp, qq, 0, 8);
    }
  }

  /** At most one entry is a match. */
  predicate AtMostOne(ms: seq<Option<Captured>>) {
    forall j, k :: 0 <= j < k < |ms| ==> !(ms[j].Some? && ms[k].Some?)
  }

  lemma MatchesAtMostOne(url: string)
    ensures AtMostOne(Matches(url))
  {
    var ms := Matches(url);
    forall j, k | 0 <= j < k < |ms|
      ensures !(ms[j].Some? && ms[k].Some?)
    {
      PatternsDisjoint(url, Prefixes[j], Prefixes[k]);
    }
  }

  /** `urlOrig` is never reassigned. */
  lemma {:induction false} UrlOrigKept(init: Fields, ms: seq<Option<Captured>>, n: nat)
    requires n <= |ms| <= |Prefixes|
    ensures FieldsAfter(init, ms, n).urlOrig == init.urlOrig
  {
    if n > 0 {
      UrlOrigKept(init, ms, n - 1);
    }
  }

  lemma {:induction false} NoMatchesBetween(init: Fields, ms: seq<Option<Captured>>, i: nat, j: nat)
    requires i <= j <= |ms| <= |Prefixes|
    requires forall k :: i <= k < j ==> ms[k].None?
    ensures FieldsAfter(init, ms, j) == FieldsAfter(init, ms, i)
    decreases j - i
  {
    if i < j {
      NoMatchesBetween(init, ms, i, j - 1);
    }
  }

  /** With at most one match, the result is that one loop body applied to the start. */
  lemma OnlyMatchIn(init: Fields, ms: seq<Option<Captured>>, k: nat)
    requires k < |ms| == |Prefixes| && ms[k].Some? && AtMostOne(ms)
    ensures FieldsAfter(init, ms, |ms|) == Step(init, Prefixes[k], ms[k].value)
  {
    NoMatchesBetween(init, ms, 0, k);
    NoMatchesBetween(init, ms, k + 1, |ms|);
  }

  /** The address given is kept in `urlOrig`. */
  lemma UrlOrigIsInput(url: string)
    ensures DocumentIdOf(url).urlOrig == url
  {
    UrlOrigKept(Initial(url), Matches(url), |Prefixes|);
  }

  /** Without a match, `id` stays empty and `url` is the input. */
  lemma NoMatchKeepsInput(url: string)
    requires forall p :: MatchDocument(url, p).None?
    ensures DocumentIdOf(url) == Initial(url)
  {
    NoMatchesBetween(Initial(url), Matches(url), 0, |Prefixes|);
  }

  /** A character outside the Basic Multilingual Plane where `bit.ly` has its dot: the
      source's `.` takes only its high surrogate, so no pattern matches and the object
      keeps the address with an empty `id`. */
  lemma AstralShortLinkIgnored(c: char, rest: string)
    requires !IsSingleUnit(c)
    ensures DocumentIdOf("https://bit" + [c] + rest) == Initial("https://bit" + [c] + rest)
  {
    var url := "https://bit" + [c] + rest;
    assert url[8] == 'b' && url[11] == c;
    forall p
      ensures MatchDocument(url, p).None?
    {
      var pat := BeforeIdPattern(p);
      if p == B {
        assert pat[11] == '.' && !CharMatches(url[11], pat[11]);
      } else {
        assert pat[8] != 'b' && !CharMatches(url[8], pat[8]);
      }
    }
    NoMatchKeepsInput(url);
  }

  /** With a match, the result is that one pattern's loop body applied to the input. */
  lemma OnlyMatchCounts(url: string, k: nat)
    requires k < |Prefixes| && MatchDocument(url, Prefixes[k]).Some?
    ensures DocumentIdOf(url) == Step(Initial(url), Prefixes[k], MatchDocument(url, Prefixes[k]).value)
  {
    MatchesAtMostOne(url);
    OnlyMatchIn(Initial(url), Matches(url), k);
  }

  /** A sheet address sets `idSheet`, and the canonical address only for a 44-unit id. */
  lemma SheetFields(url: string)
    requires MatchDocument(url, S).Some?
    ensures var c, f := MatchDocument(url, S).value, DocumentIdOf(url);
      f.idSheet == Some(c.id) && f.idForm.None? && f.id == "s." + c.id && f.urlOrig == url &&
      f.url == (if Length(c.id) == 44 then "https://docs.google.com/spreadsheets/d/" + c.id else url)
  {
    OnlyMatchCounts(url, 0);
    SheetStep(Initial(url), MatchDocument(url, S).value);
  }

  /** A form address sets `idForm`, and the canonical address only for a 56-unit id. */
  lemma FormFields(url: string)
    requires MatchDocument(url, F).Some?
    ensures var c, f := MatchDocument(url, F).value, DocumentIdOf(url);
      f.idForm == Some(c.id) && f.idSheet.None? && f.id == "f." + c.id && f.urlOrig == url &&
      f.url == (if Length(c.id) == 56 then "https://docs.google.com/forms/d/e/" + c.id + "/viewform" else url)
  {
    OnlyMatchCounts(url, 1);
    FormStep(Initial(url), MatchDocument(url, F).value);
  }

  /** A short link keeps the matched text, `beforeId + id`, a prefix of the input. */
  lemma ShortLinkFields(url: string, k: nat)
    requires 2 <= k < |Prefixes| && MatchDocument(url, Prefixes[k]).Some?
    ensures var c, f := MatchDocument(url, Prefixes[k]).value, DocumentIdOf(url);
      f.url == c.beforeId + c.id && f.url <= url && f.id == Letter(Prefixes[k]) + "." + c.id &&
      f.idForm.None? && f.idSheet.None? && f.urlOrig == url
  {
    OnlyMatchCounts(url, k);
    ShortPrefix(k);
    ShortStep(Initial(url), Prefixes[k], MatchDocument(url, Prefixes[k]).value);
  }

  lemma ShortPrefix(k: nat)
    requires 2 <= k < |Prefixes|
    ensures Prefixes[k] != S && Prefixes[k] != F
  {
    if k == 2 {
      assert Prefixes[k] == G;
    } else if k == 3 {
      assert Prefixes[k] == B;
    } else {
      assert Prefixes[k] == H;
    }
  }

  lemma SheetStep(f: Fields, c: Captured)
    ensures Step(f, S, c) == Fields(
      if Length(c.id) == 44 then "https://docs.google.com/spreadsheets/d/" + c.id else f.url,
      f.urlOrig, "s." + c.id, f.idForm, Some(c.id))
  {
    assert Letter(S) + "." == "s.";
  }

  lemma FormStep(f: Fields, c: Captured)
    ensures Step(f, F, c) == Fields(
      if Length(c.id) == 56 then "https://docs.google.com/forms/d/e/" + c.id + "/viewform" else f.url,
      f.urlOrig, "f." + c.id, Some(c.id), f.idSheet)
  {
    assert Letter(F) + "." == "f.";
  }

  lemma ShortStep(f: Fields, p: Prefix, c: Captured)
    requires p != S && p != F
    ensures Step(f, p, c) == Fields(c.beforeId + c.id, f.urlOrig, Letter(p) + "." + c.id, f.idForm, f.idSheet)
  {
  }
}
