// The dance-event stage of the sheet pipeline (collectExtraDance in
// src/lib/google-document-util/sheet-data-pipeline.svelte.ts): find the dance columns,
// count leaders and follows, and put the newest rows first.

module DanceExtra {
  import opened JsString
  import opened SheetData
  import opened FieldPatterns
  import opened SheetPipe

  function TitlesOf(states: seq<ColumnState>): (ts: seq<string>)
    ensures |ts| == |states| && forall k :: 0 <= k < |states| ==> ts[k] == states[k].title
  {
    seq(|states|, k requires 0 <= k < |states| => states[k].title)
  }

  /** `findIndex` from position `i` on: the first title at or after `i` that `pred`
      accepts, -1 when there is none. */
  function FindTitle(titles: seq<string>, pred: string -> bool, i: nat): (r: int)
    ensures r == -1 || i <= r < |titles|
    ensures r == -1 <==> forall k :: i <= k < |titles| ==> !pred(titles[k])
    ensures r >= 0 ==> pred(titles[r]) && forall k :: i <= k < r ==> !pred(titles[k])
    decreases |titles| - i
  {
    if i >= |titles| then -1
    else if pred(titles[i]) then i
    else FindTitle(titles, pred, i + 1)
  }

  /** The role, name, paid and wish columns. */
  function DanceColumnsOf(titles: seq<string>): DanceColumns {
    DanceColumns(FindTitle(titles, DanceRole, 0), FindTitle(titles, DanceName, 0),
                 FindTitle(titles, DancePaid, 0), FindTitle(titles, DanceWish, 0))
  }

  /** `row[ci.role]?.value` as a regular expression reads it: a missing cell is
      `undefined`, compared as the string `"undefined"`. */
  function RoleText(row: seq<Cell>, role: int): string {
    if 0 <= role < |row| then row[role].value else "undefined"
  }

  /** The rows whose role cell `pred` accepts, as `rows.filter(...)` keeps them. */
  function RowsWithRole(rows: seq<seq<Cell>>, role: int, pred: string -> bool): (idx: seq<int>)
    ensures forall r :: r in idx <==> 0 <= r < |rows| && pred(RoleText(rows[r], role))
    ensures |idx| <= |rows|
  {
    KeptIndices(|rows|, r => 0 <= r < |rows| && pred(RoleText(rows[r], role)), 0)
  }

  function Reverse<T>(s: seq<T>): (r: seq<T>)
    ensures |r| == |s| && forall k :: 0 <= k < |s| ==> r[k] == s[|s| - 1 - k]
  {
    seq(|s|, k requires 0 <= k < |s| => s[|s| - 1 - k])
  }

  /** `collectExtraDance`: without a name or a role column the pipe is returned as it
      is; otherwise `extra` records the columns and the counts, and the rows are
      reversed. */
  function CollectExtraDance(p: Pipe): (q: Pipe)
    reads set c | c in p.columns
    ensures q.columns == p.columns
    ensures var ci := DanceColumnsOf(TitlesOf(States(p.columns)));
      if ci.name == -1 || ci.role == -1 then q == p
      else
        q.rows == Reverse(p.rows) &&
        q.extra == DanceEvent(DanceCount(|p.rows|,
                                         |RowsWithRole(p.rows, ci.role, DanceFollow)|,
                                         |RowsWithRole(p.rows, ci.role, DanceLeader)|), ci)
  {
    var ci := DanceColumnsOf(TitlesOf(States(p.columns)));
    if ci.name == -1 || ci.role == -1 then p
    else
      var count := DanceCount(|p.rows|, |RowsWithRole(p.rows, ci.role, DanceFollow)|,
                              |RowsWithRole(p.rows, ci.role, DanceLeader)|);
      Pipe(DanceEvent(count, ci), p.columns, Reverse(p.rows))
  }

  // ---------------------------------------------------------------------------
  // Properties

  /** A row without a role cell is counted neither as a follow nor as a leader. */
  lemma MissingRoleNotCounted(rows: seq<seq<Cell>>, role: int, r: int)
    requires 0 <= r < |rows| && !(0 <= role < |rows[r]|)
    ensures r !in RowsWithRole(rows, role, DanceFollow)
    ensures r !in RowsWithRole(rows, role, DanceLeader)
  {
    UndefinedIsNoFollow();
    UndefinedIsNoLeader();
  }

  /** `"undefined"` does not match the follow pattern. */
  lemma UndefinedIsNoFollow()
    ensures !DanceFollow("undefined")
  {
    UndefinedLacks("follow", 1);
    UndefinedLacks("팔뤄", 0);
    UndefinedLacks("팔로우", 0);
    UndefinedLacks("팔로워", 0);
  }

  /** `"undefined"` does not match the leader pattern. */
  lemma UndefinedIsNoLeader()
    ensures !DanceLeader("undefined")
  {
    UndefinedLacks("lead", 0);
    UndefinedLacks("리더", 0);
    UndefinedLacks("리드", 0);
  }

  /** A pattern with a letter that `"undefined"` lacks does not occur in it. */
  lemma UndefinedLacks(pat: string, j: nat)
    requires j < |pat| && pat[j] !in "undefined"
    ensures !ContainsIgnoringCase("undefined", pat)
  {
    UndefinedIsLowerCase();
    MissingLetter("undefined", pat, j);
  }

  /** `"undefined"` is spelt with six lower-case letters, which lower-casing keeps. */
  lemma UndefinedIsLowerCase()
    ensures forall k :: 0 <= k < |"undefined"| ==>
      LowerChar("undefined"[k]) == "undefined"[k] &&
      "undefined"[k] in ['u', 'n', 'd', 'e', 'f', 'i']
  {
  }

  /** A text lacking one of the pattern's letters, in either case, does not contain it. */
  lemma {:induction false} MissingLetter(s: string, pat: string, j: nat)
    requires j < |pat| && forall k :: 0 <= k < |s| ==> LowerChar(s[k]) != pat[j]
    ensures !ContainsIgnoringCase(s, pat)
    decreases |s|
  {
    if |pat| <= |s| {
      assert AsciiLower(s[..|pat|])[j] != pat[j];
      if |s| > 0 {
        MissingLetter(s[1..], pat, j);
      }
    }
  }

  /** The counts never exceed the total, and the found columns carry the patterns they
      were looked up by (the first such column). */
  lemma DanceExtraShape(p: Pipe)
    ensures var q := CollectExtraDance(p);
      var titles := TitlesOf(States(p.columns));
      var ci := DanceColumnsOf(titles);
      ci.name != -1 && ci.role != -1 ==>
        q.extra.DanceEvent? &&
        q.extra.count.follows <= q.extra.count.total == |p.rows| &&
        q.extra.count.leaders <= q.extra.count.total &&
        0 <= q.extra.ci.role < |titles| && DanceRole(titles[q.extra.ci.role]) &&
        0 <= q.extra.ci.name < |titles| && DanceName(titles[q.extra.ci.name])
  {
    var titles := TitlesOf(States(p.columns));
    var ci := DanceColumnsOf(titles);
    if !(ci.name == -1 || ci.role == -1) {
      assert CollectExtraDance(p).extra.ci == ci;
    }
  }

  /** Reversing twice gives the rows back. */
  lemma ReverseReverse<T>(s: seq<T>)
    ensures Reverse(Reverse(s)) == s
  {
  }
}
