// The per-cell passes of the sheet pipeline (padNumericRenders, ghostLeadingZeros and
// hidePhoneNumbers in src/lib/google-document-util/sheet-data-pipeline.svelte.ts).
// Each visits every cell with the record in its column slot and rewrites the cell; a
// cell belongs to one row only, so cells are values here.

module CellRenders {
  import opened JsString
  import opened FieldPatterns
  import opened SheetPipe

  /** The inner loop over one row's cells. */
  method MapRow(row: seq<Cell>, f: (nat, Cell) -> Cell) returns (out: seq<Cell>)
    ensures |out| == |row| && forall j :: 0 <= j < |row| ==> out[j] == f(j, row[j])
  {
    out := [];
    for j := 0 to |row|
      invariant |out| == j && forall k :: 0 <= k < j ==> out[k] == f(k, row[k])
    {
      out := out + [f(j, row[j])];
    }
  }

  /** The nested `for ... of rows` / `for ... of row.entries()` loops: `f` rewrites the
      cell at column index `j`. */
  method MapCells(rows: seq<seq<Cell>>, f: (nat, Cell) -> Cell) returns (out: seq<seq<Cell>>)
    ensures |out| == |rows|
    ensures forall r :: 0 <= r < |rows| ==>
      |out[r]| == |rows[r]| && forall j :: 0 <= j < |rows[r]| ==> out[r][j] == f(j, rows[r][j])
  {
    out := [];
    for r := 0 to |rows|
      invariant |out| == r
      invariant forall i :: 0 <= i < r ==>
        |out[i]| == |rows[i]| && forall j :: 0 <= j < |rows[i]| ==> out[i][j] == f(j, rows[i][j])
    {
      var row := MapRow(rows[r], f);
      out := out + [row];
    }
  }

  // ---------------------------------------------------------------------------
  // padNumericRenders

  function Zeros(n: nat): (z: string)
    ensures |z| == n && forall k :: 0 <= k < n ==> z[k] == '0'
  {
    seq(n, _ => '0')
  }

  /** `s.padStart(n, '0')`, lengths in code units. */
  function PadStart(s: string, n: int): string {
    if Length(s) >= n then s else Zeros(n - Length(s)) + s
  }

  /** Padding keeps the text at the end, puts only zeros in front of it, and makes the
      result exactly `n` long unless the text is longer already. */
  lemma PadStartShape(s: string, n: int)
    ensures var p := PadStart(s, n);
      |p| >= |s| && p[|p| - |s|..] == s &&
      (forall k :: 0 <= k < |p| - |s| ==> p[k] == '0') &&
      Length(p) == (if Length(s) >= n then Length(s) else n)
  {
    if Length(s) < n {
      var z := Zeros(n - Length(s));
      BmpLength(z);
      CodeUnitsAppend(z, s);
      assert (z + s)[|z + s| - |s|..] == s;
    }
  }

  /** A non-empty value of a numeric column without a timestamp is shown padded with
      zeros to the column's longest length. */
  function PadCell(cell: Cell, col: ColumnState): Cell {
    if cell.value != "" && col.isNumeric && !HasTimestamp(cell) then
      cell.(render := PadStart(cell.value, col.lengthMax))
    else cell
  }

  /** `padNumericRenders` */
  method PadNumericRenders(p: Pipe) returns (q: Pipe)
    requires Fits(p)
    ensures q.extra == p.extra && q.columns == p.columns && |q.rows| == |p.rows|
    ensures forall r :: 0 <= r < |p.rows| ==>
      |q.rows[r]| == |p.rows[r]| &&
      forall j :: 0 <= j < |p.rows[r]| ==> q.rows[r][j] == PadCell(p.rows[r][j], State(p.columns[j]))
  {
    var states := States(p.columns);
    var rows := MapCells(p.rows, (j: nat, cell: Cell) => if j < |states| then PadCell(cell, states[j]) else cell);
    q := Pipe(p.extra, p.columns, rows);
  }

  // ---------------------------------------------------------------------------
  // ghostLeadingZeros

  /** The length of the run of `0` that `^0*` matches. */
  function LeadingZeros(s: string): (k: nat)
    ensures k <= |s| && (forall i :: 0 <= i < k ==> s[i] == '0') && (k == |s| || s[k] != '0')
  {
    if |s| == 0 || s[0] != '0' then 0 else 1 + LeadingZeros(s[1..])
  }

  /** `s.replace(/^0*\/, '<gz>$&</gz>')`: the leading zeros, possibly none, wrapped. */
  function GhostZeros(s: string): string {
    var k := LeadingZeros(s);
    "<gz>" + s[..k] + "</gz>" + s[k..]
  }

  /** Taking the markup away gives the text back; the wrapped part is all zeros and
      what follows it does not start with one. */
  lemma GhostZerosShape(s: string)
    ensures var g := GhostZeros(s); var k := LeadingZeros(s);
      |g| == |s| + 9 && g[..4] == "<gz>" && g[4 + k..9 + k] == "</gz>" &&
      g[4..4 + k] + g[9 + k..] == s &&
      (forall i :: 4 <= i < 4 + k ==> g[i] == '0') && (9 + k == |g| || g[9 + k] != '0')
  {
    var k := LeadingZeros(s);
    var g := GhostZeros(s);
    assert g == "<gz>" + s[..k] + "</gz>" + s[k..];
    assert g[4..4 + k] == s[..k];
    assert g[9 + k..] == s[k..];
    assert s[..k] + s[k..] == s;
  }

  function GhostCell(cell: Cell, col: ColumnState): Cell {
    if col.isNumeric && !HasTimestamp(cell) then cell.(render := GhostZeros(cell.render)) else cell
  }

  /** `ghostLeadingZeros` */
  method GhostLeadingZeros(p: Pipe) returns (q: Pipe)
    requires Fits(p)
    ensures q.extra == p.extra && q.columns == p.columns && |q.rows| == |p.rows|
    ensures forall r :: 0 <= r < |p.rows| ==>
      |q.rows[r]| == |p.rows[r]| &&
      forall j :: 0 <= j < |p.rows[r]| ==> q.rows[r][j] == GhostCell(p.rows[r][j], State(p.columns[j]))
  {
    var states := States(p.columns);
    var rows := MapCells(p.rows, (j: nat, cell: Cell) => if j < |states| then GhostCell(cell, states[j]) else cell);
    q := Pipe(p.extra, p.columns, rows);
  }

  // ---------------------------------------------------------------------------
  // hidePhoneNumbers

  /** `/(contact)|(연락)/i` */
  predicate IsContactTitle(title: string) {
    ContainsIgnoringCase(title, "contact") || ContainsIgnoringCase(title, "연락")
  }

  /** `s.replaceAll(/[0-9]/g, '*')` */
  function MaskDigits(s: string): (m: string)
    ensures |m| == |s|
    ensures forall k :: 0 <= k < |s| ==> m[k] == (if IsDigit(s[k]) then '*' else s[k])
  {
    seq(|s|, k requires 0 <= k < |s| => if IsDigit(s[k]) then '*' else s[k])
  }

  /** Masking leaves no digit, changes nothing else and keeps the `.length`. */
  lemma {:induction false} MaskDigitsShape(s: string)
    ensures forall k :: 0 <= k < |s| ==> !IsDigit(MaskDigits(s)[k])
    ensures Length(MaskDigits(s)) == Length(s)
  {
    if |s| > 0 {
      var init := s[..|s| - 1];
      MaskDigitsShape(init);
      assert MaskDigits(s)[..|s| - 1] == MaskDigits(init);
      assert |UnitsOf(MaskDigits(s)[|s| - 1])| == |UnitsOf(s[|s| - 1])|;
    }
  }

  function HideCell(cell: Cell, col: ColumnState): Cell {
    if IsContactTitle(col.title) then
      cell.(value := MaskDigits(cell.value), render := MaskDigits(cell.render))
    else cell
  }

  /** `hidePhoneNumbers` */
  method HidePhoneNumbers(p: Pipe) returns (q: Pipe)
    requires Fits(p)
    ensures q.extra == p.extra && q.columns == p.columns && |q.rows| == |p.rows|
    ensures forall r :: 0 <= r < |p.rows| ==>
      |q.rows[r]| == |p.rows[r]| &&
      forall j :: 0 <= j < |p.rows[r]| ==> q.rows[r][j] == HideCell(p.rows[r][j], State(p.columns[j]))
  {
    var states := States(p.columns);
    var rows := MapCells(p.rows, (j: nat, cell: Cell) => if j < |states| then HideCell(cell, states[j]) else cell);
    q := Pipe(p.extra, p.columns, rows);
  }

  /** In a contact column no digit is left in a cell's value or render, and both keep
      their lengths; other columns are untouched. */
  lemma HideCellShape(cell: Cell, col: ColumnState)
    ensures var h := HideCell(cell, col);
      h.ts == cell.ts &&
      Length(h.value) == Length(cell.value) && Length(h.render) == Length(cell.render) &&
      (IsContactTitle(col.title) ==>
        (forall k :: 0 <= k < |h.value| ==> !IsDigit(h.value[k])) &&
        (forall k :: 0 <= k < |h.render| ==> !IsDigit(h.render[k]))) &&
      (!IsContactTitle(col.title) ==> h == cell)
  {
    MaskDigitsShape(cell.value);
    MaskDigitsShape(cell.render);
  }
}
