// The structural stages of the sheet pipeline
// (src/lib/google-document-util/sheet-data-pipeline.svelte.ts): the pipe of column
// records and rows, and the stages that add, relabel or drop rows and columns.

module SheetPipe {
  import opened Wrappers
  import opened JsString
  import opened SheetData
  import ExcelColumn

  /** `Number.MAX_SAFE_INTEGER` */
  const MaxSafeInteger: int := 9007199254740991

  /** A column record.  The stages update records in place, and several slots of a pipe's
      `columns` may hold the same record. */
  class Column {
    var title: string
    var isNumeric: bool
    var lengthMin: int
    var lengthMax: int

    constructor (title: string, isNumeric: bool, lengthMin: int, lengthMax: int)
      ensures this.title == title && this.isNumeric == isNumeric
      ensures this.lengthMin == lengthMin && this.lengthMax == lengthMax
    {
      this.title := title;
      this.isNumeric := isNumeric;
      this.lengthMin := lengthMin;
      this.lengthMax := lengthMax;
    }
  }

  /** The fields of a column record at one moment. */
  datatype ColumnState = ColumnState(title: string, isNumeric: bool, lengthMin: int, lengthMax: int)

  function State(c: Column): ColumnState
    reads c
  {
    ColumnState(c.title, c.isNumeric, c.lengthMin, c.lengthMax)
  }

  function States(columns: seq<Column>): (r: seq<ColumnState>)
    reads set c | c in columns
    ensures |r| == |columns| && forall j :: 0 <= j < |columns| ==> r[j] == State(columns[j])
  {
    seq(|columns|, j requires 0 <= j < |columns| reads set c | c in columns => State(columns[j]))
  }

  /** A cell of the pipe: its text, its timestamp (truthy when present and non-zero) and
      the text shown for it. */
  datatype Cell = Cell(value: string, ts: Option<int>, render: string)

  predicate HasTimestamp(cell: Cell) {
    cell.ts.Some? && cell.ts.value != 0
  }

  /** The column indices found by `collectExtraDance`, -1 where absent. */
  datatype DanceColumns = DanceColumns(role: int, name: int, paid: int, wish: int)

  datatype DanceCount = DanceCount(total: nat, follows: nat, leaders: nat)

  /** The pipe's `extra`: the sheet's time zone, or what `collectExtraDance` found. */
  datatype Extra = TimeZone(timeZone: string) | DanceEvent(count: DanceCount, ci: DanceColumns)

  /** `{ extra, columns, rows }` */
  datatype Pipe = Pipe(extra: Extra, columns: seq<Column>, rows: seq<seq<Cell>>)

  /** Every cell has a column record: the stages that look up `columns[ci]` for each
      cell need this, and every stage keeps it. */
  predicate Fits(p: Pipe) {
    forall r :: 0 <= r < |p.rows| ==> |p.rows[r]| <= |p.columns|
  }

  /** The `DEFAULT_COLUMN` record. */
  method NewDefaultColumn() returns (c: Column)
    ensures fresh(c) && State(c) == ColumnState("", true, MaxSafeInteger, 0)
  {
    c := new Column("", true, MaxSafeInteger, 0);
  }

  /** `makeColumn({ title })`: a new record with the default's current fields and the
      given title. */
  method MakeColumn(defaultColumn: Column, title: string) returns (c: Column)
    ensures fresh(c) && State(c) == State(defaultColumn).(title := title)
  {
    c := new Column(title, defaultColumn.isNumeric, defaultColumn.lengthMin, defaultColumn.lengthMax);
  }

  /** `makeCell({ value })` */
  function MakeCell(value: string): Cell {
    Cell(value, None, value)
  }

  // ---------------------------------------------------------------------------
  // makeRaw

  /** The parts of a fetched sheet `makeRaw` reads. */
  datatype RawSheet = RawSheet(timeZone: string, rows: seq<seq<SheetCell>>)

  /** A fetched cell as a pipe cell: the text (the first element of an array cell), the
      timestamp when the second element is a number, and the text again as render. */
  function RawCell(cell: SheetCell): (c: Cell)
    ensures c.render == c.value
    ensures cell.Plain? ==> c == Cell(cell.text, None, cell.text)
    ensures cell.Tuple? && |cell.items| >= 2 && cell.items[0].ItemText? && cell.items[1].ItemNumber? ==>
      c == Cell(cell.items[0].text, Some(cell.items[1].n), cell.items[0].text)
  {
    match cell
    case Plain(s) => Cell(s, None, s)
    case Tuple(items) =>
      var value := if |items| > 0 && items[0].ItemText? then items[0].text else "";
      var ts := if |items| > 1 && items[1].ItemNumber? then Some(items[1].n) else None;
      Cell(value, ts, value)
  }

  /** `Math.max(...rows.map((row) => row.length))`, where an empty list gives a length
      of zero columns. */
  function MaxRowLength<T>(rows: seq<seq<T>>): (m: nat)
    ensures forall r :: 0 <= r < |rows| ==> |rows[r]| <= m
    ensures |rows| > 0 ==> exists r :: 0 <= r < |rows| && |rows[r]| == m
    ensures |rows| == 0 ==> m == 0
  {
    if |rows| == 0 then 0
    else
      var m := MaxRowLength(rows[..|rows| - 1]);
      assert forall r :: 0 <= r < |rows| - 1 ==> rows[..|rows| - 1][r] == rows[r];
      if |rows[|rows| - 1]| > m then |rows[|rows| - 1]| else m
  }

  function RawRows(rows: seq<seq<SheetCell>>): (r: seq<seq<Cell>>)
    ensures |r| == |rows|
    ensures forall i :: 0 <= i < |rows| ==> (|r[i]| == |rows[i]| &&
      forall j :: 0 <= j < |rows[i]| ==> r[i][j] == RawCell(rows[i][j]))
  {
    seq(|rows|, i requires 0 <= i < |rows| =>
      seq(|rows[i]|, j requires 0 <= j < |rows[i]| => RawCell(rows[i][j])))
  }

  /** `makeRaw`: every column slot holds the one default record, as many slots as the
      longest row has cells; a failed fetch gives an empty pipe in UTC. */
  function MakeRaw(sheet: Result<RawSheet, string>, defaultColumn: Column): (p: Pipe)
    ensures sheet.Err? ==> p == Pipe(TimeZone("utc"), [], [])
    ensures sheet.Ok? ==>
      p.extra == TimeZone(sheet.value.timeZone) && p.rows == RawRows(sheet.value.rows) &&
      |p.columns| == MaxRowLength(sheet.value.rows)
    ensures forall j :: 0 <= j < |p.columns| ==> p.columns[j] == defaultColumn
    ensures Fits(p)
    ensures |p.rows| > 0 ==> exists r :: 0 <= r < |p.rows| && |p.rows[r]| == |p.columns|
  {
    match sheet
    case Err(_) => Pipe(TimeZone("utc"), [], [])
    case Ok(s) =>
      Pipe(TimeZone(s.timeZone), seq(MaxRowLength(s.rows), _ => defaultColumn), RawRows(s.rows))
  }

  // ---------------------------------------------------------------------------
  // addIndex, appendColumnLabel

  /** The rows with a leading cell holding the 1-based row number. */
  function IndexedRows(rows: seq<seq<Cell>>): (r: seq<seq<Cell>>)
    ensures |r| == |rows|
    ensures forall ri :: 0 <= ri < |rows| ==>
      |r[ri]| == |rows[ri]| + 1 && r[ri][1..] == rows[ri] &&
      r[ri][0] == MakeCell(r[ri][0].value) &&
      (forall k :: 0 <= k < |r[ri][0].value| ==> IsDigit(r[ri][0].value[k])) &&
      ParseDigits(r[ri][0].value) == ri + 1
  {
    forall ri: nat {
      ParseNatToString(ri + 1);
    }
    seq(|rows|, ri requires 0 <= ri < |rows| => [MakeCell(NatToString(ri + 1))] + rows[ri])
  }

  /** `addIndex`: a `#` column in front, and the row number in front of every row. */
  method AddIndex(p: Pipe, defaultColumn: Column) returns (q: Pipe)
    ensures q.extra == p.extra && q.rows == IndexedRows(p.rows)
    ensures |q.columns| == |p.columns| + 1 && q.columns[1..] == p.columns
    ensures fresh(q.columns[0]) && State(q.columns[0]) == State(defaultColumn).(title := "#")
    ensures Fits(p) ==> Fits(q)
  {
    var c := MakeColumn(defaultColumn, "#");
    q := Pipe(p.extra, [c] + p.columns, IndexedRows(p.rows));
  }

  /** The new title of column `ci`: `title:LETTERS`, or only the letters for an empty
      title. */
  function Label(title: string, ci: nat): (l: string)
    ensures title == "" ==> l == ExcelColumn.Letters(ci + 1)
    ensures title != "" ==> l == title + ":" + ExcelColumn.Letters(ci + 1)
    ensures var letters := l[|l| - |ExcelColumn.Letters(ci + 1)|..];
      ExcelColumn.IsColumnName(letters) && ExcelColumn.Value(letters) == ci + 1
  {
    ExcelColumn.ValueOfLetters(ci + 1);
    (if title != "" then title + ":" else "") + ExcelColumn.Letters(ci + 1)
  }

  /** `appendColumnLabel`: every column becomes a new record with its letters appended
      to its title; the records of the input pipe are left as they were. */
  method AppendColumnLabel(p: Pipe) returns (q: Pipe)
    ensures q.extra == p.extra && q.rows == p.rows && |q.columns| == |p.columns|
    ensures forall ci :: 0 <= ci < |p.columns| ==>
      fresh(q.columns[ci]) &&
      State(q.columns[ci]) == State(p.columns[ci]).(title := Label(p.columns[ci].title, ci))
    ensures Fits(p) ==> Fits(q)
  {
    var columns: seq<Column> := [];
    for ci := 0 to |p.columns|
      invariant |columns| == ci
      invariant forall k :: 0 <= k < ci ==> fresh(columns[k])
      invariant forall k :: 0 <= k < ci ==>
        State(columns[k]) == State(p.columns[k]).(title := Label(p.columns[k].title, k))
    {
      var c := LabelledColumn(p.columns[ci], ci);
      columns := columns + [c];
    }
    q := Pipe(p.extra, columns, p.rows);
  }

  /** The new record `appendColumnLabel` makes for the column at `ci`. */
  method LabelledColumn(col: Column, ci: nat) returns (c: Column)
    ensures fresh(c) && State(c) == State(col).(title := Label(col.title, ci))
  {
    var letters := ExcelColumn.IndexToExcelColumn(ci);
    var prefix := if col.title != "" then col.title + ":" else "";
    c := new Column(prefix + letters.value, col.isNumeric, col.lengthMin, col.lengthMax);
  }

  // ---------------------------------------------------------------------------
  // stripEmptyRows

  function Values(row: seq<Cell>): (vs: seq<string>)
    ensures |vs| == |row| && forall k :: 0 <= k < |row| ==> vs[k] == row[k].value
  {
    seq(|row|, k requires 0 <= k < |row| => row[k].value)
  }

  /** `row.map((cell) => cell.value).join().length` is truthy. */
  predicate NonEmptyRow(row: seq<Cell>) {
    Length(Join(Values(row), ",")) > 0
  }

  /** A join with a non-empty separator is empty only for no parts or one empty part. */
  lemma {:induction false} JoinEmpty(parts: seq<string>, sep: string)
    requires sep != ""
    ensures Join(parts, sep) == "" <==> |parts| == 0 || (|parts| == 1 && parts[0] == "")
  {
    if |parts| >= 2 {
      assert |Join(parts, sep)| >= |sep|;
    }
  }

  /** A row is kept exactly when it has two or more cells, or one cell with a non-empty
      value. */
  lemma NonEmptyRowIff(row: seq<Cell>)
    ensures NonEmptyRow(row) <==> |row| >= 2 || (|row| == 1 && row[0].value != "")
  {
    var joined := Join(Values(row), ",");
    JoinEmpty(Values(row), ",");
    assert Length(joined) >= |joined|;
    assert joined == "" ==> Length(joined) == 0;
  }

  function NonEmptyRows(rows: seq<seq<Cell>>): (idx: seq<int>)
    ensures forall r :: r in idx <==> 0 <= r < |rows| && NonEmptyRow(rows[r])
    ensures forall a :: 0 <= a < |idx| ==> 0 <= idx[a] < |rows|
  {
    KeptIndices(|rows|, r => 0 <= r < |rows| && NonEmptyRow(rows[r]), 0)
  }

  /** `stripEmptyRows`: the non-empty rows in order. */
  function StripEmptyRows(p: Pipe): (q: Pipe)
    ensures q.extra == p.extra && q.columns == p.columns
    ensures q.rows == Select(p.rows, NonEmptyRows(p.rows))
    ensures Fits(p) ==> Fits(q)
  {
    Pipe(p.extra, p.columns, Select(p.rows, NonEmptyRows(p.rows)))
  }

  // ---------------------------------------------------------------------------
  // extractColumnHeaders

  /** The titles of the header row `h`: a cell's value, or when that is empty the value
      of the same cell of the first row; `None` when that cell does not exist, where the
      source fails on reading `.value` of `undefined`. */
  function HeaderTitles(rows: seq<seq<Cell>>, h: nat): (r: Option<seq<string>>)
    requires h < |rows|
    ensures r.None? <==> exists ci :: 0 <= ci < |rows[h]| && rows[h][ci].value == "" && ci >= |rows[0]|
    ensures r.Some? ==> |r.value| == |rows[h]| && forall ci :: 0 <= ci < |rows[h]| ==>
      r.value[ci] == (if rows[h][ci].value != "" then rows[h][ci].value else rows[0][ci].value)
  {
    if exists ci :: 0 <= ci < |rows[h]| && rows[h][ci].value == "" && ci >= |rows[0]| then None
    else Some(seq(|rows[h]|, ci requires 0 <= ci < |rows[h]| =>
      if rows[h][ci].value != "" then rows[h][ci].value else rows[0][ci].value))
  }

  /** `row.filter((cell) => columnTitles.includes(cell.value)).length` */
  function CountTitles(row: seq<Cell>, titles: seq<string>): (n: nat)
    ensures n <= |row|
  {
    if |row| == 0 then 0
    else CountTitles(row[..|row| - 1], titles) + (if row[|row| - 1].value in titles then 1 else 0)
  }

  function NonHeaderRows(rows: seq<seq<Cell>>, titles: seq<string>): (idx: seq<int>)
    ensures forall r :: r in idx <==> 0 <= r < |rows| && CountTitles(rows[r], titles) < 3
    ensures forall a :: 0 <= a < |idx| ==> 0 <= idx[a] < |rows|
  {
    KeptIndices(|rows|, r => 0 <= r < |rows| && CountTitles(rows[r], titles) < 3, 0)
  }

  /** A row with three cells whose values are titles counts as a copy of the header. */
  lemma {:induction false} CountTitlesAtLeast(row: seq<Cell>, titles: seq<string>, a: nat, b: nat, c: nat)
    requires a < b < c < |row|
    requires row[a].value in titles && row[b].value in titles && row[c].value in titles
    ensures CountTitles(row, titles) >= 3
    decreases |row|
  {
    var init := row[..|row| - 1];
    if c < |row| - 1 {
      CountTitlesAtLeast(init, titles, a, b, c);
    } else {
      CountTitlesAtLeastTwo(init, titles, a, b);
    }
  }

  lemma {:induction false} CountTitlesAtLeastTwo(row: seq<Cell>, titles: seq<string>, a: nat, b: nat)
    requires a < b < |row|
    requires row[a].value in titles && row[b].value in titles
    ensures CountTitles(row, titles) >= 2
    decreases |row|
  {
    var init := row[..|row| - 1];
    if b < |row| - 1 {
      CountTitlesAtLeastTwo(init, titles, a, b);
    } else {
      CountTitlesAtLeastOne(init, titles, a);
    }
  }

  lemma {:induction false} CountTitlesAtLeastOne(row: seq<Cell>, titles: seq<string>, a: nat)
    requires a < |row| && row[a].value in titles
    ensures CountTitles(row, titles) >= 1
    decreases |row|
  {
    if a < |row| - 1 {
      CountTitlesAtLeastOne(row[..|row| - 1], titles, a);
    }
  }

  /** `extractColumnHeaders`: new column records titled from the first longest row, and
      the rows without the copies of the header; an error where a title would be read
      from a missing cell of the first row. */
  method ExtractColumnHeaders(p: Pipe, defaultColumn: Column) returns (r: Result<Pipe, string>)
    ensures |p.rows| == 0 ==> r == Ok(p)
    ensures |p.rows| > 0 ==>
      var titles := HeaderTitles(p.rows, FirstLongest(p.rows, |p.rows|));
      (r.Err? <==> titles.None?) &&
      (r.Ok? ==>
        r.value.extra == p.extra &&
        r.value.rows == Select(p.rows, NonHeaderRows(p.rows, titles.value)) &&
        |r.value.columns| == |titles.value| &&
        (forall ci :: 0 <= ci < |titles.value| ==>
           fresh(r.value.columns[ci]) &&
           State(r.value.columns[ci]) == State(defaultColumn).(title := titles.value[ci])) &&
        (forall a, b :: 0 <= a < b < |titles.value| ==> r.value.columns[a] != r.value.columns[b]) &&
        Fits(r.value))
  {
    if |p.rows| == 0 {
      return Ok(p);
    }
    var h := FindHeaderRow(p.rows);
    var titles := HeaderTitles(p.rows, h);
    if titles.None? {
      return Err("TypeError: reading value of a missing cell");
    }
    var columns := MakeColumns(defaultColumn, titles.value);
    var kept := Select(p.rows, NonHeaderRows(p.rows, titles.value));
    forall a | 0 <= a < |kept|
      ensures |kept[a]| <= |columns|
    {
      assert kept[a] == p.rows[NonHeaderRows(p.rows, titles.value)[a]];
    }
    r := Ok(Pipe(p.extra, columns, kept));
  }

  /** One new record per title, each with the default's current fields. */
  method MakeColumns(defaultColumn: Column, titles: seq<string>) returns (columns: seq<Column>)
    ensures |columns| == |titles|
    ensures forall ci :: 0 <= ci < |titles| ==>
      fresh(columns[ci]) && State(columns[ci]) == State(defaultColumn).(title := titles[ci])
    ensures forall a, b :: 0 <= a < b < |titles| ==> columns[a] != columns[b]
  {
    columns := [];
    for ci := 0 to |titles|
      invariant |columns| == ci
      invariant forall k :: 0 <= k < ci ==>
        fresh(columns[k]) && State(columns[k]) == State(defaultColumn).(title := titles[k])
      invariant forall a, b :: 0 <= a < b < ci ==> columns[a] != columns[b]
    {
      var c := MakeColumn(defaultColumn, titles[ci]);
      columns := columns + [c];
    }
  }

  /** A row is dropped exactly when at least three of its cell values are titles; in
      particular a row that repeats three titles is dropped. */
  lemma HeaderCopiesDropped(rows: seq<seq<Cell>>, titles: seq<string>, r: int, a: nat, b: nat, c: nat)
    requires 0 <= r < |rows| && a < b < c < |rows[r]|
    requires rows[r][a].value in titles && rows[r][b].value in titles && rows[r][c].value in titles
    ensures r !in NonHeaderRows(rows, titles)
  {
    CountTitlesAtLeast(rows[r], titles, a, b, c);
  }

  // ---------------------------------------------------------------------------
  // stripEmptyColumns

  /** `col.lengthMax || col.title` */
  predicate KeepColumn(s: ColumnState) {
    s.lengthMax != 0 || s.title != ""
  }

  /** The kept positions among the first `n` columns. */
  function KeptColumns(states: seq<ColumnState>, n: nat): (idx: seq<int>)
    ensures forall j :: j in idx <==> 0 <= j < n && j < |states| && KeepColumn(states[j])
    ensures forall a, b :: 0 <= a < b < |idx| ==> idx[a] < idx[b]
    ensures forall a :: 0 <= a < |idx| ==> 0 <= idx[a] < n
  {
    KeptIndices(n, j => 0 <= j < |states| && KeepColumn(states[j]), 0)
  }

  /** `stripEmptyColumns`: the columns with a length or a title, and in every row the
      cells at those positions, so that cells stay under their columns. */
  function StripEmptyColumns(p: Pipe): (q: Pipe)
    requires Fits(p)
    reads set c | c in p.columns
    ensures q.extra == p.extra && |q.rows| == |p.rows|
    ensures var states := States(p.columns);
      q.columns == Select(p.columns, KeptColumns(states, |p.columns|)) &&
      forall r :: 0 <= r < |p.rows| ==> q.rows[r] == Select(p.rows[r], KeptColumns(states, |p.rows[r]|))
  {
    var states := States(p.columns);
    Pipe(p.extra, Select(p.columns, KeptColumns(states, |p.columns|)),
         seq(|p.rows|, r requires 0 <= r < |p.rows| => Select(p.rows[r], KeptColumns(states, |p.rows[r]|))))
  }

  /** After stripping, the cell at position `a` of a row and the column at position `a`
      both come from the same original position, which was kept. */
  lemma StripEmptyColumnsAligned(p: Pipe, r: int, a: int)
    requires Fits(p) && 0 <= r < |p.rows|
    requires 0 <= a < |StripEmptyColumns(p).rows[r]|
    ensures var q := StripEmptyColumns(p);
      var j := KeptColumns(States(p.columns), |p.rows[r]|)[a];
      Fits(q) && a < |q.columns| && 0 <= j < |p.columns| && KeepColumn(State(p.columns[j])) &&
      q.rows[r][a] == p.rows[r][j] && q.columns[a] == p.columns[j]
  {
    var states := States(p.columns);
    KeptPrefix(|p.rows[r]|, |p.columns|, j => 0 <= j < |states| && KeepColumn(states[j]), 0);
    var mine := KeptColumns(states, |p.rows[r]|);
    assert mine[a] in mine;
    forall r' | 0 <= r' < |p.rows|
      ensures |StripEmptyColumns(p).rows[r']| <= |StripEmptyColumns(p).columns|
    {
      KeptPrefix(|p.rows[r']|, |p.columns|, j => 0 <= j < |states| && KeepColumn(states[j]), 0);
    }
  }
}
