// The Google Sheets API adapter of src/lib/google-document-util/google-sheets.ts: from the
// API's grid to rows of cells with hidden-row and hidden-column lists, and the filter
// that drops the hidden ones.

module GoogleSheets {
  import opened Wrappers
  import opened JsString
  import opened SheetData

  /** One `values` entry of the API: its formatted text, its numeric value when it has
      one, and the type of its number format when it has one. */
  datatype ApiCell = ApiCell(formattedValue: string, numberValue: Option<real>, formatType: Option<string>)

  /** A `rowData` entry; `values` is absent for an empty row. */
  datatype ApiRow = ApiRow(values: Option<seq<ApiCell>>)

  /** A `data` grid: its rows and the `hiddenByUser` flags of its rows and columns
      (an absent flag is `false`). */
  datatype ApiGrid = ApiGrid(rowData: seq<ApiRow>, rowHidden: seq<bool>, columnHidden: seq<bool>)

  datatype ApiSheet = ApiSheet(title: string, data: seq<ApiGrid>)

  /** The parts of the API response the adapter reads. */
  datatype ApiResult = ApiResult(title: string, timeZone: string, sheets: seq<ApiSheet>)

  /** `GoogleSheetData`; a row is `None` where the API row had no values. */
  datatype SheetRows = SheetRows(
    title: string, sheetTitle: string, timeZone: string,
    rows: seq<Option<seq<SheetCell>>>, hiddenColumns: seq<int>, hiddenRows: seq<int>)

  /** The cell's number is an Excel serial date: its format type mentions `DATE` and its
      numeric value is present and non-zero. */
  predicate IsSerialDate(c: ApiCell) {
    c.formatType.Some? && Includes(c.formatType.value, "DATE") &&
    c.numberValue.Some? && c.numberValue.value != 0.0
  }

  /** One cell; `toUnix` is `excelDateToUnix`, which is not part of this model. */
  function AdjustCell(c: ApiCell, timeZone: string, toUnix: (real, string) -> int): SheetCell {
    if IsSerialDate(c) then
      Tuple([ItemText(c.formattedValue), ItemNumber(toUnix(c.numberValue.value, timeZone))])
    else Plain(c.formattedValue)
  }

  function AdjustRow(row: ApiRow, timeZone: string, toUnix: (real, string) -> int): (r: Option<seq<SheetCell>>)
    ensures row.values.None? <==> r.None?
    ensures r.Some? ==> (|r.value| == |row.values.value| &&
      forall k :: 0 <= k < |r.value| ==> r.value[k] == AdjustCell(row.values.value[k], timeZone, toUnix))
  {
    match row.values
    case None => None
    case Some(vs) => Some(seq(|vs|, k requires 0 <= k < |vs| => AdjustCell(vs[k], timeZone, toUnix)))
  }

  /** `adjustGoogleSheetData`: an error unless the first sheet has a first grid. */
  function AdjustGoogleSheetData(json: ApiResult, toUnix: (real, string) -> int): (r: Result<SheetRows, string>)
    ensures r.Err? <==> |json.sheets| == 0 || |json.sheets[0].data| == 0
    ensures r.Ok? ==>
      var data := json.sheets[0].data[0];
      r.value.title == json.title && r.value.timeZone == json.timeZone &&
      r.value.sheetTitle == json.sheets[0].title &&
      r.value.hiddenColumns == HiddenIndices(data.columnHidden) &&
      r.value.hiddenRows == HiddenIndices(data.rowHidden) &&
      |r.value.rows| == |data.rowData| &&
      forall k :: 0 <= k < |data.rowData| ==> r.value.rows[k] == AdjustRow(data.rowData[k], json.timeZone, toUnix)
  {
    if |json.sheets| == 0 || |json.sheets[0].data| == 0 then
      Err("JSON Google Sheet data has unexpected shape.")
    else
      var data := json.sheets[0].data[0];
      var rows := seq(|data.rowData|, k requires 0 <= k < |data.rowData| =>
        AdjustRow(data.rowData[k], json.timeZone, toUnix));
      Ok(SheetRows(json.title, json.sheets[0].title, json.timeZone, rows,
                   HiddenIndices(data.columnHidden), HiddenIndices(data.rowHidden)))
  }

  /** The rows `stripHidden` keeps: present rows that are not hidden, unless hidden rows
      are kept. */
  function KeptRows(json: SheetRows, skipRows: bool): (idx: seq<int>)
    ensures forall r :: r in idx <==>
      0 <= r < |json.rows| && json.rows[r].Some? && (skipRows || r !in json.hiddenRows)
    ensures forall a, b :: 0 <= a < b < |idx| ==> idx[a] < idx[b]
    ensures forall a :: 0 <= a < |idx| ==> 0 <= idx[a] < |json.rows|
  {
    KeptIndices(|json.rows|, r => 0 <= r < |json.rows| && json.rows[r].Some? &&
                                  (skipRows || r !in json.hiddenRows), 0)
  }

  /** The cells `stripHidden` keeps in a row of length `n`. */
  function KeptCells(n: nat, hiddenColumns: seq<int>, skipCols: bool): (idx: seq<int>)
    ensures forall c :: c in idx <==> 0 <= c < n && (skipCols || c !in hiddenColumns)
    ensures forall a, b :: 0 <= a < b < |idx| ==> idx[a] < idx[b]
    ensures forall a :: 0 <= a < |idx| ==> 0 <= idx[a] < n
  {
    KeptIndices(n, c => skipCols || c !in hiddenColumns, 0)
  }

  function StripRow(row: seq<SheetCell>, hiddenColumns: seq<int>, skipCols: bool): seq<SheetCell> {
    Select(row, KeptCells(|row|, hiddenColumns, skipCols))
  }

  /** `stripHidden(json, skipCols, skipRows)`: the kept rows in order, each with its
      kept cells in order; the index lists survive only when their flag is set. */
  function StripHidden(json: SheetRows, skipCols: bool, skipRows: bool): (r: SheetRows)
    ensures r.title == json.title && r.sheetTitle == json.sheetTitle && r.timeZone == json.timeZone
    ensures r.hiddenColumns == (if skipCols then json.hiddenColumns else [])
    ensures r.hiddenRows == (if skipRows then json.hiddenRows else [])
    ensures var idx := KeptRows(json, skipRows);
      |r.rows| == |idx| && forall a :: 0 <= a < |idx| ==>
        r.rows[a] == Some(StripRow(json.rows[idx[a]].value, json.hiddenColumns, skipCols))
  {
    var idx := KeptRows(json, skipRows);
    var rows := seq(|idx|, a requires 0 <= a < |idx| =>
      Some(StripRow(json.rows[idx[a]].value, json.hiddenColumns, skipCols)));
    json.(rows := rows,
          hiddenColumns := if skipCols then json.hiddenColumns else [],
          hiddenRows := if skipRows then json.hiddenRows else [])
  }

  // ---------------------------------------------------------------------------
  // Properties

  /** The rows that remain are the present ones, with a hidden row gone unless `skipRows`
      and a hidden cell gone unless `skipCols`. */
  lemma StripHiddenFiltering(json: SheetRows, skipCols: bool, skipRows: bool, a: int)
    requires 0 <= a < |StripHidden(json, skipCols, skipRows).rows|
    ensures var r := KeptRows(json, skipRows)[a];
      0 <= r < |json.rows| && json.rows[r].Some? && (skipRows || r !in json.hiddenRows) &&
      StripHidden(json, skipCols, skipRows).rows[a] ==
        Some(Select(json.rows[r].value, KeptCells(|json.rows[r].value|, json.hiddenColumns, skipCols)))
  {
    var idx := KeptRows(json, skipRows);
    assert idx[a] in idx;
  }

  /** With both flags set, stripping only drops the absent rows: every remaining row is
      an input row unchanged, in input order. */
  lemma StripNothingHidden(json: SheetRows)
    ensures var idx := KeptRows(json, true);
      (forall r :: r in idx <==> 0 <= r < |json.rows| && json.rows[r].Some?) &&
      |StripHidden(json, true, true).rows| == |idx| &&
      forall a :: 0 <= a < |idx| ==> StripHidden(json, true, true).rows[a] == json.rows[idx[a]]
  {
    var idx := KeptRows(json, true);
    forall a | 0 <= a < |idx|
      ensures StripHidden(json, true, true).rows[a] == json.rows[idx[a]]
    {
      var row := json.rows[idx[a]].value;
      SelectAll(row, c => true || c !in json.hiddenColumns);
    }
  }
}

// The older adapter of src/lib/google-sheets.ts: the same reading of the API without a
// time zone or an error result, and a filter without absent rows.

module LegacyGoogleSheets {
  import opened Wrappers
  import opened SheetData
  import GoogleSheets

  /** A cell of the older rows: plain text, or the text with the date the serial number
      stands for (`excelDateToJsDate`, not part of this model, as an epoch value). */
  datatype LegacyCell = Text(text: string) | Dated(text: string, date: int)

  datatype LegacyRows = LegacyRows(
    title: string, sheetTitle: string,
    rows: seq<seq<LegacyCell>>, hiddenColumns: seq<int>, hiddenRows: seq<int>)

  /** The input comes back as it is when it has no first grid. */
  datatype LegacyAdjusted = Unchanged(json: GoogleSheets.ApiResult) | Adjusted(data: LegacyRows)

  function AdjustCell(c: GoogleSheets.ApiCell, toDate: real -> int): LegacyCell {
    if GoogleSheets.IsSerialDate(c) then Dated(c.formattedValue, toDate(c.numberValue.value))
    else Text(c.formattedValue)
  }

  /** The older file maps every row's values, so it fails on a row without any. */
  predicate RowsHaveValues(json: GoogleSheets.ApiResult) {
    |json.sheets| > 0 && |json.sheets[0].data| > 0 ==>
      forall k :: 0 <= k < |json.sheets[0].data[0].rowData| ==>
        json.sheets[0].data[0].rowData[k].values.Some?
  }

  /** `adjustGoogleSheetData` of the older file. */
  function AdjustGoogleSheetData(json: GoogleSheets.ApiResult, toDate: real -> int): (r: LegacyAdjusted)
    requires RowsHaveValues(json)
    ensures r.Unchanged? <==> |json.sheets| == 0 || |json.sheets[0].data| == 0
    ensures r.Unchanged? ==> r.json == json
    ensures r.Adjusted? ==>
      var data := json.sheets[0].data[0];
      r.data.title == json.title && r.data.sheetTitle == json.sheets[0].title &&
      r.data.hiddenColumns == HiddenIndices(data.columnHidden) &&
      r.data.hiddenRows == HiddenIndices(data.rowHidden) &&
      |r.data.rows| == |data.rowData| &&
      forall k :: 0 <= k < |data.rowData| ==>
        var vs := data.rowData[k].values.value;
        |r.data.rows[k]| == |vs| &&
        forall j :: 0 <= j < |vs| ==> r.data.rows[k][j] == AdjustCell(vs[j], toDate)
  {
    if |json.sheets| == 0 || |json.sheets[0].data| == 0 then Unchanged(json)
    else
      var data := json.sheets[0].data[0];
      var rows := seq(|data.rowData|, k requires 0 <= k < |data.rowData| =>
        var vs := data.rowData[k].values.value;
        seq(|vs|, j requires 0 <= j < |vs| => AdjustCell(vs[j], toDate)));
      Adjusted(LegacyRows(json.title, json.sheets[0].title, rows,
                          HiddenIndices(data.columnHidden), HiddenIndices(data.rowHidden)))
  }

  /** `stripHidden(json, unhideCols, unhideRows)` of the older file. */
  function StripHidden(json: LegacyRows, unhideCols: bool, unhideRows: bool): (r: LegacyRows)
    ensures r.title == json.title && r.sheetTitle == json.sheetTitle
    ensures r.hiddenColumns == (if unhideCols then json.hiddenColumns else [])
    ensures r.hiddenRows == (if unhideRows then json.hiddenRows else [])
    ensures var idx := KeptIndices(|json.rows|, i => unhideRows || i !in json.hiddenRows, 0);
      |r.rows| == |idx| && forall a :: 0 <= a < |idx| ==>
        var row := json.rows[idx[a]];
        r.rows[a] == Select(row, KeptIndices(|row|, c => unhideCols || c !in json.hiddenColumns, 0))
  {
    var idx := KeptIndices(|json.rows|, i => unhideRows || i !in json.hiddenRows, 0);
    var rows := seq(|idx|, a requires 0 <= a < |idx| =>
      var row := json.rows[idx[a]];
      Select(row, KeptIndices(|row|, c => unhideCols || c !in json.hiddenColumns, 0)));
    json.(rows := rows,
          hiddenColumns := if unhideCols then json.hiddenColumns else [],
          hiddenRows := if unhideRows then json.hiddenRows else [])
  }

  /** Row `r` survives iff rows are unhidden or `r` is not hidden; likewise for cells. */
  lemma LegacyStripKeeps(json: LegacyRows, unhideCols: bool, unhideRows: bool, r: int, c: int)
    requires 0 <= r < |json.rows| && 0 <= c < |json.rows[r]|
    ensures var idx := KeptIndices(|json.rows|, i => unhideRows || i !in json.hiddenRows, 0);
      var cells := KeptIndices(|json.rows[r]|, j => unhideCols || j !in json.hiddenColumns, 0);
      (r in idx <==> unhideRows || r !in json.hiddenRows) &&
      (c in cells <==> unhideCols || c !in json.hiddenColumns)
  {
  }

  /** With both flags set the rows come back unchanged. */
  lemma LegacyStripNothing(json: LegacyRows)
    ensures StripHidden(json, true, true).rows == json.rows
  {
    var keep := i => true || i !in json.hiddenRows;
    SelectAll(json.rows, keep);
    var r := StripHidden(json, true, true);
    forall a | 0 <= a < |json.rows|
      ensures r.rows[a] == json.rows[a]
    {
      SelectAll(json.rows[a], c => true || c !in json.hiddenColumns);
    }
  }
}
