// The in-place column statistics of the sheet pipeline (adjustColumnLengths and
// adjustColumnTypes in src/lib/google-document-util/sheet-data-pipeline.svelte.ts).
// Each cell updates the record in its column slot; when several slots hold one record,
// as after makeRaw, that record sees the cells of all of them.

module ColumnStats {
  import opened JsString
  import opened SheetPipe

  /** One visited cell: its column index and its value. */
  datatype Entry = Entry(ci: nat, value: string)

  function RowEntries(row: seq<Cell>): (es: seq<Entry>)
    ensures |es| == |row| && forall j :: 0 <= j < |row| ==> es[j] == Entry(j, row[j].value)
  {
    seq(|row|, j requires 0 <= j < |row| => Entry(j, row[j].value))
  }

  /** The cells in the order the nested `for ... of` loops visit them. */
  function Entries(rows: seq<seq<Cell>>): seq<Entry> {
    if |rows| == 0 then [] else Entries(rows[..|rows| - 1]) + RowEntries(rows[|rows| - 1])
  }

  predicate WithinColumns(es: seq<Entry>, n: nat) {
    forall k :: 0 <= k < |es| ==> es[k].ci < n
  }

  /** The largest value length among the visited cells whose slot holds `c`, starting
      from `init`. */
  function MaxFor(columns: seq<Column>, c: Column, es: seq<Entry>, init: int): int
    requires WithinColumns(es, |columns|)
  {
    if |es| == 0 then init
    else
      var m := MaxFor(columns, c, es[..|es| - 1], init);
      var e := es[|es| - 1];
      if columns[e.ci] == c && Length(e.value) > m then Length(e.value) else m
  }

  /** The smallest such length, starting from `init`. */
  function MinFor(columns: seq<Column>, c: Column, es: seq<Entry>, init: int): int
    requires WithinColumns(es, |columns|)
  {
    if |es| == 0 then init
    else
      var m := MinFor(columns, c, es[..|es| - 1], init);
      var e := es[|es| - 1];
      if columns[e.ci] == c && Length(e.value) < m then Length(e.value) else m
  }

  /** `/^[0-9-.,/: ]*$/.test(s)` */
  predicate IsNumericText(s: string) {
    forall k :: 0 <= k < |s| ==> s[k] in "0123456789-.,/: "
  }

  /** `init`, cleared by any visited cell in a slot holding `c` whose value is not
      numeric. */
  function NumericFor(columns: seq<Column>, c: Column, es: seq<Entry>, init: bool): bool
    requires WithinColumns(es, |columns|)
  {
    if |es| == 0 then init
    else
      var e := es[|es| - 1];
      if columns[e.ci] == c && !IsNumericText(e.value) then false
      else NumericFor(columns, c, es[..|es| - 1], init)
  }

  // ---------------------------------------------------------------------------
  // Facts about the folds

  lemma {:induction false} EntriesWithin(rows: seq<seq<Cell>>, n: nat)
    requires forall r :: 0 <= r < |rows| ==> |rows[r]| <= n
    ensures WithinColumns(Entries(rows), n)
  {
    if |rows| > 0 {
      EntriesWithin(rows[..|rows| - 1], n);
    }
  }

  /** Every cell of the rows is visited. */
  lemma {:induction false} EntriesCover(rows: seq<seq<Cell>>, r: int, j: int)
    requires 0 <= r < |rows| && 0 <= j < |rows[r]|
    ensures exists k :: 0 <= k < |Entries(rows)| && Entries(rows)[k] == Entry(j, rows[r][j].value)
  {
    var init := rows[..|rows| - 1];
    var last := RowEntries(rows[|rows| - 1]);
    assert Entries(rows) == Entries(init) + last;
    if r == |rows| - 1 {
      assert Entries(rows)[|Entries(init)| + j] == last[j];
    } else {
      EntriesCover(init, r, j);
      var k :| 0 <= k < |Entries(init)| && Entries(init)[k] == Entry(j, init[r][j].value);
      assert Entries(rows)[k] == Entries(init)[k];
    }
  }

  lemma {:induction false} EntriesStep(rows: seq<seq<Cell>>, r: nat)
    requires r < |rows|
    ensures Entries(rows[..r + 1]) == Entries(rows[..r]) + RowEntries(rows[r])
  {
    assert rows[..r + 1][..r] == rows[..r];
  }

  /** Visiting more cells continues from where the fold stood. */
  lemma {:induction false} MaxForAppend(columns: seq<Column>, c: Column, es1: seq<Entry>, es2: seq<Entry>, init: int)
    requires WithinColumns(es1, |columns|) && WithinColumns(es2, |columns|)
    ensures WithinColumns(es1 + es2, |columns|)
    ensures MaxFor(columns, c, es1 + es2, init) == MaxFor(columns, c, es2, MaxFor(columns, c, es1, init))
    decreases |es2|
  {
    if |es2| > 0 {
      assert (es1 + es2)[..|es1 + es2| - 1] == es1 + es2[..|es2| - 1];
      MaxForAppend(columns, c, es1, es2[..|es2| - 1], init);
    } else {
      assert es1 + es2 == es1;
    }
  }

  lemma {:induction false} MinForAppend(columns: seq<Column>, c: Column, es1: seq<Entry>, es2: seq<Entry>, init: int)
    requires WithinColumns(es1, |columns|) && WithinColumns(es2, |columns|)
    ensures WithinColumns(es1 + es2, |columns|)
    ensures MinFor(columns, c, es1 + es2, init) == MinFor(columns, c, es2, MinFor(columns, c, es1, init))
    decreases |es2|
  {
    if |es2| > 0 {
      assert (es1 + es2)[..|es1 + es2| - 1] == es1 + es2[..|es2| - 1];
      MinForAppend(columns, c, es1, es2[..|es2| - 1], init);
    } else {
      assert es1 + es2 == es1;
    }
  }

  lemma {:induction false} NumericForAppend(columns: seq<Column>, c: Column, es1: seq<Entry>, es2: seq<Entry>, init: bool)
    requires WithinColumns(es1, |columns|) && WithinColumns(es2, |columns|)
    ensures WithinColumns(es1 + es2, |columns|)
    ensures NumericFor(columns, c, es1 + es2, init) == NumericFor(columns, c, es2, NumericFor(columns, c, es1, init))
    decreases |es2|
  {
    if |es2| > 0 {
      assert (es1 + es2)[..|es1 + es2| - 1] == es1 + es2[..|es2| - 1];
      NumericForAppend(columns, c, es1, es2[..|es2| - 1], init);
    } else {
      assert es1 + es2 == es1;
    }
  }

  /** The fold bounds every visited length in a slot holding `c`, and the start value. */
  lemma {:induction false} LengthBounds(columns: seq<Column>, c: Column, es: seq<Entry>, lo: int, hi: int)
    requires WithinColumns(es, |columns|)
    ensures MinFor(columns, c, es, lo) <= lo && hi <= MaxFor(columns, c, es, hi)
    ensures forall k :: 0 <= k < |es| && columns[es[k].ci] == c ==>
      MinFor(columns, c, es, lo) <= Length(es[k].value) <= MaxFor(columns, c, es, hi)
  {
    if |es| > 0 {
      LengthBounds(columns, c, es[..|es| - 1], lo, hi);
      assert forall k :: 0 <= k < |es| - 1 ==> es[..|es| - 1][k] == es[k];
    }
  }

  /** The flag survives exactly when it started set and every visited value in a slot
      holding `c` is numeric. */
  lemma {:induction false} NumericForIff(columns: seq<Column>, c: Column, es: seq<Entry>, init: bool)
    requires WithinColumns(es, |columns|)
    ensures NumericFor(columns, c, es, init) <==>
      init && forall k :: 0 <= k < |es| && columns[es[k].ci] == c ==> IsNumericText(es[k].value)
  {
    if |es| > 0 {
      NumericForIff(columns, c, es[..|es| - 1], init);
      assert forall k :: 0 <= k < |es| - 1 ==> es[..|es| - 1][k] == es[k];
    }
  }

  // ---------------------------------------------------------------------------
  // adjustColumnLengths

  /** The inner loop over one row's cells. */
  method AdjustRowLengths(columns: seq<Column>, row: seq<Cell>)
    requires |row| <= |columns|
    modifies set c | c in columns
    ensures WithinColumns(RowEntries(row), |columns|)
    ensures forall c :: c in columns ==>
      c.lengthMax == MaxFor(columns, c, RowEntries(row), old(c.lengthMax)) &&
      c.lengthMin == MinFor(columns, c, RowEntries(row), old(c.lengthMin)) &&
      c.title == old(c.title) && c.isNumeric == old(c.isNumeric)
  {
    ghost var es := RowEntries(row);
    for j := 0 to |row|
      invariant forall c :: c in columns ==>
        c.lengthMax == MaxFor(columns, c, es[..j], old(c.lengthMax)) &&
        c.lengthMin == MinFor(columns, c, es[..j], old(c.lengthMin)) &&
        c.title == old(c.title) && c.isNumeric == old(c.isNumeric)
    {
      LengthStep(columns, es, j);
      var len := Length(row[j].value);
      var col := columns[j];
      col.lengthMax := if col.lengthMax > len then col.lengthMax else len;
      col.lengthMin := if col.lengthMin < len then col.lengthMin else len;
    }
    assert es[..|row|] == es;
  }

  /** One more entry moves the bounds of the column in its slot, and of no other. */
  lemma LengthStep(columns: seq<Column>, es: seq<Entry>, j: nat)
    requires j < |es| && WithinColumns(es, |columns|)
    ensures forall c, init ::
              MaxFor(columns, c, es[..j + 1], init) ==
                var m := MaxFor(columns, c, es[..j], init);
                if columns[es[j].ci] == c && Length(es[j].value) > m then Length(es[j].value) else m
    ensures forall c, init ::
              MinFor(columns, c, es[..j + 1], init) ==
                var m := MinFor(columns, c, es[..j], init);
                if columns[es[j].ci] == c && Length(es[j].value) < m then Length(es[j].value) else m
  {
    assert es[..j + 1][..j] == es[..j];
  }

  /** `adjustColumnLengths`: every record's `lengthMax` / `lengthMin` takes in the value
      lengths of all cells in the slots that hold it; afterwards every cell's length lies
      between its column's bounds. */
  method AdjustColumnLengths(p: Pipe) returns (q: Pipe)
    requires Fits(p)
    modifies set c | c in p.columns
    ensures q == p
    ensures WithinColumns(Entries(p.rows), |p.columns|)
    ensures forall c :: c in p.columns ==>
      c.lengthMax == MaxFor(p.columns, c, Entries(p.rows), old(c.lengthMax)) &&
      c.lengthMin == MinFor(p.columns, c, Entries(p.rows), old(c.lengthMin)) &&
      c.title == old(c.title) && c.isNumeric == old(c.isNumeric)
    ensures forall r, j :: 0 <= r < |p.rows| && 0 <= j < |p.rows[r]| ==>
      p.columns[j].lengthMin <= Length(p.rows[r][j].value) <= p.columns[j].lengthMax
  {
    for r := 0 to |p.rows|
      invariant WithinColumns(Entries(p.rows[..r]), |p.columns|)
      invariant forall c :: c in p.columns ==>
        c.lengthMax == MaxFor(p.columns, c, Entries(p.rows[..r]), old(c.lengthMax)) &&
        c.lengthMin == MinFor(p.columns, c, Entries(p.rows[..r]), old(c.lengthMin)) &&
        c.title == old(c.title) && c.isNumeric == old(c.isNumeric)
    {
      EntriesStep(p.rows, r);
      ghost var before := Entries(p.rows[..r]);
      AdjustRowLengths(p.columns, p.rows[r]);
      forall c | c in p.columns
        ensures c.lengthMax == MaxFor(p.columns, c, Entries(p.rows[..r + 1]), old(c.lengthMax))
        ensures c.lengthMin == MinFor(p.columns, c, Entries(p.rows[..r + 1]), old(c.lengthMin))
      {
        MaxForAppend(p.columns, c, before, RowEntries(p.rows[r]), old(c.lengthMax));
        MinForAppend(p.columns, c, before, RowEntries(p.rows[r]), old(c.lengthMin));
      }
    }
    assert p.rows[..|p.rows|] == p.rows;
    forall r, j | 0 <= r < |p.rows| && 0 <= j < |p.rows[r]|
      ensures p.columns[j].lengthMin <= Length(p.rows[r][j].value) <= p.columns[j].lengthMax
    {
      var c := p.columns[j];
      CellWithinBounds(p.columns, p.rows, old(c.lengthMin), old(c.lengthMax), r, j);
    }
    q := p;
  }

  /** After the lengths pass, every cell's value length lies between the bounds of the
      record in its slot. */
  lemma CellWithinBounds(columns: seq<Column>, rows: seq<seq<Cell>>, lo: int, hi: int, r: int, j: int)
    requires forall i :: 0 <= i < |rows| ==> |rows[i]| <= |columns|
    requires 0 <= r < |rows| && 0 <= j < |rows[r]|
    ensures WithinColumns(Entries(rows), |columns|)
    ensures MinFor(columns, columns[j], Entries(rows), lo) <= Length(rows[r][j].value)
    ensures Length(rows[r][j].value) <= MaxFor(columns, columns[j], Entries(rows), hi)
  {
    EntriesWithin(rows, |columns|);
    EntriesCover(rows, r, j);
    LengthBounds(columns, columns[j], Entries(rows), lo, hi);
  }

  /** When every slot holds the same record, as after makeRaw, its `lengthMax` bounds
      the length of every cell of the sheet, whatever its column. */
  lemma SharedRecordSeesAllCells(columns: seq<Column>, rows: seq<seq<Cell>>, hi: int, r: int, j: int)
    requires |columns| > 0 && forall k :: 0 <= k < |columns| ==> columns[k] == columns[0]
    requires forall i :: 0 <= i < |rows| ==> |rows[i]| <= |columns|
    requires 0 <= r < |rows| && 0 <= j < |rows[r]|
    ensures WithinColumns(Entries(rows), |columns|)
    ensures forall k :: 0 <= k < |columns| ==>
      Length(rows[r][j].value) <= MaxFor(columns, columns[k], Entries(rows), hi)
  {
    CellWithinBounds(columns, rows, hi, hi, r, j);
  }

  // ---------------------------------------------------------------------------
  // adjustColumnTypes

  method AdjustRowTypes(columns: seq<Column>, row: seq<Cell>)
    requires |row| <= |columns|
    modifies set c | c in columns
    ensures WithinColumns(RowEntries(row), |columns|)
    ensures forall c :: c in columns ==>
      c.isNumeric == NumericFor(columns, c, RowEntries(row), old(c.isNumeric)) &&
      c.title == old(c.title) && c.lengthMin == old(c.lengthMin) && c.lengthMax == old(c.lengthMax)
  {
    ghost var es := RowEntries(row);
    for j := 0 to |row|
      invariant forall c :: c in columns ==>
        c.isNumeric == NumericFor(columns, c, es[..j], old(c.isNumeric)) &&
        c.title == old(c.title) && c.lengthMin == old(c.lengthMin) && c.lengthMax == old(c.lengthMax)
    {
      assert es[..j + 1][..j] == es[..j];
      if !IsNumericText(row[j].value) {
        columns[j].isNumeric := false;
      }
    }
    assert es[..|row|] == es;
  }

  /** `adjustColumnTypes`: a record stays numeric exactly when it was and every cell in
      the slots that hold it has a numeric value; it never becomes numeric. */
  method AdjustColumnTypes(p: Pipe) returns (q: Pipe)
    requires Fits(p)
    modifies set c | c in p.columns
    ensures q == p
    ensures WithinColumns(Entries(p.rows), |p.columns|)
    ensures forall c :: c in p.columns ==>
      c.isNumeric == NumericFor(p.columns, c, Entries(p.rows), old(c.isNumeric)) &&
      c.title == old(c.title) && c.lengthMin == old(c.lengthMin) && c.lengthMax == old(c.lengthMax)
  {
    for r := 0 to |p.rows|
      invariant WithinColumns(Entries(p.rows[..r]), |p.columns|)
      invariant forall c :: c in p.columns ==>
        c.isNumeric == NumericFor(p.columns, c, Entries(p.rows[..r]), old(c.isNumeric)) &&
        c.title == old(c.title) && c.lengthMin == old(c.lengthMin) && c.lengthMax == old(c.lengthMax)
    {
      EntriesStep(p.rows, r);
      ghost var before := Entries(p.rows[..r]);
      AdjustRowTypes(p.columns, p.rows[r]);
      forall c | c in p.columns
        ensures c.isNumeric == NumericFor(p.columns, c, Entries(p.rows[..r + 1]), old(c.isNumeric))
      {
        NumericForAppend(p.columns, c, before, RowEntries(p.rows[r]), old(c.isNumeric));
      }
    }
    assert p.rows[..|p.rows|] == p.rows;
    q := p;
  }

  /** A column is numeric after the types pass exactly when it was before and each of
      its cells has a numeric value (for a record in one slot only). */
  lemma ColumnNumericIff(columns: seq<Column>, rows: seq<seq<Cell>>, ci: int, init: bool)
    requires forall i :: 0 <= i < |rows| ==> |rows[i]| <= |columns|
    requires 0 <= ci < |columns| && forall k :: 0 <= k < |columns| && k != ci ==> columns[k] != columns[ci]
    ensures WithinColumns(Entries(rows), |columns|)
    ensures NumericFor(columns, columns[ci], Entries(rows), init) <==>
      init && forall r :: 0 <= r < |rows| && ci < |rows[r]| ==> IsNumericText(rows[r][ci].value)
  {
    EntriesWithin(rows, |columns|);
    var es := Entries(rows);
    NumericForIff(columns, columns[ci], es, init);
    if NumericFor(columns, columns[ci], es, init) {
      forall r | 0 <= r < |rows| && ci < |rows[r]|
        ensures IsNumericText(rows[r][ci].value)
      {
        EntriesCover(rows, r, ci);
      }
    }
    if init && forall r :: 0 <= r < |rows| && ci < |rows[r]| ==> IsNumericText(rows[r][ci].value) {
      forall k | 0 <= k < |es| && columns[es[k].ci] == columns[ci]
        ensures IsNumericText(es[k].value)
      {
        EntryOrigin(rows, k);
      }
    }
  }

  /** Every visited entry is some cell of the rows. */
  lemma {:induction false} EntryOrigin(rows: seq<seq<Cell>>, k: int)
    requires 0 <= k < |Entries(rows)|
    ensures exists r :: (0 <= r < |rows| && Entries(rows)[k].ci < |rows[r]| &&
      Entries(rows)[k].value == rows[r][Entries(rows)[k].ci].value)
  {
    var init := rows[..|rows| - 1];
    var last := RowEntries(rows[|rows| - 1]);
    assert Entries(rows) == Entries(init) + last;
    if k < |Entries(init)| {
      EntryOrigin(init, k);
      var r :| 0 <= r < |init| && Entries(init)[k].ci < |init[r]| &&
        Entries(init)[k].value == init[r][Entries(init)[k].ci].value;
      assert init[r] == rows[r];
    } else {
      assert Entries(rows)[k] == last[k - |Entries(init)|];
    }
  }
}
