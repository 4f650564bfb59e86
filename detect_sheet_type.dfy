// The server-side sheet classifier of src/lib/google-document-util/detect-sheet-type.ts:
// a look at the column titles of the header row.

module SheetTypeDetect {
  import opened Wrappers
  import opened JsString
  import opened FieldPatterns
  import opened SheetData

  /** The kinds of sheet the classifier recognises; `null` is `None`. */
  datatype SheetType = DanceEvent | Playlist

  /** A header cell's title: the string itself, or the first element of an array cell
      turned into a string (`''` for an empty array). */
  function CellTitle(cell: SheetCell): (t: string)
    ensures cell.Plain? ==> t == cell.text
    ensures cell.Tuple? && |cell.items| == 0 ==> t == ""
    ensures cell.Tuple? && |cell.items| > 0 && cell.items[0].ItemText? ==> t == cell.items[0].text
  {
    match cell
    case Plain(s) => s
    case Tuple(items) =>
      if |items| == 0 then ""
      else match items[0]
        case ItemText(s) => s
        case ItemNumber(n) => IntToString(n)
  }

  function Titles(row: seq<SheetCell>): (ts: seq<string>)
    ensures |ts| == |row| && forall k :: 0 <= k < |row| ==> ts[k] == CellTitle(row[k])
  {
    seq(|row|, k requires 0 <= k < |row| => CellTitle(row[k]))
  }

  predicate SomeNameTitle(ts: seq<string>) { exists k :: 0 <= k < |ts| && DanceName(ts[k]) }
  predicate SomeRoleTitle(ts: seq<string>) { exists k :: 0 <= k < |ts| && DanceRole(ts[k]) }
  predicate SomeSongTitle(ts: seq<string>) { exists k :: 0 <= k < |ts| && PlaylistTitle(ts[k]) }
  predicate SomeArtistTitle(ts: seq<string>) { exists k :: 0 <= k < |ts| && PlaylistArtist(ts[k]) }

  /** The classification of a header row's titles: a dance event needs a name and a role
      column and wins over a playlist, which needs a title and an artist column. */
  function ClassifyTitles(ts: seq<string>): Option<SheetType> {
    if SomeNameTitle(ts) && SomeRoleTitle(ts) then Some(DanceEvent)
    else if SomeSongTitle(ts) && SomeArtistTitle(ts) then Some(Playlist)
    else None
  }

  /** The classification of a whole sheet, by its first longest row. */
  function SheetTypeOf(rows: seq<seq<SheetCell>>): Option<SheetType> {
    if |rows| == 0 then None
    else ClassifyTitles(Titles(rows[FirstLongest(rows, |rows|)]))
  }

  /** `detectSheetType` */
  method DetectSheetType(rows: seq<seq<SheetCell>>) returns (r: Option<SheetType>)
    ensures r == SheetTypeOf(rows)
  {
    if |rows| == 0 {
      return None;
    }
    var h := FindHeaderRow(rows);
    var titles := Titles(rows[h]);
    var hasName := SomeNameTitle(titles);
    var hasRole := SomeRoleTitle(titles);
    if hasName && hasRole {
      return Some(DanceEvent);
    }
    var hasTitle := SomeSongTitle(titles);
    var hasArtist := SomeArtistTitle(titles);
    if hasTitle && hasArtist {
      return Some(Playlist);
    }
    return None;
  }

  // ---------------------------------------------------------------------------
  // Properties

  /** An empty sheet has no type. */
  lemma SheetTypeEmpty()
    ensures SheetTypeOf([]) == None
  {
  }

  /** The result, stated over any first longest row `h`: a dance event exactly when its
      titles have a name and a role column; a playlist exactly when they are not a dance
      event's and have a title and an artist column; no type otherwise. */
  lemma SheetTypeByHeader(rows: seq<seq<SheetCell>>, h: int)
    requires IsFirstLongest(rows, h)
    ensures var ts := Titles(rows[h]);
      (SheetTypeOf(rows) == Some(DanceEvent) <==> SomeNameTitle(ts) && SomeRoleTitle(ts)) &&
      (SheetTypeOf(rows) == Some(Playlist) <==>
         !(SomeNameTitle(ts) && SomeRoleTitle(ts)) && SomeSongTitle(ts) && SomeArtistTitle(ts)) &&
      (SheetTypeOf(rows) == None <==>
         !(SomeNameTitle(ts) && SomeRoleTitle(ts)) && !(SomeSongTitle(ts) && SomeArtistTitle(ts)))
  {
    assert rows[..|rows|] == rows;
    FirstLongestUnique(rows, h, FirstLongest(rows, |rows|));
  }

  /** A header cell with a name and one with a role make a dance event, whatever other
      columns say. */
  lemma DanceEventWins(rows: seq<seq<SheetCell>>, h: int, a: int, b: int)
    requires IsFirstLongest(rows, h)
    requires 0 <= a < |rows[h]| && DanceName(CellTitle(rows[h][a]))
    requires 0 <= b < |rows[h]| && DanceRole(CellTitle(rows[h][b]))
    ensures SheetTypeOf(rows) == Some(DanceEvent)
  {
    SheetTypeByHeader(rows, h);
    var ts := Titles(rows[h]);
    assert DanceName(ts[a]) && DanceRole(ts[b]);
  }
}
