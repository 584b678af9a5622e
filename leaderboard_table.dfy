/** The leaderboard table: rows of player, score and date, sorted by the clicked column and
    padded with blank rows up to ten. */
module LeaderboardTable {
  import opened Wrappers
  import opened Text
  import opened TableSort

  datatype Column = Player | Score | Date

  datatype TableRow = TableRow(player: string, score: int, date: string)

  /** `row[key]`: the value a column holds. */
  function ColumnValue(row: TableRow, key: Column): (v: Value)
    ensures key.Score? <==> v.Num?
    ensures !v.Undefined?
  {
    match key
    case Player => Str(row.player)
    case Score => Num(row.score)
    case Date => Str(row.date)
  }

  /** The rows in display order. */
  function SortedRows(data: seq<TableRow>, config: Option<SortConfig<Column>>): (r: seq<TableRow>)
    ensures config.None? ==> r == data
    ensures multiset(r) == multiset(data) && |r| == |data|
  {
    SortedData(data, config, ColumnValue)
  }

  /** Every column holds one kind of value, so a configured sort always orders the rows. */
  lemma SortedRowsOrdered(data: seq<TableRow>, c: SortConfig<Column>)
    ensures Ordered(SortedRows(data, Some(c)), ColumnValue, c)
  {
    SortedDataOrdered(data, c, ColumnValue);
  }

  /** `Math.max(0, 10 - data.length)` blank rows: together with the data at least ten rows,
      and none once there are ten. */
  function FillerRows(n: nat): (f: nat)
    ensures n + f == if n < 10 then 10 else n
    ensures n >= 10 <==> f == 0
  {
    if 10 - n > 0 then 10 - n else 0
  }

  /** The three cells a row shows. */
  function RowCells(row: TableRow): seq<string> {
    [row.player, IntToString(row.score), row.date]
  }

  /** The body: the sorted rows, then the filler rows of three blank cells. */
  function Body(data: seq<TableRow>, config: Option<SortConfig<Column>>): (rows: seq<seq<string>>)
    ensures |rows| == if |data| < 10 then 10 else |data|
    ensures forall i :: 0 <= i < |data| ==> rows[i] == RowCells(SortedRows(data, config)[i])
    ensures forall i :: |data| <= i < |rows| ==> rows[i] == [Blank, Blank, Blank]
  {
    var sorted := SortedRows(data, config);
    seq(|sorted|, i requires 0 <= i < |sorted| => RowCells(sorted[i])) +
    seq(FillerRows(|data|), _ => [Blank, Blank, Blank])
  }

  /** The header's class: `sort-asc` or `sort-desc` on the sorted column, none elsewhere. */
  function HeaderClass(config: Option<SortConfig<Column>>, key: Column): (c: string)
    ensures c == "" <==> !(config.Some? && config.value.key == key)
    ensures config.Some? && config.value.key == key ==>
      c == if config.value.direction.Asc? then "sort-asc" else "sort-desc"
  {
    if config.Some? && config.value.key == key then
      (if config.value.direction.Asc? then "sort-asc" else "sort-desc")
    else ""
  }

  /** Clicking the score header of an unsorted table, then again: ascending, then descending
      scores. */
  lemma ScoreClicks()
    ensures var first := HandleSort(None, Score);
      first == SortConfig(Score, Asc) && HandleSort(Some(first), Score) == SortConfig(Score, Desc) &&
      HeaderClass(Some(first), Score) == "sort-asc" && HeaderClass(Some(first), Player) == ""
  {
  }
}
