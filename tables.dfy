/** The pandas DataFrames of the pipeline, reduced to what it observes of them, and
    the outcome of loading a catalog's original dataset. */
module Tables {
  import opened Wrappers

  /** A DataFrame: its column labels (`None` stands for pandas' default integer labels
      0..width-1), its rows of string cells, and its column count. */
  datatype Table = Table(header: Option<seq<string>>, rows: seq<seq<string>>, width: nat)

  /** `pd.DataFrame()`: no labels, no rows, no columns. */
  const EmptyTable: Table := Table(None, [], 0)

  /** `not df.empty`: pandas calls a frame empty when either of its axes has length 0. */
  predicate NonEmpty(t: Table) {
    |t.rows| > 0 && t.width > 0
  }

  /** The column count pandas gives a frame built from ragged rows: the longest row,
      shorter rows being padded with missing values; no rows give no columns. */
  function Width(rows: seq<seq<string>>): (w: nat)
    ensures forall i :: 0 <= i < |rows| ==> |rows[i]| <= w
    ensures rows == [] ==> w == 0
    ensures rows != [] ==> exists i :: 0 <= i < |rows| && |rows[i]| == w
  {
    if rows == [] then 0
    else
      var rest := Width(rows[1..]);
      if |rows[0]| > rest then |rows[0]| else rest
  }

  /** `pd.DataFrame(rows)` for a list of lists: default labels, one row per list, and a
      frame pandas calls non-empty exactly when some row holds a cell. */
  function FromRows(rows: seq<seq<string>>): (t: Table)
    ensures t.header == None && t.rows == rows
    ensures NonEmpty(t) <==> exists i :: 0 <= i < |rows| && rows[i] != []
  {
    Table(None, rows, Width(rows))
  }

  /** `pd.concat([top, bottom], ignore_index=True)`, by rows: the rows of `top` followed
      by those of `bottom`, renumbered; when the two frames have the same labels and
      column count, the result keeps them. */
  function Concat(top: Table, bottom: Table): (t: Table)
    ensures |t.rows| == |top.rows| + |bottom.rows|
    ensures forall i :: 0 <= i < |top.rows| ==> t.rows[i] == top.rows[i]
    ensures forall i :: 0 <= i < |bottom.rows| ==> t.rows[|top.rows| + i] == bottom.rows[i]
    ensures top.header == bottom.header && top.width == bottom.width ==>
      t.header == top.header && t.width == top.width
  {
    Table(top.header, top.rows + bottom.rows, top.width)
  }

  /** The result of trying to load a catalog's original dataset: a table, an exception
      caught by the pipeline, or no attempt because the URL names neither catalog. */
  datatype LoadResult = Loaded(table: Table) | Failed | NotAttempted

  /** A loader's own outcome, `None` when it raised, as seen by the pipeline, which
      catches the exception. */
  function Attempt(outcome: Option<Table>): (load: LoadResult)
    ensures load.Loaded? <==> outcome.Some?
    ensures outcome.Some? ==> load.table == outcome.value
    ensures load != NotAttempted
  {
    match outcome
    case Some(t) => Loaded(t)
    case None => Failed
  }

  /** `original_df` after the load: the loaded table, else the `pd.DataFrame()` it
      was initialised to. */
  function Original(load: LoadResult): Table {
    if load.Loaded? then load.table else EmptyTable
  }

  /** Only a table that was loaded can be merged: the `pd.DataFrame()` the original
      starts as is empty, and so is a loaded table without rows or without columns. */
  lemma OnlyLoadedTablesMerge(load: LoadResult)
    ensures !NonEmpty(EmptyTable)
    ensures NonEmpty(Original(load)) <==>
      load.Loaded? && |load.table.rows| > 0 && load.table.width > 0
  {
  }
}
