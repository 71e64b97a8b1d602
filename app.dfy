/**
 * `calculate_sum` end to end, and the application object that runs it: the
 * selected sheet, the result label and the list of selected rows that
 * `show_debug` filters.
 */
module App {
  import opened Wrappers
  import opened Text
  import opened Cost
  import opened Headers
  import opened Rows

  /** Why `calculate_sum` stops with a warning or an error dialog. */
  datatype Failure =
    | NoFile                        // no workbook selected yet
    | NoKeyword                     // the keyword is blank once stripped
    | HeadersNotFound(preview: Grid) // a header is missing; the top rows are shown

  /** A successful calculation: what the result label shows, and the listed rows. */
  datatype Outcome = Outcome(summary: Summary, selected: seq<Item>)

  /** The number of top rows the missing-header dialog previews. */
  const PreviewRows: nat := 12

  /** `df_raw.head(12)`. */
  function Preview(grid: Grid): (r: Grid)
    ensures r <= grid
    ensures |r| == if |grid| <= PreviewRows then |grid| else PreviewRows
  {
    if |grid| <= PreviewRows then grid else grid[..PreviewRows]
  }

  /** The cell of a row at a column; a row shorter than the sheet is empty there. */
  function CellAt(row: Row, col: nat): Option<String> {
    if col < |row| then row[col] else None
  }

  /** The product-name text of a cell: an empty cell has the empty name. */
  function NameText(v: Option<String>): String {
    match v
    case None => []
    case Some(s) => s
  }

  /** One data row: the name column as text, the cost column as text and coerced. */
  function MakeRow(row: Row, nameCol: nat, costCol: nat): DataRow {
    var costCell := CellAt(row, costCol);
    DataRow(NameText(CellAt(row, nameCol)), AsStr(costCell), ToNumber(costCell))
  }

  /** `max(name_row, cost_row) + 1`: data starts below the lower header row. */
  function DataStart(name: Pos, cost: Pos): (start: nat)
    ensures name.row < start && cost.row < start
    ensures start - 1 == name.row || start - 1 == cost.row
  {
    (if name.row < cost.row then cost.row else name.row) + 1
  }

  /** `df_raw.iloc[data_start:]` with the name and cost columns extracted. */
  function DataRows(grid: Grid, start: nat, nameCol: nat, costCol: nat): (rows: seq<DataRow>)
    ensures |rows| == if start <= |grid| then |grid| - start else 0
    ensures forall k :: 0 <= k < |rows| ==> rows[k] == MakeRow(grid[start + k], nameCol, costCol)
  {
    if start <= |grid| then
      seq(|grid| - start, k requires 0 <= k < |grid| - start => MakeRow(grid[start + k], nameCol, costCol))
    else []
  }

  /**
   * The whole of `calculate_sum` on the selected sheet (`None` when no file
   * was chosen) and the text typed into the entry.
   */
  function Compute(sheet: Option<Grid>, entry: String): Result<Outcome, Failure> {
    if sheet.None? then Failure(NoFile)
    else
      var keyword := Strip(entry);
      if keyword == [] then Failure(NoKeyword)
      else
        var grid := sheet.value;
        var name := LastMatch(grid, IsNameHeader);
        var cost := LastMatch(grid, IsCostHeader);
        if name.None? || cost.None? then Failure(HeadersNotFound(Preview(grid)))
        else
          var start := DataStart(name.value, cost.value);
          var rows := DataRows(grid, start, name.value.col, cost.value.col);
          var rule := SelectRule(keyword);
          Success(Outcome(Summarize(rows, rule), SelectedItems(rows, rule, start)))
  }

  /**
   * The calculation fails exactly when no file is selected, the stripped
   * keyword is empty, or no cell of the sheet qualifies as the name header
   * or none as the cost header; a missing header shows the sheet's first rows.
   */
  lemma ComputeFailures(sheet: Option<Grid>, entry: String)
    ensures Compute(sheet, entry) == Failure(NoFile) <==> sheet.None?
    ensures Compute(sheet, entry) == Failure(NoKeyword) <==> sheet.Some? && Strip(entry) == []
    ensures Compute(sheet, entry).Failure? && Compute(sheet, entry).error.HeadersNotFound? <==>
              sheet.Some? && Strip(entry) != [] &&
              ((forall p :: !PassesAt(sheet.value, IsNameHeader, p)) ||
               (forall p :: !PassesAt(sheet.value, IsCostHeader, p)))
    ensures Compute(sheet, entry).Failure? && Compute(sheet, entry).error.HeadersNotFound? ==>
              Compute(sheet, entry).error.preview == Preview(sheet.value)
  {
    if sheet.Some? {
      LastMatchSpec(sheet.value, IsNameHeader);
      LastMatchSpec(sheet.value, IsCostHeader);
    }
  }

  /**
   * A successful calculation reads the data rows below both header rows
   * and reports the reference tally of the rule the keyword selects; its
   * listed rows are the first selected ones, at most `Limit` of them.
   */
  lemma ComputeSuccess(grid: Grid, entry: String)
    requires Compute(Some(grid), entry).Success?
    ensures var name := LastMatch(grid, IsNameHeader).value;
            var cost := LastMatch(grid, IsCostHeader).value;
            var start := DataStart(name, cost);
            var rows := DataRows(grid, start, name.col, cost.col);
            var rule := SelectRule(Strip(entry));
            var o := Compute(Some(grid), entry).value;
            PassesAt(grid, IsNameHeader, name) && PassesAt(grid, IsCostHeader, cost) &&
            start <= |grid| && |rows| == |grid| - start &&
            o.summary == Tally(rows, rule) &&
            o.selected <= AllItems(rows, Classifier(rule), start) &&
            |o.selected| == (if o.summary.matched <= Limit then o.summary.matched else Limit)
  {
    LastMatchSpec(grid, IsNameHeader);
    LastMatchSpec(grid, IsCostHeader);
    var name := LastMatch(grid, IsNameHeader).value;
    var cost := LastMatch(grid, IsCostHeader).value;
    var start := DataStart(name, cost);
    var rows := DataRows(grid, start, name.col, cost.col);
    var rule := SelectRule(Strip(entry));
    SummarizeMatchesTally(rows, rule);
    SelectedItemsCount(rows, rule, start);
  }

  /** Typing the keyword with extra surrounding blanks gives the same outcome. */
  lemma ComputeIgnoresSurroundingSpace(sheet: Option<Grid>, entry: String)
    ensures Compute(sheet, Strip(entry)) == Compute(sheet, entry)
  {
    StripIdempotent(entry);
  }

  /** `ExcelSumApp`: the selected workbook, the result label and the selected-row list. */
  class SumApp {
    /** The sheet of the selected workbook, or `None` before a file is chosen. */
    var sheet: Option<Grid>
    /** The summary the result label shows, or `None` while it reads "결과: -". */
    var result: Option<Summary>
    /** `debug_selected`, which exists only once a calculation has found both headers. */
    var selected: Option<seq<Item>>

    constructor()
      ensures sheet == None && result == None && selected == None
    {
      sheet := None;
      result := None;
      selected := None;
    }

    /** `load_excel`: a cancelled dialog (`None`) keeps the previous file. */
    method LoadExcel(picked: Option<Grid>)
      modifies this
      ensures sheet == if picked.Some? then picked else old(sheet)
      ensures result == old(result) && selected == old(selected)
    {
      if picked.Some? {
        sheet := picked;
      }
    }

    /**
     * `calculate_sum`: locate the headers, then tally and list the selected
     * rows. On success the result label and the list are replaced; on a
     * warning or an error both are kept.
     */
    method CalculateSum(entry: String) returns (outcome: Result<Summary, Failure>)
      modifies this
      ensures sheet == old(sheet)
      ensures match Compute(old(sheet), entry)
              case Success(o) => outcome == Success(o.summary) && result == Some(o.summary) && selected == Some(o.selected)
              case Failure(e) => outcome == Failure(e) && result == old(result) && selected == old(selected)
    {
      if sheet.None? {
        return Failure(NoFile);
      }
      var keyword := Strip(entry);
      if keyword == [] {
        return Failure(NoKeyword);
      }
      var grid := sheet.value;
      var name, cost := LocateHeaders(grid);
      if name.None? || cost.None? {
        return Failure(HeadersNotFound(Preview(grid)));
      }
      var start := DataStart(name.value, cost.value);
      var rows := DataRows(grid, start, name.value.col, cost.value.col);
      var rule := SelectRule(keyword);
      var items := CollectSelected(rows, rule, start);
      var summary := Summarize(rows, rule);
      selected := Some(items);
      result := Some(summary);
      outcome := Success(summary);
    }

    /**
     * `show_debug`: the listed rows whose reason is "모델코드", or `None`
     * when no calculation has produced a list yet.
     */
    method ShowDebug() returns (shown: Option<seq<Item>>)
      ensures selected.None? ==> shown.None?
      ensures selected.Some? ==> shown == Some(ModelOnlyItems(selected.value))
    {
      if selected.None? {
        return None;
      }
      var items := selected.value;
      var kept: seq<Item> := [];
      var i := 0;
      while i < |items|
        invariant 0 <= i <= |items|
        invariant kept == ModelOnlyItems(items[..i])
      {
        assert items[..i + 1][..i] == items[..i];
        if ReasonText(items[i].reason) == "모델코드" {
          kept := kept + [items[i]];
        }
        i := i + 1;
      }
      assert items[..i] == items;
      shown := Some(kept);
    }
  }
}
