/**
 * Three places where `calculate_sum` as written departs from what it
 * evidently means to do: the "nan" name of an empty cell (main.py:141-148),
 * and positional `iloc` lookups with sheet labels in the generic listing
 * (main.py:151-158) and in the second "hdd" loop (main.py:212-215). Each is
 * modelled as written next to a counterexample; the rest of the model
 * follows the corrected reading.
 */
module Findings {
  import opened Wrappers
  import opened Text
  import opened Cost
  import opened Headers
  import opened Rows
  import opened App
  import opened Example

  // ---------------------------------------------------------------------
  // Empty product names read as "nan".
  //
  // The name column is converted with `astype(str)` before `fillna("")`,
  // so an empty name cell is already the text "nan" when the fill runs,
  // and the fill does nothing.
  // ---------------------------------------------------------------------

  /** The name text as written: `astype(str)` first, so an empty cell reads "nan". */
  function NameTextAsWritten(v: Option<String>): (r: String)
    ensures v.None? ==> r == "nan"
  {
    AsStr(v)
  }

  /** A data row as written, with the name converted by `NameTextAsWritten`. */
  function MakeRowAsWritten(row: Row, nameCol: nat, costCol: nat): (r: DataRow)
    ensures r.costRaw == MakeRow(row, nameCol, costCol).costRaw && r.cost == MakeRow(row, nameCol, costCol).cost
  {
    var costCell := CellAt(row, costCol);
    DataRow(NameTextAsWritten(CellAt(row, nameCol)), AsStr(costCell), ToNumber(costCell))
  }

  /** A row with no product name but a cost, such as a subtotal line. */
  const SubtotalRow: Row := [None, Some("5000")]

  lemma SubtotalCost()
    ensures ToNumber(Some("5000")) == Some(5000)
  {
    assert ShowNat(5) == "5" && ShowNat(50) == "50" && ShowNat(500) == "500";
    assert ShowNat(5000) == "5000";
    ToNumberOfNumeral(5000);
  }

  /** A single row under a generic keyword: selected, with its cost, exactly when its name contains the keyword. */
  lemma OneRow(r: DataRow, keyword: String, kw: String)
    ensures Summarize([r], Generic(keyword, kw)) ==
            if Contains(LowerAll(r.name), kw) then Summary(CostOrZero(r), 1, None) else Summary(0, 0, None)
  {
    SummarizeMatchesTally([r], Generic(keyword, kw));
    assert [r][..0] == [];
  }

  lemma SubtotalAsWritten()
    ensures MakeRowAsWritten(SubtotalRow, 0, 1) == DataRow("nan", "5000", Some(5000))
  {
    SubtotalCost();
  }

  lemma SubtotalCorrected()
    ensures MakeRow(SubtotalRow, 0, 1) == DataRow([], "5000", Some(5000))
  {
    SubtotalCost();
  }

  lemma NanContainsN()
    ensures Contains(LowerAll("nan"), "n") && !Contains(LowerAll([]), "n")
  {
    assert LowerAll("nan") == "nan";
    assert OccursAt("nan", "n", 0);
    ContainsIff("nan", "n");
  }

  /**
   * As written, the keyword "n" selects the nameless subtotal row and adds
   * its cost; with empty names read as "" it selects nothing.
   */
  lemma NanNameIsMatched()
    ensures Summarize([MakeRowAsWritten(SubtotalRow, 0, 1)], Generic("n", "n")) == Summary(5000, 1, None)
    ensures Summarize([MakeRow(SubtotalRow, 0, 1)], Generic("n", "n")) == Summary(0, 0, None)
  {
    SubtotalAsWritten();
    SubtotalCorrected();
    NanContainsN();
    OneRow(DataRow("nan", "5000", Some(5000)), "n", "n");
    OneRow(DataRow([], "5000", Some(5000)), "n", "n");
  }

  lemma {:induction false} NoCodeInEmpty(codes: seq<String>)
    requires forall k :: 0 <= k < |codes| ==> codes[k] != []
    ensures !AnyCodeIn([], codes)
  {
    if codes != [] {
      NoCodeInEmpty(codes[1..]);
    }
  }

  lemma CodesAreNonEmpty(d: Drive)
    ensures forall k :: 0 <= k < |ModelCodes(d)| ==> ModelCodes(d)[k] != []
  {
  }

  /**
   * With empty names read as "", a row without a product name is selected
   * by no rule whose keyword is non-empty.
   */
  lemma EmptyNameNeverSelected(rule: Rule)
    requires rule.Generic? ==> rule.kw != []
    ensures Classify(rule, []) == None
  {
    assert LowerAll([]) == [];
    if rule.Category? {
      CodesAreNonEmpty(rule.drive);
      NoCodeInEmpty(ModelCodes(rule.drive));
    }
  }

  // ---------------------------------------------------------------------
  // Row labels used as positions.
  //
  // The data frame keeps the sheet's row labels, which start at the data
  // start. The generic branch builds its items with `iloc[idx]`, and the
  // second selection loop of the "hdd" branch tests `mask_hdd.iloc[idx]`,
  // with `idx` such a label. The lookup reads the row `idx` positions down,
  // and raises IndexError once `idx` reaches the number of data rows. The
  // catch-all handler then reports an error, and no total is shown. The
  // "ssd" branch and the first "hdd" loop use `loc` and are unaffected.
  // ---------------------------------------------------------------------

  /** Applies `f` to every item; `None` as soon as one application fails. */
  function MapAll(items: seq<Item>, f: Item -> Option<Item>): (r: Option<seq<Item>>)
    ensures r.Some? ==> |r.value| == |items|
  {
    if items == [] then Some([])
    else match (f(items[0]), MapAll(items[1..], f))
      case (Some(x), Some(rest)) => Some([x] + rest)
      case _ => None
  }

  lemma {:induction false} MapAllFails(items: seq<Item>, f: Item -> Option<Item>, k: nat)
    requires k < |items| && f(items[k]).None?
    ensures MapAll(items, f).None?
  {
    if k > 0 {
      MapAllFails(items[1..], f, k - 1);
    }
  }

  /** `row_item` of the generic branch: the label `idx` read as a position. */
  function GenericItemAsWritten(rows: seq<DataRow>, start: nat, it: Item): Option<Item> {
    var idx := it.row;
    if idx < |rows| then Some(Item(start + idx, rows[idx].name, rows[idx].costRaw, rows[idx].cost, it.reason))
    else None
  }

  /** The second "hdd" selection loop: the reason from `mask_hdd.iloc[idx]`, the row from `loc`. */
  function HddRepeatAsWritten(rows: seq<DataRow>, it: Item): Option<Item> {
    var idx := it.row;
    if idx < |rows| then
      Some(it.(reason := if CategoryMask(rows, Category(Hdd))[idx] then CategoryHit(Hdd) else ModelCodeHit))
    else None
  }

  /** The listed rows as written; `None` is the IndexError that ends the calculation. */
  function ListingAsWritten(rows: seq<DataRow>, rule: Rule, start: nat): Option<seq<Item>> {
    var listed := SelectedItems(rows, rule, start);
    match rule
    case Generic(_, _) => MapAll(listed, it => GenericItemAsWritten(rows, start, it))
    case Category(Hdd) =>
      (match MapAll(listed, it => HddRepeatAsWritten(rows, it))
       case Some(again) => Some(listed + again)
       case None => None)
    case Category(Ssd) => Some(listed)
  }

  /** `calculate_sum` after the headers are found, as written: an IndexError replaces the summary. */
  function TallyAsWritten(rows: seq<DataRow>, rule: Rule, start: nat): Option<Summary> {
    if ListingAsWritten(rows, rule, start).None? then None else Some(Summarize(rows, rule))
  }

  /**
   * As written, a generic keyword or "hdd" ends in an error whenever the
   * last data row is selected and at most `Limit` rows are: its label is
   * past the last position.
   */
  lemma LastRowSelectedFails(rows: seq<DataRow>, rule: Rule, start: nat)
    requires start >= 1 && rows != []
    requires rule.Generic? || rule == Category(Hdd)
    requires FinalMask(rows, rule)[|rows| - 1]
    requires Count(FinalMask(rows, rule)) <= Limit
    ensures ListingAsWritten(rows, rule, start) == None
    ensures TallyAsWritten(rows, rule, start) == None
  {
    var n := |rows| - 1;
    FinalMaskIsClassified(rows, rule, n);
    AllItemsSpec(rows, rule, start);
    var all := AllItems(rows, Classifier(rule), start);
    var last := Item(start + n, rows[n].name, rows[n].costRaw, rows[n].cost, Classify(rule, rows[n].name).value);
    assert all == AllItems(rows[..n], Classifier(rule), start) + [last];
    assert SelectedItems(rows, rule, start) == all;
    if rule.Generic? {
      MapAllFails(all, it => GenericItemAsWritten(rows, start, it), |all| - 1);
    } else {
      MapAllFails(all, it => HddRepeatAsWritten(rows, it), |all| - 1);
    }
  }

  /** A successful `MapAll` holds `f` of each item at that item's position. */
  lemma {:induction false} MapAllAt(items: seq<Item>, f: Item -> Option<Item>)
    requires MapAll(items, f).Some?
    ensures forall k :: 0 <= k < |items| ==> f(items[k]) == Some(MapAll(items, f).value[k])
  {
    if items != [] {
      MapAllAt(items[1..], f);
      forall k | 0 < k < |items|
        ensures f(items[k]) == Some(MapAll(items, f).value[k])
      {
        assert items[k] == items[1..][k - 1];
      }
    }
  }

  /**
   * When the "hdd" listing as written does not fail, it holds every selected
   * row twice: first as selected, then again with the reason taken from the
   * `mask_hdd` flag at the position equal to the row's label.
   */
  lemma HddListsTwice(rows: seq<DataRow>, start: nat)
    requires ListingAsWritten(rows, Category(Hdd), start).Some?
    ensures var sel := SelectedItems(rows, Category(Hdd), start);
            var l := ListingAsWritten(rows, Category(Hdd), start).value;
            |l| == 2 * |sel| && l[..|sel|] == sel &&
            forall k :: 0 <= k < |sel| ==>
              sel[k].row < |rows| &&
              l[|sel| + k] == sel[k].(reason := if CategoryMask(rows, Category(Hdd))[sel[k].row] then CategoryHit(Hdd) else ModelCodeHit)
  {
    var sel := SelectedItems(rows, Category(Hdd), start);
    MapAllAt(sel, it => HddRepeatAsWritten(rows, it));
  }

  /**
   * On the data rows of the worked sheet, "hdd" as written ends in an
   * error: the second selection loop looks up position 3 of two rows.
   */
  lemma HddOnSheetAsWritten()
    ensures TallyAsWritten([SeagateData, WdData], Category(Hdd), 3) == None
  {
    var rows := [SeagateData, WdData];
    SeagateIsHdd();
    WdIsModelCode();
    TwoRows(SeagateData, WdData, Hdd, 120000, 95000);
    FinalMaskIsClassified(rows, Category(Hdd), 1);
    LastRowSelectedFails(rows, Category(Hdd), 3);
  }
}
