/**
 * A worked sheet: two blank rows, the headers "등록상품명" and
 * "할인적용가(A-B)" in row 2 (columns 0 and 3), and two products below them.
 * The keyword "hdd" selects both, one for its "HDD" token and one for its
 * model code, and sums 120,000 and 95,000.
 */
module Example {
  import opened Wrappers
  import opened Text
  import opened Cost
  import opened Headers
  import opened Rows
  import opened App

  const Seagate: String := "Seagate HDD 1TB"
  const Wd: String := "WD10EZEX"
  const SeagateCost: String := "120,000원"
  const WdCost: String := "95,000원"
  const NameHeader: String := "등록상품명"
  const CostHeader: String := "할인적용가(A-B)"

  const Sheet: Grid := [
    [],
    [],
    [Some(NameHeader), None, None, Some(CostHeader)],
    [Some(Seagate), None, None, Some(SeagateCost)],
    [Some(Wd), None, None, Some(WdCost)]
  ]

  /** A cell without the syllable '상' is not a product-name header. */
  lemma NotNameHeader(s: String)
    requires '상' !in s
    ensures !IsNameHeader(Some(s))
  {
    NormIntroducesNothing(s, '상');
    NameTextIff(Norm(s));
    NotContainsMissingChar(Norm(s), "상품명", 0);
  }

  /** A cell without the syllable '할' is not a cost header. */
  lemma NotCostHeader(s: String)
    requires '할' !in s
    ensures !IsCostHeader(Some(s))
  {
    NormIntroducesNothing(s, '할');
    CostTextIff(Norm(s));
    NotContainsMissingChar(Norm(s), "할인적용가", 0);
  }

  lemma EmptyIsNoHeader()
    ensures !IsNameHeader(None) && !IsCostHeader(None)
  {
    NameTextIff([]);
    CostTextIff([]);
  }

  lemma RegisteredNameIsName(t: String)
    requires t == NameLabels[0]
    ensures IsNameText(t)
  {
    NameTextIff(t);
    assert t[2..] == "상품명";
    assert OccursAt(t, "상품명", 2);
    ContainsIff(t, "상품명");
    NotContainsMissingChar(t, "id", 0);
  }

  lemma NameHeaderCell(s: String)
    requires s == NamePriority[0]
    ensures IsNameHeader(Some(s))
  {
    NormalNameLabel0();
    RegisteredNameIsName(Norm(s));
  }

  lemma CostHeaderCell(s: String)
    requires s == CostPriority[1] + "(A-B)"
    ensures IsCostHeader(Some(s))
  {
    NormConcat(CostPriority[1], "(A-B)");
    NormalCostLabel1();
    CostTextIff(Norm(s));
    ContainsPrefix(Norm(s), "할인적용가");
  }

  lemma RowScan(row: Row, c: String, d: String, q: Option<String> -> bool)
    requires row == [Some(c), None, None, Some(d)]
    requires !q(None) && !q(Some(c)) && !q(Some(d))
    ensures LastInRow(row, q) == None
  {
    LastInRowSpec(row, q);
  }

  /** The scan over a sheet of this shape, for a test that passes exactly one header cell. */
  lemma SheetScan(g: Grid, a: String, b: String, c: String, d: String, e: String, f: String,
                  q: Option<String> -> bool, atA: bool)
    requires g == [[], [], [Some(a), None, None, Some(b)], [Some(c), None, None, Some(d)], [Some(e), None, None, Some(f)]]
    requires q(Some(a)) == atA && q(Some(b)) == !atA && !q(None)
    requires !q(Some(c)) && !q(Some(d)) && !q(Some(e)) && !q(Some(f))
    ensures LastMatch(g, q) == Some(Pos(2, if atA then 0 else 3))
  {
    RowScan(g[4], e, f, q);
    RowScan(g[3], c, d, q);
    var header := g[2];
    LastInRowSpec(header, q);
    assert q(header[if atA then 0 else 3]);
    assert LastInRow(header, q) == Some(if atA then 0 else 3);
    assert LastMatch(g, q) == LastMatch(g[..4], q);
    assert g[..4][..3] == g[..3] && g[..4][3] == g[3];
    assert LastMatch(g[..4], q) == LastMatch(g[..3], q);
    assert g[..3][2] == header;
  }

  lemma NameHeaderFacts(s: String)
    requires s == NameHeader
    ensures IsNameHeader(Some(s)) && !IsCostHeader(Some(s))
  {
    NameHeaderCell(s);
    NotCostHeader(s);
  }

  lemma CostHeaderFacts(s: String)
    requires s == CostHeader
    ensures IsCostHeader(Some(s)) && !IsNameHeader(Some(s))
  {
    CostHeaderCell(s);
    NotNameHeader(s);
  }

  lemma PlainCell(s: String)
    requires '상' !in s && '할' !in s
    ensures !IsNameHeader(Some(s)) && !IsCostHeader(Some(s))
  {
    NotNameHeader(s);
    NotCostHeader(s);
  }

  lemma SeagateNameCell() ensures !IsNameHeader(Some(Seagate)) && !IsCostHeader(Some(Seagate)) { PlainCell(Seagate); }
  lemma SeagateCostCell() ensures !IsNameHeader(Some(SeagateCost)) && !IsCostHeader(Some(SeagateCost)) { PlainCell(SeagateCost); }
  lemma WdNameCell() ensures !IsNameHeader(Some(Wd)) && !IsCostHeader(Some(Wd)) { PlainCell(Wd); }
  lemma WdCostCell() ensures !IsNameHeader(Some(WdCost)) && !IsCostHeader(Some(WdCost)) { PlainCell(WdCost); }

  /** The header scan finds the name header at (2, 0) and the cost header at (2, 3). */
  lemma SheetHeaders()
    ensures LastMatch(Sheet, IsNameHeader) == Some(Pos(2, 0))
    ensures LastMatch(Sheet, IsCostHeader) == Some(Pos(2, 3))
  {
    NameHeaderFacts(NameHeader);
    CostHeaderFacts(CostHeader);
    EmptyIsNoHeader();
    SeagateNameCell();
    SeagateCostCell();
    WdNameCell();
    WdCostCell();
    SheetScan(Sheet, NameHeader, CostHeader, Seagate, SeagateCost, Wd, WdCost, IsNameHeader, true);
    SheetScan(Sheet, NameHeader, CostHeader, Seagate, SeagateCost, Wd, WdCost, IsCostHeader, false);
  }

  lemma SeagateCostValue()
    ensures ToNumber(Some(SeagateCost)) == Some(120000)
  {
    assert ShowNat(1) == "1";
    assert ShowNat(12) == "12";
    assert ShowNat(120) == "120";
    assert Pad3(0) == "000";
    assert SeagateCost == Grouped(120000) + [WonSyllable];
    ToNumberOfWonAmount(120000);
  }

  lemma WdCostValue()
    ensures ToNumber(Some(WdCost)) == Some(95000)
  {
    assert ShowNat(9) == "9";
    assert ShowNat(95) == "95";
    assert Pad3(0) == "000";
    assert WdCost == Grouped(95000) + [WonSyllable];
    ToNumberOfWonAmount(95000);
  }

  /** The same cost cell with a trailing line break still coerces to 95,000. */
  lemma WdCostWithLineBreak()
    ensures ToNumber(Some(WdCost + "\n")) == Some(95000)
  {
    assert ShowNat(9) == "9";
    assert ShowNat(95) == "95";
    assert Pad3(0) == "000";
    assert WdCost + "\n" == [] + (Grouped(95000) + [WonSyllable]) + "\n";
    ToNumberOfPaddedWonAmount([], 95000, "\n");
  }

  /** The two data rows of the sheet, with their coerced costs. */
  const SeagateData: DataRow := DataRow(Seagate, SeagateCost, Some(120000))
  const WdData: DataRow := DataRow(Wd, WdCost, Some(95000))

  /** On a sheet of this shape whose headers sit at (2, 0) and (2, 3), a keyword tallies rows 3 and 4. */
  lemma ComputeOnShape(g: Grid, a: String, b: String, c: String, d: String, e: String, f: String, keyword: String)
    requires g == [[], [], [Some(a), None, None, Some(b)], [Some(c), None, None, Some(d)], [Some(e), None, None, Some(f)]]
    requires LastMatch(g, IsNameHeader) == Some(Pos(2, 0)) && LastMatch(g, IsCostHeader) == Some(Pos(2, 3))
    requires Strip(keyword) == keyword != []
    ensures var rows := [DataRow(c, d, ToNumber(Some(d))), DataRow(e, f, ToNumber(Some(f)))];
            var rule := SelectRule(keyword);
            Compute(Some(g), keyword) == Success(Outcome(Summarize(rows, rule), SelectedItems(rows, rule, 3)))
  {
    RowsOfShape(g, a, b, c, d, e, f);
  }

  lemma RowsOfShape(g: Grid, a: String, b: String, c: String, d: String, e: String, f: String)
    requires g == [[], [], [Some(a), None, None, Some(b)], [Some(c), None, None, Some(d)], [Some(e), None, None, Some(f)]]
    ensures DataRows(g, 3, 0, 3) == [DataRow(c, d, ToNumber(Some(d))), DataRow(e, f, ToNumber(Some(f)))]
  {
    var rows := DataRows(g, 3, 0, 3);
    assert rows[0] == MakeRow(g[3], 0, 3);
    assert rows[1] == MakeRow(g[4], 0, 3);
  }

  /** Two rows, the first selected by the category token and the second by a model code. */
  lemma TwoRows(r1: DataRow, r2: DataRow, drive: Drive, x: int, y: int)
    requires Classify(Category(drive), r1.name) == Some(CategoryHit(drive))
    requires Classify(Category(drive), r2.name) == Some(ModelCodeHit)
    requires r1.cost == Some(x) && r2.cost == Some(y)
    ensures Summarize([r1, r2], Category(drive)) == Summary(x + y, 2, Some(Breakdown(drive, 1, 1)))
    ensures SelectedItems([r1, r2], Category(drive), 3) ==
            [Item(3, r1.name, r1.costRaw, r1.cost, CategoryHit(drive)),
             Item(4, r2.name, r2.costRaw, r2.cost, ModelCodeHit)]
  {
    var rows := [r1, r2];
    var rule := Category(drive);
    SummarizeMatchesTally(rows, rule);
    assert rows[..1] == [r1];
    assert rows[..1][..0] == [];
    assert Tally([], rule) == Summary(0, 0, Some(Breakdown(drive, 0, 0)));
    assert Tally([r1], rule) == Summary(x, 1, Some(Breakdown(drive, 1, 0)));
    assert AllItems([r1], Classifier(rule), 3) == [Item(3, r1.name, r1.costRaw, r1.cost, CategoryHit(drive))];
  }

  lemma SeagateIsHdd()
    ensures Classify(Category(Hdd), Seagate) == Some(CategoryHit(Hdd))
  {
    var s := LowerAll(Seagate);
    assert s[8..11] == "hdd";
    assert OccursAt(s, "hdd", 8);
    ContainsIff(s, "hdd");
  }

  lemma WdIsModelCode()
    ensures Classify(Category(Hdd), Wd) == Some(ModelCodeHit)
  {
    var w := LowerAll(Wd);
    assert HddModelCodes[0] == Wd;
    ContainsPrefix(w, w);
    NotContainsMissingChar(w, "hdd", 0);
  }

  lemma SelectHdd()
    ensures Strip("hdd") == "hdd" && SelectRule("hdd") == Category(Hdd)
  {
    assert StripLeft("hdd") == "hdd";
    assert StripRight("hdd") == "hdd";
    assert LowerAll("hdd") == "hdd";
  }

  /**
   * The keyword "hdd" on this sheet matches 2 rows totalling 215,000, one
   * tagged HDD and one tagged by model code, and lists both.
   */
  lemma HddOnSheet()
    ensures Compute(Some(Sheet), "hdd") ==
            Success(Outcome(Summary(215000, 2, Some(Breakdown(Hdd, 1, 1))),
                            [Item(3, Seagate, SeagateCost, Some(120000), CategoryHit(Hdd)),
                             Item(4, Wd, WdCost, Some(95000), ModelCodeHit)]))
  {
    SheetHeaders();
    SelectHdd();
    ComputeOnShape(Sheet, NameHeader, CostHeader, Seagate, SeagateCost, Wd, WdCost, "hdd");
    SeagateCostValue();
    WdCostValue();
    SeagateIsHdd();
    WdIsModelCode();
    TwoRows(SeagateData, WdData, Hdd, 120000, 95000);
  }
}
