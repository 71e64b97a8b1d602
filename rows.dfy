/**
 * The row classifier and the aggregator of `calculate_sum`. Every data row
 * has a product name (the name column as text) and a cost (the cost column
 * coerced by `to_number`). A generic keyword selects the rows whose
 * lower-cased name contains it; the keywords "hdd" and "ssd" select the rows
 * whose name contains the category token or, failing that, one of a fixed
 * list of model codes. The aggregator counts the selected rows and sums
 * their costs, skipping absent ones.
 */
module Rows {
  import opened Wrappers
  import opened Text
  import opened Cost

  /** One row below the header rows: name text, raw cost text, coerced cost. */
  datatype DataRow = DataRow(name: String, costRaw: String, cost: Option<int>)

  /** The two hardware categories with a model-code list. */
  datatype Drive = Hdd | Ssd

  /** The text a category's product names contain. */
  function Token(d: Drive): String {
    match d
    case Hdd => "hdd"
    case Ssd => "ssd"
  }

  /** The category's display tag, also its reason string. */
  function Tag(d: Drive): String {
    match d
    case Hdd => "HDD"
    case Ssd => "SSD"
  }

  /**
   * How rows are selected: a generic keyword (as typed, and stripped and
   * lower-cased), or a hardware category.
   */
  datatype Rule = Generic(keyword: String, kw: String) | Category(drive: Drive)

  /** Why a row was selected. */
  datatype Reason = KeywordHit(keyword: String) | CategoryHit(drive: Drive) | ModelCodeHit

  /** The `reason` string stored with each listed row. */
  function ReasonText(r: Reason): String {
    match r
    case KeywordHit(k) => "키워드:" + k
    case CategoryHit(d) => Tag(d)
    case ModelCodeHit => "모델코드"
  }

  /** The western digital hard-disk model codes, in source order. */
  const HddModelCodes: seq<String> :=
    ["WD10EZEX", "WD20EZAZ", "WD20EZBX", "WD30EZAX", "WD40EZAX", "WD60EZAX", "WD80EAZZ", "WD80EAAZ"] +
    ["WD10PURZ", "WD23PURZ", "WD33PURZ", "WD43PURZ", "WD64PURZ", "WD84PURZ", "WD8001PURP", "WD101PURP"] +
    ["WD121PURP", "WD141PURP", "WD181PURP", "WD2003FZEX", "WD4005FZBX", "WD8002FZWX", "WD101FZBX"] +
    ["WD20EFPX", "WD40EFPX", "WD60EZPX", "WD80EFZZ", "WD101EFBX", "WD120EFBX", "WD2002FFSX"] +
    ["WD4003FFBX", "WD6003FFBX", "WD8003FFBX", "WD8005FFBX", "WD102KFBX", "WD121KFBX", "WD142KFGX"] +
    ["WD161KFGX", "WD181KFGX", "WD201KFGX", "WD221KFGX", "WD240KFGX", "WD10SPZX", "WD20SPZX"] +
    ["WD5000LPZX"]

  /** The solid-state drive model names, in source order. */
  const SsdModelCodes: seq<String> :=
    ["Green 3D", "Green SATA", "Green M.2", "SA510"] +
    ["SN350", "SN570", "SN580", "SN770", "SN770M"] +
    ["SN850X", "SN5000", "SN7100"]

  /** The model codes of a category. */
  function ModelCodes(d: Drive): seq<String> {
    match d
    case Hdd => HddModelCodes
    case Ssd => SsdModelCodes
  }

  /**
   * The rule a keyword selects: `kw_lower = keyword.strip().lower()` is
   * compared with "hdd" and "ssd"; any other keyword is generic.
   */
  function SelectRule(keyword: String): (r: Rule)
    ensures r.Generic? ==> r.keyword == keyword && r.kw == LowerAll(Strip(keyword))
    ensures r.Category? ==> LowerAll(Strip(keyword)) == Token(r.drive)
    ensures r.Generic? ==> r.kw != Token(Hdd) && r.kw != Token(Ssd)
  {
    var kw := LowerAll(Strip(keyword));
    if kw == "hdd" then Category(Hdd)
    else if kw == "ssd" then Category(Ssd)
    else Generic(keyword, kw)
  }

  /** Some code of the list occurs in the lower-cased name, ignoring case (the escaped alternation). */
  predicate AnyCodeIn(lowered: String, codes: seq<String>) {
    |codes| > 0 && (Contains(lowered, LowerAll(codes[0])) || AnyCodeIn(lowered, codes[1..]))
  }

  /** `list(dict.fromkeys(codes))`: the first occurrence of each code, in order. */
  function Dedup(codes: seq<String>): (r: seq<String>)
    ensures forall x :: x in r <==> x in codes
    ensures forall i, j :: 0 <= i < j < |r| ==> r[i] != r[j]
  {
    if codes == [] then []
    else
      var d := Dedup(codes[..|codes| - 1]);
      var last := codes[|codes| - 1];
      assert forall x :: x in codes <==> x in codes[..|codes| - 1] || x == last;
      if last in d then d else d + [last]
  }

  lemma {:induction false} AnyCodeInIff(lowered: String, codes: seq<String>)
    ensures AnyCodeIn(lowered, codes) <==> exists c :: c in codes && Contains(lowered, LowerAll(c))
  {
    if codes != [] {
      AnyCodeInIff(lowered, codes[1..]);
      assert forall c :: c in codes <==> c == codes[0] || c in codes[1..];
    }
  }

  /** Removing duplicate codes does not change which names match. */
  lemma DedupKeepsMatches(lowered: String, codes: seq<String>)
    ensures AnyCodeIn(lowered, Dedup(codes)) == AnyCodeIn(lowered, codes)
  {
    AnyCodeInIff(lowered, codes);
    AnyCodeInIff(lowered, Dedup(codes));
  }

  /** `name_lower.str.contains(text)`: the rows whose lower-cased name contains `text`. */
  function ContainsMask(rows: seq<DataRow>, text: String): (m: seq<bool>)
    ensures |m| == |rows|
  {
    seq(|rows|, i requires 0 <= i < |rows| => Contains(LowerAll(rows[i].name), text))
  }

  /** `name_ser.str.contains(pattern, case=False)`: the rows whose name contains a model code. */
  function ModelMask(rows: seq<DataRow>, codes: seq<String>): (m: seq<bool>)
    ensures |m| == |rows|
  {
    seq(|rows|, i requires 0 <= i < |rows| => AnyCodeIn(LowerAll(rows[i].name), codes))
  }

  function Not(a: seq<bool>): (m: seq<bool>)
    ensures |m| == |a|
  {
    seq(|a|, i requires 0 <= i < |a| => !a[i])
  }

  function And(a: seq<bool>, b: seq<bool>): (m: seq<bool>)
    requires |a| == |b|
    ensures |m| == |a|
  {
    seq(|a|, i requires 0 <= i < |a| => a[i] && b[i])
  }

  function Or(a: seq<bool>, b: seq<bool>): (m: seq<bool>)
    requires |a| == |b|
    ensures |m| == |a|
  {
    seq(|a|, i requires 0 <= i < |a| => a[i] || b[i])
  }

  /** `int(mask.sum())`: the number of selected rows. */
  function Count(m: seq<bool>): nat {
    if m == [] then 0 else Count(m[..|m| - 1]) + (if m[|m| - 1] then 1 else 0)
  }

  /** `cost_ser[mask].sum(skipna=True)`: the sum of the present costs of the selected rows. */
  function SumWhere(m: seq<bool>, rows: seq<DataRow>): int
    requires |m| == |rows|
  {
    if m == [] then 0
    else
      var n := |m| - 1;
      SumWhere(m[..n], rows[..n]) + (if m[n] && rows[n].cost.Some? then rows[n].cost.value else 0)
  }

  /** For a category rule, the counts behind the matched count. */
  datatype Breakdown = Breakdown(drive: Drive, categoryCount: nat, modelOnlyCount: nat)

  /** The result shown to the user: total, matched count, and for a category rule the breakdown. */
  datatype Summary = Summary(total: int, matched: nat, breakdown: Option<Breakdown>)

  /** The category mask `mask_hdd` / `mask_ssd`. */
  function CategoryMask(rows: seq<DataRow>, rule: Rule): (m: seq<bool>)
    requires rule.Category?
    ensures |m| == |rows|
  {
    ContainsMask(rows, Token(rule.drive))
  }

  /** `mask_extra = (~mask_cat) & mask_model`: rows selected only through a model code. */
  function ExtraMask(rows: seq<DataRow>, rule: Rule): (m: seq<bool>)
    requires rule.Category?
    ensures |m| == |rows|
  {
    And(Not(CategoryMask(rows, rule)), ModelMask(rows, ModelCodes(rule.drive)))
  }

  /** The mask of the selected rows: `mask` for a generic keyword, `final_mask` for a category. */
  function FinalMask(rows: seq<DataRow>, rule: Rule): (m: seq<bool>)
    ensures |m| == |rows|
  {
    match rule
    case Generic(_, kw) => ContainsMask(rows, kw)
    case Category(_) => Or(CategoryMask(rows, rule), ExtraMask(rows, rule))
  }

  /** The masks, counts and sum of the three branches of `calculate_sum`. */
  function Summarize(rows: seq<DataRow>, rule: Rule): Summary {
    var final := FinalMask(rows, rule);
    var breakdown := match rule
      case Generic(_, _) => None
      case Category(drive) =>
        Some(Breakdown(drive, Count(CategoryMask(rows, rule)), Count(ExtraMask(rows, rule))));
    Summary(SumWhere(final, rows), Count(final), breakdown)
  }

  /**
   * The reference classification of one row: for a generic keyword the
   * keyword must occur in the lower-cased name; for a category the token
   * decides first and a model code only when the token is missing.
   */
  function Classify(rule: Rule, name: String): Option<Reason> {
    var lowered := LowerAll(name);
    match rule
    case Generic(keyword, kw) =>
      if Contains(lowered, kw) then Some(KeywordHit(keyword)) else None
    case Category(drive) =>
      if Contains(lowered, Token(drive)) then Some(CategoryHit(drive))
      else if AnyCodeIn(lowered, ModelCodes(drive)) then Some(ModelCodeHit)
      else None
  }

  /** The present cost of a row, or 0 when absent. */
  function CostOrZero(row: DataRow): int {
    if row.cost.Some? then row.cost.value else 0
  }

  /** The reference tally: matched rows, their costs, and rows per reason, one row at a time. */
  function Tally(rows: seq<DataRow>, rule: Rule): (s: Summary) {
    if rows == [] then Summary(0, 0, if rule.Category? then Some(Breakdown(rule.drive, 0, 0)) else None)
    else
      var n := |rows| - 1;
      var prev := Tally(rows[..n], rule);
      var reason := Classify(rule, rows[n].name);
      var hit := reason.Some?;
      Summary(
        prev.total + (if hit then CostOrZero(rows[n]) else 0),
        prev.matched + (if hit then 1 else 0),
        match prev.breakdown
        case None => None
        case Some(b) =>
          Some(Breakdown(b.drive,
                         b.categoryCount + (if reason == Some(CategoryHit(b.drive)) then 1 else 0),
                         b.modelOnlyCount + (if reason == Some(ModelCodeHit) then 1 else 0))))
  }

  lemma TallyShape(rows: seq<DataRow>, rule: Rule)
    ensures Tally(rows, rule).breakdown.Some? <==> rule.Category?
    ensures rule.Category? ==> Tally(rows, rule).breakdown.value.drive == rule.drive
  {
  }

  /** The final mask selects exactly the rows the reference classification selects. */
  lemma FinalMaskIsClassified(rows: seq<DataRow>, rule: Rule, i: nat)
    requires i < |rows|
    ensures FinalMask(rows, rule)[i] <==> Classify(rule, rows[i].name).Some?
    ensures rule.Category? ==>
              (CategoryMask(rows, rule)[i] <==> Classify(rule, rows[i].name) == Some(CategoryHit(rule.drive)))
    ensures rule.Category? ==>
              (ExtraMask(rows, rule)[i] <==> Classify(rule, rows[i].name) == Some(ModelCodeHit))
  {
  }

  lemma MasksOfPrefix(rows: seq<DataRow>, rule: Rule, n: nat)
    requires n <= |rows|
    ensures FinalMask(rows, rule)[..n] == FinalMask(rows[..n], rule)
    ensures rule.Category? ==> CategoryMask(rows, rule)[..n] == CategoryMask(rows[..n], rule)
    ensures rule.Category? ==> ExtraMask(rows, rule)[..n] == ExtraMask(rows[..n], rule)
  {
  }

  /**
   * The vectorised masks, counts and sum agree with the row-by-row
   * reference: the matched count is the number of classified rows, the
   * total the sum of their present costs, and the breakdown the number of
   * rows per reason.
   */
  lemma {:induction false} SummarizeMatchesTally(rows: seq<DataRow>, rule: Rule)
    ensures Summarize(rows, rule) == Tally(rows, rule)
  {
    if rows != [] {
      var n := |rows| - 1;
      SummarizeMatchesTally(rows[..n], rule);
      TallyShape(rows[..n], rule);
      SummarizeStep(rows, rule);
      if rule.Category? {
        BreakdownStep(rows, rule);
      }
    }
  }

  /** Adding one row to the vectorised total and count adds that row's share. */
  lemma SummarizeStep(rows: seq<DataRow>, rule: Rule)
    requires rows != []
    ensures var n := |rows| - 1;
            var hit := Classify(rule, rows[n].name).Some?;
            Summarize(rows, rule).total == Summarize(rows[..n], rule).total + (if hit then CostOrZero(rows[n]) else 0) &&
            Summarize(rows, rule).matched == Summarize(rows[..n], rule).matched + (if hit then 1 else 0)
  {
    var n := |rows| - 1;
    MasksOfPrefix(rows, rule, n);
    FinalMaskIsClassified(rows, rule, n);
    var final := FinalMask(rows, rule);
    assert SumWhere(final, rows) == SumWhere(final[..n], rows[..n]) + (if final[n] then CostOrZero(rows[n]) else 0);
  }

  /** Adding one row to the vectorised breakdown adds it to the count of its reason. */
  lemma BreakdownStep(rows: seq<DataRow>, rule: Rule)
    requires rows != [] && rule.Category?
    ensures var n := |rows| - 1;
            var reason := Classify(rule, rows[n].name);
            Summarize(rows, rule).breakdown ==
              Some(Breakdown(rule.drive,
                             Count(CategoryMask(rows[..n], rule)) + (if reason == Some(CategoryHit(rule.drive)) then 1 else 0),
                             Count(ExtraMask(rows[..n], rule)) + (if reason == Some(ModelCodeHit) then 1 else 0)))
  {
    var n := |rows| - 1;
    MasksOfPrefix(rows, rule, n);
    FinalMaskIsClassified(rows, rule, n);
  }

  /** The category mask and the model-only mask never select the same row. */
  lemma {:induction false} CountOfDisjointOr(a: seq<bool>, b: seq<bool>)
    requires |a| == |b|
    requires forall i :: 0 <= i < |a| ==> !(a[i] && b[i])
    ensures Count(Or(a, b)) == Count(a) + Count(b)
  {
    if a != [] {
      var n := |a| - 1;
      assert Or(a, b)[..n] == Or(a[..n], b[..n]);
      CountOfDisjointOr(a[..n], b[..n]);
    }
  }

  lemma {:induction false} SumOfDisjointOr(a: seq<bool>, b: seq<bool>, rows: seq<DataRow>)
    requires |a| == |b| == |rows|
    requires forall i :: 0 <= i < |a| ==> !(a[i] && b[i])
    ensures SumWhere(Or(a, b), rows) == SumWhere(a, rows) + SumWhere(b, rows)
  {
    if a != [] {
      var n := |a| - 1;
      assert Or(a, b)[..n] == Or(a[..n], b[..n]);
      SumOfDisjointOr(a[..n], b[..n], rows[..n]);
    }
  }

  /**
   * The partition identity of a category keyword: the final selection is
   * the union of the category and model-code masks, and the matched count
   * is the category count plus the model-only count.
   */
  lemma CategoryPartition(rows: seq<DataRow>, rule: Rule)
    requires rule.Category?
    ensures FinalMask(rows, rule) == Or(CategoryMask(rows, rule), ModelMask(rows, ModelCodes(rule.drive)))
    ensures var s := Summarize(rows, rule);
            s.breakdown.Some? && s.matched == s.breakdown.value.categoryCount + s.breakdown.value.modelOnlyCount
    ensures Summarize(rows, rule).total ==
            SumWhere(CategoryMask(rows, rule), rows) + SumWhere(ExtraMask(rows, rule), rows)
  {
    CountOfDisjointOr(CategoryMask(rows, rule), ExtraMask(rows, rule));
    SumOfDisjointOr(CategoryMask(rows, rule), ExtraMask(rows, rule), rows);
  }

  /** The indices a mask selects. */
  function Selected(m: seq<bool>): set<nat> {
    set i: nat | i < |m| && m[i]
  }

  /** `mask.sum()` is the number of selected indices. */
  lemma {:induction false} CountIsCardinality(m: seq<bool>)
    ensures Count(m) == |Selected(m)|
  {
    if m != [] {
      var n := |m| - 1;
      CountIsCardinality(m[..n]);
      if m[n] {
        assert Selected(m) == Selected(m[..n]) + {n};
      } else {
        assert Selected(m) == Selected(m[..n]);
      }
    }
  }

  /** The indices of the rows whose lower-cased name contains `kw`. */
  function RowsContaining(rows: seq<DataRow>, kw: String): set<nat> {
    set i: nat | i < |rows| && Contains(LowerAll(rows[i].name), kw)
  }

  /**
   * For a generic keyword the matched count is the number of data rows
   * whose lower-cased name contains the stripped, lower-cased keyword.
   */
  lemma GenericCount(rows: seq<DataRow>, keyword: String, kw: String)
    ensures Summarize(rows, Generic(keyword, kw)).matched == |RowsContaining(rows, kw)|
    ensures Summarize(rows, Generic(keyword, kw)).breakdown == None
  {
    var m := FinalMask(rows, Generic(keyword, kw));
    CountIsCardinality(m);
    assert Selected(m) == RowsContaining(rows, kw);
  }

  /** The number of listed rows `show_debug` may display. */
  const Limit: nat := 300

  /** The item recorded for a listed row. */
  datatype Item = Item(row: nat, name: String, costRaw: String, cost: Option<int>, reason: Reason)

  /** The classification of a rule as a function of the name. */
  function Classifier(rule: Rule): String -> Option<Reason> {
    name => Classify(rule, name)
  }

  /** Every row the classifier selects, in order, as an item whose row number is its sheet index. */
  function AllItems(rows: seq<DataRow>, classify: String -> Option<Reason>, start: nat): seq<Item> {
    if rows == [] then []
    else
      var n := |rows| - 1;
      var prev := AllItems(rows[..n], classify, start);
      match classify(rows[n].name)
      case Some(reason) =>
        prev + [Item(start + n, rows[n].name, rows[n].costRaw, rows[n].cost, reason)]
      case None => prev
  }

  /** Item `it` describes data row `it.row - start`, selected for the reason it records. */
  predicate Describes(rows: seq<DataRow>, classify: String -> Option<Reason>, start: nat, it: Item) {
    start <= it.row < start + |rows| &&
    var r := rows[it.row - start];
    it.name == r.name && it.costRaw == r.costRaw && it.cost == r.cost && classify(r.name) == Some(it.reason)
  }

  /**
   * The listed items are the selected rows: one per selected row, each
   * describing its row, in increasing row order.
   */
  lemma {:induction false} AllItemsSpec(rows: seq<DataRow>, rule: Rule, start: nat)
    ensures var items := AllItems(rows, Classifier(rule), start);
            |items| == Count(FinalMask(rows, rule)) &&
            (forall k :: 0 <= k < |items| ==> Describes(rows, Classifier(rule), start, items[k])) &&
            RowsIncreasing(items)
  {
    if rows != [] {
      var n := |rows| - 1;
      var classify := Classifier(rule);
      AllItemsSpec(rows[..n], rule, start);
      FinalCountStep(rows, rule);
      var prev := AllItems(rows[..n], classify, start);
      forall k | 0 <= k < |prev|
        ensures Describes(rows, classify, start, prev[k]) && prev[k].row < start + n
      {
        DescribesExtends(rows, classify, start, prev[k]);
      }
      var reason := classify(rows[n].name);
      if reason.Some? {
        var it := Item(start + n, rows[n].name, rows[n].costRaw, rows[n].cost, reason.value);
        forall k | 0 <= k < |prev + [it]|
          ensures Describes(rows, classify, start, (prev + [it])[k])
        {
          if k < |prev| {
            assert (prev + [it])[k] == prev[k];
          }
        }
        IncreasingAppend(prev, it);
      }
    }
  }

  /** The items are listed in strictly increasing row order. */
  predicate RowsIncreasing(items: seq<Item>) {
    forall k, l :: 0 <= k < l < |items| ==> items[k].row < items[l].row
  }

  lemma IncreasingAppend(items: seq<Item>, it: Item)
    requires RowsIncreasing(items)
    requires forall k :: 0 <= k < |items| ==> items[k].row < it.row
    ensures RowsIncreasing(items + [it])
  {
    var all := items + [it];
    forall k, l | 0 <= k < l < |all|
      ensures all[k].row < all[l].row
    {
      assert all[k] == items[k];
    }
  }

  /** An item describing a row of a prefix describes the same row of the whole sequence. */
  lemma DescribesExtends(rows: seq<DataRow>, classify: String -> Option<Reason>, start: nat, it: Item)
    requires rows != [] && Describes(rows[..|rows| - 1], classify, start, it)
    ensures Describes(rows, classify, start, it) && it.row < start + |rows| - 1
  {
    assert rows[..|rows| - 1][it.row - start] == rows[it.row - start];
  }

  /** Adding one row to the final mask's count adds it exactly when the row is classified. */
  lemma FinalCountStep(rows: seq<DataRow>, rule: Rule)
    requires rows != []
    ensures var n := |rows| - 1;
            Count(FinalMask(rows, rule)) ==
              Count(FinalMask(rows[..n], rule)) + (if Classify(rule, rows[n].name).Some? then 1 else 0)
  {
    var n := |rows| - 1;
    MasksOfPrefix(rows, rule, n);
    FinalMaskIsClassified(rows, rule, n);
  }

  function Take<T>(s: seq<T>, k: nat): (r: seq<T>)
    ensures r <= s && |r| == if |s| < k then |s| else k
  {
    if |s| <= k then s else s[..k]
  }

  /** `debug_selected`: the first `Limit` selected rows with the reason each was selected for. */
  function SelectedItems(rows: seq<DataRow>, rule: Rule, start: nat): (items: seq<Item>)
    ensures items <= AllItems(rows, Classifier(rule), start)
  {
    Take(AllItems(rows, Classifier(rule), start), Limit)
  }

  /**
   * For a category keyword, a listed row's reason string is the category
   * tag when its name contains the token, and "모델코드" otherwise.
   */
  lemma CategoryReasons(rows: seq<DataRow>, drive: Drive, start: nat)
    ensures forall it :: it in AllItems(rows, Classifier(Category(drive)), start) ==>
              ReasonText(it.reason) == if Contains(LowerAll(it.name), Token(drive)) then Tag(drive) else "모델코드"
  {
    var items := AllItems(rows, Classifier(Category(drive)), start);
    AllItemsSpec(rows, Category(drive), start);
    forall it | it in items
      ensures ReasonText(it.reason) == if Contains(LowerAll(it.name), Token(drive)) then Tag(drive) else "모델코드"
    {
      var k :| 0 <= k < |items| && items[k] == it;
      assert Describes(rows, Classifier(Category(drive)), start, items[k]);
    }
  }

  /** The list holds every selected row when there are at most `Limit` of them, and `Limit` rows otherwise. */
  lemma SelectedItemsCount(rows: seq<DataRow>, rule: Rule, start: nat)
    ensures var m := Summarize(rows, rule).matched;
            |SelectedItems(rows, rule, start)| == if m <= Limit then m else Limit
  {
    AllItemsSpec(rows, rule, start);
  }

  lemma {:induction false} AllItemsPrefix(rows: seq<DataRow>, classify: String -> Option<Reason>, start: nat, k: nat)
    requires k <= |rows|
    ensures AllItems(rows[..k], classify, start) <= AllItems(rows, classify, start)
  {
    if k < |rows| {
      var n := |rows| - 1;
      assert rows[..n][..k] == rows[..k];
      AllItemsPrefix(rows[..n], classify, start, k);
    } else {
      assert rows[..k] == rows;
    }
  }

  /**
   * The collection loop: walk the data rows in order and append an item
   * for each selected row, stopping once `Limit` items are listed.
   */
  method CollectSelected(rows: seq<DataRow>, rule: Rule, start: nat) returns (items: seq<Item>)
    ensures items == SelectedItems(rows, rule, start)
  {
    var classify := Classifier(rule);
    items := [];
    var i := 0;
    while i < |rows| && |items| < Limit
      invariant 0 <= i <= |rows|
      invariant items == AllItems(rows[..i], classify, start)
      invariant |items| <= Limit
    {
      assert rows[..i + 1][..i] == rows[..i];
      var reason := classify(rows[i].name);
      if reason.Some? {
        items := items + [Item(start + i, rows[i].name, rows[i].costRaw, rows[i].cost, reason.value)];
      }
      i := i + 1;
    }
    AllItemsPrefix(rows, classify, start, i);
    if i == |rows| {
      assert rows[..i] == rows;
    }
  }

  /** `show_debug`'s filter: the listed items whose reason string is "모델코드". */
  function ModelOnlyItems(items: seq<Item>): (r: seq<Item>)
    ensures |r| <= |items|
    ensures forall k :: 0 <= k < |r| ==> r[k].reason == ModelCodeHit
  {
    if items == [] then []
    else
      var n := |items| - 1;
      ReasonTextIsModelCode(items[n].reason);
      ModelOnlyItems(items[..n]) + (if ReasonText(items[n].reason) == "모델코드" then [items[n]] else [])
  }

  /** The filter keeps only items of its input. */
  lemma {:induction false} ModelOnlyItemsFromInput(items: seq<Item>)
    ensures forall it :: it in ModelOnlyItems(items) ==> it in items
  {
    if items != [] {
      var n := |items| - 1;
      ModelOnlyItemsFromInput(items[..n]);
      forall it | it in ModelOnlyItems(items)
        ensures it in items
      {
        if it in ModelOnlyItems(items[..n]) {
          assert it in items[..n];
        }
      }
    }
  }

  /** Only the model-code reason renders as "모델코드", whatever keyword was typed. */
  lemma ReasonTextIsModelCode(r: Reason)
    ensures ReasonText(r) == "모델코드" <==> r == ModelCodeHit
  {
    match r
    case KeywordHit(_) =>
      assert ReasonText(r)[0] == '키' != "모델코드"[0];
    case CategoryHit(d) =>
      assert |ReasonText(r)| == 3;
    case ModelCodeHit =>
  }

  /**
   * `show_debug` on a category keyword lists one item per row that only a
   * model code selected, and nothing for a generic keyword.
   */
  lemma ModelOnlyOfAllItems(rows: seq<DataRow>, rule: Rule, start: nat)
    ensures var shown := ModelOnlyItems(AllItems(rows, Classifier(rule), start));
            |shown| == (if rule.Category? then Count(ExtraMask(rows, rule)) else 0) &&
            forall k :: 0 <= k < |shown| ==> shown[k].reason == ModelCodeHit
  {
    ModelOnlyCount(rows, Classifier(rule), start);
    if rule.Category? {
      ExtraCountByReason(rows, rule);
    } else {
      NoModelCodeHitForGeneric(rows, rule);
    }
  }

  /** The number of rows the classifier selects for the given reason. */
  function CountReason(rows: seq<DataRow>, classify: String -> Option<Reason>, reason: Reason): nat {
    if rows == [] then 0
    else
      var n := |rows| - 1;
      CountReason(rows[..n], classify, reason) + (if classify(rows[n].name) == Some(reason) then 1 else 0)
  }

  /** Filtering the listing for model codes keeps one item per row selected through a model code. */
  lemma {:induction false} ModelOnlyCount(rows: seq<DataRow>, classify: String -> Option<Reason>, start: nat)
    ensures |ModelOnlyItems(AllItems(rows, classify, start))| == CountReason(rows, classify, ModelCodeHit)
  {
    if rows != [] {
      var n := |rows| - 1;
      ModelOnlyCount(rows[..n], classify, start);
      var prev := AllItems(rows[..n], classify, start);
      var reason := classify(rows[n].name);
      if reason.Some? {
        var it := Item(start + n, rows[n].name, rows[n].costRaw, rows[n].cost, reason.value);
        ModelOnlyStep(prev, it);
      }
    }
  }

  lemma {:induction false} ExtraCountByReason(rows: seq<DataRow>, rule: Rule)
    requires rule.Category?
    ensures Count(ExtraMask(rows, rule)) == CountReason(rows, Classifier(rule), ModelCodeHit)
  {
    if rows != [] {
      ExtraCountByReason(rows[..|rows| - 1], rule);
      ExtraCountStep(rows, rule);
    }
  }

  lemma {:induction false} NoModelCodeHitForGeneric(rows: seq<DataRow>, rule: Rule)
    requires rule.Generic?
    ensures CountReason(rows, Classifier(rule), ModelCodeHit) == 0
  {
    if rows != [] {
      NoModelCodeHitForGeneric(rows[..|rows| - 1], rule);
    }
  }

  /**
   * `show_debug` filters the capped list `debug_selected`: what it shows is
   * the start of the model-only rows of the whole listing, and all of them,
   * one per model-only row, when at most `Limit` rows are selected.
   */
  lemma ModelOnlyOfSelected(rows: seq<DataRow>, rule: Rule, start: nat)
    ensures var all := ModelOnlyItems(AllItems(rows, Classifier(rule), start));
            var shown := ModelOnlyItems(SelectedItems(rows, rule, start));
            shown <= all &&
            (Summarize(rows, rule).matched <= Limit ==>
               shown == all && |shown| == (if rule.Category? then Count(ExtraMask(rows, rule)) else 0))
  {
    var items := AllItems(rows, Classifier(rule), start);
    AllItemsSpec(rows, rule, start);
    ModelOnlyOfAllItems(rows, rule, start);
    if |items| > Limit {
      ModelOnlyOfPrefix(items, Limit);
    }
  }

  /** Filtering a prefix of a listing gives a prefix of the filtered listing. */
  lemma {:induction false} ModelOnlyOfPrefix(items: seq<Item>, k: nat)
    requires k <= |items|
    ensures ModelOnlyItems(items[..k]) <= ModelOnlyItems(items)
    decreases |items|
  {
    if k < |items| {
      var n := |items| - 1;
      assert items[..n][..k] == items[..k];
      ModelOnlyOfPrefix(items[..n], k);
    } else {
      assert items[..k] == items;
    }
  }

  /** Adding one row to the model-only count adds it exactly when a model code alone selects it. */
  lemma ExtraCountStep(rows: seq<DataRow>, rule: Rule)
    requires rows != [] && rule.Category?
    ensures var n := |rows| - 1;
            Count(ExtraMask(rows, rule)) ==
              Count(ExtraMask(rows[..n], rule)) + (if Classify(rule, rows[n].name) == Some(ModelCodeHit) then 1 else 0)
  {
    var n := |rows| - 1;
    MasksOfPrefix(rows, rule, n);
    FinalMaskIsClassified(rows, rule, n);
  }

  /** Appending one item to the listing appends it to the filtered listing exactly when it is a model-code hit. */
  lemma ModelOnlyStep(items: seq<Item>, it: Item)
    ensures ModelOnlyItems(items + [it]) == ModelOnlyItems(items) + (if it.reason == ModelCodeHit then [it] else [])
    ensures |ModelOnlyItems(items + [it])| == |ModelOnlyItems(items)| + (if it.reason == ModelCodeHit then 1 else 0)
  {
    assert (items + [it])[..|items|] == items;
    ReasonTextIsModelCode(it.reason);
  }
}
