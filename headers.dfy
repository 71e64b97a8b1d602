/**
 * The header locator of `calculate_sum`. The sheet is read without a header
 * row, so every cell is a candidate: a cell is a product-name header when its
 * normalised text contains a normalised name label and does not contain
 * "id"; it is a cost header when its normalised text contains a normalised
 * cost label. The scan runs over rows top to bottom and cells left to right,
 * and every qualifying cell overwrites the previous choice.
 */
module Headers {
  import opened Wrappers
  import opened Text

  /** One spreadsheet row; `None` is an empty cell. */
  type Row = seq<Option<String>>

  /** The whole sheet as read with `header=None`. */
  type Grid = seq<Row>

  /** A (row index, column index) pair of the grid. */
  datatype Pos = Pos(row: nat, col: nat)

  /** `name_priority`: "등록상품명", then "상품명". */
  const NamePriority: seq<String> := ["등록상품명", "상품명"]

  /** `cost_priority`: four spellings of the discounted price "할인적용가(A-B)". */
  const CostPriority: seq<String> := ["할인적용가(a-b)", "할인적용가", "할인 적용가", "할인적용가a-b"]

  /** The labels as `norm(p)` turns them into; `NormalisedLabels` proves them equal. */
  const NameLabels: seq<String> := ["등록상품명", "상품명"]
  const CostLabels: seq<String> := ["할인적용가(a-b)", "할인적용가", "할인적용가", "할인적용가a-b"]

  /** `any(p in t for p in labels)` over already normalised labels. */
  predicate AnyLabelIn(t: String, labels: seq<String>) {
    |labels| > 0 && (Contains(t, labels[0]) || AnyLabelIn(t, labels[1..]))
  }

  /** The name test on normalised cell text: a name label occurs in it and "id" does not. */
  predicate IsNameText(t: String) {
    !Contains(t, "id") && AnyLabelIn(t, NameLabels)
  }

  /** The cost test on normalised cell text: a cost label occurs in it. */
  predicate IsCostText(t: String) {
    AnyLabelIn(t, CostLabels)
  }

  /** A cell qualifies as the product-name header. */
  predicate IsNameHeader(v: Option<String>) {
    IsNameText(NormCell(v))
  }

  /** A cell qualifies as the cost header. */
  predicate IsCostHeader(v: Option<String>) {
    IsCostText(NormCell(v))
  }

  /** The column of the last cell of a row that passes the test `q`. */
  function LastInRow(row: Row, q: Option<String> -> bool): (r: Option<nat>)
    ensures r.Some? ==> r.value < |row|
  {
    if row == [] then None
    else if q(row[|row| - 1]) then Some(|row| - 1)
    else LastInRow(row[..|row| - 1], q)
  }

  /**
   * The position a last-match-wins scan ends with: the last passing cell
   * of the last row that has one, or `None` when no cell passes.
   */
  function LastMatch(grid: Grid, q: Option<String> -> bool): Option<Pos> {
    if grid == [] then None
    else match LastInRow(grid[|grid| - 1], q)
      case Some(c) => Some(Pos(|grid| - 1, c))
      case None => LastMatch(grid[..|grid| - 1], q)
  }

  predicate PassesAt(grid: Grid, q: Option<String> -> bool, p: Pos) {
    p.row < |grid| && p.col < |grid[p.row]| && q(grid[p.row][p.col])
  }

  /** `q` comes after `p` in row-major order. */
  predicate Later(p: Pos, q: Pos) {
    q.row > p.row || (q.row == p.row && q.col > p.col)
  }

  lemma {:induction false} LastInRowSpec(row: Row, q: Option<String> -> bool)
    ensures LastInRow(row, q).None? <==> forall c :: 0 <= c < |row| ==> !q(row[c])
    ensures LastInRow(row, q).Some? ==>
              var c := LastInRow(row, q).value;
              q(row[c]) && forall d :: c < d < |row| ==> !q(row[d])
  {
    if row != [] && !q(row[|row| - 1]) {
      var init := row[..|row| - 1];
      LastInRowSpec(init, q);
      assert forall c :: 0 <= c < |init| ==> init[c] == row[c];
    }
  }

  /**
   * Last match wins: the scan reports no position exactly when no cell
   * passes, and otherwise a passing cell after which, in row-major order,
   * no cell passes.
   */
  lemma {:induction false} LastMatchSpec(grid: Grid, q: Option<String> -> bool)
    ensures LastMatch(grid, q).None? <==> forall p :: !PassesAt(grid, q, p)
    ensures LastMatch(grid, q).Some? ==>
              var p := LastMatch(grid, q).value;
              PassesAt(grid, q, p) && forall p' :: PassesAt(grid, q, p') ==> !Later(p, p')
  {
    if grid != [] {
      var last := |grid| - 1;
      var init := grid[..last];
      LastInRowSpec(grid[last], q);
      LastMatchSpec(init, q);
      assert forall p :: PassesAt(init, q, p) <==> PassesAt(grid, q, p) && p.row < last;
      if LastInRow(grid[last], q).Some? {
        var c := LastInRow(grid[last], q).value;
        assert PassesAt(grid, q, Pos(last, c));
      }
    }
  }

  /** The chosen product-name header cell never contains "id" once normalised. */
  lemma NameHeaderHasNoId(grid: Grid)
    requires LastMatch(grid, IsNameHeader).Some?
    ensures var p := LastMatch(grid, IsNameHeader).value;
            p.row < |grid| && p.col < |grid[p.row]| && !Contains(NormCell(grid[p.row][p.col]), "id")
  {
    LastMatchSpec(grid, IsNameHeader);
  }

  /** The choice after scanning one more row: its last passing cell if it has one, else `prev`. */
  function RowChoice(row: Row, i: nat, q: Option<String> -> bool, prev: Option<Pos>): Option<Pos> {
    match LastInRow(row, q)
    case Some(c) => Some(Pos(i, c))
    case None => prev
  }

  /**
   * One inner loop of the scan over row `i`: every cell that passes the
   * test `q` overwrites the position found so far.
   */
  method ScanRow(row: Row, i: nat, q: Option<String> -> bool, prev: Option<Pos>)
    returns (choice: Option<Pos>)
    ensures choice == RowChoice(row, i, q, prev)
  {
    choice := prev;
    var j := 0;
    while j < |row|
      invariant 0 <= j <= |row|
      invariant choice == RowChoice(row[..j], i, q, prev)
    {
      assert row[..j + 1][..j] == row[..j];
      if q(row[j]) {
        choice := Some(Pos(i, j));
      }
      j := j + 1;
    }
    assert row[..|row|] == row;
  }

  /**
   * The header scan over the whole sheet, rows top to bottom: in each row
   * the name loop and then the cost loop. It ends with the last qualifying
   * cell for each header.
   */
  method LocateHeaders(grid: Grid) returns (name: Option<Pos>, cost: Option<Pos>)
    ensures name == LastMatch(grid, IsNameHeader)
    ensures cost == LastMatch(grid, IsCostHeader)
  {
    name, cost := None, None;
    var i := 0;
    while i < |grid|
      invariant 0 <= i <= |grid|
      invariant name == LastMatch(grid[..i], IsNameHeader)
      invariant cost == LastMatch(grid[..i], IsCostHeader)
    {
      name := ScanRow(grid[i], i, IsNameHeader, name);
      cost := ScanRow(grid[i], i, IsCostHeader, cost);
      assert grid[..i + 1][..i] == grid[..i];
      i := i + 1;
    }
    assert grid[..|grid|] == grid;
  }

  /** `AnyLabelIn` asks whether some label, wherever it stands in the list, occurs. */
  lemma {:induction false} AnyLabelInIff(t: String, labels: seq<String>)
    ensures AnyLabelIn(t, labels) <==> exists k :: 0 <= k < |labels| && Contains(t, labels[k])
  {
    if labels != [] {
      AnyLabelInIff(t, labels[1..]);
      if exists k :: 0 <= k < |labels| && Contains(t, labels[k]) {
        var k :| 0 <= k < |labels| && Contains(t, labels[k]);
        if k > 0 {
          assert labels[1..][k - 1] == labels[k];
        }
      }
    }
  }

  /** The order of a label list has no effect: any reordering accepts the same cells. */
  lemma LabelOrderIrrelevant(t: String, labels: seq<String>, reordered: seq<String>)
    requires multiset(labels) == multiset(reordered)
    ensures AnyLabelIn(t, labels) == AnyLabelIn(t, reordered)
  {
    AnyLabelInIff(t, labels);
    AnyLabelInIff(t, reordered);
    forall k | 0 <= k < |labels| && Contains(t, labels[k])
      ensures exists k' :: 0 <= k' < |reordered| && Contains(t, reordered[k'])
    {
      assert labels[k] in multiset(reordered);
      var k' :| 0 <= k' < |reordered| && reordered[k'] == labels[k];
    }
    forall k | 0 <= k < |reordered| && Contains(t, reordered[k])
      ensures exists k' :: 0 <= k' < |labels| && Contains(t, labels[k'])
    {
      assert reordered[k] in multiset(labels);
      var k' :| 0 <= k' < |labels| && labels[k'] == reordered[k];
    }
  }

  lemma NormalNameLabel0() ensures Norm(NamePriority[0]) == NameLabels[0] { NormOfNormal(NamePriority[0]); }
  lemma NormalNameLabel1() ensures Norm(NamePriority[1]) == NameLabels[1] { NormOfNormal(NamePriority[1]); }
  lemma NormalCostLabel0() ensures Norm(CostPriority[0]) == CostLabels[0] { NormOfNormal(CostPriority[0]); }
  lemma NormalCostLabel1() ensures Norm(CostPriority[1]) == CostLabels[1] { NormOfNormal(CostPriority[1]); }
  lemma NormalCostLabel3() ensures Norm(CostPriority[3]) == CostLabels[3] { NormOfNormal(CostPriority[3]); }

  lemma NormalCostLabel2()
    ensures Norm(CostPriority[2]) == CostLabels[2]
  {
    var discount, price := "할인", "적용가";
    assert CostPriority[2] == discount + ([' '] + price);
    NormJoinsAroundSpace(discount, ' ', price);
  }

  /** Each precomputed name label is `norm` of the source's label at the same place. */
  lemma NormalisedNameLabel(k: nat)
    requires k < |NamePriority|
    ensures |NameLabels| == |NamePriority| && NameLabels[k] == Norm(NamePriority[k])
  {
    if k == 0 { NormalNameLabel0(); } else { NormalNameLabel1(); }
  }

  /** Each precomputed cost label is `norm` of the source's label at the same place. */
  lemma NormalisedCostLabel(k: nat)
    requires k < |CostPriority|
    ensures |CostLabels| == |CostPriority| && CostLabels[k] == Norm(CostPriority[k])
  {
    if k == 0 {
      NormalCostLabel0();
    } else if k == 1 {
      NormalCostLabel1();
    } else if k == 2 {
      NormalCostLabel2();
    } else {
      NormalCostLabel3();
    }
  }

  /**
   * The name test reduces to: contains "상품명" and not "id". The first
   * label, "등록상품명", contains the second, so it never decides anything.
   */
  lemma NameTextIff(t: String)
    ensures IsNameText(t) <==> !Contains(t, "id") && Contains(t, "상품명")
  {
    AnyLabelInIff(t, NameLabels);
    assert OccursAt(NameLabels[0], NameLabels[1], 2);
    ContainsIff(NameLabels[0], NameLabels[1]);
    if Contains(t, NameLabels[0]) {
      ContainsTransitive(t, NameLabels[0], NameLabels[1]);
    }
  }

  /** The cost test reduces to: contains "할인적용가", the prefix of every cost label. */
  lemma CostTextIff(t: String)
    ensures IsCostText(t) <==> Contains(t, "할인적용가")
  {
    AnyLabelInIff(t, CostLabels);
    forall k | 0 <= k < |CostLabels| && Contains(t, CostLabels[k])
      ensures Contains(t, "할인적용가")
    {
      ContainsPrefix(CostLabels[k], "할인적용가");
      ContainsTransitive(t, CostLabels[k], "할인적용가");
    }
  }
}
