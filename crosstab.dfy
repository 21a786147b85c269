/** The theme-by-beneficiary cross-tabulation of app.py: the pivot table of
    summed programmed amounts, its reindexing onto the canonical orderings,
    and the removal of the indeterminate theme row. */
module CrossTab {
  import opened Records
  import opened Keys

  /** A labelled matrix. A cell is None where pandas holds NaN. */
  datatype Table = Table(rows: seq<string>, cols: seq<string>, cells: seq<seq<Option<real>>>)

  predicate WellShaped(t: Table) {
    && |t.cells| == |t.rows|
    && forall i :: 0 <= i < |t.cells| ==> |t.cells[i]| == |t.cols|
  }

  function ThemesOf(ops: seq<Operation>): (r: seq<string>)
    ensures |r| == |ops| && forall i :: 0 <= i < |ops| ==> r[i] == ops[i].theme
  {
    seq(|ops|, i requires 0 <= i < |ops| => ops[i].theme)
  }

  function CategoriesOf(ops: seq<Operation>): (r: seq<string>)
    ensures |r| == |ops| && forall i :: 0 <= i < |ops| ==> r[i] == ops[i].category
  {
    seq(|ops|, i requires 0 <= i < |ops| => ops[i].category)
  }

  /** The programmed amount summed over the records of theme `t` and category `c`.
      With non-negative amounts it lies between 0 and the total of all records. */
  function PairSum(ops: seq<Operation>, t: string, c: string): (r: real)
    ensures NonNegativeAmounts(ops) ==> 0.0 <= r <= TotalAmount(ops)
  {
    if ops == [] then 0.0
    else
      assert NonNegativeAmounts(ops) ==> NonNegativeAmounts(ops[1..]) by {
        if NonNegativeAmounts(ops) {
          forall i | 0 <= i < |ops[1..]| ensures ops[1..][i].amount >= 0.0 {
            assert ops[1..][i] == ops[i + 1];
          }
        }
      }
      (if ops[0].theme == t && ops[0].category == c then ops[0].amount else 0.0)
      + PairSum(ops[1..], t, c)
  }

  /** A combination no record has sums to exactly zero. */
  lemma {:induction false} PairSumNoMatch(ops: seq<Operation>, t: string, c: string)
    requires forall k :: 0 <= k < |ops| ==> !(ops[k].theme == t && ops[k].category == c)
    ensures PairSum(ops, t, c) == 0.0
    decreases |ops|
  {
    if ops != [] {
      PairSumNoMatch(ops[1..], t, c);
    }
  }

  /** pivot_table(values=amount, index=theme, columns=category, aggfunc=sum).fillna(0):
      rows and columns are the sorted distinct themes and categories of the data, and
      every cell holds the sum of its group, zero where the group has no record. */
  function Pivot(ops: seq<Operation>): (p: Table)
    ensures WellShaped(p)
    ensures Ascending(p.rows) && Elements(p.rows) == Elements(ThemesOf(ops))
    ensures Ascending(p.cols) && Elements(p.cols) == Elements(CategoriesOf(ops))
  {
    var rows := SortedKeys(ThemesOf(ops));
    var cols := SortedKeys(CategoriesOf(ops));
    Table(rows, cols,
      seq(|rows|, i requires 0 <= i < |rows| =>
        seq(|cols|, j requires 0 <= j < |cols| => Some(PairSum(ops, rows[i], cols[j])))))
  }

  /** Every pivot cell is present and holds its group's sum; a combination of a
      present theme and a present category that no record has is exactly 0. */
  lemma PivotCells(ops: seq<Operation>, i: nat, j: nat)
    requires i < |Pivot(ops).rows| && j < |Pivot(ops).cols|
    ensures Pivot(ops).rows[i] in ThemesOf(ops) && Pivot(ops).cols[j] in CategoriesOf(ops)
    ensures Pivot(ops).cells[i][j] == Some(PairSum(ops, Pivot(ops).rows[i], Pivot(ops).cols[j]))
    ensures (forall k :: 0 <= k < |ops| ==>
               !(ops[k].theme == Pivot(ops).rows[i] && ops[k].category == Pivot(ops).cols[j]))
            ==> Pivot(ops).cells[i][j] == Some(0.0)
  {
    var p := Pivot(ops);
    assert p.rows[i] in Elements(p.rows) && p.cols[j] in Elements(p.cols);
    if forall k :: 0 <= k < |ops| ==> !(ops[k].theme == p.rows[i] && ops[k].category == p.cols[j]) {
      PairSumNoMatch(ops, p.rows[i], p.cols[j]);
    }
  }

  /** Position of the first occurrence of `x` in `s`. */
  function IndexOf(s: seq<string>, x: string): (i: nat)
    requires x in s
    ensures i < |s| && s[i] == x
    ensures forall k :: 0 <= k < i ==> s[k] != x
  {
    if s[0] == x then 0 else 1 + IndexOf(s[1..], x)
  }

  /** Where each target label is taken from on one axis: None for a label the axis
      does not have. pandas refuses to reindex an axis with repeated labels onto a
      different target. */
  function AxisIndexer(labels: seq<string>, target: seq<string>): (r: Result<seq<Option<nat>>>)
    ensures r.Ok? <==> labels == target || Distinct(labels)
    ensures r.Ok? ==> |r.value| == |target|
    ensures r.Ok? ==> forall k :: 0 <= k < |target| ==>
              (r.value[k].Some? ==> r.value[k].value < |labels| && labels[r.value[k].value] == target[k])
              && (r.value[k].None? ==> target[k] !in labels)
  {
    if labels == target then Ok(seq(|target|, k requires 0 <= k < |target| => Some(k)))
    else if !Distinct(labels) then Err(DuplicateLabels)
    else Ok(seq(|target|, k requires 0 <= k < |target| =>
                  if target[k] in labels then Some(IndexOf(labels, target[k])) else None))
  }

  function Pick(t: Table, a: Option<nat>, b: Option<nat>): Option<real> {
    if a.Some? && b.Some? && a.value < |t.cells| && b.value < |t.cells[a.value]|
    then t.cells[a.value][b.value]
    else None
  }

  function PickAll(t: Table, ri: seq<Option<nat>>, ci: seq<Option<nat>>): (cells: seq<seq<Option<real>>>)
    ensures |cells| == |ri| && forall i :: 0 <= i < |ri| ==> |cells[i]| == |ci|
    ensures forall i, j :: 0 <= i < |ri| && 0 <= j < |ci| ==> cells[i][j] == Pick(t, ri[i], ci[j])
  {
    seq(|ri|, i requires 0 <= i < |ri| => seq(|ci|, j requires 0 <= j < |ci| => Pick(t, ri[i], ci[j])))
  }

  lemma PickAllIdentity(t: Table, ri: seq<Option<nat>>, ci: seq<Option<nat>>)
    requires WellShaped(t) && |ri| == |t.rows| && |ci| == |t.cols|
    requires ri == seq(|t.rows|, k requires 0 <= k < |t.rows| => Some(k))
    requires ci == seq(|t.cols|, k requires 0 <= k < |t.cols| => Some(k))
    ensures PickAll(t, ri, ci) == t.cells
  {
    var cells := PickAll(t, ri, ci);
    forall i | 0 <= i < |t.rows| ensures cells[i] == t.cells[i] {
      assert ri[i] == Some(i);
      forall j | 0 <= j < |t.cols| ensures cells[i][j] == t.cells[i][j] {
        assert ci[j] == Some(j);
      }
    }
  }

  /** The cell a reindex onto `rows` and `cols` puts at (i, j), for an axis without
      repeated labels. */
  function ReindexedCell(t: Table, rows: seq<string>, cols: seq<string>, i: nat, j: nat): Option<real>
    requires WellShaped(t) && i < |rows| && j < |cols|
  {
    if rows[i] in t.rows && cols[j] in t.cols
    then t.cells[IndexOf(t.rows, rows[i])][IndexOf(t.cols, cols[j])]
    else None
  }

  lemma PickAllDistinct(t: Table, rows: seq<string>, cols: seq<string>, ri: seq<Option<nat>>, ci: seq<Option<nat>>)
    requires WellShaped(t) && Distinct(t.rows) && Distinct(t.cols)
    requires |ri| == |rows| && |ci| == |cols|
    requires forall k :: 0 <= k < |rows| ==>
               (ri[k].Some? ==> ri[k].value < |t.rows| && t.rows[ri[k].value] == rows[k])
               && (ri[k].None? ==> rows[k] !in t.rows)
    requires forall k :: 0 <= k < |cols| ==>
               (ci[k].Some? ==> ci[k].value < |t.cols| && t.cols[ci[k].value] == cols[k])
               && (ci[k].None? ==> cols[k] !in t.cols)
    ensures forall i, j :: 0 <= i < |rows| && 0 <= j < |cols| ==>
              PickAll(t, ri, ci)[i][j] == ReindexedCell(t, rows, cols, i, j)
  {
    forall i, j | 0 <= i < |rows| && 0 <= j < |cols|
      ensures PickAll(t, ri, ci)[i][j] == ReindexedCell(t, rows, cols, i, j)
    {
      assert PickAll(t, ri, ci)[i][j] == Pick(t, ri[i], ci[j]);
      if rows[i] in t.rows && cols[j] in t.cols {
        var a, b := IndexOf(t.rows, rows[i]), IndexOf(t.cols, cols[j]);
        assert ri[i].Some? && ci[j].Some?;
        var v, w := ri[i].value, ci[j].value;
        assert t.rows[v] == t.rows[a] && t.cols[w] == t.cols[b];
        assert v == a && w == b;
        assert a < |t.cells| && b < |t.cells[a]|;
      } else {
        assert ri[i].None? || ci[j].None?;
      }
    }
  }

  /** The table the two indexers build: shaped on the targets, and holding the carried
      over cells when the source axes have no repeated labels. */
  function Realign(t: Table, rows: seq<string>, cols: seq<string>, ri: seq<Option<nat>>, ci: seq<Option<nat>>)
    : (r: Table)
    requires WellShaped(t) && |ri| == |rows| && |ci| == |cols|
    requires forall k :: 0 <= k < |rows| ==>
               (ri[k].Some? ==> ri[k].value < |t.rows| && t.rows[ri[k].value] == rows[k])
               && (ri[k].None? ==> rows[k] !in t.rows)
    requires forall k :: 0 <= k < |cols| ==>
               (ci[k].Some? ==> ci[k].value < |t.cols| && t.cols[ci[k].value] == cols[k])
               && (ci[k].None? ==> cols[k] !in t.cols)
    ensures WellShaped(r) && r.rows == rows && r.cols == cols && r.cells == PickAll(t, ri, ci)
    ensures Distinct(t.rows) && Distinct(t.cols) ==>
              forall i, j :: 0 <= i < |rows| && 0 <= j < |cols| ==>
                r.cells[i][j] == ReindexedCell(t, rows, cols, i, j)
  {
    if Distinct(t.rows) && Distinct(t.cols) then
      PickAllDistinct(t, rows, cols, ri, ci);
      Table(rows, cols, PickAll(t, ri, ci))
    else
      Table(rows, cols, PickAll(t, ri, ci))
  }

  /** DataFrame.reindex(index=rows, columns=cols): the cell of a label pair both
      axes have is carried over, every other cell is NaN. */
  function Reindex(t: Table, rows: seq<string>, cols: seq<string>): (r: Result<Table>)
    requires WellShaped(t)
    ensures r.Ok? <==> (t.rows == rows || Distinct(t.rows)) && (t.cols == cols || Distinct(t.cols))
    ensures r.Ok? ==> WellShaped(r.value) && r.value.rows == rows && r.value.cols == cols
    ensures r.Ok? && t.rows == rows && t.cols == cols ==> r.value == t
    ensures r.Ok? && Distinct(t.rows) && Distinct(t.cols) ==>
              forall i, j :: 0 <= i < |rows| && 0 <= j < |cols| ==>
                r.value.cells[i][j] == ReindexedCell(t, rows, cols, i, j)
  {
    var ri := AxisIndexer(t.rows, rows);
    var ci := AxisIndexer(t.cols, cols);
    if ri.Err? || ci.Err? then Err(DuplicateLabels)
    else
      var r := Realign(t, rows, cols, ri.value, ci.value);
      if t.rows == rows && t.cols == cols then
        PickAllIdentity(t, ri.value, ci.value);
        Ok(r)
      else
        Ok(r)
  }

  /** One cell of the pivot reindexed onto `rows` and `cols`. */
  lemma ReindexedPivotCell(ops: seq<Operation>, rows: seq<string>, cols: seq<string>, i: nat, j: nat)
    requires i < |rows| && j < |cols|
    ensures Reindex(Pivot(ops), rows, cols).Ok?
    ensures Reindex(Pivot(ops), rows, cols).value.cells[i][j] ==
              if rows[i] in ThemesOf(ops) && cols[j] in CategoriesOf(ops)
              then Some(PairSum(ops, rows[i], cols[j]))
              else None
  {
    var p := Pivot(ops);
    AscendingIsDistinct(p.rows);
    AscendingIsDistinct(p.cols);
    var r := Reindex(p, rows, cols);
    assert r.value.cells[i][j] == ReindexedCell(p, rows, cols, i, j);
    assert rows[i] in p.rows <==> rows[i] in ThemesOf(ops) by {
      assert rows[i] in p.rows <==> rows[i] in Elements(p.rows);
      assert rows[i] in ThemesOf(ops) <==> rows[i] in Elements(ThemesOf(ops));
    }
    assert cols[j] in p.cols <==> cols[j] in CategoriesOf(ops) by {
      assert cols[j] in p.cols <==> cols[j] in Elements(p.cols);
      assert cols[j] in CategoriesOf(ops) <==> cols[j] in Elements(CategoriesOf(ops));
    }
    if rows[i] in p.rows && cols[j] in p.cols {
      var a, b := IndexOf(p.rows, rows[i]), IndexOf(p.cols, cols[j]);
      PivotCells(ops, a, b);
    }
  }

  /** The pivot reindexed onto the given orderings. A record whose theme or category
      is not among them reaches no cell; no error is raised for it. A canonical
      label that the data lacks gives NaN cells, not zeros: fillna ran before reindex. */
  function CrossTabulate(ops: seq<Operation>, rows: seq<string>, cols: seq<string>): (t: Table)
    ensures WellShaped(t) && t.rows == rows && t.cols == cols
    ensures forall i, j :: 0 <= i < |rows| && 0 <= j < |cols| ==>
              t.cells[i][j] ==
                if rows[i] in ThemesOf(ops) && cols[j] in CategoriesOf(ops)
                then Some(PairSum(ops, rows[i], cols[j]))
                else None
  {
    var p := Pivot(ops);
    AscendingIsDistinct(p.rows);
    AscendingIsDistinct(p.cols);
    var r := Reindex(p, rows, cols);
    assert forall i, j :: 0 <= i < |rows| && 0 <= j < |cols| ==>
             r.value.cells[i][j] ==
               if rows[i] in ThemesOf(ops) && cols[j] in CategoriesOf(ops)
               then Some(PairSum(ops, rows[i], cols[j]))
               else None
    by {
      forall i, j | 0 <= i < |rows| && 0 <= j < |cols| {
        ReindexedPivotCell(ops, rows, cols, i, j);
      }
    }
    r.value
  }

  /** `data_pivot`: the cross-tabulation on the 15 canonical themes and 14 canonical
      beneficiary categories. */
  function DataPivot(ops: seq<Operation>): (t: Table)
    ensures WellShaped(t) && t.rows == ThemeOrder && t.cols == CategoryOrder
    ensures |t.rows| == 15 && |t.cols| == 14
  {
    CrossTabulate(ops, ThemeOrder, CategoryOrder)
  }

  // ---------------------------------------------------------------------------
  // Mass conservation

  /** A cell's contribution to a total: pandas' sum skips NaN. */
  function CellValue(o: Option<real>): real {
    match o
    case None => 0.0
    case Some(v) => v
  }

  function SumCells(row: seq<Option<real>>): real {
    if row == [] then 0.0 else CellValue(row[0]) + SumCells(row[1..])
  }

  /** The sum of every cell of a table. */
  function TableTotal(cells: seq<seq<Option<real>>>): real {
    if cells == [] then 0.0 else SumCells(cells[0]) + TableTotal(cells[1..])
  }

  function RowTotal(ops: seq<Operation>, t: string, cols: seq<string>): real {
    if cols == [] then 0.0 else PairSum(ops, t, cols[0]) + RowTotal(ops, t, cols[1..])
  }

  function GridTotal(ops: seq<Operation>, rows: seq<string>, cols: seq<string>): real {
    if rows == [] then 0.0 else RowTotal(ops, rows[0], cols) + GridTotal(ops, rows[1..], cols)
  }

  /** The amount of the records whose theme is in `rows` and whose category is in `cols`. */
  function InGridTotal(ops: seq<Operation>, rows: seq<string>, cols: seq<string>): real {
    if ops == [] then 0.0
    else (if ops[0].theme in rows && ops[0].category in cols then ops[0].amount else 0.0)
         + InGridTotal(ops[1..], rows, cols)
  }

  lemma {:induction false} RowTotalCons(r: Operation, ops: seq<Operation>, t: string, cols: seq<string>)
    requires Distinct(cols)
    ensures RowTotal([r] + ops, t, cols)
            == RowTotal(ops, t, cols) + (if r.theme == t && r.category in cols then r.amount else 0.0)
    decreases |cols|
  {
    if cols != [] {
      assert ([r] + ops)[1..] == ops;
      RowTotalCons(r, ops, t, cols[1..]);
      assert r.category in cols <==> r.category == cols[0] || r.category in cols[1..] by {
        assert cols == [cols[0]] + cols[1..];
      }
    }
  }

  lemma {:induction false} GridTotalCons(r: Operation, ops: seq<Operation>, rows: seq<string>, cols: seq<string>)
    requires Distinct(rows) && Distinct(cols)
    ensures GridTotal([r] + ops, rows, cols)
            == GridTotal(ops, rows, cols) + (if r.theme in rows && r.category in cols then r.amount else 0.0)
    decreases |rows|
  {
    if rows != [] {
      RowTotalCons(r, ops, rows[0], cols);
      GridTotalCons(r, ops, rows[1..], cols);
      assert r.theme in rows <==> r.theme == rows[0] || r.theme in rows[1..] by {
        assert rows == [rows[0]] + rows[1..];
      }
    }
  }

  lemma {:induction false} GridTotalEmpty(rows: seq<string>, cols: seq<string>)
    ensures GridTotal([], rows, cols) == 0.0
    decreases |rows|
  {
    if rows != [] {
      RowTotalEmpty(rows[0], cols);
      GridTotalEmpty(rows[1..], cols);
    }
  }

  lemma {:induction false} RowTotalEmpty(t: string, cols: seq<string>)
    ensures RowTotal([], t, cols) == 0.0
    decreases |cols|
  {
    if cols != [] {
      RowTotalEmpty(t, cols[1..]);
    }
  }

  /** Over duplicate-free orderings, the cell sums add up to the amount of exactly
      the records inside the grid: no amount is lost or counted twice. */
  lemma {:induction false} GridConservation(ops: seq<Operation>, rows: seq<string>, cols: seq<string>)
    requires Distinct(rows) && Distinct(cols)
    ensures GridTotal(ops, rows, cols) == InGridTotal(ops, rows, cols)
    decreases |ops|
  {
    if ops == [] {
      GridTotalEmpty(rows, cols);
    } else {
      assert ops == [ops[0]] + ops[1..];
      GridConservation(ops[1..], rows, cols);
      GridTotalCons(ops[0], ops[1..], rows, cols);
    }
  }

  lemma {:induction false} SumCellsMatches(row: seq<Option<real>>, ops: seq<Operation>, t: string, cols: seq<string>)
    requires |row| == |cols|
    requires forall j :: 0 <= j < |cols| ==> CellValue(row[j]) == PairSum(ops, t, cols[j])
    ensures SumCells(row) == RowTotal(ops, t, cols)
    decreases |cols|
  {
    if cols != [] {
      SumCellsMatches(row[1..], ops, t, cols[1..]);
    }
  }

  lemma {:induction false} TableTotalMatches(cells: seq<seq<Option<real>>>, ops: seq<Operation>, rows: seq<string>, cols: seq<string>)
    requires |cells| == |rows|
    requires forall i :: 0 <= i < |rows| ==> |cells[i]| == |cols|
    requires forall i, j :: 0 <= i < |rows| && 0 <= j < |cols| ==>
               CellValue(cells[i][j]) == PairSum(ops, rows[i], cols[j])
    ensures TableTotal(cells) == GridTotal(ops, rows, cols)
    decreases |rows|
  {
    if rows != [] {
      SumCellsMatches(cells[0], ops, rows[0], cols);
      TableTotalMatches(cells[1..], ops, rows[1..], cols);
    }
  }

  /** A cell's amount is the pair's sum, also where the cell is NaN: no record has that pair. */
  lemma CrossTabCellValue(ops: seq<Operation>, rows: seq<string>, cols: seq<string>, i: nat, j: nat)
    requires i < |rows| && j < |cols|
    ensures CellValue(CrossTabulate(ops, rows, cols).cells[i][j]) == PairSum(ops, rows[i], cols[j])
  {
    if !(rows[i] in ThemesOf(ops) && cols[j] in CategoriesOf(ops)) {
      forall k | 0 <= k < |ops| ensures !(ops[k].theme == rows[i] && ops[k].category == cols[j]) {
        assert ThemesOf(ops)[k] == ops[k].theme && CategoriesOf(ops)[k] == ops[k].category;
      }
      PairSumNoMatch(ops, rows[i], cols[j]);
    }
  }

  lemma CrossTabCellValues(ops: seq<Operation>, rows: seq<string>, cols: seq<string>)
    ensures forall i, j :: 0 <= i < |rows| && 0 <= j < |cols| ==>
              CellValue(CrossTabulate(ops, rows, cols).cells[i][j]) == PairSum(ops, rows[i], cols[j])
  {
    forall i, j | 0 <= i < |rows| && 0 <= j < |cols| {
      CrossTabCellValue(ops, rows, cols, i, j);
    }
  }

  /** Mass conservation of the reindexed cross-tabulation: its cells add up to the
      amount of the records whose theme and category are both canonical. */
  lemma CrossTabConservesMass(ops: seq<Operation>, rows: seq<string>, cols: seq<string>)
    requires Distinct(rows) && Distinct(cols)
    ensures TableTotal(CrossTabulate(ops, rows, cols).cells) == InGridTotal(ops, rows, cols)
  {
    CrossTabCellValues(ops, rows, cols);
    TableTotalMatches(CrossTabulate(ops, rows, cols).cells, ops, rows, cols);
    GridConservation(ops, rows, cols);
  }

  lemma {:induction false} InGridTotalCovers(ops: seq<Operation>, rows: seq<string>, cols: seq<string>)
    requires forall k :: 0 <= k < |ops| ==> ops[k].theme in rows && ops[k].category in cols
    ensures InGridTotal(ops, rows, cols) == TotalAmount(ops)
    decreases |ops|
  {
    if ops != [] {
      InGridTotalCovers(ops[1..], rows, cols);
    }
  }

  /** Mass conservation of the pivot: its cells add up to the total amount. */
  lemma PivotConservesMass(ops: seq<Operation>)
    ensures TableTotal(Pivot(ops).cells) == TotalAmount(ops)
  {
    var p := Pivot(ops);
    AscendingIsDistinct(p.rows);
    AscendingIsDistinct(p.cols);
    forall i, j | 0 <= i < |p.rows| && 0 <= j < |p.cols|
      ensures CellValue(p.cells[i][j]) == PairSum(ops, p.rows[i], p.cols[j])
    {
      PivotCells(ops, i, j);
    }
    TableTotalMatches(p.cells, ops, p.rows, p.cols);
    GridConservation(ops, p.rows, p.cols);
    forall k | 0 <= k < |ops| ensures ops[k].theme in p.rows && ops[k].category in p.cols {
      assert ThemesOf(ops)[k] == ops[k].theme && CategoriesOf(ops)[k] == ops[k].category;
      assert ops[k].theme in Elements(ThemesOf(ops)) && ops[k].category in Elements(CategoriesOf(ops));
    }
    InGridTotalCovers(ops, p.rows, p.cols);
  }

  /** A record outside the canonical orderings changes no cell's amount. (It may still
      turn NaN cells of its theme's row into zeros, when its theme is canonical.) */
  lemma CrossTabIgnoresUnknown(r: Operation, ops: seq<Operation>, rows: seq<string>, cols: seq<string>)
    requires r.theme !in rows || r.category !in cols
    ensures forall i, j :: 0 <= i < |rows| && 0 <= j < |cols| ==>
              CellValue(CrossTabulate([r] + ops, rows, cols).cells[i][j])
              == CellValue(CrossTabulate(ops, rows, cols).cells[i][j])
  {
    forall i, j | 0 <= i < |rows| && 0 <= j < |cols|
      ensures CellValue(CrossTabulate([r] + ops, rows, cols).cells[i][j])
              == CellValue(CrossTabulate(ops, rows, cols).cells[i][j])
    {
      CrossTabCellValue(ops, rows, cols, i, j);
      CrossTabCellValue([r] + ops, rows, cols, i, j);
      PairSumSkip(r, ops, rows[i], cols[j]);
    }
  }

  lemma PairSumSkip(r: Operation, ops: seq<Operation>, t: string, c: string)
    requires !(r.theme == t && r.category == c)
    ensures PairSum([r] + ops, t, c) == PairSum(ops, t, c)
  {
    assert ([r] + ops)[0] == r && ([r] + ops)[1..] == ops;
  }

  // ---------------------------------------------------------------------------
  // Dropping a row

  /** The rows (with their cells) whose label is not `key`, in their order. */
  function FilterRows(rows: seq<string>, cells: seq<seq<Option<real>>>, key: string)
    : (r: (seq<string>, seq<seq<Option<real>>>))
    requires |cells| == |rows|
    ensures |r.1| == |r.0| && key !in r.0
    ensures forall i :: 0 <= i < |r.1| ==> r.1[i] in cells
    decreases |rows|
  {
    if rows == [] then ([], [])
    else
      var rest := FilterRows(rows[1..], cells[1..], key);
      if rows[0] == key then rest else ([rows[0]] + rest.0, [cells[0]] + rest.1)
  }

  lemma {:induction false} FilterRowsAbsent(rows: seq<string>, cells: seq<seq<Option<real>>>, key: string)
    requires |cells| == |rows| && key !in rows
    ensures FilterRows(rows, cells, key) == (rows, cells)
    decreases |rows|
  {
    if rows != [] {
      FilterRowsAbsent(rows[1..], cells[1..], key);
      assert rows == [rows[0]] + rows[1..] && cells == [cells[0]] + cells[1..];
    }
  }

  /** Removing a label that occurs once, at `i`, removes exactly that row. */
  lemma {:induction false} FilterRowsOnce(rows: seq<string>, cells: seq<seq<Option<real>>>, key: string, i: nat)
    requires |cells| == |rows| && i < |rows| && rows[i] == key && Distinct(rows)
    ensures FilterRows(rows, cells, key) == (rows[..i] + rows[i + 1..], cells[..i] + cells[i + 1..])
    decreases |rows|
  {
    if i == 0 {
      assert key !in rows[1..];
      FilterRowsAbsent(rows[1..], cells[1..], key);
      assert rows[..0] + rows[1..] == rows[1..];
      assert cells[..0] + cells[1..] == cells[1..];
    } else {
      FilterRowsOnce(rows[1..], cells[1..], key, i - 1);
      assert rows[..i] + rows[i + 1..] == [rows[0]] + (rows[1..][..i - 1] + rows[1..][i..]);
      assert cells[..i] + cells[i + 1..] == [cells[0]] + (cells[1..][..i - 1] + cells[1..][i..]);
    }
  }

  /** DataFrame.drop(index=[key]): every row labelled `key` goes; the columns and the
      other rows stay as they are. A label the index lacks raises KeyError. */
  function DropRow(t: Table, key: string): (r: Result<Table>)
    requires WellShaped(t)
    ensures r.Err? <==> key !in t.rows
    ensures r.Err? ==> r.error == KeyNotFound(key)
    ensures r.Ok? ==> WellShaped(r.value) && r.value.cols == t.cols && key !in r.value.rows
  {
    if key !in t.rows then Err(KeyNotFound(key))
    else
      var f := FilterRows(t.rows, t.cells, key);
      Ok(Table(f.0, t.cols, f.1))
  }

  /** Dropping a label that occurs once leaves one fewer row, keeps the order of the
      other rows and of the columns, and leaves every remaining cell unchanged. */
  lemma DropRowOnce(t: Table, key: string, i: nat)
    requires WellShaped(t) && Distinct(t.rows) && i < |t.rows| && t.rows[i] == key
    ensures DropRow(t, key) == Ok(Table(t.rows[..i] + t.rows[i + 1..], t.cols, t.cells[..i] + t.cells[i + 1..]))
  {
    FilterRowsOnce(t.rows, t.cells, key, i);
  }

  /** Dropping the first label of a table whose labels are distinct removes its first row. */
  lemma DropFirstRow(t: Table)
    requires WellShaped(t) && Distinct(t.rows) && |t.rows| > 0
    ensures DropRow(t, t.rows[0]) == Ok(Table(t.rows[1..], t.cols, t.cells[1..]))
    ensures t.rows[0] !in t.rows[1..]
  {
    FilterRowsOnce(t.rows, t.cells, t.rows[0], 0);
    assert t.rows[..0] + t.rows[1..] == t.rows[1..];
    assert t.cells[..0] + t.cells[1..] == t.cells[1..];
  }

  /** `data_pivot_sansindetermine`: the canonical cross-tabulation without its first
      row, the indeterminate theme. */
  lemma DataPivotWithoutIndeterminate(ops: seq<Operation>)
    ensures DropRow(DataPivot(ops), IndeterminateTheme)
            == Ok(Table(ThemeOrder[1..], CategoryOrder, DataPivot(ops).cells[1..]))
    ensures |ThemeOrder[1..]| == 14 && IndeterminateTheme !in ThemeOrder[1..]
  {
    var t := DataPivot(ops);
    CanonicalOrderings();
    DropFirstRow(t);
  }
}
