/** Proportions derived from the aggregates: the per-tier breakdown of operation
    counts by beneficiary category (app.py, lines 239-243) and the per-column
    shares of the cross-tabulation behind the radial chart's menus (lines 286-292). */
module Shares {
  import opened Records
  import opened Keys
  import opened CrossTab
  import opened Ratios

  // ---------------------------------------------------------------------------
  // Tier breakdown

  /** The beneficiary categories of the records of one fund and one tier, the
      indeterminate category excluded, in record order. */
  function TierCategories(ops: seq<Operation>, fund: string, tier: string): (r: seq<string>)
    ensures IndeterminateCategory !in r
    ensures |r| <= |ops|
  {
    if ops == [] then []
    else
      var rest := TierCategories(ops[1..], fund, tier);
      var o := ops[0];
      if o.category != IndeterminateCategory && o.fund == fund && o.tier == tier
      then [o.category] + rest
      else rest
  }

  /** A category occurs among the selected ones exactly when some record of that fund
      and tier, not of the indeterminate category, has it. */
  lemma {:induction false} TierCategoriesMembers(ops: seq<Operation>, fund: string, tier: string, c: string)
    ensures c in TierCategories(ops, fund, tier) <==>
              exists k :: 0 <= k < |ops| && ops[k].category == c && c != IndeterminateCategory
                          && ops[k].fund == fund && ops[k].tier == tier
    decreases |ops|
  {
    if ops != [] {
      TierCategoriesMembers(ops[1..], fund, tier, c);
      var rest := TierCategories(ops[1..], fund, tier);
      if c in TierCategories(ops, fund, tier) && c !in rest {
        assert ops[0].category == c;
      }
      if c in rest {
        var k :| 0 <= k < |ops[1..]| && ops[1..][k].category == c && c != IndeterminateCategory
                 && ops[1..][k].fund == fund && ops[1..][k].tier == tier;
        assert ops[k + 1] == ops[1..][k];
      }
      if exists k :: 0 <= k < |ops| && ops[k].category == c && c != IndeterminateCategory
                     && ops[k].fund == fund && ops[k].tier == tier {
        var k :| 0 <= k < |ops| && ops[k].category == c && c != IndeterminateCategory
                 && ops[k].fund == fund && ops[k].tier == tier;
        if k > 0 {
          assert ops[1..][k - 1] == ops[k];
        }
      }
    }
  }

  /** Selecting from two batches of records selects from each, in order. */
  lemma {:induction false} TierCategoriesAppend(a: seq<Operation>, b: seq<Operation>, fund: string, tier: string)
    ensures TierCategories(a + b, fund, tier) == TierCategories(a, fund, tier) + TierCategories(b, fund, tier)
    decreases |a|
  {
    if a == [] {
      assert a + b == b;
    } else {
      assert (a + b)[0] == a[0] && (a + b)[1..] == a[1..] + b;
      TierCategoriesAppend(a[1..], b, fund, tier);
    }
  }

  /** A single record contributes its category exactly when it is of the fund and tier
      and its category is not the indeterminate one. */
  lemma TierCategoriesOne(o: Operation, fund: string, tier: string)
    ensures TierCategories([o], fund, tier)
            == if o.category != IndeterminateCategory && o.fund == fund && o.tier == tier
               then [o.category] else []
  {
    assert [o][1..] == [];
  }

  /** The records of `fund` and `tier` that have category `c`, outside the indeterminate
      category, counted as a set of positions. */
  function Matching(ops: seq<Operation>, fund: string, tier: string, c: string): set<int> {
    set k | 0 <= k < |ops| && ops[k].category == c && c != IndeterminateCategory
            && ops[k].fund == fund && ops[k].tier == tier
  }

  /** The records of `fund` and `tier` outside the indeterminate category. */
  function Selected(ops: seq<Operation>, fund: string, tier: string): set<int> {
    set k | 0 <= k < |ops| && ops[k].category != IndeterminateCategory
            && ops[k].fund == fund && ops[k].tier == tier
  }

  lemma MatchingGrows(ops: seq<Operation>, fund: string, tier: string, c: string)
    requires |ops| > 0
    ensures var o := ops[|ops| - 1];
            |Matching(ops, fund, tier, c)| == |Matching(ops[..|ops| - 1], fund, tier, c)|
              + (if o.category == c && c != IndeterminateCategory && o.fund == fund && o.tier == tier then 1 else 0)
  {
    var n := |ops| - 1;
    var o := ops[n];
    var hit := o.category == c && c != IndeterminateCategory && o.fund == fund && o.tier == tier;
    var some := Matching(ops[..n], fund, tier, c);
    var whole := if hit then some + {n} else some;
    forall k | k in whole ensures k in Matching(ops, fund, tier, c) {
      if k < n {
        assert ops[..n][k] == ops[k];
      }
    }
    forall k | k in Matching(ops, fund, tier, c) ensures k in whole {
      if k < n {
        assert ops[..n][k] == ops[k];
      }
    }
    assert Matching(ops, fund, tier, c) == whole;
    AddIndex(some, n, hit);
  }

  lemma SelectedGrows(ops: seq<Operation>, fund: string, tier: string)
    requires |ops| > 0
    ensures var o := ops[|ops| - 1];
            |Selected(ops, fund, tier)| == |Selected(ops[..|ops| - 1], fund, tier)|
              + (if o.category != IndeterminateCategory && o.fund == fund && o.tier == tier then 1 else 0)
  {
    var n := |ops| - 1;
    var o := ops[n];
    var hit := o.category != IndeterminateCategory && o.fund == fund && o.tier == tier;
    var some := Selected(ops[..n], fund, tier);
    var whole := if hit then some + {n} else some;
    forall k | k in whole ensures k in Selected(ops, fund, tier) {
      if k < n {
        assert ops[..n][k] == ops[k];
      }
    }
    forall k | k in Selected(ops, fund, tier) ensures k in whole {
      if k < n {
        assert ops[..n][k] == ops[k];
      }
    }
    assert Selected(ops, fund, tier) == whole;
    AddIndex(some, n, hit);
  }

  /** A category occurs among the selected ones once per record of the fund and tier
      that has it; the indeterminate category never does. */
  lemma {:induction false} TierCategoriesCount(ops: seq<Operation>, fund: string, tier: string, c: string)
    ensures Count(TierCategories(ops, fund, tier), c) == |Matching(ops, fund, tier, c)|
    ensures Count(TierCategories(ops, fund, tier), IndeterminateCategory) == 0
    decreases |ops|
  {
    CountPositive(TierCategories(ops, fund, tier), IndeterminateCategory);
    if ops == [] {
      assert Matching(ops, fund, tier, c) == {};
    } else {
      var n := |ops| - 1;
      var pre, o := ops[..n], ops[n];
      assert ops == pre + [o];
      TierCategoriesAppend(pre, [o], fund, tier);
      TierCategoriesOne(o, fund, tier);
      CountAppend(TierCategories(pre, fund, tier), TierCategories([o], fund, tier), c);
      TierCategoriesCount(pre, fund, tier, c);
      MatchingGrows(ops, fund, tier, c);
    }
  }

  /** One selected category per record of the fund and tier outside the indeterminate
      category. */
  lemma {:induction false} TierCategoriesLength(ops: seq<Operation>, fund: string, tier: string)
    ensures |TierCategories(ops, fund, tier)| == |Selected(ops, fund, tier)|
    decreases |ops|
  {
    if ops == [] {
      assert Selected(ops, fund, tier) == {};
    } else {
      var n := |ops| - 1;
      var pre, o := ops[..n], ops[n];
      assert ops == pre + [o];
      TierCategoriesAppend(pre, [o], fund, tier);
      TierCategoriesOne(o, fund, tier);
      TierCategoriesLength(pre, fund, tier);
      SelectedGrows(ops, fund, tier);
    }
  }

  datatype Proportion = Proportion(category: string, share: real)

  /** Each key with its count divided by `total`. */
  function Proportions(xs: seq<string>, keys: seq<string>, total: nat): (r: seq<Proportion>)
    requires total > 0
    ensures |r| == |keys|
    ensures forall i :: 0 <= i < |keys| ==>
              r[i].category == keys[i] && r[i].share == (Count(xs, keys[i]) as real) / (total as real)
  {
    if keys == [] then []
    else [Proportion(keys[0], Count(xs, keys[0]) as real / total as real)]
         + Proportions(xs, keys[1..], total)
  }

  /** Series.value_counts(normalize=True).sort_index(): the categories that occur, in
      ascending order, each with its fraction of the operations. */
  function ValueCounts(xs: seq<string>): (r: seq<Proportion>)
    ensures r == [] <==> |xs| == 0
    ensures forall i :: 0 <= i < |r| ==> r[i].share == (Count(xs, r[i].category) as real) / (|xs| as real)
  {
    if |xs| == 0 then []
    else
      assert xs[0] in Elements(xs);
      Proportions(xs, SortedKeys(xs), |xs|)
  }

  function Categories(r: seq<Proportion>): (c: seq<string>)
    ensures |c| == |r| && forall i :: 0 <= i < |r| ==> c[i] == r[i].category
  {
    seq(|r|, i requires 0 <= i < |r| => r[i].category)
  }

  function ShareSum(r: seq<Proportion>): real {
    if r == [] then 0.0 else r[0].share + ShareSum(r[1..])
  }

  lemma {:induction false} ShareSumProportions(xs: seq<string>, keys: seq<string>, total: nat)
    requires total > 0
    ensures ShareSum(Proportions(xs, keys, total)) == (CountOver(xs, keys) as real) / (total as real)
    decreases |keys|
  {
    if keys != [] {
      ShareSumProportions(xs, keys[1..], total);
      DivideAdd(Count(xs, keys[0]) as real, CountOver(xs, keys[1..]) as real, total as real);
    }
  }

  /** The breakdown lists exactly the categories that occur, each once, in ascending
      order; each share is its count over the number of operations and is positive. */
  lemma ValueCountsKeysAndShares(xs: seq<string>)
    ensures Ascending(Categories(ValueCounts(xs)))
    ensures Elements(Categories(ValueCounts(xs))) == Elements(xs)
    ensures forall i :: 0 <= i < |ValueCounts(xs)| ==> ValueCounts(xs)[i].share > 0.0
  {
    var r := ValueCounts(xs);
    if |xs| > 0 {
      var keys := SortedKeys(xs);
      assert Categories(r) == keys;
      forall i | 0 <= i < |r| ensures r[i].share > 0.0 {
        KeyOccurs(xs, keys, i);
        PositiveQuotient(Count(xs, keys[i]) as real, |xs| as real);
      }
    }
  }

  lemma KeyOccurs(xs: seq<string>, keys: seq<string>, i: nat)
    requires keys == SortedKeys(xs) && i < |keys|
    ensures Count(xs, keys[i]) > 0
  {
    assert keys[i] in Elements(keys);
    CountPositive(xs, keys[i]);
  }

  /** The shares of a non-empty selection add up to exactly 1. */
  lemma ValueCountsSumToOne(xs: seq<string>)
    requires |xs| > 0
    ensures ShareSum(ValueCounts(xs)) == 1.0
  {
    var keys := SortedKeys(xs);
    KeysCoverAndDistinct(xs, keys);
    CountOverCovers(xs, keys);
    ShareSumProportions(xs, keys, |xs|);
    DivideSelf(|xs| as real);
  }

  lemma KeysCoverAndDistinct(xs: seq<string>, keys: seq<string>)
    requires keys == SortedKeys(xs)
    ensures forall i, j :: 0 <= i < j < |keys| ==> keys[i] != keys[j]
    ensures forall x :: x in xs ==> x in keys
  {
    AscendingIsDistinct(keys);
    forall x | x in xs ensures x in keys {
      assert x in Elements(xs);
    }
  }

  /** `data_feder_p1`, `data_feder_p2`, `data_fse_p1`, `data_fse_p2`. */
  function TierBreakdown(ops: seq<Operation>, fund: string, tier: string): (r: seq<Proportion>)
    ensures r == [] <==> Selected(ops, fund, tier) == {}
    ensures forall i :: 0 <= i < |r| ==>
              r[i].share == (|Matching(ops, fund, tier, r[i].category)| as real)
                            / (|Selected(ops, fund, tier)| as real)
  {
    var xs := TierCategories(ops, fund, tier);
    var r := ValueCounts(xs);
    TierCategoriesLength(ops, fund, tier);
    assert forall i :: 0 <= i < |r| ==> Count(xs, r[i].category) == |Matching(ops, fund, tier, r[i].category)| by {
      forall i | 0 <= i < |r| ensures Count(xs, r[i].category) == |Matching(ops, fund, tier, r[i].category)| {
        TierCategoriesCount(ops, fund, tier, r[i].category);
      }
    }
    r
  }

  /** The breakdown of one fund and tier never lists the indeterminate category, lists
      a category exactly when a selected record has it, in ascending order with a
      positive share each, and its shares add up to 1 unless nothing is selected. */
  lemma TierBreakdownProperties(ops: seq<Operation>, fund: string, tier: string)
    ensures IndeterminateCategory !in Categories(TierBreakdown(ops, fund, tier))
    ensures Ascending(Categories(TierBreakdown(ops, fund, tier)))
    ensures forall c :: c in Categories(TierBreakdown(ops, fund, tier)) <==>
              exists k :: 0 <= k < |ops| && ops[k].category == c && c != IndeterminateCategory
                          && ops[k].fund == fund && ops[k].tier == tier
    ensures forall i :: 0 <= i < |TierBreakdown(ops, fund, tier)| ==> TierBreakdown(ops, fund, tier)[i].share > 0.0
    ensures Selected(ops, fund, tier) != {} ==> ShareSum(TierBreakdown(ops, fund, tier)) == 1.0
  {
    TierCategoriesLength(ops, fund, tier);
    var xs := TierCategories(ops, fund, tier);
    var r := TierBreakdown(ops, fund, tier);
    ValueCountsKeysAndShares(xs);
    forall c ensures c in Categories(r) <==> c in xs {
      assert c in Categories(r) <==> c in Elements(Categories(r));
      assert c in xs <==> c in Elements(xs);
    }
    forall c ensures c in xs <==>
              exists k :: 0 <= k < |ops| && ops[k].category == c && c != IndeterminateCategory
                          && ops[k].fund == fund && ops[k].tier == tier
    {
      TierCategoriesMembers(ops, fund, tier, c);
    }
    if xs != [] {
      ValueCountsSumToOne(xs);
      assert xs[0] in Elements(xs);
    }
  }

  // ---------------------------------------------------------------------------
  // Column shares

  /** `data_pivot[category]`: column j, top to bottom. */
  function Column(t: Table, j: nat): (c: seq<Option<real>>)
    requires WellShaped(t) && j < |t.cols|
    ensures |c| == |t.rows| && forall i :: 0 <= i < |t.rows| ==> c[i] == t.cells[i][j]
  {
    seq(|t.rows|, i requires 0 <= i < |t.rows| => t.cells[i][j])
  }

  function DivideCells(c: seq<Option<real>>, total: real): (r: seq<Option<real>>)
    requires total != 0.0
    ensures |r| == |c|
    ensures forall i :: 0 <= i < |c| ==> (r[i].None? <==> c[i].None?)
    ensures forall i :: 0 <= i < |c| && c[i].Some? ==> r[i].value == c[i].value / total
  {
    if c == [] then []
    else
      var head := match c[0] case None => None case Some(v) => Some(v / total);
      [head] + DivideCells(c[1..], total)
  }

  lemma {:induction false} SumDivideCells(c: seq<Option<real>>, total: real)
    requires total != 0.0
    ensures SumCells(DivideCells(c, total)) == SumCells(c) / total
    decreases |c|
  {
    if c == [] {
      DivideZero(total);
    } else {
      SumDivideCells(c[1..], total);
      var r := DivideCells(c, total);
      assert r[1..] == DivideCells(c[1..], total);
      assert CellValue(r[0]) == CellValue(c[0]) / total by {
        if c[0].None? {
          DivideZero(total);
        }
      }
      DivideAdd(CellValue(c[0]), SumCells(c[1..]), total);
    }
  }

  /** `col / col.sum()`: the sum skips NaN cells, NaN cells stay NaN, and a zero total
      leaves no finite share (the whole column becomes NaN). */
  function ColumnShares(c: seq<Option<real>>): (r: Option<seq<Option<real>>>)
    ensures r.None? <==> SumCells(c) == 0.0
    ensures r.Some? ==> |r.value| == |c|
    ensures r.Some? ==> forall i :: 0 <= i < |c| ==> (r.value[i].None? <==> c[i].None?)
    ensures r.Some? ==> forall i :: 0 <= i < |c| && c[i].Some? ==>
                          r.value[i].value == c[i].value / SumCells(c)
  {
    var total := SumCells(c);
    if total == 0.0 then None else Some(DivideCells(c, total))
  }

  /** Whenever the column total is not zero, the shares of the column add up to 1. */
  lemma ColumnSharesSumToOne(c: seq<Option<real>>)
    requires SumCells(c) != 0.0
    ensures SumCells(ColumnShares(c).value) == 1.0
  {
    var total := SumCells(c);
    SumDivideCells(c, total);
    DivideSelf(total);
  }

  /** The series behind the two menus of the radial chart: one entry per column of the
      cross-tabulation, in column order, each with one share per row in row order. */
  function ShareButtons(t: Table): (r: seq<Option<seq<Option<real>>>>)
    requires WellShaped(t)
    ensures |r| == |t.cols|
    ensures forall j :: 0 <= j < |t.cols| ==> r[j] == ColumnShares(Column(t, j))
    ensures forall j :: 0 <= j < |t.cols| && r[j].Some? ==>
              |r[j].value| == |t.rows| && SumCells(r[j].value) == 1.0
    ensures forall j :: 0 <= j < |t.cols| ==> (r[j].None? <==> SumCells(Column(t, j)) == 0.0)
    ensures forall i, j :: 0 <= i < |t.rows| && 0 <= j < |t.cols| && r[j].Some? ==>
              (r[j].value[i].None? <==> t.cells[i][j].None?)
  {
    var r := seq(|t.cols|, j requires 0 <= j < |t.cols| => ColumnShares(Column(t, j)));
    assert forall j :: 0 <= j < |t.cols| && r[j].Some? ==> SumCells(r[j].value) == 1.0 by {
      forall j | 0 <= j < |t.cols| && r[j].Some? ensures SumCells(r[j].value) == 1.0 {
        ColumnSharesSumToOne(Column(t, j));
      }
    }
    r
  }
}
