/** The concentration curve of one fund (app.py, lines 180-188): a rank axis
    from numpy.arange and a cumulative-amount axis from the ascending-sorted
    amounts, each min-max scaled on its own. */
module Curve {
  import opened Records
  import opened Ratios

  function Sum(xs: seq<real>): real {
    if xs == [] then 0.0 else xs[0] + Sum(xs[1..])
  }

  lemma {:induction false} SumAppend(a: seq<real>, b: seq<real>)
    ensures Sum(a + b) == Sum(a) + Sum(b)
    decreases |a|
  {
    if a == [] {
      assert a + b == b;
    } else {
      assert (a + b)[1..] == a[1..] + b;
      SumAppend(a[1..], b);
    }
  }

  /** Taking out the element at `i` takes its value out of the sum. */
  lemma {:induction false} SumRemove(b: seq<real>, i: nat)
    requires i < |b|
    ensures Sum(b) == b[i] + Sum(b[..i] + b[i + 1..])
    decreases i
  {
    if i == 0 {
      assert b[..0] + b[1..] == b[1..];
    } else {
      var t := b[1..];
      SumRemove(t, i - 1);
      var rest := t[..i - 1] + t[i..];
      assert b[..i] + b[i + 1..] == [b[0]] + rest;
      assert ([b[0]] + rest)[1..] == rest;
    }
  }

  /** Taking out the element at `i` takes it out of the multiset. */
  lemma MultisetRemove(b: seq<real>, i: nat)
    requires i < |b|
    ensures multiset(b[..i] + b[i + 1..]) == multiset(b) - multiset{b[i]}
  {
    assert b == b[..i] + [b[i]] + b[i + 1..];
    assert multiset(b) == multiset(b[..i]) + multiset{b[i]} + multiset(b[i + 1..]);
  }

  lemma MultisetTail(a: seq<real>)
    requires |a| > 0
    ensures multiset(a[1..]) == multiset(a) - multiset{a[0]}
  {
    assert a == [a[0]] + a[1..];
  }

  /** A position where an element of the multiset of `b` occurs. */
  lemma {:induction false} FindAmount(x: real, b: seq<real>) returns (i: nat)
    requires x in multiset(b)
    ensures i < |b| && b[i] == x
    decreases |b|
  {
    if b[0] == x {
      i := 0;
    } else {
      assert b == [b[0]] + b[1..];
      var k := FindAmount(x, b[1..]);
      i := k + 1;
    }
  }

  /** The order in which amounts are added does not change their sum. */
  lemma {:induction false} SumPermutation(a: seq<real>, b: seq<real>)
    requires multiset(a) == multiset(b)
    ensures Sum(a) == Sum(b)
    decreases |a|
  {
    if a != [] {
      var x := a[0];
      assert x in multiset(b);
      var i := FindAmount(x, b);
      var ta, tb := a[1..], b[..i] + b[i + 1..];
      MultisetTail(a);
      MultisetRemove(b, i);
      SumPermutation(ta, tb);
      SumRemove(b, i);
      assert Sum(a) == x + Sum(ta);
    }
  }

  predicate SortedAsc(xs: seq<real>) {
    forall i, j :: 0 <= i < j < |xs| ==> xs[i] <= xs[j]
  }

  /** A bound of `ys` and of `y` bounds every element of a rearrangement of `ys + [y]`. */
  lemma MultisetLowerBound(b: real, xs: seq<real>, ys: seq<real>, y: real)
    requires multiset(xs) == multiset(ys) + multiset{y}
    requires forall i :: 0 <= i < |ys| ==> b <= ys[i]
    requires b <= y
    ensures forall i :: 0 <= i < |xs| ==> b <= xs[i]
  {
    forall i | 0 <= i < |xs| ensures b <= xs[i] {
      assert xs[i] in multiset(xs);
      assert xs[i] in multiset(ys) || xs[i] == y;
    }
  }

  /** Putting the same head in front keeps an insertion's multiset equation. */
  lemma ConsMultiset(s: seq<real>, rest: seq<real>, x: real)
    requires |s| > 0 && multiset(rest) == multiset(s[1..]) + multiset{x}
    ensures multiset([s[0]] + rest) == multiset(s) + multiset{x}
  {
    assert s == [s[0]] + s[1..];
    assert multiset(s) == multiset{s[0]} + multiset(s[1..]);
    assert multiset([s[0]] + rest) == multiset{s[0]} + multiset(rest);
  }

  /** A lower bound of an ascending sequence can go in front of it. */
  lemma PrependSorted(h: real, s: seq<real>)
    requires SortedAsc(s)
    requires forall i :: 0 <= i < |s| ==> h <= s[i]
    ensures SortedAsc([h] + s)
  {
  }

  /** Puts `x` at its place in an ascending sequence. */
  function InsertAmount(x: real, s: seq<real>): (r: seq<real>)
    requires SortedAsc(s)
    ensures SortedAsc(r) && multiset(r) == multiset(s) + multiset{x}
    decreases |s|
  {
    if s == [] || x <= s[0] then
      PrependSorted(x, s);
      [x] + s
    else
      var rest := InsertAmount(x, s[1..]);
      MultisetLowerBound(s[0], rest, s[1..], x);
      ConsMultiset(s, rest, x);
      PrependSorted(s[0], rest);
      [s[0]] + rest
  }

  /** Series.sort_values(): the amounts in ascending order. */
  function SortAscending(xs: seq<real>): (r: seq<real>)
    ensures SortedAsc(r) && multiset(r) == multiset(xs)
    decreases |xs|
  {
    if xs == [] then []
    else
      assert xs == [xs[0]] + xs[1..];
      InsertAmount(xs[0], SortAscending(xs[1..]))
  }

  /** An ascending arrangement of given amounts is unique, so any sorting algorithm
      gives the same sequence. */
  lemma {:induction false} SortedPermutationUnique(a: seq<real>, b: seq<real>)
    requires SortedAsc(a) && SortedAsc(b) && multiset(a) == multiset(b)
    ensures a == b
    decreases |a|
  {
    assert |b| == |a| by {
      assert |multiset(a)| == |a| && |multiset(b)| == |b|;
    }
    if a != [] {
      SortedHeadsEqual(a, b);
      TailsSameMultiset(a, b);
      SortedPermutationUnique(a[1..], b[1..]);
      assert a == [a[0]] + a[1..] && b == [b[0]] + b[1..];
    }
  }

  lemma SortedHeadsEqual(a: seq<real>, b: seq<real>)
    requires SortedAsc(a) && SortedAsc(b) && multiset(a) == multiset(b) && |a| > 0 && |b| > 0
    ensures a[0] == b[0]
  {
    assert a[0] in multiset(b) && b[0] in multiset(a);
    assert a[0] in b && b[0] in a;
  }

  lemma TailsSameMultiset(a: seq<real>, b: seq<real>)
    requires multiset(a) == multiset(b) && |a| > 0 && |b| > 0 && a[0] == b[0]
    ensures multiset(a[1..]) == multiset(b[1..])
  {
    assert a == [a[0]] + a[1..] && b == [b[0]] + b[1..];
    assert multiset(a) == multiset{a[0]} + multiset(a[1..]);
    assert multiset(b) == multiset{b[0]} + multiset(b[1..]);
    assert multiset(a[1..]) == multiset(a) - multiset{a[0]};
    assert multiset(b[1..]) == multiset(b) - multiset{b[0]};
  }

  /** The running totals of `xs`, starting from `acc`. */
  function RunningSums(xs: seq<real>, acc: real): (r: seq<real>)
    ensures |r| == |xs|
    ensures forall k :: 0 <= k < |xs| ==> r[k] == acc + Sum(xs[..k + 1])
    decreases |xs|
  {
    if xs == [] then []
    else
      var rest := RunningSums(xs[1..], acc + xs[0]);
      assert forall k :: 1 <= k < |xs| ==> Sum(xs[..k + 1]) == xs[0] + Sum(xs[1..][..k]) by {
        forall k | 1 <= k < |xs| ensures Sum(xs[..k + 1]) == xs[0] + Sum(xs[1..][..k]) {
          assert xs[..k + 1][1..] == xs[1..][..k];
        }
      }
      assert Sum(xs[..1]) == xs[0] by {
        assert xs[..1][1..] == [];
      }
      [acc + xs[0]] + rest
  }

  /** numpy.cumsum: element k is the sum of the first k + 1 amounts. */
  function CumSum(xs: seq<real>): (r: seq<real>)
    ensures |r| == |xs|
    ensures forall k :: 0 <= k < |xs| ==> r[k] == Sum(xs[..k + 1])
    ensures |xs| > 0 ==> r[|xs| - 1] == Sum(xs)
  {
    assert xs[..|xs|] == xs;
    RunningSums(xs, 0.0)
  }

  predicate NonNegative(xs: seq<real>) {
    forall i :: 0 <= i < |xs| ==> xs[i] >= 0.0
  }

  lemma {:induction false} RunningSumsAtLeast(xs: seq<real>, acc: real)
    requires NonNegative(xs)
    ensures forall k :: 0 <= k < |xs| ==> RunningSums(xs, acc)[k] >= acc
    ensures SortedAsc(RunningSums(xs, acc))
    decreases |xs|
  {
    if xs != [] {
      RunningSumsAtLeast(xs[1..], acc + xs[0]);
      var r := RunningSums(xs, acc);
      assert r == [acc + xs[0]] + RunningSums(xs[1..], acc + xs[0]);
    }
  }

  /** Running totals of non-negative amounts never decrease. */
  lemma CumSumNonDecreasing(xs: seq<real>)
    requires NonNegative(xs)
    ensures SortedAsc(CumSum(xs))
  {
    RunningSumsAtLeast(xs, 0.0);
  }

  // ---------------------------------------------------------------------------
  // Min-max scaling

  function Min(xs: seq<real>): (m: real)
    requires |xs| > 0
    ensures m in xs && forall i :: 0 <= i < |xs| ==> m <= xs[i]
  {
    if |xs| == 1 then xs[0]
    else
      var m := Min(xs[1..]);
      assert m in xs;
      if xs[0] <= m then xs[0] else m
  }

  function Max(xs: seq<real>): (m: real)
    requires |xs| > 0
    ensures m in xs && forall i :: 0 <= i < |xs| ==> xs[i] <= m
  {
    if |xs| == 1 then xs[0]
    else
      var m := Max(xs[1..]);
      assert m in xs;
      if xs[0] >= m then xs[0] else m
  }

  /** The outcome of `(v - v.min()) / (v.max() - v.min())`: Undefined(n) is the
      all-NaN vector of length n that 0/0 produces when every value is the same. */
  datatype Scaling = Scaled(values: seq<real>) | Undefined(size: nat)

  /** Each value's distance from `lo`, as a fraction of `hi - lo`. */
  function Rescale(xs: seq<real>, lo: real, hi: real): (v: seq<real>)
    requires lo < hi
    ensures |v| == |xs|
    ensures forall k :: 0 <= k < |xs| ==> v[k] == (xs[k] - lo) / (hi - lo)
  {
    seq(|xs|, k requires 0 <= k < |xs| => (xs[k] - lo) / (hi - lo))
  }

  lemma RescaleProperties(xs: seq<real>, lo: real, hi: real)
    requires lo < hi && forall k :: 0 <= k < |xs| ==> lo <= xs[k] <= hi
    ensures forall k :: 0 <= k < |xs| ==> 0.0 <= Rescale(xs, lo, hi)[k] <= 1.0
    ensures forall k :: 0 <= k < |xs| && xs[k] == lo ==> Rescale(xs, lo, hi)[k] == 0.0
    ensures forall k :: 0 <= k < |xs| && xs[k] == hi ==> Rescale(xs, lo, hi)[k] == 1.0
    ensures forall i, j :: 0 <= i < |xs| && 0 <= j < |xs| && xs[i] <= xs[j] ==>
              Rescale(xs, lo, hi)[i] <= Rescale(xs, lo, hi)[j]
  {
    var v := Rescale(xs, lo, hi);
    var d := hi - lo;
    forall k | 0 <= k < |xs| ensures 0.0 <= v[k] <= 1.0 {
      DivideWithin(xs[k] - lo, d);
    }
    forall i, j | 0 <= i < |xs| && 0 <= j < |xs| && xs[i] <= xs[j] ensures v[i] <= v[j] {
      DivideMonotone(xs[i] - lo, xs[j] - lo, d);
    }
    forall k | 0 <= k < |xs| && xs[k] == lo ensures v[k] == 0.0 {
      assert xs[k] - lo == 0.0;
      DivideZero(d);
    }
    forall k | 0 <= k < |xs| && xs[k] == hi ensures v[k] == 1.0 {
      assert xs[k] - lo == d;
      DivideSelf(d);
    }
  }

  function MinMax(xs: seq<real>): (r: Scaling)
    ensures |xs| == 0 ==> r == Scaled([])
    ensures |xs| > 0 ==> (r.Undefined? <==> Min(xs) == Max(xs))
    ensures r.Undefined? ==> r.size == |xs|
    ensures r.Scaled? ==> |r.values| == |xs|
    ensures r.Scaled? ==> forall k :: 0 <= k < |xs| ==> 0.0 <= r.values[k] <= 1.0
    ensures r.Scaled? ==> forall k :: 0 <= k < |xs| && xs[k] == Min(xs) ==> r.values[k] == 0.0
    ensures r.Scaled? ==> forall k :: 0 <= k < |xs| && xs[k] == Max(xs) ==> r.values[k] == 1.0
    ensures r.Scaled? ==> forall i, j :: 0 <= i < |xs| && 0 <= j < |xs| && xs[i] <= xs[j] ==>
                            r.values[i] <= r.values[j]
  {
    if |xs| == 0 then Scaled([])
    else
      var lo, hi := Min(xs), Max(xs);
      if lo == hi then Undefined(|xs|)
      else
        RescaleProperties(xs, lo, hi);
        Scaled(Rescale(xs, lo, hi))
  }

  /** The scaling is undefined exactly when every value is the same. */
  lemma MinMaxUndefinedIffConstant(xs: seq<real>)
    requires |xs| > 0
    ensures MinMax(xs).Undefined? <==> forall i :: 0 <= i < |xs| ==> xs[i] == xs[0]
  {
    if forall i :: 0 <= i < |xs| ==> xs[i] == xs[0] {
      assert Min(xs) == xs[0] && Max(xs) == xs[0];
    }
  }

  lemma SortedMinMax(xs: seq<real>)
    requires |xs| > 0 && SortedAsc(xs)
    ensures Min(xs) == xs[0] && Max(xs) == xs[|xs| - 1]
  {
  }

  /** For an ascending sequence that is not constant, the scaled values ascend from
      exactly 0 to exactly 1. */
  lemma MinMaxOfAscending(xs: seq<real>)
    requires |xs| > 0 && SortedAsc(xs) && xs[0] < xs[|xs| - 1]
    ensures MinMax(xs).Scaled?
    ensures SortedAsc(MinMax(xs).values)
    ensures MinMax(xs).values[0] == 0.0 && MinMax(xs).values[|xs| - 1] == 1.0
  {
    SortedMinMax(xs);
  }

  // ---------------------------------------------------------------------------
  // The rank axis

  /** numpy.arange(1, n): the ranks 1 .. n-1 (empty when n <= 1). */
  function RankAxis(n: nat): (r: seq<real>)
    ensures |r| == if n == 0 then 0 else n - 1
    ensures forall k :: 0 <= k < |r| ==> r[k] == (k + 1) as real
  {
    if n == 0 then [] else seq(n - 1, k requires 0 <= k < n - 1 => (k + 1) as real)
  }

  /** `lignes_feder` / `lignes_fse` scaled: numpy's min() of a zero-size array raises. */
  function NormalizedRanks(n: nat): (r: Result<Scaling>)
    ensures r.Err? <==> n <= 1
    ensures r.Err? ==> r.error == EmptyReduction
    ensures r.Ok? && r.value.Scaled? ==> |r.value.values| == n - 1
    ensures r.Ok? && r.value.Undefined? ==> r.value.size == n - 1
  {
    var axis := RankAxis(n);
    if |axis| == 0 then Err(EmptyReduction) else Ok(MinMax(axis))
  }

  /** An ascending, non-constant sequence is scaled between its first and last value. */
  lemma MinMaxOfAscendingIs(xs: seq<real>)
    requires |xs| > 0 && SortedAsc(xs) && xs[0] < xs[|xs| - 1]
    ensures MinMax(xs) == Scaled(Rescale(xs, xs[0], xs[|xs| - 1]))
  {
    SortedMinMax(xs);
  }

  lemma RescaledRank(axis: seq<real>, k: nat)
    requires |axis| >= 2 && forall i :: 0 <= i < |axis| ==> axis[i] == (i + 1) as real
    requires k < |axis|
    ensures Rescale(axis, 1.0, |axis| as real)[k] == (k as real) / ((|axis| - 1) as real)
  {
    var m := |axis|;
    assert Rescale(axis, 1.0, m as real)[k] == (axis[k] - 1.0) / ((m as real) - 1.0);
    assert axis[k] - 1.0 == k as real;
    assert (m as real) - 1.0 == (m - 1) as real;
  }

  /** The min-max scaling of the ranks 1 .. m puts rank k + 1 at k/(m-1). */
  lemma ScaledRanks(axis: seq<real>)
    requires |axis| >= 2 && forall k :: 0 <= k < |axis| ==> axis[k] == (k + 1) as real
    ensures MinMax(axis).Scaled? && |MinMax(axis).values| == |axis|
    ensures forall k :: 0 <= k < |axis| ==>
              MinMax(axis).values[k] == (k as real) / ((|axis| - 1) as real)
    ensures forall i, j :: 0 <= i < j < |axis| ==> MinMax(axis).values[i] < MinMax(axis).values[j]
  {
    var m := |axis|;
    RanksAscend(axis);
    assert axis[0] == 1.0 && axis[m - 1] == m as real;
    MinMaxOfAscendingIs(axis);
    var v := Rescale(axis, 1.0, m as real);
    assert MinMax(axis) == Scaled(v);
    forall k | 0 <= k < m ensures v[k] == (k as real) / ((m - 1) as real) {
      RescaledRank(axis, k);
    }
    FractionsIncrease(v, m - 1);
  }

  lemma RanksAscend(axis: seq<real>)
    requires forall k :: 0 <= k < |axis| ==> axis[k] == (k + 1) as real
    ensures SortedAsc(axis)
  {
  }

  lemma FractionsIncrease(v: seq<real>, d: nat)
    requires d > 0 && forall k :: 0 <= k < |v| ==> v[k] == (k as real) / (d as real)
    ensures forall i, j :: 0 <= i < j < |v| ==> v[i] < v[j]
  {
    forall i, j | 0 <= i < j < |v| ensures v[i] < v[j] {
      DivideStrict(i as real, j as real, d as real);
    }
  }

  /** With at least three records the scaled rank k (0-based) is k/(n-2): it rises
      strictly from exactly 0 to exactly 1 over n-1 points. */
  lemma NormalizedRanksValues(n: nat)
    requires n >= 3
    ensures NormalizedRanks(n).Ok? && NormalizedRanks(n).value.Scaled?
    ensures |NormalizedRanks(n).value.values| == n - 1
    ensures forall k :: 0 <= k < n - 1 ==>
              NormalizedRanks(n).value.values[k] == (k as real) / ((n - 2) as real)
    ensures NormalizedRanks(n).value.values[0] == 0.0
    ensures NormalizedRanks(n).value.values[n - 2] == 1.0
    ensures forall i, j :: 0 <= i < j < n - 1 ==>
              NormalizedRanks(n).value.values[i] < NormalizedRanks(n).value.values[j]
  {
    ScaledRanks(RankAxis(n));
    var v := NormalizedRanks(n).value.values;
    assert v[n - 2] == ((n - 2) as real) / ((n - 2) as real);
  }

  /** One record or none: the rank axis is empty and its min() raises. Two records:
      a single rank, which 0/0 turns into NaN. */
  lemma NormalizedRanksDegenerate(n: nat)
    requires n <= 2
    ensures n <= 1 ==> NormalizedRanks(n) == Err(EmptyReduction)
    ensures n == 2 ==> NormalizedRanks(n) == Ok(Undefined(1))
  {
  }

  // ---------------------------------------------------------------------------
  // The amount axis

  /** `data.loc[data['Fonds'] == fund, 'Montant UE programmé']`: the fund's amounts in record order. */
  function FundAmounts(ops: seq<Operation>, fund: string): (r: seq<real>)
    ensures |r| <= |ops|
    ensures NonNegativeAmounts(ops) ==> NonNegative(r)
  {
    if ops == [] then []
    else
      var rest := FundAmounts(ops[1..], fund);
      if ops[0].fund == fund then [ops[0].amount] + rest else rest
  }

  /** Selecting from two batches of records selects from each, in order. */
  lemma {:induction false} FundAmountsAppend(a: seq<Operation>, b: seq<Operation>, fund: string)
    ensures FundAmounts(a + b, fund) == FundAmounts(a, fund) + FundAmounts(b, fund)
    decreases |a|
  {
    if a == [] {
      assert a + b == b;
    } else {
      assert (a + b)[0] == a[0] && (a + b)[1..] == a[1..] + b;
      FundAmountsAppend(a[1..], b, fund);
    }
  }

  /** A single record contributes its amount exactly when it belongs to the fund. */
  lemma FundAmountsOne(o: Operation, fund: string)
    ensures FundAmounts([o], fund) == if o.fund == fund then [o.amount] else []
  {
    assert [o][1..] == [];
  }

  /** The positions of the fund's records. */
  function FundRecords(ops: seq<Operation>, fund: string): set<int> {
    set k | 0 <= k < |ops| && ops[k].fund == fund
  }

  /** Appending a record adds its position exactly when it belongs to the fund. */
  lemma FundRecordsGrows(ops: seq<Operation>, fund: string)
    requires |ops| > 0
    ensures |FundRecords(ops, fund)| ==
            |FundRecords(ops[..|ops| - 1], fund)| + (if ops[|ops| - 1].fund == fund then 1 else 0)
  {
    var n := |ops| - 1;
    var hit := ops[n].fund == fund;
    var some := FundRecords(ops[..n], fund);
    var whole := if hit then some + {n} else some;
    forall k | k in FundRecords(ops, fund) ensures k in whole {
      if k < n {
        assert ops[..n][k] == ops[k];
      }
    }
    forall k | k in whole ensures k in FundRecords(ops, fund) {
      if k < n {
        assert ops[..n][k] == ops[k];
      }
    }
    assert FundRecords(ops, fund) == whole;
    AddIndex(some, n, hit);
  }

  /** One amount per record of the fund. */
  lemma {:induction false} FundAmountsCount(ops: seq<Operation>, fund: string)
    ensures |FundAmounts(ops, fund)| == |FundRecords(ops, fund)|
    decreases |ops|
  {
    if ops == [] {
      assert FundRecords(ops, fund) == {};
    } else {
      var n := |ops| - 1;
      var pre := ops[..n];
      assert ops == pre + [ops[n]];
      FundAmountsAppend(pre, [ops[n]], fund);
      FundAmountsOne(ops[n], fund);
      FundAmountsCount(pre, fund);
      FundRecordsGrows(ops, fund);
    }
  }

  /** Sorting keeps non-negative amounts non-negative. */
  lemma SortedNonNegative(xs: seq<real>)
    ensures NonNegative(xs) ==> NonNegative(SortAscending(xs))
  {
    var sorted := SortAscending(xs);
    if NonNegative(xs) {
      forall i | 0 <= i < |sorted| ensures sorted[i] >= 0.0 {
        assert sorted[i] in multiset(xs);
      }
    }
  }

  /** `montants_feder` / `montants_fse`: running totals of the fund's amounts in
      ascending order. The axis has one point per record of the fund and ends at the
      fund's total; with non-negative amounts it never decreases. */
  function CumulativeAmounts(ops: seq<Operation>, fund: string): (r: seq<real>)
    ensures |r| == |FundAmounts(ops, fund)|
    ensures |r| > 0 ==> r[|r| - 1] == Sum(FundAmounts(ops, fund))
    ensures NonNegativeAmounts(ops) ==> SortedAsc(r)
  {
    var amounts := FundAmounts(ops, fund);
    var sorted := SortAscending(amounts);
    assert |sorted| == |amounts| by {
      assert |multiset(sorted)| == |sorted| && |multiset(amounts)| == |amounts|;
    }
    SumPermutation(sorted, amounts);
    SortedNonNegative(amounts);
    if NonNegative(sorted) then
      CumSumNonDecreasing(sorted);
      CumSum(sorted)
    else
      CumSum(sorted)
  }

  /** `montants_feder_normalises` / `montants_fse_normalises`. */
  function NormalizedAmounts(ops: seq<Operation>, fund: string): (r: Scaling)
    ensures FundAmounts(ops, fund) == [] ==> r == Scaled([])
    ensures r.Scaled? ==> |r.values| == |FundAmounts(ops, fund)|
    ensures r.Undefined? ==> r.size == |FundAmounts(ops, fund)|
  {
    MinMax(CumulativeAmounts(ops, fund))
  }

  /** The scaled cumulative axis lies in [0, 1] and never decreases; it starts at
      exactly 0 and ends at exactly 1 when its last total exceeds its first, and is
      all NaN when they are equal. A fund without records gives an empty axis. */
  lemma NormalizedAmountsShape(ops: seq<Operation>, fund: string)
    requires NonNegativeAmounts(ops)
    ensures var c, r := CumulativeAmounts(ops, fund), NormalizedAmounts(ops, fund);
            && (|c| == 0 ==> r == Scaled([]))
            && (|c| > 0 && c[0] == c[|c| - 1] ==> r == Undefined(|c|))
            && (|c| > 0 && c[0] < c[|c| - 1] ==>
                  && r.Scaled? && |r.values| == |c|
                  && SortedAsc(r.values)
                  && (forall k :: 0 <= k < |c| ==> 0.0 <= r.values[k] <= 1.0)
                  && r.values[0] == 0.0 && r.values[|c| - 1] == 1.0)
  {
    var c := CumulativeAmounts(ops, fund);
    if |c| > 0 {
      SortedMinMax(c);
      if c[0] < c[|c| - 1] {
        MinMaxOfAscending(c);
      }
    }
  }

  // ---------------------------------------------------------------------------
  // The off-by-one between the two axes

  /** The rank axis of app.py has one point fewer than the cumulative axis it is
      plotted against. */
  lemma RankAxisOffByOne(ops: seq<Operation>, fund: string)
    requires |FundAmounts(ops, fund)| > 0
    ensures |RankAxis(|FundAmounts(ops, fund)|)| + 1 == |CumulativeAmounts(ops, fund)|
  {
  }

  /** The example of three FSE operations of 100, 300 and 600: the cumulative axis is
      [100, 400, 1000], scaled [0, 1/3, 1], while the scaled rank axis is [0, 1]. Paired
      point by point, the curve reaches the last rank at a third of the money. */
  lemma RankAxisOffByOneExample()
    ensures var ops := [Operation(Fse, "Emploi", "Associations", 100.0, OrdinaryTier),
                        Operation(Fse, "Emploi", "Associations", 300.0, OrdinaryTier),
                        Operation(Fse, "Emploi", "Associations", 600.0, LargeTier)];
            && CumulativeAmounts(ops, Fse) == [100.0, 400.0, 1000.0]
            && NormalizedAmounts(ops, Fse) == Scaled([0.0, 1.0 / 3.0, 1.0])
            && NormalizedRanks(|FundAmounts(ops, Fse)|) == Ok(Scaled([0.0, 1.0]))
            && NormalizedRanksFull(|FundAmounts(ops, Fse)|) == Ok(Scaled([0.0, 0.5, 1.0]))
  {
    var ops := [Operation(Fse, "Emploi", "Associations", 100.0, OrdinaryTier),
                Operation(Fse, "Emploi", "Associations", 300.0, OrdinaryTier),
                Operation(Fse, "Emploi", "Associations", 600.0, LargeTier)];
    ExampleAmounts(ops);
    ExampleCumulative();
    ExampleScaled();
    ExampleRanks();
  }

  lemma ExampleRanks()
    ensures NormalizedRanks(3) == Ok(Scaled([0.0, 1.0]))
    ensures NormalizedRanksFull(3) == Ok(Scaled([0.0, 0.5, 1.0]))
  {
    ExampleRanksAsWritten();
    ExampleRanksFull();
  }

  lemma ExampleRanksAsWritten()
    ensures NormalizedRanks(3) == Ok(Scaled([0.0, 1.0]))
  {
    var axis := RankAxis(3);
    assert axis == [1.0, 2.0];
    MinMaxOfAscendingIs(axis);
    var v := Rescale(axis, 1.0, 2.0);
    assert v[0] == 0.0 && v[1] == 1.0;
    assert v == [0.0, 1.0];
  }

  lemma ExampleRanksFull()
    ensures NormalizedRanksFull(3) == Ok(Scaled([0.0, 0.5, 1.0]))
  {
    var axis := RankAxisFull(3);
    assert axis == [1.0, 2.0, 3.0];
    assert SortedAsc(axis);
    MinMaxOfAscendingIs(axis);
    ExampleRescaledRanks();
  }

  lemma ExampleRescaledRanks()
    ensures Rescale([1.0, 2.0, 3.0], 1.0, 3.0) == [0.0, 0.5, 1.0]
  {
    var v := Rescale([1.0, 2.0, 3.0], 1.0, 3.0);
    assert v[0] == 0.0 / 2.0 == 0.0;
    assert v[1] == 1.0 / 2.0 == 0.5;
    assert v[2] == 2.0 / 2.0 == 1.0;
  }

  lemma ExampleAmounts(ops: seq<Operation>)
    requires ops == [Operation(Fse, "Emploi", "Associations", 100.0, OrdinaryTier),
                     Operation(Fse, "Emploi", "Associations", 300.0, OrdinaryTier),
                     Operation(Fse, "Emploi", "Associations", 600.0, LargeTier)]
    ensures FundAmounts(ops, Fse) == [100.0, 300.0, 600.0]
    ensures SortAscending(FundAmounts(ops, Fse)) == [100.0, 300.0, 600.0]
  {
    assert FundAmounts(ops[2..], Fse) == [600.0];
    assert FundAmounts(ops[1..], Fse) == [300.0, 600.0];
    var amounts := [100.0, 300.0, 600.0];
    assert SortedAsc(amounts);
    SortedPermutationUnique(SortAscending(amounts), amounts);
  }

  lemma ExampleCumulative()
    ensures CumSum([100.0, 300.0, 600.0]) == [100.0, 400.0, 1000.0]
  {
    var amounts := [100.0, 300.0, 600.0];
    var c := CumSum(amounts);
    assert c[0] == Sum(amounts[..1]) && amounts[..1] == [100.0];
    assert c[1] == Sum(amounts[..2]) && amounts[..2] == [100.0, 300.0];
    assert c[2] == Sum(amounts);
  }

  lemma ExampleRescaled()
    ensures Rescale([100.0, 400.0, 1000.0], 100.0, 1000.0) == [0.0, 1.0 / 3.0, 1.0]
  {
    var v := Rescale([100.0, 400.0, 1000.0], 100.0, 1000.0);
    assert v[0] == 0.0 / 900.0 == 0.0;
    assert v[1] == 300.0 / 900.0 == 1.0 / 3.0;
    assert v[2] == 900.0 / 900.0 == 1.0;
  }

  lemma ExampleScaled()
    ensures MinMax([100.0, 400.0, 1000.0]) == Scaled([0.0, 1.0 / 3.0, 1.0])
  {
    var c := [100.0, 400.0, 1000.0];
    assert SortedAsc(c);
    MinMaxOfAscendingIs(c);
    ExampleRescaled();
  }

  /** numpy.arange(1, n + 1): one rank per record, the evidently intended axis. */
  function RankAxisFull(n: nat): (r: seq<real>)
    ensures |r| == n
    ensures forall k :: 0 <= k < n ==> r[k] == (k + 1) as real
  {
    seq(n, k requires 0 <= k < n => (k + 1) as real)
  }

  function NormalizedRanksFull(n: nat): (r: Result<Scaling>)
    ensures r.Err? <==> n == 0
    ensures r.Err? ==> r.error == EmptyReduction
    ensures r.Ok? && r.value.Scaled? ==> |r.value.values| == n
    ensures r.Ok? && r.value.Undefined? ==> r.value.size == n
  {
    var axis := RankAxisFull(n);
    if |axis| == 0 then Err(EmptyReduction) else Ok(MinMax(axis))
  }

  /** With one rank per record, the scaled rank k is k/(n-1): n points from exactly 0
      to exactly 1, as many as the cumulative axis has. */
  lemma NormalizedRanksFullValues(n: nat)
    requires n >= 2
    ensures NormalizedRanksFull(n).Ok? && NormalizedRanksFull(n).value.Scaled?
    ensures |NormalizedRanksFull(n).value.values| == n
    ensures forall k :: 0 <= k < n ==>
              NormalizedRanksFull(n).value.values[k] == (k as real) / ((n - 1) as real)
    ensures NormalizedRanksFull(n).value.values[0] == 0.0
    ensures NormalizedRanksFull(n).value.values[n - 1] == 1.0
    ensures forall i, j :: 0 <= i < j < n ==>
              NormalizedRanksFull(n).value.values[i] < NormalizedRanksFull(n).value.values[j]
  {
    ScaledRanks(RankAxisFull(n));
    var v := NormalizedRanksFull(n).value.values;
    assert v[n - 1] == ((n - 1) as real) / ((n - 1) as real);
  }

  /** The corrected rank axis has exactly one point per point of the cumulative axis. */
  lemma RankAxisFullMatches(ops: seq<Operation>, fund: string)
    ensures |RankAxisFull(|FundAmounts(ops, fund)|)| == |CumulativeAmounts(ops, fund)|
  {
  }
}
