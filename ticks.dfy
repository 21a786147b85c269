/** The angular tick positions of the two radial charts (app.py, lines 222 and
    276): one angle per theme row, evenly spread over the circle. */
module Ticks {
  import opened Records
  import opened CrossTab
  import opened Ratios

  /** The angle of row `x` out of `n`: `x * (360 / n)`. */
  function Tick(x: nat, n: nat): real
    requires n > 0
  {
    (x as real) * (360.0 / (n as real))
  }

  /** Ticks grow with the row number. */
  lemma TickLess(x: nat, y: nat, n: nat)
    requires x < y && n > 0
    ensures Tick(x, n) < Tick(y, n)
  {
    var step := 360.0 / (n as real);
    assert step > 0.0;
    ProductPositive((y as real) - (x as real), step);
    ProductDifference(y as real, x as real, step);
    var p := (x as real) * step;
    var q := (y as real) * step;
    assert q - p > 0.0;
  }

  /** Row `n` out of `n` would come back to the full turn. */
  lemma TickFullTurn(n: nat)
    requires n > 0
    ensures Tick(n, n) == 360.0
  {
  }

  /** Consecutive ticks are one step of `360 / n` apart. */
  lemma TickStep(x: nat, n: nat)
    requires n > 0
    ensures Tick(x + 1, n) - Tick(x, n) == 360.0 / (n as real)
  {
    var step := 360.0 / (n as real);
    ProductDifference((x + 1) as real, x as real, step);
    var p := ((x + 1) as real) * step;
    var q := (x as real) * step;
    assert p - q == 1.0 * step;
  }

  /** `[x*(360/n) for x in range(0, n)]`. */
  function AngularTicks(n: nat): (r: seq<real>)
    ensures |r| == n
    ensures forall x :: 0 <= x < n ==> r[x] == Tick(x, n)
  {
    seq(n, x requires 0 <= x < n => Tick(x, n))
  }

  /** The ticks start at 0 degrees, strictly increase, and stay below a full turn. */
  lemma AngularTicksRange(n: nat)
    ensures n > 0 ==> AngularTicks(n)[0] == 0.0
    ensures forall x :: 0 <= x < n ==> 0.0 <= AngularTicks(n)[x] < 360.0
    ensures forall x, y :: 0 <= x < y < n ==> AngularTicks(n)[x] < AngularTicks(n)[y]
  {
    var r := AngularTicks(n);
    forall x, y | 0 <= x < y < n ensures r[x] < r[y] {
      TickLess(x, y, n);
    }
    forall x | 0 <= x < n ensures 0.0 <= r[x] < 360.0 {
      TickFullTurn(n);
      TickLess(x, n, n);
      if x > 0 {
        TickLess(0, x, n);
      }
    }
  }

  /** Consecutive ticks are 360/n degrees apart, and the last is one step short of a turn. */
  lemma AngularTicksEvenlySpaced(n: nat)
    requires n > 0
    ensures forall x :: 0 <= x < n - 1 ==> AngularTicks(n)[x + 1] - AngularTicks(n)[x] == 360.0 / (n as real)
    ensures AngularTicks(n)[n - 1] + 360.0 / (n as real) == 360.0
  {
    var r := AngularTicks(n);
    forall x | 0 <= x < n - 1 ensures r[x + 1] - r[x] == 360.0 / (n as real) {
      TickStep(x, n);
    }
    TickStep(n - 1, n);
    TickFullTurn(n);
  }

  /** The full chart gets one tick per canonical theme (15), the chart without the
      indeterminate theme one per remaining theme (14). */
  lemma ChartTicks(ops: seq<Operation>)
    ensures |AngularTicks(|DataPivot(ops).rows|)| == 15
    ensures DropRow(DataPivot(ops), IndeterminateTheme).Ok?
    ensures |AngularTicks(|DropRow(DataPivot(ops), IndeterminateTheme).value.rows|)| == 14
  {
    DataPivotWithoutIndeterminate(ops);
  }
}
