/**
 * The portfolio contribution simulator. The first return row seeds the value
 * with the initial investment grown by that day's blended return; on every
 * later row the monthly contribution is added first when the row falls on
 * the first day of a month, then the day's blended return is applied.
 */
module Portfolio {
  import opened Wrappers
  import opened Frames
  import Returns

  /** The monthly contribution due on a trading day with day of month `day`. */
  function Contribution(day: nat, monthly: real): real {
    if day == 1 then monthly else 0.0
  }

  /** The blended daily return: every asset's return times the allocation, summed. */
  function Blended(daily: seq<real>, allocation: real): real {
    Sum(Scaled(daily, allocation))
  }

  /** The blended return is the allocation times the plain sum of the asset returns. */
  lemma BlendedIsAllocationTimesSum(daily: seq<real>, allocation: real)
    ensures Blended(daily, allocation) == allocation * Sum(daily)
  {
    SumScaled(daily, allocation);
  }

  /**
   * The starting value: the initial investment plus each asset's share of the
   * first day's gain. It is the initial investment compounded once by the first
   * blended return; no contribution enters it.
   */
  function Seed(first: ReturnRow, allocation: real, initial: real): (s: real)
    ensures s == initial + Blended(first.daily, allocation) * initial
  {
    SumScaled(Scaled(first.daily, allocation), initial);
    initial + Sum(Scaled(Scaled(first.daily, allocation), initial))
  }

  /** One later trading day: contribution first, then that day's blended return. */
  function Step(value: real, row: ReturnRow, allocation: real, monthly: real): real {
    (value + Contribution(row.day, monthly)) * (1.0 + Blended(row.daily, allocation))
  }

  /** The value series the simulator produces, one value per return row. */
  function PortfolioPath(rows: seq<ReturnRow>, allocation: real, initial: real, monthly: real): (path: seq<real>)
    requires |rows| > 0
    ensures |path| == |rows|
    decreases |rows|
  {
    if |rows| == 1 then [Seed(rows[0], allocation, initial)]
    else
      var prev := PortfolioPath(rows[..|rows| - 1], allocation, initial, monthly);
      prev + [Step(prev[|prev| - 1], rows[|rows| - 1], allocation, monthly)]
  }

  /** The series for `n > 1` rows is the series for the first `n - 1` rows extended by one step. */
  lemma PortfolioUnfold(rows: seq<ReturnRow>, allocation: real, initial: real, monthly: real)
    requires |rows| > 1
    ensures var prev := PortfolioPath(rows[..|rows| - 1], allocation, initial, monthly);
      PortfolioPath(rows, allocation, initial, monthly) ==
        prev + [Step(prev[|rows| - 2], rows[|rows| - 1], allocation, monthly)]
  {
  }

  /** The values for a prefix of the rows are the prefix of the values. */
  lemma {:induction false} PortfolioPrefix(rows: seq<ReturnRow>, k: nat, allocation: real, initial: real, monthly: real)
    requires 0 < k <= |rows|
    ensures PortfolioPath(rows[..k], allocation, initial, monthly) == PortfolioPath(rows, allocation, initial, monthly)[..k]
    decreases |rows|
  {
    if k < |rows| {
      var n := |rows|;
      PortfolioPrefix(rows[..n - 1], k, allocation, initial, monthly);
      assert rows[..n - 1][..k] == rows[..k];
      assert PortfolioPath(rows, allocation, initial, monthly)[..n - 1] == PortfolioPath(rows[..n - 1], allocation, initial, monthly);
    } else {
      assert rows[..k] == rows;
    }
  }

  /** The first value is the seed, whatever the first row's day of month. */
  lemma PortfolioFirstValue(rows: seq<ReturnRow>, allocation: real, initial: real, monthly: real)
    requires |rows| > 0
    ensures PortfolioPath(rows, allocation, initial, monthly)[0] ==
      initial + Blended(rows[0].daily, allocation) * initial
  {
    PortfolioPrefix(rows, 1, allocation, initial, monthly);
  }

  /** Every later value is the previous one plus the contribution due that day, grown by that day's return. */
  lemma {:induction false} PortfolioStep(rows: seq<ReturnRow>, k: nat, allocation: real, initial: real, monthly: real)
    requires 0 < k < |rows|
    ensures PortfolioPath(rows, allocation, initial, monthly)[k] ==
      Step(PortfolioPath(rows, allocation, initial, monthly)[k - 1], rows[k], allocation, monthly)
  {
    var head := rows[..k + 1];
    var hp := PortfolioPath(head, allocation, initial, monthly);
    PortfolioUnfold(head, allocation, initial, monthly);
    var prev := PortfolioPath(head[..k], allocation, initial, monthly);
    assert hp[k - 1] == prev[k - 1];
    assert hp[k] == Step(hp[k - 1], head[k], allocation, monthly);
    PortfolioPrefix(rows, k + 1, allocation, initial, monthly);
  }

  /**
   * The step rule spelled out: on the first of a month the contribution is
   * added before that day's blended return is applied; on other days the value
   * only grows by the return.
   */
  lemma {:induction false} PortfolioContributionBeforeReturn(rows: seq<ReturnRow>, k: nat, allocation: real, initial: real, monthly: real)
    requires 0 < k < |rows|
    ensures var path := PortfolioPath(rows, allocation, initial, monthly);
      path[k] == (if rows[k].day == 1 then path[k - 1] + monthly else path[k - 1]) * (1.0 + Blended(rows[k].daily, allocation))
  {
    var path := PortfolioPath(rows, allocation, initial, monthly);
    PortfolioStep(rows, k, allocation, initial, monthly);
    StepByParts(path[k - 1], rows[k], allocation, monthly);
  }

  /** The product of the daily growth factors `1 + blended return` over the rows. */
  function Growth(rows: seq<ReturnRow>, allocation: real): real
    decreases |rows|
  {
    if rows == [] then 1.0
    else Growth(rows[..|rows| - 1], allocation) * (1.0 + Blended(rows[|rows| - 1].daily, allocation))
  }

  /** The initial investment compounded by every row's growth factor, with nothing added. */
  function Compounded(initial: real, rows: seq<ReturnRow>, allocation: real): real
    decreases |rows|
  {
    if rows == [] then initial
    else Compounded(initial, rows[..|rows| - 1], allocation) * (1.0 + Blended(rows[|rows| - 1].daily, allocation))
  }

  lemma {:induction false} CompoundedIsProduct(initial: real, rows: seq<ReturnRow>, allocation: real)
    ensures Compounded(initial, rows, allocation) == initial * Growth(rows, allocation)
    decreases |rows|
  {
    if rows != [] {
      var front := rows[..|rows| - 1];
      CompoundedIsProduct(initial, front, allocation);
      var f := 1.0 + Blended(rows[|rows| - 1].daily, allocation);
      var g := Growth(front, allocation);
      assert (initial * g) * f == initial * (g * f);
    }
  }

  lemma {:induction false} LastValueWithoutContributions(rows: seq<ReturnRow>, allocation: real, initial: real)
    requires |rows| > 0
    ensures PortfolioPath(rows, allocation, initial, 0.0)[|rows| - 1] == Compounded(initial, rows, allocation)
    decreases |rows|
  {
    var n := |rows|;
    if n == 1 {
        assert rows[..0] == [];
      var b := Blended(rows[0].daily, allocation);
      assert initial + b * initial == initial * (1.0 + b);
    } else {
      var front := rows[..n - 1];
      LastValueWithoutContributions(front, allocation, initial);
      PortfolioUnfold(rows, allocation, initial, 0.0);
    }
  }

  /**
   * Without contributions every value is the initial investment compounded by
   * the growth factors up to that day, whatever the days of the month are.
   */
  lemma PortfolioWithoutContributions(rows: seq<ReturnRow>, allocation: real, initial: real, k: nat)
    requires k < |rows|
    ensures PortfolioPath(rows, allocation, initial, 0.0)[k] == Compounded(initial, rows[..k + 1], allocation)
  {
    PortfolioPrefix(rows, k + 1, allocation, initial, 0.0);
    LastValueWithoutContributions(rows[..k + 1], allocation, initial);
  }

  /** Every blended return is at least `floor`. */
  predicate BlendedAtLeast(rows: seq<ReturnRow>, allocation: real, floor: real) {
    forall k :: 0 <= k < |rows| ==> Blended(rows[k].daily, allocation) >= floor
  }

  lemma StepGrows(value: real, row: ReturnRow, allocation: real, monthly: real)
    requires value >= 0.0 && monthly >= 0.0 && Blended(row.daily, allocation) >= 0.0
    ensures Step(value, row, allocation, monthly) >= value
  {
    var v := value + Contribution(row.day, monthly);
    var b := Blended(row.daily, allocation);
    assert v * (1.0 + b) == v + v * b;
    assert v * b >= 0.0;
  }

  lemma StepStaysNonNegative(value: real, row: ReturnRow, allocation: real, monthly: real)
    requires value >= 0.0 && monthly >= 0.0 && Blended(row.daily, allocation) >= -1.0
    ensures Step(value, row, allocation, monthly) >= 0.0
  {
    var v := value + Contribution(row.day, monthly);
    var f := 1.0 + Blended(row.daily, allocation);
    assert v >= 0.0 && f >= 0.0;
    assert v * f >= 0.0;
  }

  /**
   * With non-negative investments and no losing day, the series never
   * decreases and never falls below the initial investment.
   */
  lemma {:induction false} PortfolioNonDecreasing(rows: seq<ReturnRow>, allocation: real, initial: real, monthly: real)
    requires |rows| > 0 && initial >= 0.0 && monthly >= 0.0
    requires BlendedAtLeast(rows, allocation, 0.0)
    ensures forall k :: 0 < k < |rows| ==>
      PortfolioPath(rows, allocation, initial, monthly)[k - 1] <= PortfolioPath(rows, allocation, initial, monthly)[k]
    ensures forall k :: 0 <= k < |rows| ==> initial <= PortfolioPath(rows, allocation, initial, monthly)[k]
    decreases |rows|
  {
    var path := PortfolioPath(rows, allocation, initial, monthly);
    var n := |rows|;
    if n == 1 {
      PortfolioFirstValue(rows, allocation, initial, monthly);
      var b := Blended(rows[0].daily, allocation);
      assert b >= 0.0;
      assert b * initial >= 0.0;
    } else {
      var front := rows[..n - 1];
      var prev := PortfolioPath(front, allocation, initial, monthly);
      assert BlendedAtLeast(front, allocation, 0.0) by {
        forall k | 0 <= k < |front| ensures Blended(front[k].daily, allocation) >= 0.0 {
          assert front[k] == rows[k];
        }
      }
      PortfolioNonDecreasing(front, allocation, initial, monthly);
      PortfolioUnfold(rows, allocation, initial, monthly);
      assert initial <= prev[n - 2];
      assert Blended(rows[n - 1].daily, allocation) >= 0.0;
      StepGrows(prev[n - 2], rows[n - 1], allocation, monthly);
      assert path == prev + [Step(prev[n - 2], rows[n - 1], allocation, monthly)];
    }
  }

  /** With non-negative investments and no day losing more than everything, no value is negative. */
  lemma {:induction false} PortfolioNonNegative(rows: seq<ReturnRow>, allocation: real, initial: real, monthly: real)
    requires |rows| > 0 && initial >= 0.0 && monthly >= 0.0
    requires BlendedAtLeast(rows, allocation, -1.0)
    ensures forall k :: 0 <= k < |rows| ==> PortfolioPath(rows, allocation, initial, monthly)[k] >= 0.0
    decreases |rows|
  {
    var path := PortfolioPath(rows, allocation, initial, monthly);
    var n := |rows|;
    if n == 1 {
      PortfolioFirstValue(rows, allocation, initial, monthly);
      var f := 1.0 + Blended(rows[0].daily, allocation);
      assert f >= 0.0;
      assert path[0] == initial * f;
      assert initial * f >= 0.0;
    } else {
      var front := rows[..n - 1];
      var prev := PortfolioPath(front, allocation, initial, monthly);
      assert BlendedAtLeast(front, allocation, -1.0) by {
        forall k | 0 <= k < |front| ensures Blended(front[k].daily, allocation) >= -1.0 {
          assert front[k] == rows[k];
        }
      }
      PortfolioNonNegative(front, allocation, initial, monthly);
      PortfolioUnfold(rows, allocation, initial, monthly);
      assert Blended(rows[n - 1].daily, allocation) >= -1.0;
      StepStaysNonNegative(prev[n - 2], rows[n - 1], allocation, monthly);
      assert path == prev + [Step(prev[n - 2], rows[n - 1], allocation, monthly)];
    }
  }

  /** Two tables that differ only in their first row give the same series exactly when their seeds agree. */
  lemma {:induction false} PortfolioDeterminedBySeed(a: seq<ReturnRow>, b: seq<ReturnRow>, allocation: real, initial: real, monthly: real)
    requires |a| == |b| > 0 && a[1..] == b[1..]
    ensures PortfolioPath(a, allocation, initial, monthly) == PortfolioPath(b, allocation, initial, monthly)
        <==> Seed(a[0], allocation, initial) == Seed(b[0], allocation, initial)
    decreases |a|
  {
    var n := |a|;
    PortfolioPrefix(a, 1, allocation, initial, monthly);
    PortfolioPrefix(b, 1, allocation, initial, monthly);
    if n > 1 {
      assert a[..n - 1][1..] == b[..n - 1][1..] by {
        assert a[..n - 1][1..] == a[1..][..n - 2];
        assert b[..n - 1][1..] == b[1..][..n - 2];
      }
      PortfolioDeterminedBySeed(a[..n - 1], b[..n - 1], allocation, initial, monthly);
      assert a[n - 1] == a[1..][n - 2] == b[1..][n - 2] == b[n - 1];
    }
  }

  /** Extending the rows by one appends one step to the series. */
  lemma PortfolioExtend(rows: seq<ReturnRow>, k: nat, allocation: real, initial: real, monthly: real)
    requires 0 < k < |rows|
    ensures var prev := PortfolioPath(rows[..k], allocation, initial, monthly);
      PortfolioPath(rows[..k + 1], allocation, initial, monthly) ==
        prev + [Step(prev[k - 1], rows[k], allocation, monthly)]
  {
    PortfolioUnfold(rows[..k + 1], allocation, initial, monthly);
    assert rows[..k + 1][..k] == rows[..k];
  }

  /** The step as the loop performs it: add the contribution on the first of a month, then grow. */
  lemma StepByParts(value: real, row: ReturnRow, allocation: real, monthly: real)
    ensures (if row.day == 1 then value + monthly else value) * (1.0 + Blended(row.daily, allocation))
      == Step(value, row, allocation, monthly)
  {
  }

  /** Growing a value that already holds the day's contribution completes one step. */
  lemma GrowContributed(prev: real, contributed: real, row: ReturnRow, allocation: real, monthly: real)
    requires contributed == prev + Contribution(row.day, monthly)
    ensures contributed * (1.0 + Blended(row.daily, allocation)) == Step(prev, row, allocation, monthly)
  {
  }

  /** The loop of the simulator over an already extracted return table. */
  method SimulateReturns(rows: seq<ReturnRow>, allocation: real, initial: real, monthly: real) returns (values: seq<real>)
    requires |rows| > 0
    ensures values == PortfolioPath(rows, allocation, initial, monthly)
  {
    var value := initial + Sum(Scaled(Scaled(rows[0].daily, allocation), initial));
    values := [value];
    var k := 1;
    while k < |rows|
      invariant 1 <= k <= |rows|
      invariant values == PortfolioPath(rows[..k], allocation, initial, monthly)
      invariant value == values[k - 1]
    {
      ghost var prev := value;
      PortfolioExtend(rows, k, allocation, initial, monthly);
      if rows[k].day == 1 {
        value := value + monthly;
      }
      GrowContributed(prev, value, rows[k], allocation, monthly);
      value := value * (1.0 + Blended(rows[k].daily, allocation));
      values := values + [value];
      assert values == PortfolioPath(rows[..k + 1], allocation, initial, monthly);
      k := k + 1;
    }
    assert rows[..k] == rows;
  }

  /**
   * The whole simulator on a price table: return extraction, then the loop.
   * `None` stands for the `IndexError` that `iloc[0]` raises at main.py:28 when no return row remains.
   */
  method SimulatePortfolio(prices: seq<PriceRow>, allocation: real, initial: real, monthly: real)
    returns (result: Option<seq<real>>)
    requires Aligned(prices)
    ensures result.None? <==> Returns.DailyReturns(prices) == []
    ensures result.Some? ==> result.value == PortfolioPath(Returns.DailyReturns(prices), allocation, initial, monthly)
  {
    var rows := Returns.DailyReturns(prices);
    if |rows| == 0 {
      return None;
    }
    var values := SimulateReturns(rows, allocation, initial, monthly);
    return Some(values);
  }
}
