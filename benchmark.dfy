/**
 * The benchmark simulator: the same add-then-compound rule on a single index
 * return series, but started at exactly the initial investment, without the
 * first day's return.
 */
module Benchmark {
  import opened Frames
  import opened Portfolio

  /** One later trading day of the benchmark: contribution first, then the index return. */
  function IndexStep(value: real, r: DatedReturn, monthly: real): (s: real)
    ensures s == Step(value, ReturnRow(r.day, [r.ret]), 1.0, monthly)
  {
    BlendedSingleAsset(r.ret);
    (value + Contribution(r.day, monthly)) * (1.0 + r.ret)
  }

  /** The value series the benchmark loop produces, one value per index return. */
  function BenchmarkPath(rs: seq<DatedReturn>, initial: real, monthly: real): (path: seq<real>)
    requires |rs| > 0
    ensures |path| == |rs|
    decreases |rs|
  {
    if |rs| == 1 then [initial]
    else
      var prev := BenchmarkPath(rs[..|rs| - 1], initial, monthly);
      prev + [IndexStep(prev[|prev| - 1], rs[|rs| - 1], monthly)]
  }

  lemma BenchmarkUnfold(rs: seq<DatedReturn>, initial: real, monthly: real)
    requires |rs| > 1
    ensures var prev := BenchmarkPath(rs[..|rs| - 1], initial, monthly);
      BenchmarkPath(rs, initial, monthly) == prev + [IndexStep(prev[|rs| - 2], rs[|rs| - 1], monthly)]
  {
  }

  /** Extending the index returns by one appends one step to the series. */
  lemma BenchmarkExtend(rs: seq<DatedReturn>, i: nat, initial: real, monthly: real)
    requires 0 < i < |rs|
    ensures var prev := BenchmarkPath(rs[..i], initial, monthly);
      BenchmarkPath(rs[..i + 1], initial, monthly) == prev + [IndexStep(prev[i - 1], rs[i], monthly)]
  {
    BenchmarkUnfold(rs[..i + 1], initial, monthly);
    assert rs[..i + 1][..i] == rs[..i];
  }

  /** The step as the loop performs it: append the last value (plus a contribution on the first of a month), then grow it. */
  lemma IndexStepByParts(value: real, r: DatedReturn, monthly: real)
    ensures (if r.day == 1 then value + monthly else value) * (1.0 + r.ret) == IndexStep(value, r, monthly)
  {
  }

  /** The index series as a one-asset return table. */
  function AsTable(rs: seq<DatedReturn>): (rows: seq<ReturnRow>)
    ensures |rows| == |rs|
    ensures forall i :: 0 <= i < |rs| ==> rows[i] == ReturnRow(rs[i].day, [rs[i].ret])
  {
    seq(|rs|, i requires 0 <= i < |rs| => ReturnRow(rs[i].day, [rs[i].ret]))
  }

  /** The index series with its first return replaced by zero. */
  function WithoutFirstReturn(rs: seq<DatedReturn>): (zs: seq<DatedReturn>)
    requires |rs| > 0
    ensures |zs| == |rs| && zs[0] == DatedReturn(rs[0].day, 0.0) && zs[1..] == rs[1..]
  {
    rs[0 := DatedReturn(rs[0].day, 0.0)]
  }

  /** With weight 1 a single asset's blended return is its own return. */
  lemma BlendedSingleAsset(x: real)
    ensures Blended([x], 1.0) == x
  {
    assert Scaled([x], 1.0) == [x];
    assert Sum([x]) == x + Sum([x][1..]);
    assert [x][1..] == [];
  }

  /**
   * The benchmark is the weight-1 portfolio run on the index returns with the
   * first return set to zero.
   */
  lemma {:induction false} BenchmarkIsPortfolioWithoutFirstReturn(rs: seq<DatedReturn>, initial: real, monthly: real)
    requires |rs| > 0
    ensures BenchmarkPath(rs, initial, monthly) == PortfolioPath(AsTable(WithoutFirstReturn(rs)), 1.0, initial, monthly)
    decreases |rs|
  {
    var n := |rs|;
    var table := AsTable(WithoutFirstReturn(rs));
    if n == 1 {
      PortfolioFirstValue(table, 1.0, initial, monthly);
      BlendedSingleAsset(0.0);
    } else {
      var front := rs[..n - 1];
      BenchmarkIsPortfolioWithoutFirstReturn(front, initial, monthly);
      assert table[..n - 1] == AsTable(WithoutFirstReturn(front));
      PortfolioUnfold(table, 1.0, initial, monthly);
      BenchmarkUnfold(rs, initial, monthly);
      assert table[n - 1] == ReturnRow(rs[n - 1].day, [rs[n - 1].ret]);
    }
  }

  /** The benchmark starts at exactly the initial investment. */
  lemma {:induction false} BenchmarkFirstValue(rs: seq<DatedReturn>, initial: real, monthly: real)
    requires |rs| > 0
    ensures BenchmarkPath(rs, initial, monthly)[0] == initial
  {
    BenchmarkIsPortfolioWithoutFirstReturn(rs, initial, monthly);
    PortfolioFirstValue(AsTable(WithoutFirstReturn(rs)), 1.0, initial, monthly);
    BlendedSingleAsset(0.0);
  }

  /** Every later benchmark value adds the contribution due that day, then applies the index return. */
  lemma {:induction false} BenchmarkStep(rs: seq<DatedReturn>, k: nat, initial: real, monthly: real)
    requires 0 < k < |rs|
    ensures BenchmarkPath(rs, initial, monthly)[k] == IndexStep(BenchmarkPath(rs, initial, monthly)[k - 1], rs[k], monthly)
  {
    var table := AsTable(WithoutFirstReturn(rs));
    BenchmarkIsPortfolioWithoutFirstReturn(rs, initial, monthly);
    PortfolioStep(table, k, 1.0, initial, monthly);
    assert table[k] == ReturnRow(rs[k].day, [rs[k].ret]);
  }

  /** The benchmark step spelled out: the contribution on the first of a month, then the index return. */
  lemma {:induction false} BenchmarkContributionBeforeReturn(rs: seq<DatedReturn>, k: nat, initial: real, monthly: real)
    requires 0 < k < |rs|
    ensures var path := BenchmarkPath(rs, initial, monthly);
      path[k] == (if rs[k].day == 1 then path[k - 1] + monthly else path[k - 1]) * (1.0 + rs[k].ret)
  {
    var path := BenchmarkPath(rs, initial, monthly);
    BenchmarkStep(rs, k, initial, monthly);
    IndexStepByParts(path[k - 1], rs[k], monthly);
  }

  /** Zeroing the first return leaves the rest of the one-asset table unchanged. */
  lemma ZeroedTableTail(rs: seq<DatedReturn>)
    requires |rs| > 0
    ensures AsTable(WithoutFirstReturn(rs))[1..] == AsTable(rs)[1..]
  {
    var zs := WithoutFirstReturn(rs);
    forall i | 0 <= i < |rs| - 1 ensures AsTable(zs)[1..][i] == AsTable(rs)[1..][i] {
      assert zs[i + 1] == zs[1..][i] == rs[1..][i] == rs[i + 1];
    }
  }

  /** The seed of the one-asset table: the initial investment grown by the first index return. */
  lemma SingleAssetSeed(r: DatedReturn, initial: real)
    ensures Seed(ReturnRow(r.day, [r.ret]), 1.0, initial) == initial + r.ret * initial
  {
    BlendedSingleAsset(r.ret);
  }

  lemma GainIsZero(initial: real, r: real)
    ensures initial + r * initial == initial <==> initial == 0.0 || r == 0.0
  {
  }

  /**
   * The benchmark equals the weight-1 portfolio run on the same index returns
   * exactly when the first day's return (or the initial investment) is zero.
   */
  lemma BenchmarkMatchesPortfolio(rs: seq<DatedReturn>, initial: real, monthly: real)
    requires |rs| > 0
    ensures BenchmarkPath(rs, initial, monthly) == PortfolioPath(AsTable(rs), 1.0, initial, monthly)
        <==> initial == 0.0 || rs[0].ret == 0.0
  {
    var zeroed := AsTable(WithoutFirstReturn(rs));
    var table := AsTable(rs);
    BenchmarkIsPortfolioWithoutFirstReturn(rs, initial, monthly);
    ZeroedTableTail(rs);
    PortfolioDeterminedBySeed(zeroed, table, 1.0, initial, monthly);
    SingleAssetSeed(DatedReturn(rs[0].day, 0.0), initial);
    SingleAssetSeed(rs[0], initial);
    GainIsZero(initial, rs[0].ret);
  }

  /** A bound on the benchmark's later returns bounds every blended return of the zeroed table; the first row's return is zero. */
  lemma ZeroedTableBounds(rs: seq<DatedReturn>, floor: real)
    requires |rs| > 0 && floor <= 0.0
    requires forall k :: 0 < k < |rs| ==> rs[k].ret >= floor
    ensures BlendedAtLeast(AsTable(WithoutFirstReturn(rs)), 1.0, floor)
  {
    var zs := WithoutFirstReturn(rs);
    forall k | 0 <= k < |zs| ensures Blended(AsTable(zs)[k].daily, 1.0) >= floor {
      BlendedSingleAsset(zs[k].ret);
      if k > 0 {
        assert zs[k] == zs[1..][k - 1] == rs[1..][k - 1] == rs[k];
      }
    }
  }

  /** With non-negative investments and no losing day after the first, the benchmark never decreases. */
  lemma {:induction false} BenchmarkNonDecreasing(rs: seq<DatedReturn>, initial: real, monthly: real)
    requires |rs| > 0 && initial >= 0.0 && monthly >= 0.0
    requires forall k :: 0 < k < |rs| ==> rs[k].ret >= 0.0
    ensures forall k :: 0 < k < |rs| ==>
      BenchmarkPath(rs, initial, monthly)[k - 1] <= BenchmarkPath(rs, initial, monthly)[k]
    ensures forall k :: 0 <= k < |rs| ==> initial <= BenchmarkPath(rs, initial, monthly)[k]
  {
    BenchmarkIsPortfolioWithoutFirstReturn(rs, initial, monthly);
    ZeroedTableBounds(rs, 0.0);
    PortfolioNonDecreasing(AsTable(WithoutFirstReturn(rs)), 1.0, initial, monthly);
  }

  /** With non-negative investments and no later index return below -100%, no benchmark value is negative. */
  lemma {:induction false} BenchmarkNonNegative(rs: seq<DatedReturn>, initial: real, monthly: real)
    requires |rs| > 0 && initial >= 0.0 && monthly >= 0.0
    requires forall k :: 0 < k < |rs| ==> rs[k].ret >= -1.0
    ensures forall k :: 0 <= k < |rs| ==> BenchmarkPath(rs, initial, monthly)[k] >= 0.0
  {
    BenchmarkIsPortfolioWithoutFirstReturn(rs, initial, monthly);
    ZeroedTableBounds(rs, -1.0);
    PortfolioNonNegative(AsTable(WithoutFirstReturn(rs)), 1.0, initial, monthly);
  }

  /** The benchmark loop: each day appends the previous value (plus a contribution), then compounds that last entry in place. */
  method SimulateBenchmark(rs: seq<DatedReturn>, initial: real, monthly: real) returns (values: seq<real>)
    requires |rs| > 0
    ensures values == BenchmarkPath(rs, initial, monthly)
  {
    values := [initial];
    var i := 1;
    while i < |rs|
      invariant 1 <= i <= |rs|
      invariant values == BenchmarkPath(rs[..i], initial, monthly)
    {
      BenchmarkExtend(rs, i, initial, monthly);
      IndexStepByParts(values[i - 1], rs[i], monthly);
      ghost var before := values;
      if rs[i].day == 1 {
        values := values + [values[|values| - 1] + monthly];
      } else {
        values := values + [values[|values| - 1]];
      }
      assert values[i] == (if rs[i].day == 1 then before[i - 1] + monthly else before[i - 1]);
      values := values[|values| - 1 := values[|values| - 1] * (1.0 + rs[i].ret)];
      assert values == before + [values[i]];
      assert values[i] == IndexStep(before[i - 1], rs[i], monthly);
      i := i + 1;
    }
    assert rs[..i] == rs;
  }

  /**
   * Index returns 0%, +10% and -5% on days 15, 16 and 1, an initial
   * investment of 1000 and a monthly contribution of 100: the benchmark is
   * 1000, then 1000 * 1.1 = 1100, then (1100 + 100) * 0.95 = 1140.
   */
  lemma BenchmarkWorkedExample()
    ensures BenchmarkPath([DatedReturn(15, 0.0), DatedReturn(16, 0.1), DatedReturn(1, -0.05)], 1000.0, 100.0)
      == [1000.0, 1100.0, 1140.0]
  {
    var rs := [DatedReturn(15, 0.0), DatedReturn(16, 0.1), DatedReturn(1, -0.05)];
    assert rs[..2] == rs[..2][..2];
    BenchmarkUnfold(rs[..2], 1000.0, 100.0);
    assert rs[..2][..1] == [rs[0]];
    BenchmarkUnfold(rs, 1000.0, 100.0);
  }

  /**
   * The same returns as a one-asset table with weight 1: because the first
   * return is zero, the portfolio seed is the initial investment and the
   * portfolio gives the same 1000, 1100 and 1140.
   */
  lemma PortfolioWorkedExample()
    ensures PortfolioPath([ReturnRow(15, [0.0]), ReturnRow(16, [0.1]), ReturnRow(1, [-0.05])], 1.0, 1000.0, 100.0)
      == [1000.0, 1100.0, 1140.0]
  {
    var rs := [DatedReturn(15, 0.0), DatedReturn(16, 0.1), DatedReturn(1, -0.05)];
    assert AsTable(rs) == [ReturnRow(15, [0.0]), ReturnRow(16, [0.1]), ReturnRow(1, [-0.05])];
    BenchmarkMatchesPortfolio(rs, 1000.0, 100.0);
    BenchmarkWorkedExample();
  }
}
