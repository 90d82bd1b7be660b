/**
 * The computation behind the dashboard's "simulate" action: the benchmark run
 * on the index, the equal-weight portfolio run on the selected assets, and the
 * relative performance of both. Fetching prices and drawing charts are not
 * modelled; the aligned price tables are inputs.
 */
module Dashboard {
  import opened Wrappers
  import opened Frames
  import opened Returns
  import opened Portfolio
  import opened Benchmark
  import opened Performance

  /** The same weight for every selected asset. */
  function EqualAllocation(assetCount: nat): (w: real)
    requires assetCount > 0
    ensures w > 0.0 && w * assetCount as real == 1.0
  {
    1.0 / assetCount as real
  }

  /** The four series the dashboard draws. */
  datatype Charts = Charts(portfolio: seq<real>, benchmark: seq<real>,
                           portfolioRelative: seq<real>, benchmarkRelative: seq<real>)

  /**
   * Runs both simulations and their relative performance. `None` stands for
   * each exception the program raises: `ZeroDivisionError` when no asset is
   * selected (main.py:106, main.py:127), `ValueError` when the index has no
   * return row (main.py:124), and `IndexError` when the portfolio has no
   * return row (main.py:28).
   */
  method UpdateGraphs(assetCount: nat, prices: seq<PriceRow>, indexPrices: seq<DatedPrice>,
                      initial: real, monthly: real) returns (result: Option<Charts>)
    requires initial != 0.0
    requires HasWidth(prices, assetCount)
    requires Aligned(prices)
    ensures result.None? <==>
      assetCount == 0 || IndexReturns(indexPrices) == [] || DailyReturns(prices) == []
    ensures result.Some? ==>
      var portfolio := PortfolioPath(DailyReturns(prices), EqualAllocation(assetCount), initial, monthly);
      var benchmark := BenchmarkPath(IndexReturns(indexPrices), initial, monthly);
      result.value == Charts(portfolio, benchmark,
                             RelativePerformance(portfolio, initial), RelativePerformance(benchmark, initial))
  {
    DailyReturnsWidth(prices, assetCount);
    if assetCount == 0 {
      return None;
    }
    var indexReturns := IndexReturns(indexPrices);
    if |indexReturns| == 0 {
      return None;
    }
    var benchmark := SimulateBenchmark(indexReturns, initial, monthly);
    var allocation := EqualAllocation(assetCount);
    var portfolio := SimulatePortfolio(prices, allocation, initial, monthly);
    if portfolio.None? {
      return None;
    }
    result := Some(Charts(portfolio.value, benchmark,
                          RelativePerformance(portfolio.value, initial),
                          RelativePerformance(benchmark, initial)));
  }
}
