# Portfolio growth simulator — Dafny model

This project models the computational core of a small investment-portfolio
dashboard (`main.py`). The dashboard takes a set of stock symbols, a date
range, an initial investment and a monthly contribution. It then does four
things:

- It turns daily adjusted close prices into day-over-day simple returns.
- It simulates a portfolio that holds every selected asset with the same
  weight. The blended return of a day is the weight times the sum of the asset
  returns. The first return row seeds the value with
  `initial * (1 + blended)`. On every later row the monthly contribution is
  added first, when the row's date is the 1st of a month, and then that day's
  blended return is applied.
- It simulates a benchmark (the IBOV index) with the same add-then-compound
  rule. The benchmark starts at exactly the initial investment, without the
  first day's return.
- It rescales both series to percentages relative to the initial investment.

Modules:

- `Wrappers`: an `Option` type. `None` stands for a run that the program
  ends with an exception: `IndexError`, `ValueError` or `ZeroDivisionError`.
- `Frames`: the row types. A date is its day of the month, the only part the
  simulation reads. The module also holds `Sum` and `Scaled` (a broadcast `*`).
- `Returns`: `pct_change()` followed by `dropna()` for a price table and for a
  single series.
- `Portfolio`: the specification function `PortfolioPath` and the lemmas about
  it. `SimulateReturns` is the imperative loop of `simulate_portfolio`, proved
  equal to `PortfolioPath`. `SimulatePortfolio` is the whole function on a
  price table.
- `Benchmark`: the specification function `BenchmarkPath` and the lemmas about
  it. `SimulateBenchmark` is the loop that appends a value and then updates the
  last element in place. There are also lemmas relating the benchmark to the
  portfolio.
- `Performance`: relative performance.
- `Dashboard`: the computation behind `update_graphs`, that is equal weights,
  both simulations and both relative series.

Numbers are mathematical reals. Modelling choices that follow from the code:

- **Empty return table.** `iloc[0]` at main.py:28 raises `IndexError` when no
  return row remains. At main.py:124 `pd.Series` raises `ValueError` because
  the one-element list `[initial_investment]` does not match an empty index.
  So the pure specifications require a non-empty table, and the composed
  methods return `None` in both cases.
- **Benchmark seed.** main.py:114 starts the benchmark at the plain initial
  investment, and the loop at main.py:116 never applies the first index
  return. main.py:28 grows the portfolio seed by the first return.
  `BenchmarkMatchesPortfolio` proves that the two agree exactly when the first
  index return is zero or the initial investment is zero.
- **Weights.** main.py:106 and main.py:127 compute the scalar
  `1 / len(selected_assets)`, which is broadcast over every column at
  main.py:28 and main.py:40. So the model takes one scalar weight. With no
  asset selected the division raises `ZeroDivisionError`, and `UpdateGraphs`
  returns `None`.
- **Initial investment.** main.py:131-132 divide by the initial investment
  without a check. A zero gives infinite or `NaN` values, which are not reals.
  So the model requires a non-zero initial investment. A negative one is
  allowed, as in the code.

## Model

| member | source | states |
|---|---|---|
| `Returns.Change` | main.py:22 | The change is defined exactly when the previous price is non-zero. When defined, `prev + change * prev == cur`. |
| `Returns.PctChange` | main.py:22 | One change row per price row, with the same date and width. Every cell of the first row is missing. A later cell is defined exactly when the previous price is non-zero, and then it is that column's `Change`. |
| `Returns.DropNa` | main.py:25 | `dropna` never lengthens the table. |
| `Returns.DropNaIsFilter` | main.py:25 | `dropna` is a filter. It distributes over concatenation, and it keeps a single row, unwrapped, exactly when every cell of the row is defined. So it returns exactly the complete rows, unwrapped and in order. |
| `Returns.DropNaKeepsCompleteRows` | main.py:25 | When every row is fully defined, `dropna` drops nothing. Every row keeps its place and values. |
| `Returns.DailyReturns` | main.py:22-25 | With at least one asset, the first price row never yields a return row, so the return table is shorter than the price table. |
| `Returns.DailyReturnsOfNonZeroPrices` | main.py:22-25 | With at least one asset and no zero price, the return table has one row fewer than the price table. Row `i` has the date of price row `i+1`. Each entry is `(p[i+1][j] - p[i][j]) / p[i][j]`. |
| `Returns.IndexReturns` | main.py:111 | A non-empty index series yields fewer returns than prices. |
| `Returns.IndexReturnsOfNonZeroPrices` | main.py:111 | The same for the single index series. There are `n-1` returns. Return `i` is `(p[i+1] - p[i]) / p[i]` and has the date of price `i+1`. |
| `Portfolio.BlendedIsAllocationTimesSum` | main.py:40 | The blended return `sum(daily_return * allocations)` equals the allocation times the sum of the asset returns. |
| `Portfolio.Seed` | main.py:28 | The seed `I + sum(r0 * allocations * I)` equals `I + blended(r0) * I`. No contribution enters it. |
| `Portfolio.StepByParts` | main.py:36-40 | The loop's two statements (add `M` on the 1st of a month, then multiply by `1 + blended`) compute exactly one `Step`. |
| `Portfolio.StepGrows` | main.py:36-40 | With a non-negative value, `M >= 0` and a blended return `>= 0`, a `Step` never lowers the value. |
| `Portfolio.StepStaysNonNegative` | main.py:36-40 | With a non-negative value, `M >= 0` and a blended return `>= -1`, a `Step` gives a non-negative value. |
| `Portfolio.PortfolioPath` | main.py:28-46 | The output has exactly one value per return row. |
| `Portfolio.PortfolioPrefix` | main.py:31-43 | Running on the first `k` rows gives the first `k` values. Later rows never change earlier values. |
| `Portfolio.PortfolioFirstValue` | main.py:28-34 | The first value is `I + blended(r0) * I`, whatever the first row's day of month, even on the 1st. |
| `Portfolio.PortfolioStep` | main.py:34-43 | Every later value is one `Step` of the previous value: add the contribution due that day, then multiply by `1 + blended`. |
| `Portfolio.PortfolioContributionBeforeReturn` | main.py:36-40 | The same rule spelled out: `value[k] = (value[k-1] + (day_k == 1 ? M : 0)) * (1 + blended(r_k))`. |
| `Portfolio.CompoundedIsProduct` | main.py:40 | Compounding `I` with nothing added equals `I` times the product of the growth factors `1 + blended`. |
| `Portfolio.PortfolioWithoutContributions` | main.py:28-43 | With `M = 0`, value `k` is `I` compounded by the factors of rows `0..k`. There is no jump on a 1st-of-month date. |
| `Portfolio.PortfolioNonDecreasing` | main.py:36-43 | If `I, M >= 0` and every blended return is `>= 0`, the series never decreases and never falls below `I`. |
| `Portfolio.PortfolioNonNegative` | main.py:36-43 | If `I, M >= 0` and every blended return is `>= -1`, no value is negative. |
| `Portfolio.PortfolioDeterminedBySeed` | main.py:34-43 | Two tables that differ only in their first row give equal series exactly when their seeds are equal. |
| `Portfolio.SimulateReturns` | main.py:28-46 | The loop (seed, then add-then-compound per row, appending each value) returns exactly `PortfolioPath`. |
| `Portfolio.SimulatePortfolio` | main.py:17-48 | Return extraction followed by the loop. It aborts (`None`) exactly when no return row remains. Otherwise it returns `PortfolioPath` of the extracted table. |
| `Benchmark.IndexStep` | main.py:117-122 | One benchmark day is exactly the portfolio `Step` on a one-asset row with weight 1. |
| `Benchmark.BenchmarkPath` | main.py:114-124 | The benchmark output has exactly one value per index return. |
| `Benchmark.BenchmarkFirstValue` | main.py:114 | The first benchmark value is exactly the initial investment. |
| `Benchmark.BenchmarkStep` | main.py:116-122 | Every later benchmark value is one `IndexStep` of the previous value. |
| `Benchmark.BenchmarkContributionBeforeReturn` | main.py:117-122 | The same rule spelled out: `value[k] = (value[k-1] + (day_k == 1 ? M : 0)) * (1 + r_k)`. |
| `Benchmark.BenchmarkIsPortfolioWithoutFirstReturn` | main.py:114-122 | The benchmark equals the weight-1 one-asset portfolio run on the index returns with the first return set to zero. |
| `Benchmark.BenchmarkMatchesPortfolio` | main.py:114-122 | The benchmark equals the weight-1 portfolio on the same returns (seeded as at main.py:28) if and only if `I == 0` or `r0 == 0`. |
| `Benchmark.BenchmarkNonDecreasing` | main.py:116-122 | If `I, M >= 0` and every index return after the first (the first is never read) is `>= 0`, the benchmark never decreases and never falls below `I`. |
| `Benchmark.BenchmarkNonNegative` | main.py:116-122 | If `I, M >= 0` and every index return after the first is `>= -1`, no benchmark value is negative. |
| `Benchmark.SimulateBenchmark` | main.py:114-124 | The loop (append the last value plus any contribution, then multiply the last element in place) returns exactly `BenchmarkPath`. |
| `Benchmark.BenchmarkWorkedExample` | main.py:114-122 | Index returns 0%, +10% and -5% on days 15, 16 and 1, with `I = 1000` and `M = 100`, give the benchmark `[1000, 1100, 1140]`. |
| `Benchmark.PortfolioWorkedExample` | main.py:28-43 | The same returns as a one-asset weight-1 table give the portfolio `[1000, 1100, 1140]`. |
| `Performance.Relative` | main.py:131 | `((v - I) / I) * 100` can be inverted: `v == I + p * I / 100`. It is zero exactly when `v == I`. Its sign follows `v - I` when `I > 0` and is reversed when `I < 0`. |
| `Performance.RelativePerformance` | main.py:131-132 | Element by element, the series has the same length, can be inverted, is zero exactly where a value equals `I`, and has the sign of `value - I` when `I > 0`. |
| `Dashboard.EqualAllocation` | main.py:127 | `1 / len(selected_assets)` is positive, and n equal weights sum to 1. |
| `Dashboard.UpdateGraphs` | main.py:102-132 | It aborts exactly when no asset is selected, the index has no return row, or the portfolio has no return row. Otherwise it returns the equal-weight portfolio path, the benchmark path and their relative performance. |

## Left out

- Downloading prices with `yf.download` (main.py:19, main.py:110) is network I/O. The aligned price tables are inputs instead.
- The pandas outer join on trading dates, and the missing prices it can create (main.py:19), are not modelled. The price table is a complete rectangular table (`Aligned`). The forward fill that older pandas `pct_change` applies to missing prices is therefore not modelled either.
- Returns.Change: a zero previous price gives `inf` or `NaN` in floating point. `dropna` keeps `inf` rows and drops only `NaN` rows. The model treats both as undefined and drops the row. Infinite values are outside the reals.
- IEEE floating-point rounding, `NaN` and infinity propagation are not modelled. Values are mathematical reals.
- Dates carry only their day of month. The pandas index that pairs each value with its date (main.py:46, main.py:124) is implicit: value `k` belongs to return row `k`.
- A symbol selected twice collapses into one price column while still counting twice in `1 / len(selected_assets)`. The model takes the column count as the asset count.
- The Dash app, layout, callback wiring, the `n_clicks` check and the discarded simulation call (main.py:10-14, main.py:52-107) are UI and event plumbing.
- The figure dictionaries and `app.run_server` (main.py:135-167) are presentation and the server loop.
- Portfolio.PortfolioWithoutContributions: the closed form is stated against `Compounded`, the reference compounding of `I`. The product form `I * Growth` comes from `CompoundedIsProduct`, not from the same lemma.
