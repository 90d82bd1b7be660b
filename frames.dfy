/**
 * The time-indexed tables the engine works on. A trading date is represented by
 * its day of the month, the only part of a date the simulation looks at.
 */
module Frames {
  import opened Wrappers

  /** One trading day of adjusted close prices, one column per asset. */
  datatype PriceRow = PriceRow(day: nat, prices: seq<real>)

  /** One trading day of day-over-day changes; a cell is `None` where the change is undefined. */
  datatype ChangeRow = ChangeRow(day: nat, changes: seq<Option<real>>)

  /** One trading day of simple returns, one column per asset. */
  datatype ReturnRow = ReturnRow(day: nat, daily: seq<real>)

  /** A single-asset (index) price and return series. */
  datatype DatedPrice = DatedPrice(day: nat, price: real)
  datatype DatedReturn = DatedReturn(day: nat, ret: real)

  /** Every row of a price table has the same number of columns. */
  predicate Aligned(prices: seq<PriceRow>) {
    forall t :: 0 <= t < |prices| ==> |prices[t].prices| == |prices[0].prices|
  }

  /** Every row of a price table has exactly `width` columns. */
  predicate HasWidth(prices: seq<PriceRow>, width: nat) {
    forall t :: 0 <= t < |prices| ==> |prices[t].prices| == width
  }

  function Sum(s: seq<real>): real {
    if s == [] then 0.0 else s[0] + Sum(s[1..])
  }

  /** Element-wise product of a column with a scalar, as a broadcast `*` does. */
  function Scaled(s: seq<real>, c: real): seq<real> {
    seq(|s|, i requires 0 <= i < |s| => s[i] * c)
  }

  lemma {:induction false} SumScaled(s: seq<real>, c: real)
    ensures Sum(Scaled(s, c)) == c * Sum(s)
  {
    if s != [] {
      forall i | 0 <= i < |s| - 1 ensures Scaled(s, c)[1..][i] == Scaled(s[1..], c)[i] {
        assert Scaled(s, c)[1..][i] == Scaled(s, c)[i + 1];
      }
      assert Scaled(s, c)[1..] == Scaled(s[1..], c);
      SumScaled(s[1..], c);
    }
  }
}
