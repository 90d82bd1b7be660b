/**
 * Return extraction: day-over-day percentage change of every price column,
 * followed by dropping every row that holds an undefined change. The first
 * row has no previous price, so its changes are all undefined.
 */
module Returns {
  import opened Wrappers
  import opened Frames

  /** Simple return from `prev` to `cur`; undefined when there is nothing to divide by. */
  function Change(prev: real, cur: real): (c: Option<real>)
    ensures c.Some? <==> prev != 0.0
    ensures c.Some? ==> prev + c.value * prev == cur
  {
    if prev == 0.0 then None else Some((cur - prev) / prev)
  }

  /** The change row at position `t` of a price table. */
  function ChangeAt(prices: seq<PriceRow>, t: nat): ChangeRow
    requires Aligned(prices) && t < |prices|
  {
    var row := prices[t].prices;
    ChangeRow(prices[t].day, seq(|row|, j requires 0 <= j < |row| =>
      if t == 0 then None else Change(prices[t - 1].prices[j], row[j])))
  }

  /** Percentage change of every column: one change row per price row. */
  function PctChange(prices: seq<PriceRow>): (r: seq<ChangeRow>)
    requires Aligned(prices)
    ensures |r| == |prices|
    ensures forall t :: 0 <= t < |r| ==> r[t].day == prices[t].day && |r[t].changes| == |prices[t].prices|
    ensures |r| > 0 ==> forall j :: 0 <= j < |r[0].changes| ==> r[0].changes[j] == None
    ensures forall t, j {:trigger r[t].changes[j]} :: 0 < t < |r| && 0 <= j < |r[t].changes| ==>
      (r[t].changes[j].Some? <==> prices[t - 1].prices[j] != 0.0) &&
      r[t].changes[j] == Change(prices[t - 1].prices[j], prices[t].prices[j])
  {
    seq(|prices|, t requires 0 <= t < |prices| => ChangeAt(prices, t))
  }

  predicate Complete(row: ChangeRow) {
    forall j :: 0 <= j < |row.changes| ==> row.changes[j].Some?
  }

  function Unwrap(row: ChangeRow): ReturnRow
    requires Complete(row)
  {
    ReturnRow(row.day, seq(|row.changes|, j requires 0 <= j < |row.changes| => row.changes[j].value))
  }

  /** Keeps, in order, the rows whose every change is defined. */
  function DropNa(rows: seq<ChangeRow>): (r: seq<ReturnRow>)
    ensures |r| <= |rows|
  {
    if rows == [] then []
    else (if Complete(rows[0]) then [Unwrap(rows[0])] else []) + DropNa(rows[1..])
  }

  /** The aligned daily return table of a price table. */
  function DailyReturns(prices: seq<PriceRow>): (r: seq<ReturnRow>)
    requires Aligned(prices)
    ensures |prices| > 0 && |prices[0].prices| > 0 ==> |r| < |prices|
  {
    var rows := PctChange(prices);
    assert |rows| > 0 && |rows[0].changes| > 0 ==> rows[0].changes[0].None?;
    DropNa(rows)
  }

  /**
   * `DropNa` is a filter: it distributes over concatenation and keeps a single
   * row, unwrapped, exactly when that row is complete.
   */
  lemma {:induction false} DropNaIsFilter(a: seq<ChangeRow>, b: seq<ChangeRow>, row: ChangeRow)
    ensures DropNa(a + b) == DropNa(a) + DropNa(b)
    ensures DropNa([row]) == if Complete(row) then [Unwrap(row)] else []
  {
    if a == [] {
      assert a + b == b;
    } else {
      var head := if Complete(a[0]) then [Unwrap(a[0])] else [];
      assert (a + b)[0] == a[0];
      assert (a + b)[1..] == a[1..] + b;
      DropNaIsFilter(a[1..], b, row);
      calc {
        DropNa(a + b);
        head + DropNa(a[1..] + b);
        head + (DropNa(a[1..]) + DropNa(b));
        (head + DropNa(a[1..])) + DropNa(b);
      }
    }
  }

  /** When every row is complete, nothing is dropped and every row keeps its place. */
  lemma {:induction false} DropNaKeepsCompleteRows(rows: seq<ChangeRow>)
    requires forall t :: 0 <= t < |rows| ==> Complete(rows[t])
    ensures |DropNa(rows)| == |rows|
    ensures forall t :: 0 <= t < |rows| ==> DropNa(rows)[t] == Unwrap(rows[t])
  {
    if rows != [] {
      DropNaKeepsCompleteRows(rows[1..]);
      forall t | 0 < t < |rows| ensures DropNa(rows)[t] == Unwrap(rows[t]) {
        assert rows[1..][t - 1] == rows[t];
      }
    }
  }

  /** Dropping rows never changes the number of columns. */
  lemma {:induction false} DropNaKeepsWidth(rows: seq<ChangeRow>, width: nat)
    requires forall t :: 0 <= t < |rows| ==> |rows[t].changes| == width
    ensures forall i :: 0 <= i < |DropNa(rows)| ==> |DropNa(rows)[i].daily| == width
  {
    if rows != [] {
      DropNaKeepsWidth(rows[1..], width);
    }
  }

  lemma DailyReturnsWidth(prices: seq<PriceRow>, width: nat)
    requires HasWidth(prices, width)
    ensures Aligned(prices)
    ensures forall i :: 0 <= i < |DailyReturns(prices)| ==> |DailyReturns(prices)[i].daily| == width
  {
    DropNaKeepsWidth(PctChange(prices), width);
  }

  /** No price is zero. */
  predicate NonZeroPrices(prices: seq<PriceRow>) {
    forall t, j :: 0 <= t < |prices| && 0 <= j < |prices[t].prices| ==> prices[t].prices[j] != 0.0
  }

  /** The simple returns from one row of prices to the next. */
  function SimpleReturns(prev: seq<real>, cur: seq<real>): seq<real>
    requires |prev| == |cur|
    requires forall j :: 0 <= j < |prev| ==> prev[j] != 0.0
  {
    seq(|cur|, j requires 0 <= j < |cur| => (cur[j] - prev[j]) / prev[j])
  }

  /** A change row after the first of a table without zero prices is complete and unwraps to simple returns. */
  lemma ChangeAtNonZero(prices: seq<PriceRow>, t: nat)
    requires Aligned(prices) && NonZeroPrices(prices)
    requires 0 < t < |prices|
    ensures Complete(ChangeAt(prices, t))
    ensures Unwrap(ChangeAt(prices, t)) ==
      ReturnRow(prices[t].day, SimpleReturns(prices[t - 1].prices, prices[t].prices))
  {
    var row := ChangeAt(prices, t);
    forall j | 0 <= j < |row.changes| ensures row.changes[j] == Some((prices[t].prices[j] - prices[t - 1].prices[j]) / prices[t - 1].prices[j]) {
      assert prices[t - 1].prices[j] != 0.0;
    }
  }

  /**
   * With at least one asset and no zero price, exactly the first row is
   * dropped and entry `i` holds the returns from price row `i` to price row `i + 1`.
   */
  lemma DailyReturnsOfNonZeroPrices(prices: seq<PriceRow>)
    requires Aligned(prices) && NonZeroPrices(prices)
    requires |prices| > 0 && |prices[0].prices| > 0
    ensures |DailyReturns(prices)| == |prices| - 1
    ensures forall i :: 0 <= i < |prices| - 1 ==>
      DailyReturns(prices)[i] == ReturnRow(prices[i + 1].day, SimpleReturns(prices[i].prices, prices[i + 1].prices))
  {
    var rows := PctChange(prices);
    assert rows[0].changes[0] == None;
    assert DropNa(rows) == DropNa(rows[1..]);
    forall t | 0 <= t < |rows[1..]|
      ensures Complete(rows[1..][t])
      ensures Unwrap(rows[1..][t]) == ReturnRow(prices[t + 1].day, SimpleReturns(prices[t].prices, prices[t + 1].prices))
    {
      assert rows[1..][t] == ChangeAt(prices, t + 1);
      ChangeAtNonZero(prices, t + 1);
    }
    DropNaKeepsCompleteRows(rows[1..]);
  }

  /** A single price series viewed as a one-column price table. */
  function AsPriceTable(ps: seq<DatedPrice>): (table: seq<PriceRow>)
    ensures HasWidth(table, 1)
  {
    seq(|ps|, i requires 0 <= i < |ps| => PriceRow(ps[i].day, [ps[i].price]))
  }

  /** Return extraction for a single series such as the benchmark index. */
  function IndexReturns(ps: seq<DatedPrice>): (r: seq<DatedReturn>)
    ensures ps != [] ==> |r| < |ps|
  {
    var table := AsPriceTable(ps);
    DailyReturnsWidth(table, 1);
    var rs := DailyReturns(table);
    seq(|rs|, i requires 0 <= i < |rs| => DatedReturn(rs[i].day, rs[i].daily[0]))
  }

  lemma IndexReturnsOfNonZeroPrices(ps: seq<DatedPrice>)
    requires |ps| > 0
    requires forall t :: 0 <= t < |ps| ==> ps[t].price != 0.0
    ensures |IndexReturns(ps)| == |ps| - 1
    ensures forall i :: 0 <= i < |ps| - 1 ==>
      IndexReturns(ps)[i].day == ps[i + 1].day &&
      IndexReturns(ps)[i].ret == (ps[i + 1].price - ps[i].price) / ps[i].price
  {
    var table := AsPriceTable(ps);
    DailyReturnsWidth(table, 1);
    assert NonZeroPrices(table) by {
      forall t, j | 0 <= t < |table| && 0 <= j < |table[t].prices|
        ensures table[t].prices[j] != 0.0
      {
        assert table[t].prices[j] == ps[t].price;
      }
    }
    DailyReturnsOfNonZeroPrices(table);
    var rs := DailyReturns(table);
    forall i | 0 <= i < |ps| - 1
      ensures IndexReturns(ps)[i].day == ps[i + 1].day
      ensures IndexReturns(ps)[i].ret == (ps[i + 1].price - ps[i].price) / ps[i].price
    {
      assert IndexReturns(ps)[i] == DatedReturn(rs[i].day, rs[i].daily[0]);
      assert rs[i].daily == SimpleReturns(table[i].prices, table[i + 1].prices);
      assert table[i].prices == [ps[i].price] && table[i + 1].prices == [ps[i + 1].price];
    }
  }
}
