/**
 * Relative performance: every value expressed as the percentage gain or loss
 * against the initial investment.
 */
module Performance {

  /** The percentage by which `value` differs from `initial`. */
  function Relative(value: real, initial: real): (p: real)
    requires initial != 0.0
    ensures value == initial + p * initial / 100.0
    ensures p == 0.0 <==> value == initial
    ensures initial > 0.0 ==> (p > 0.0 <==> value > initial) && (p < 0.0 <==> value < initial)
    ensures initial < 0.0 ==> (p > 0.0 <==> value < initial) && (p < 0.0 <==> value > initial)
  {
    ((value - initial) / initial) * 100.0
  }

  /** The relative performance series of a value series, element by element. */
  function RelativePerformance(values: seq<real>, initial: real): (r: seq<real>)
    requires initial != 0.0
    ensures |r| == |values|
    ensures forall k :: 0 <= k < |values| ==> values[k] == initial + r[k] * initial / 100.0
    ensures forall k :: 0 <= k < |values| ==> (r[k] == 0.0 <==> values[k] == initial)
    ensures initial > 0.0 ==> forall k :: 0 <= k < |values| ==>
      (r[k] > 0.0 <==> values[k] > initial) && (r[k] < 0.0 <==> values[k] < initial)
  {
    seq(|values|, k requires 0 <= k < |values| => Relative(values[k], initial))
  }
}
