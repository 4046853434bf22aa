/** Heart-rate variability: RMSSD, the root mean square of successive RR differences. */
module Hrv {
  import opened Wrappers

  /**
   * The platform square root is a parameter of the model; the facts that depend on it
   * being a true square root assume this of it.
   */
  ghost predicate IsSqrt(sqrt: real -> real) {
    forall x :: 0.0 <= x ==> 0.0 <= sqrt(x) && sqrt(x) * sqrt(x) == x
  }

  /** Sum of the squared successive differences of `rr`. */
  function SumSqDiffs(rr: seq<int>): (r: int)
    ensures r >= 0
    decreases |rr|
  {
    if |rr| < 2 then 0
    else
      var d := rr[|rr| - 1] - rr[|rr| - 2];
      SumSqDiffs(rr[..|rr| - 1]) + d * d
  }

  /** The square of RMSSD: the mean of the squared successive differences. */
  function MeanSquare(rr: seq<int>): (m: real)
    requires |rr| >= 2
    ensures m >= 0.0
  {
    SumSqDiffs(rr) as real / (|rr| - 1) as real
  }

  /** RMSSD of an RR list, absent below three intervals. */
  function RmssdOf(rr: seq<int>, sqrt: real -> real): Option<real> {
    if |rr| < 3 then None else Some(sqrt(MeanSquare(rr)))
  }

  /** `Hrv.rmssd`: accumulates the squared differences in a loop, then takes the root. */
  method Rmssd(rr: seq<int>, sqrt: real -> real) returns (r: Option<real>)
    ensures r == RmssdOf(rr, sqrt)
    ensures r.None? <==> |rr| < 3
    ensures r.Some? ==> r.value == sqrt(SumSqDiffs(rr) as real / (|rr| - 1) as real)
  {
    if |rr| < 3 { return None; }
    var sumSq := 0.0;
    var count := 0;
    for i := 1 to |rr|
      invariant sumSq == SumSqDiffs(rr[..i]) as real
      invariant count == i - 1
    {
      var diff := (rr[i] - rr[i - 1]) as real;
      sumSq := sumSq + diff * diff;
      count := count + 1;
      assert rr[..i + 1][..i] == rr[..i];
    }
    assert rr[..|rr|] == rr;
    return Some(sqrt(sumSq / count as real));
  }

  /** With a true square root, RMSSD is non-negative and its square is the mean squared difference. */
  lemma RmssdSquare(rr: seq<int>, sqrt: real -> real)
    requires IsSqrt(sqrt)
    requires |rr| >= 3
    ensures RmssdOf(rr, sqrt).Some?
    ensures RmssdOf(rr, sqrt).value >= 0.0
    ensures RmssdOf(rr, sqrt).value * RmssdOf(rr, sqrt).value == SumSqDiffs(rr) as real / (|rr| - 1) as real
  {
    assert 0.0 <= MeanSquare(rr);
  }

  /** A constant interval list has no variability. */
  lemma {:induction false} ConstantSumSqDiffs(rr: seq<int>)
    requires forall i :: 0 <= i < |rr| ==> rr[i] == rr[0]
    ensures SumSqDiffs(rr) == 0
    decreases |rr|
  {
    if |rr| >= 2 {
      ConstantSumSqDiffs(rr[..|rr| - 1]);
    }
  }

  /** For a constant list RMSSD is the root of zero. */
  lemma ConstantRmssd(rr: seq<int>, sqrt: real -> real)
    requires |rr| >= 3 && forall i :: 0 <= i < |rr| ==> rr[i] == rr[0]
    ensures MeanSquare(rr) == 0.0
    ensures RmssdOf(rr, sqrt) == Some(sqrt(0.0))
  {
    ConstantSumSqDiffs(rr);
  }

  lemma ProductOfPositives(a: real, b: real)
    ensures a > 0.0 && b > 0.0 ==> a * b > 0.0
  {
  }

  /** A zero product of non-negative numbers has a zero factor. */
  lemma ZeroProduct(a: real, b: real)
    requires 0.0 <= a && 0.0 <= b && a * b == 0.0
    ensures a == 0.0 || b == 0.0
  {
    ProductOfPositives(a, b);
  }

  /** With a true square root, a constant interval list has RMSSD 0. */
  lemma ConstantRmssdIsZero(rr: seq<int>, sqrt: real -> real)
    requires IsSqrt(sqrt)
    requires |rr| >= 3 && forall i :: 0 <= i < |rr| ==> rr[i] == rr[0]
    ensures RmssdOf(rr, sqrt) == Some(0.0)
  {
    ConstantRmssd(rr, sqrt);
    assert 0.0 <= sqrt(0.0) && sqrt(0.0) * sqrt(0.0) == 0.0;
    ZeroProduct(sqrt(0.0), sqrt(0.0));
  }

  function Shift(rr: seq<int>, c: int): (r: seq<int>)
    ensures |r| == |rr| && forall i :: 0 <= i < |rr| ==> r[i] == rr[i] + c
  {
    seq(|rr|, i requires 0 <= i < |rr| => rr[i] + c)
  }

  /** Only differences matter: shifting every interval by the same amount changes nothing. */
  lemma {:induction false} ShiftSumSqDiffs(rr: seq<int>, c: int)
    ensures SumSqDiffs(Shift(rr, c)) == SumSqDiffs(rr)
    decreases |rr|
  {
    if |rr| >= 2 {
      ShiftSumSqDiffs(rr[..|rr| - 1], c);
      assert Shift(rr, c)[..|rr| - 1] == Shift(rr[..|rr| - 1], c);
    }
  }

  lemma ShiftRmssd(rr: seq<int>, c: int, sqrt: real -> real)
    ensures RmssdOf(Shift(rr, c), sqrt) == RmssdOf(rr, sqrt)
  {
    ShiftSumSqDiffs(rr, c);
  }

  /** [800, 810, 790]: differences 10 and -20, mean square 250. */
  lemma MeanSquareExample()
    ensures MeanSquare([800, 810, 790]) == 250.0
  {
    assert [800, 810, 790][..2] == [800, 810];
    assert [800, 810][..1] == [800];
  }
}
