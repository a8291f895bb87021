/** The mean of the last values of a running list, and the average range that every detector takes over its own
    measure of one candle. */
module AverageRange {
  import opened Common
  import opened Market

  function Sum(xs: seq<real>): real {
    if xs == [] then 0.0 else Sum(xs[..|xs| - 1]) + xs[|xs| - 1]
  }

  function WindowStart(length: nat, period: Positive): (start: nat)
    requires length > 0
    ensures start < length && length - start <= period
  {
    if length <= period then 0 else length - period
  }

  function MeanOfLast(xs: seq<real>, period: Positive): real
    requires xs != []
  {
    var window := xs[WindowStart(|xs|, period)..];
    Sum(window) / |window| as real
  }

  /** The range of each of the first n candles, given the candle before it. */
  function Ranges<C>(candles: seq<C>, n: nat, range: (C, Option<C>) -> real): (ranges: seq<real>)
    requires n <= |candles|
    ensures |ranges| == n
  {
    seq(n, k requires 0 <= k < n => range(candles[k], if k == 0 then None else Some(candles[k - 1])))
  }

  /** The mean range of the last candles up to the k-th. */
  function Atr<C>(candles: seq<C>, k: nat, period: Positive, range: (C, Option<C>) -> real): real
    requires k < |candles|
  {
    MeanOfLast(Ranges(candles, k + 1, range), period)
  }

  lemma AtrOfPrefix<C>(candles: seq<C>, longer: seq<C>, k: nat, period: Positive, range: (C, Option<C>) -> real)
    requires candles <= longer && k < |candles|
    ensures Atr(longer, k, period, range) == Atr(candles, k, period, range)
  {
    assert Ranges(longer, k + 1, range) == Ranges(candles, k + 1, range);
  }

  /** What the candles from one position up to another range in total. */
  function Total<C>(candles: seq<C>, from: nat, end: nat, range: (C, Option<C>) -> real): real
    requires from <= end <= |candles|
    decreases end
  {
    if from == end then 0.0
    else
      Total(candles, from, end - 1, range)
      + range(candles[end - 1], if end == 1 then None else Some(candles[end - 2]))
  }

  lemma {:induction false} TotalIsSum<C>(candles: seq<C>, from: nat, end: nat, range: (C, Option<C>) -> real)
    requires from <= end <= |candles|
    ensures Sum(Ranges(candles, end, range)[from..]) == Total(candles, from, end, range)
    decreases end
  {
    if from < end {
      TotalIsSum(candles, from, end - 1, range);
      var shorter, longer := Ranges(candles, end - 1, range)[from..], Ranges(candles, end, range)[from..];
      assert longer[..|longer| - 1] == shorter;
    }
  }

  /** The average is over the last `period` candles, or over all of them while they are fewer. */
  lemma AtrExactly<C>(candles: seq<C>, k: nat, period: Positive, range: (C, Option<C>) -> real)
    requires k < |candles|
    ensures var n := if k + 1 < period then k + 1 else period;
            Atr(candles, k, period, range) * n as real == Total(candles, k + 1 - n, k + 1, range)
  {
    hide Total, Sum, Ranges;
    var n := if k + 1 < period then k + 1 else period;
    var window := Ranges(candles, k + 1, range)[k + 1 - n..];
    TotalIsSum(candles, k + 1 - n, k + 1, range);
    MeanTimesCount(Sum(window), n);
  }

  lemma MeanTimesCount(sum: real, n: nat)
    requires n > 0
    ensures (sum / n as real) * n as real == sum
  {
  }
}
