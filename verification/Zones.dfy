/** Candles and price zones as the order-block validators see them, and their mirror images: prices negated,
    highs and lows swapped, the two sides of the market exchanged. */
module Zones {
  import opened Common

  datatype Candle = Candle(index: int, open: real, high: real, low: real, close: real)

  datatype Zone = Zone(low: real, high: real, mean: real)

  function MirrorCandle(c: Candle): Candle {
    Candle(c.index, -c.open, -c.low, -c.high, -c.close)
  }

  function MirrorCandles(candles: seq<Candle>): (mirrored: seq<Candle>)
    ensures |mirrored| == |candles|
    ensures forall i :: 0 <= i < |candles| ==> mirrored[i] == MirrorCandle(candles[i])
  {
    seq(|candles|, i requires 0 <= i < |candles| => MirrorCandle(candles[i]))
  }

  function MirrorZone(z: Zone): Zone {
    Zone(-z.high, -z.low, -z.mean)
  }

  function Negated(x: Option<real>): Option<real> {
    if x.Some? then Some(-x.value) else None
  }
}
