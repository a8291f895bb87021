/** Words every detector uses: the side of a move, and periods that count at least one candle. */
module Market {
  datatype Direction = Bullish | Bearish

  datatype OrderSide = Buy | Sell

  type Positive = n: nat | n >= 1 witness 1

  function Opposite(direction: Direction): Direction {
    if direction.Bullish? then Bearish else Bullish
  }
}
