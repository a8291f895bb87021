/** What the structure detectors share: closed candles, confirmed swing points and the choice of the latest. */
module Swings {
  import opened Common
  import opened Market

  /** Which sides a trend text names. */
  datatype TrendLabel = TrendLabel(bullish: bool, bearish: bool)

  datatype Candle = Candle(index: int, open: real, high: real, low: real, close: real, trend: Option<TrendLabel>)

  datatype SwingKind = SwingHigh | SwingLow

  datatype SwingStatus = Unswept | Swept | Broken | Mitigated | TargetHit

  datatype Swing = Swing(kind: SwingKind, index: int, confirmationIndex: int, price: real, strength: real,
                         status: SwingStatus)

  /** What an event records of the swing it breaks: everything but the status. */
  datatype BrokenSwing = BrokenSwing(kind: SwingKind, index: int, confirmationIndex: int, price: real, strength: real)

  function Recorded(swing: Swing): BrokenSwing {
    BrokenSwing(swing.kind, swing.index, swing.confirmationIndex, swing.price, swing.strength)
  }

  datatype SwingKey = SwingKey(kind: SwingKind, index: int, price: real)

  /** A fair value gap between the first and third candle of three. */
  datatype Gap = Gap(low: real, high: real)

  function BrokenKind(direction: Direction): SwingKind {
    if direction.Bullish? then SwingHigh else SwingLow
  }

  predicate Outranks(a: Swing, b: Swing) {
    a.confirmationIndex > b.confirmationIndex
    || (a.confirmationIndex == b.confirmationIndex && a.strength > b.strength)
  }

  /** The first of the highest-ranked swings. */
  function PickLatest(swings: seq<Swing>): Option<Swing> {
    if swings == [] then None
    else
      var earlier, last := PickLatest(swings[..|swings| - 1]), swings[|swings| - 1];
      if earlier.None? || Outranks(last, earlier.value) then Some(last) else earlier
  }

  /** Nothing outranks the swing at k, and nothing before it equals its rank. */
  ghost predicate FirstOfHighest(swings: seq<Swing>, k: nat)
    requires k < |swings|
  {
    (forall j :: 0 <= j < |swings| ==> !Outranks(swings[j], swings[k]))
    && forall j :: 0 <= j < k ==> Outranks(swings[k], swings[j])
  }

  lemma {:induction false} PickLatestExact(swings: seq<Swing>) returns (k: nat)
    requires swings != []
    ensures k < |swings| && PickLatest(swings) == Some(swings[k]) && FirstOfHighest(swings, k)
    decreases |swings|
  {
    hide Outranks;
    var n := |swings| - 1;
    var earlier, last := swings[..n], swings[n];
    if earlier == [] {
      OutranksOrder(last, last, last);
      k := 0;
    } else {
      k := PickLatestExact(earlier);
      forall j | 0 <= j < n
        ensures swings[j] == earlier[j]
        ensures Outranks(last, swings[k]) ==> Outranks(last, swings[j])
        ensures Outranks(last, swings[k]) ==> !Outranks(swings[j], last)
      {
        OutranksOrder(last, swings[k], earlier[j]);
      }
      OutranksOrder(last, last, last);
      if Outranks(last, swings[k]) {
        k := n;
      }
    }
  }

  lemma OutranksOrder(a: Swing, b: Swing, c: Swing)
    ensures Outranks(a, b) && !Outranks(c, b) ==> Outranks(a, c)
    ensures Outranks(a, c) ==> !Outranks(c, a)
  {
  }

  /** What could be known of the swings before the candle of a given index. */
  function KnownBefore(swings: seq<Swing>, index: int): seq<Swing> {
    if swings == [] then []
    else
      var rest, last := KnownBefore(swings[..|swings| - 1], index), swings[|swings| - 1];
      if last.confirmationIndex < index then rest + [last] else rest
  }

  ghost predicate Increasing(candles: seq<Candle>) {
    forall i, j :: 0 <= i < j < |candles| ==> candles[i].index < candles[j].index
  }

  /** A longer feed: candles appended, and nothing changed about what was known before the last old candle. */
  ghost predicate Extends(candles: seq<Candle>, swings: seq<Swing>, longer: seq<Candle>, later: seq<Swing>) {
    candles <= longer && Increasing(longer)
    && (candles != [] ==> KnownBefore(later, candles[|candles| - 1].index)
                          == KnownBefore(swings, candles[|candles| - 1].index))
  }

  /** The simplest longer feed: swings appended that are confirmed no earlier than the last old candle. */
  lemma {:induction false} AppendedSwingsUnknown(swings: seq<Swing>, more: seq<Swing>, index: int)
    requires forall k :: 0 <= k < |more| ==> more[k].confirmationIndex >= index
    ensures KnownBefore(swings + more, index) == KnownBefore(swings, index)
    decreases |more|
  {
    if more == [] {
      assert swings + more == swings;
    } else {
      var fewer := more[..|more| - 1];
      assert (swings + more)[..|swings + more| - 1] == swings + fewer;
      AppendedSwingsUnknown(swings, fewer, index);
    }
  }

  function Gaps(candles: seq<Candle>, k: nat, direction: Direction): Option<Gap>
    requires k < |candles|
  {
    if k < 2 then None
    else
      var first, third := candles[k - 2], candles[k];
      if direction.Bullish? && first.high < third.low then Some(Gap(first.high, third.low))
      else if direction.Bearish? && first.low > third.high then Some(Gap(third.high, first.low))
      else None
  }

  predicate CloseBreaks(c: Candle, level: real, direction: Direction) {
    if direction.Bullish? then c.close > level else c.close < level
  }

  function Buffer(atr: real, multiplier: real): real {
    Max(0.0, atr * multiplier)
  }

  /** The level a break has to pass: the swing's price with the buffer. */
  function RequiredLevel(swing: BrokenSwing, direction: Direction, atr: real, multiplier: real): real {
    if direction.Bullish? then swing.price + Buffer(atr, multiplier) else swing.price - Buffer(atr, multiplier)
  }

  predicate WickBreaks(c: Candle, level: real, direction: Direction) {
    if direction.Bullish? then c.high > level else c.low < level
  }

  /** How far a price is past a level on the side of a break. */
  function Past(price: real, level: real, direction: Direction): real {
    if direction.Bullish? then price - level else level - price
  }

  function Extreme(c: Candle, direction: Direction): real {
    if direction.Bullish? then c.high else c.low
  }

  /** Whether one of the candles from a position up to, not including, another closes back beyond the level. */
  ghost predicate ClosesBack(candles: seq<Candle>, from: int, end: int, level: real, direction: Direction) {
    exists j :: 0 <= j < |candles| && from <= j < end && BackBeyond(candles[j], level, direction)
  }

  predicate BackBeyond(c: Candle, level: real, direction: Direction) {
    if direction.Bullish? then c.close < level else c.close > level
  }
}
