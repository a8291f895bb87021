/** The two order-block retest validators: the first candle back in the zone decides the status, the
    reaction decides confirmation, and the reward to risk decides whether entry is allowed. */
module OrderBlockRetest {
  import opened Common
  import opened Rounding
  import opened Zones

  datatype Status = Fresh | Touched | PartiallyMitigated | DeepMitigation | Confirmed | Failed

  datatype Reaction = NoReaction | StructureShift | SweepAndDisplacement | CloseBeyondZone | CloseBeyondMean

  datatype Depth = Untouched | Shallow | MeanThreshold | Deep | ClosedThrough

  datatype Warning = NotAnEntry | FailedThrough | NoConfirmation | NoTarget | RewardBelowMinimum

  /** Which words the joined text of the lower-timeframe events contains. */
  datatype Words = Words(bullish: bool, bearish: bool, mss: bool, choch: bool, sellSide: bool, buySide: bool,
                         sweep: bool, displacement: bool)

  datatype OrderBlock = OrderBlock(zone: Zone, confirmationIndex: int, quality: real, target: Option<real>)

  datatype Settings = Settings(stopBuffer: real, minimumRr: real)

  /** What the scan finds: the candle that came back and what it did. */
  datatype Retest = Retest(candle: Option<Candle>, status: Status, depth: Depth, meanTouched: bool,
                           reaction: Reaction)

  datatype Validation = Validation(retest: Retest, entered: bool, entryAllowed: bool, invalidation: real,
                                   stop: real, rewardToRisk: Option<real>, quality: real, warnings: seq<Warning>)

  const NO_RETEST := Retest(None, Fresh, Untouched, false, NoReaction)

  // ---------- bullish ----------

  predicate BullishFails(c: Candle, ob: OrderBlock, settings: Settings) {
    c.close < ob.zone.low - settings.stopBuffer
  }

  predicate BullishTouches(c: Candle, ob: OrderBlock) {
    c.low <= ob.zone.high
  }

  function BullishReaction(c: Candle, zone: Zone, words: Words): Reaction {
    if words.bullish && (words.mss || words.choch) then StructureShift
    else if words.sellSide && words.sweep && words.displacement then SweepAndDisplacement
    else if c.close > zone.high && c.close > c.open then CloseBeyondZone
    else if c.close > zone.mean && c.close > c.open then CloseBeyondMean
    else NoReaction
  }

  function BullishDepth(c: Candle, zone: Zone): Depth {
    if c.low <= zone.low < c.close then Deep else if c.low <= zone.mean then MeanThreshold else Shallow
  }

  function Classified(c: Candle, depth: Depth, reaction: Reaction): Retest {
    Retest(Some(c),
           if reaction != NoReaction then Confirmed
           else match depth
                case Deep => DeepMitigation
                case MeanThreshold => PartiallyMitigated
                case _ => Touched,
           depth, !depth.Shallow?, reaction)
  }

  function Through(c: Candle): Retest {
    Retest(Some(c), Failed, ClosedThrough, false, NoReaction)
  }

  function BullishScan(candles: seq<Candle>, ob: OrderBlock, words: Words, settings: Settings, i: nat): Retest
    requires i <= |candles|
    decreases |candles| - i
  {
    if i == |candles| then NO_RETEST
    else
      var c := candles[i];
      if c.index <= ob.confirmationIndex then BullishScan(candles, ob, words, settings, i + 1)
      else if BullishFails(c, ob, settings) then Through(c)
      else if BullishTouches(c, ob) then
        Classified(c, BullishDepth(c, ob.zone), BullishReaction(c, ob.zone, words))
      else BullishScan(candles, ob, words, settings, i + 1)
  }

  /** Reward over risk on two digits; a target below the entry is not refused here. */
  function BullishReward(target: Option<real>, entry: real, stop: real): Option<real> {
    if target.Some? && entry > stop then Some(Round((target.value - entry) / (entry - stop), CENT_SCALE)) else None
  }

  // ---------- bearish ----------

  predicate BearishFails(c: Candle, ob: OrderBlock, settings: Settings) {
    c.close > ob.zone.high + settings.stopBuffer
  }

  predicate BearishTouches(c: Candle, ob: OrderBlock) {
    c.high >= ob.zone.low
  }

  function BearishRejection(c: Candle, zone: Zone, words: Words): Reaction {
    if words.bearish && (words.mss || words.choch) then StructureShift
    else if words.buySide && words.sweep && words.displacement then SweepAndDisplacement
    else if c.close < zone.low && c.close < c.open then CloseBeyondZone
    else if c.close < zone.mean && c.close < c.open then CloseBeyondMean
    else NoReaction
  }

  function BearishDepth(c: Candle, zone: Zone): Depth {
    if c.high >= zone.high > c.close then Deep else if c.high >= zone.mean then MeanThreshold else Shallow
  }

  function BearishScan(candles: seq<Candle>, ob: OrderBlock, words: Words, settings: Settings, i: nat): Retest
    requires i <= |candles|
    decreases |candles| - i
  {
    if i == |candles| then NO_RETEST
    else
      var c := candles[i];
      if c.index <= ob.confirmationIndex then BearishScan(candles, ob, words, settings, i + 1)
      else if BearishFails(c, ob, settings) then Through(c)
      else if BearishTouches(c, ob) then
        Classified(c, BearishDepth(c, ob.zone), BearishRejection(c, ob.zone, words))
      else BearishScan(candles, ob, words, settings, i + 1)
  }

  /** The bearish side does refuse a target that is not below the entry. */
  function BearishReward(target: Option<real>, entry: real, stop: real): Option<real> {
    if target.Some? && target.value < entry < stop then
      Some(Round((entry - target.value) / (stop - entry), CENT_SCALE))
    else None
  }

  // ---------- shared tail ----------

  function QualityScore(base: real, status: Status, entryAllowed: bool): real {
    if status.Failed? then Min(base, 2.9)
    else
      var score := match status
                   case Confirmed => base + 1.0
                   case PartiallyMitigated => base - 0.25
                   case DeepMitigation => base - 0.5
                   case _ => base;
      Max(0.0, Min(10.0, Round(if entryAllowed then score + 0.5 else score, CENT_SCALE)))
  }

  function Allowed(status: Status, target: Option<real>, reward: Option<real>, settings: Settings): bool {
    status.Confirmed? && target.Some? && reward.Some? && reward.value >= settings.minimumRr
  }

  function When(condition: bool, w: Warning): seq<Warning> {
    if condition then [w] else []
  }

  function WarningsOf(retest: Retest, target: Option<real>, reward: Option<real>, settings: Settings): seq<Warning> {
    [NotAnEntry] + When(retest.status.Failed?, FailedThrough)
    + When(retest.reaction.NoReaction? && !retest.status.Fresh? && !retest.status.Failed?, NoConfirmation)
    + When(target.None?, NoTarget) + When(reward.Some? && reward.value < settings.minimumRr, RewardBelowMinimum)
  }

  function Conclude(ob: OrderBlock, settings: Settings, retest: Retest, invalidation: real, stop: real,
                    reward: Option<real>): Validation {
    var allowed := Allowed(retest.status, ob.target, reward, settings);
    Validation(retest, retest.candle.Some? && !retest.status.Failed?, allowed, invalidation, Round(stop, R_SCALE),
               reward, QualityScore(ob.quality, retest.status, allowed),
               WarningsOf(retest, ob.target, reward, settings))
  }

  /** The entry price: the close of the candle that came back, or the near edge of the zone. */
  function Entry(retest: Retest, edge: real): real {
    if retest.candle.Some? then retest.candle.value.close else edge
  }

  function ValidateBullish(candles: seq<Candle>, ob: OrderBlock, words: Words, settings: Settings): Validation {
    var retest := BullishScan(candles, ob, words, settings, 0);
    var stop := ob.zone.low - settings.stopBuffer;
    Conclude(ob, settings, retest, ob.zone.low, stop, BullishReward(ob.target, Entry(retest, ob.zone.high), stop))
  }

  function ValidateBearish(candles: seq<Candle>, ob: OrderBlock, words: Words, settings: Settings): Validation {
    var retest := BearishScan(candles, ob, words, settings, 0);
    var stop := ob.zone.high + settings.stopBuffer;
    Conclude(ob, settings, retest, ob.zone.high, stop, BearishReward(ob.target, Entry(retest, ob.zone.low), stop))
  }

  // ---------- the loops ----------

  method ValidateBullishRetest(candles: seq<Candle>, ob: OrderBlock, words: Words, settings: Settings)
    returns (validation: Validation)
    ensures validation == ValidateBullish(candles, ob, words, settings)
  {
    hide BullishFails, BullishTouches, Classified;
    var retest := NO_RETEST;
    var i := 0;
    while i < |candles|
      invariant i <= |candles| && retest == NO_RETEST
      invariant BullishScan(candles, ob, words, settings, i) == BullishScan(candles, ob, words, settings, 0)
    {
      var c := candles[i];
      if c.index > ob.confirmationIndex {
        if BullishFails(c, ob, settings) {
          retest := Through(c);
          break;
        }
        if BullishTouches(c, ob) {
          retest := Classified(c, BullishDepth(c, ob.zone), BullishReaction(c, ob.zone, words));
          break;
        }
      }
      i := i + 1;
    }
    var stop := ob.zone.low - settings.stopBuffer;
    var reward := BullishReward(ob.target, Entry(retest, ob.zone.high), stop);
    validation := Conclude(ob, settings, retest, ob.zone.low, stop, reward);
  }

  method ValidateBearishRetest(candles: seq<Candle>, ob: OrderBlock, words: Words, settings: Settings)
    returns (validation: Validation)
    ensures validation == ValidateBearish(candles, ob, words, settings)
  {
    hide BearishFails, BearishTouches, Classified;
    var retest := NO_RETEST;
    var i := 0;
    while i < |candles|
      invariant i <= |candles| && retest == NO_RETEST
      invariant BearishScan(candles, ob, words, settings, i) == BearishScan(candles, ob, words, settings, 0)
    {
      var c := candles[i];
      if c.index > ob.confirmationIndex {
        if BearishFails(c, ob, settings) {
          retest := Through(c);
          break;
        }
        if BearishTouches(c, ob) {
          retest := Classified(c, BearishDepth(c, ob.zone), BearishRejection(c, ob.zone, words));
          break;
        }
      }
      i := i + 1;
    }
    var stop := ob.zone.high + settings.stopBuffer;
    var reward := BearishReward(ob.target, Entry(retest, ob.zone.low), stop);
    validation := Conclude(ob, settings, retest, ob.zone.high, stop, reward);
  }
}
