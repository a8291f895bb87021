/** What the two order-block validators answer, in the fields of the candle that comes back, the zone and the settings:
    which candle it is, what it did, whether an entry is allowed and why not, and the quality left. */
module ValidationProperties {
  import opened Common
  import opened Rounding
  import opened Zones
  import opened OrderBlockRetest

  // ---------- what the candle did ----------

  /** How deep a candle that came back went: it is the edge it came to on the far side that counts. */
  predicate BullishWent(c: Candle, zone: Zone, depth: Depth) {
    (depth.Deep? <==> c.low <= zone.low && zone.low < c.close)
    && (depth.MeanThreshold? <==> c.low <= zone.mean && (zone.low < c.low || c.close <= zone.low))
    && (depth.Shallow? <==> zone.mean < c.low && (zone.low < c.low || c.close <= zone.low))
  }

  predicate BearishWent(c: Candle, zone: Zone, depth: Depth) {
    (depth.Deep? <==> c.high >= zone.high && zone.high > c.close)
    && (depth.MeanThreshold? <==> c.high >= zone.mean && (zone.high > c.high || c.close >= zone.high))
    && (depth.Shallow? <==> zone.mean > c.high && (zone.high > c.high || c.close >= zone.high))
  }

  /** Why a candle confirms, the first of the four that holds; closes count only on a candle of the right colour. */
  predicate BullishReacts(c: Candle, zone: Zone, words: Words, reaction: Reaction) {
    var shift, sweep, up := words.bullish && (words.mss || words.choch),
                            words.sellSide && words.sweep && words.displacement, c.close > c.open;
    (reaction.StructureShift? <==> shift) && (reaction.SweepAndDisplacement? <==> sweep && !shift)
    && (reaction.CloseBeyondZone? <==> up && c.close > zone.high && !shift && !sweep)
    && (reaction.CloseBeyondMean? <==> up && zone.mean < c.close <= zone.high && !shift && !sweep)
    && (reaction.NoReaction? <==> !shift && !sweep && !(up && (c.close > zone.high || c.close > zone.mean)))
  }

  predicate BearishReacts(c: Candle, zone: Zone, words: Words, reaction: Reaction) {
    var shift, sweep, down := words.bearish && (words.mss || words.choch),
                              words.buySide && words.sweep && words.displacement, c.close < c.open;
    (reaction.StructureShift? <==> shift) && (reaction.SweepAndDisplacement? <==> sweep && !shift)
    && (reaction.CloseBeyondZone? <==> down && c.close < zone.low && !shift && !sweep)
    && (reaction.CloseBeyondMean? <==> down && zone.low <= c.close < zone.mean && !shift && !sweep)
    && (reaction.NoReaction? <==> !shift && !sweep && !(down && (c.close < zone.low || c.close < zone.mean)))
  }

  /** The status of a candle that came back and did not close through: confirmed by a reaction, or else its depth. */
  predicate StatusFits(r: Retest) {
    (r.status.Confirmed? <==> !r.reaction.NoReaction?)
    && (r.status.DeepMitigation? <==> r.reaction.NoReaction? && r.depth.Deep?)
    && (r.status.PartiallyMitigated? <==> r.reaction.NoReaction? && r.depth.MeanThreshold?)
    && (r.status.Touched? <==> r.reaction.NoReaction? && r.depth.Shallow?)
    && (r.meanTouched <==> r.depth.Deep? || r.depth.MeanThreshold?)
  }

  predicate BullishBack(c: Candle, ob: OrderBlock, settings: Settings) {
    c.index > ob.confirmationIndex && (c.close < ob.zone.low - settings.stopBuffer || c.low <= ob.zone.high)
  }

  predicate BearishBack(c: Candle, ob: OrderBlock, settings: Settings) {
    c.index > ob.confirmationIndex && (c.close > ob.zone.high + settings.stopBuffer || c.high >= ob.zone.low)
  }

  /** What the k-th candle, the first to come back, did; or that none did. */
  predicate BullishFound(candles: seq<Candle>, ob: OrderBlock, words: Words, settings: Settings, k: nat, r: Retest)
    requires k <= |candles|
  {
    if k == |candles| then r == Retest(None, Fresh, Untouched, false, NoReaction)
    else
      var c := candles[k];
      r.candle == Some(c)
      && if c.close < ob.zone.low - settings.stopBuffer then
           r == Retest(Some(c), Failed, ClosedThrough, false, NoReaction)
         else BullishWent(c, ob.zone, r.depth) && BullishReacts(c, ob.zone, words, r.reaction) && StatusFits(r)
  }

  predicate BearishFound(candles: seq<Candle>, ob: OrderBlock, words: Words, settings: Settings, k: nat, r: Retest)
    requires k <= |candles|
  {
    if k == |candles| then r == Retest(None, Fresh, Untouched, false, NoReaction)
    else
      var c := candles[k];
      r.candle == Some(c)
      && if c.close > ob.zone.high + settings.stopBuffer then
           r == Retest(Some(c), Failed, ClosedThrough, false, NoReaction)
         else BearishWent(c, ob.zone, r.depth) && BearishReacts(c, ob.zone, words, r.reaction) && StatusFits(r)
  }

  // ---------- what follows from it ----------

  /** A retest that closed through keeps at most 2.9 of the block's quality; a confirmed one gains one, and half more
      with an allowed entry; mitigation costs a quarter, deep mitigation half; all within nought and ten. */
  predicate QualityFits(base: real, v: Validation) {
    var change := if v.retest.status.Confirmed? then (if v.entryAllowed then 1.5 else 1.0)
                  else if v.retest.status.PartiallyMitigated? then -0.25
                  else if v.retest.status.DeepMitigation? then -0.5
                  else 0.0;
    var quality := Round(base + change, 100.0);
    if v.retest.status.Failed? then v.quality == (if base < 2.9 then base else 2.9)
    else v.quality == (if quality < 0.0 then 0.0 else if quality > 10.0 then 10.0 else quality)
  }

  /** The entry is allowed exactly with confirmation, a target and enough reward, and each warning says what it says. */
  predicate ConclusionFits(ob: OrderBlock, settings: Settings, v: Validation) {
    var enough := v.rewardToRisk.Some? && settings.minimumRr <= v.rewardToRisk.value;
    (v.entryAllowed <==> v.retest.status.Confirmed? && ob.target.Some? && enough)
    && (v.entered <==> v.retest.candle.Some? && !v.retest.status.Failed?)
    && NotAnEntry in v.warnings
    && (FailedThrough in v.warnings <==> v.retest.status.Failed?)
    && (NoConfirmation in v.warnings <==> v.entered && !v.retest.status.Confirmed?)
    && (NoTarget in v.warnings <==> ob.target.None?)
    && (RewardBelowMinimum in v.warnings <==> v.rewardToRisk.Some? && !enough)
    && QualityFits(ob.quality, v)
  }

  // ---------- the two theorems ----------

  lemma {:induction false} BullishScanExactly(candles: seq<Candle>, ob: OrderBlock, words: Words, settings: Settings,
                                              i: nat) returns (k: nat)
    requires i <= |candles|
    ensures i <= k <= |candles| && (forall j :: i <= j < k ==> !BullishBack(candles[j], ob, settings))
    ensures k < |candles| ==> BullishBack(candles[k], ob, settings)
    ensures BullishFound(candles, ob, words, settings, k, BullishScan(candles, ob, words, settings, i))
    decreases |candles| - i
  {
    k := i;
    if i < |candles| && !BullishBack(candles[i], ob, settings) {
      k := BullishScanExactly(candles, ob, words, settings, i + 1);
    }
  }

  lemma {:induction false} BearishScanExactly(candles: seq<Candle>, ob: OrderBlock, words: Words, settings: Settings,
                                              i: nat) returns (k: nat)
    requires i <= |candles|
    ensures i <= k <= |candles| && (forall j :: i <= j < k ==> !BearishBack(candles[j], ob, settings))
    ensures k < |candles| ==> BearishBack(candles[k], ob, settings)
    ensures BearishFound(candles, ob, words, settings, k, BearishScan(candles, ob, words, settings, i))
    decreases |candles| - i
  {
    k := i;
    if i < |candles| && !BearishBack(candles[i], ob, settings) {
      k := BearishScanExactly(candles, ob, words, settings, i + 1);
    }
  }

  lemma ConcludesExactly(ob: OrderBlock, settings: Settings, retest: Retest, invalidation: real, stop: real,
                         reward: Option<real>)
    requires (retest.candle.None? <==> retest.status.Fresh?) && (retest.status.Failed? ==> retest.reaction.NoReaction?)
    requires !retest.status.Failed? && !retest.status.Fresh? ==> StatusFits(retest)
    ensures ConclusionFits(ob, settings, Conclude(ob, settings, retest, invalidation, stop, reward))
  {
    hide Round;
  }

  /** The bullish validator: the first candle after the confirmation that closes below the stop or reaches down to the
      zone decides; the reward is measured from its close, or from the upper edge while there is none. */
  lemma BullishExactly(candles: seq<Candle>, ob: OrderBlock, words: Words, settings: Settings) returns (k: nat)
    ensures k <= |candles| && (forall j :: 0 <= j < k ==> !BullishBack(candles[j], ob, settings))
    ensures k < |candles| ==> BullishBack(candles[k], ob, settings)
    ensures var v, stop := ValidateBullish(candles, ob, words, settings), ob.zone.low - settings.stopBuffer;
            var entry := if k == |candles| then ob.zone.high else candles[k].close;
            BullishFound(candles, ob, words, settings, k, v.retest) && ConclusionFits(ob, settings, v)
            && v.invalidation == ob.zone.low && v.stop == Round(stop, 100000.0)
            && v.rewardToRisk == (if ob.target.Some? && stop < entry then
                                    Some(Round((ob.target.value - entry) / (entry - stop), 100.0))
                                  else None)
  {
    hide BullishScan, Round, QualityScore, WarningsOf, BullishReacts, ConclusionFits;
    k := BullishScanExactly(candles, ob, words, settings, 0);
    var retest, stop := BullishScan(candles, ob, words, settings, 0), ob.zone.low - settings.stopBuffer;
    ConcludesExactly(ob, settings, retest, ob.zone.low, stop,
                     BullishReward(ob.target, Entry(retest, ob.zone.high), stop));
  }

  /** The bearish validator, which also refuses a target that is not below the entry. */
  lemma BearishExactly(candles: seq<Candle>, ob: OrderBlock, words: Words, settings: Settings) returns (k: nat)
    ensures k <= |candles| && (forall j :: 0 <= j < k ==> !BearishBack(candles[j], ob, settings))
    ensures k < |candles| ==> BearishBack(candles[k], ob, settings)
    ensures var v, stop := ValidateBearish(candles, ob, words, settings), ob.zone.high + settings.stopBuffer;
            var entry := if k == |candles| then ob.zone.low else candles[k].close;
            BearishFound(candles, ob, words, settings, k, v.retest) && ConclusionFits(ob, settings, v)
            && v.invalidation == ob.zone.high && v.stop == Round(stop, 100000.0)
            && v.rewardToRisk == (if ob.target.Some? && ob.target.value < entry && entry < stop then
                                    Some(Round((entry - ob.target.value) / (stop - entry), 100.0))
                                  else None)
  {
    hide BearishScan, Round, QualityScore, WarningsOf, BearishReacts, ConclusionFits;
    k := BearishScanExactly(candles, ob, words, settings, 0);
    var retest, stop := BearishScan(candles, ob, words, settings, 0), ob.zone.high + settings.stopBuffer;
    ConcludesExactly(ob, settings, retest, ob.zone.high, stop,
                     BearishReward(ob.target, Entry(retest, ob.zone.low), stop));
  }
}
