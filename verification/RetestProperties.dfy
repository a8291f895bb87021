/** Order-block retests: the first touch settles the matter, allowed entries have stop, entry and target in
    order, and the two validators are mirror images exactly when a positive reward is asked for. */
module RetestProperties {
  import opened Common
  import opened Rounding
  import opened Zones
  import opened OrderBlockRetest

  // ---------- the first touch decides ----------

  predicate BullishHits(c: Candle, ob: OrderBlock, settings: Settings) {
    c.index > ob.confirmationIndex && (BullishFails(c, ob, settings) || BullishTouches(c, ob))
  }

  predicate BearishHits(c: Candle, ob: OrderBlock, settings: Settings) {
    c.index > ob.confirmationIndex && (BearishFails(c, ob, settings) || BearishTouches(c, ob))
  }

  lemma {:induction false} BullishScanStable(candles: seq<Candle>, more: seq<Candle>, ob: OrderBlock, words: Words,
                                             settings: Settings, i: nat) returns (k: nat)
    requires i <= |candles|
    ensures i <= k <= |candles| && forall j :: i <= j < k ==> !BullishHits(candles[j], ob, settings)
    ensures var r := BullishScan(candles, ob, words, settings, i);
            if k == |candles| then r.candle.None?
            else BullishHits(candles[k], ob, settings) && r.candle == Some(candles[k])
                 && BullishScan(candles + more, ob, words, settings, i) == r
    decreases |candles| - i
  {
    hide BullishFails, BullishTouches, BullishReaction, BullishDepth;
    k := i;
    if i < |candles| && !BullishHits(candles[i], ob, settings) {
      k := BullishScanStable(candles, more, ob, words, settings, i + 1);
    }
  }

  lemma {:induction false} BearishScanStable(candles: seq<Candle>, more: seq<Candle>, ob: OrderBlock, words: Words,
                                             settings: Settings, i: nat) returns (k: nat)
    requires i <= |candles|
    ensures i <= k <= |candles| && forall j :: i <= j < k ==> !BearishHits(candles[j], ob, settings)
    ensures var r := BearishScan(candles, ob, words, settings, i);
            if k == |candles| then r.candle.None?
            else BearishHits(candles[k], ob, settings) && r.candle == Some(candles[k])
                 && BearishScan(candles + more, ob, words, settings, i) == r
    decreases |candles| - i
  {
    hide BearishFails, BearishTouches, BearishRejection, BearishDepth;
    k := i;
    if i < |candles| && !BearishHits(candles[i], ob, settings) {
      k := BearishScanStable(candles, more, ob, words, settings, i + 1);
    }
  }

  /** The retest candle is the first one after the confirmation that closes through the zone or reaches it, and
      once there is one, no later candle changes anything in the result. */
  lemma FirstRetestSettles(candles: seq<Candle>, more: seq<Candle>, ob: OrderBlock, words: Words, settings: Settings)
    returns (bull: nat, bear: nat)
    ensures bull <= |candles| && forall j :: 0 <= j < bull ==> !BullishHits(candles[j], ob, settings)
    ensures var v := ValidateBullish(candles, ob, words, settings);
            if bull == |candles| then v.retest.candle.None?
            else BullishHits(candles[bull], ob, settings) && v.retest.candle == Some(candles[bull])
                 && ValidateBullish(candles + more, ob, words, settings) == v
    ensures bear <= |candles| && forall j :: 0 <= j < bear ==> !BearishHits(candles[j], ob, settings)
    ensures var v := ValidateBearish(candles, ob, words, settings);
            if bear == |candles| then v.retest.candle.None?
            else BearishHits(candles[bear], ob, settings) && v.retest.candle == Some(candles[bear])
                 && ValidateBearish(candles + more, ob, words, settings) == v
  {
    hide BullishScan, BearishScan, QualityScore, WarningsOf, BullishReward, BearishReward, BullishHits, BearishHits;
    bull := BullishScanStable(candles, more, ob, words, settings, 0);
    bear := BearishScanStable(candles, more, ob, words, settings, 0);
  }

  // ---------- allowed entries ----------

  /** A positive rounded ratio comes from a positive ratio. */
  lemma RewardSign(gain: real, risk: real, minimum: real)
    requires risk > 0.0 && Round(gain / risk, CENT_SCALE) >= minimum > 0.0
    ensures gain > 0.0
  {
    if gain <= 0.0 {
      QuotientOrder(gain, risk, 0.0);
      RoundRespectsGridPoint(gain / risk, 0.0, CENT_SCALE);
    }
  }

  lemma RewardError(ratio: real, minimum: real)
    requires Round(ratio, CENT_SCALE) >= minimum
    ensures ratio >= minimum - 0.005
  {
    RoundError(ratio, CENT_SCALE);
  }

  lemma {:induction false} ConfirmedHasCandle(candles: seq<Candle>, ob: OrderBlock, words: Words, settings: Settings,
                                              i: nat)
    requires i <= |candles|
    ensures var r := BullishScan(candles, ob, words, settings, i); r.candle.None? <==> r.status.Fresh?
    ensures var r := BearishScan(candles, ob, words, settings, i); r.candle.None? <==> r.status.Fresh?
    decreases |candles| - i
  {
    hide BullishFails, BullishTouches, BearishFails, BearishTouches;
    if i < |candles| {
      ConfirmedHasCandle(candles, ob, words, settings, i + 1);
    }
  }

  /** An allowed bullish entry: stop below, target above, and the exact reward at least the minimum less half a
      cent of rounding. */
  ghost predicate BullishOrdered(v: Validation, ob: OrderBlock, settings: Settings) {
    v.entryAllowed ==>
      v.retest.candle.Some? && ob.target.Some?
      && var entry, stop := v.retest.candle.value.close, ob.zone.low - settings.stopBuffer;
         stop < entry < ob.target.value
         && (ob.target.value - entry) / (entry - stop) >= settings.minimumRr - 0.005
  }

  ghost predicate BearishOrdered(v: Validation, ob: OrderBlock, settings: Settings) {
    v.entryAllowed ==>
      v.retest.candle.Some? && ob.target.Some?
      && var entry, stop := v.retest.candle.value.close, ob.zone.high + settings.stopBuffer;
         ob.target.value < entry < stop
         && (entry - ob.target.value) / (stop - entry) >= settings.minimumRr - 0.005
  }

  lemma BullishEntryIsOrdered(candles: seq<Candle>, ob: OrderBlock, words: Words, settings: Settings)
    requires settings.minimumRr > 0.0
    ensures BullishOrdered(ValidateBullish(candles, ob, words, settings), ob, settings)
  {
    hide BullishScan, QualityScore, WarningsOf, Round;
    ConfirmedHasCandle(candles, ob, words, settings, 0);
    var retest := BullishScan(candles, ob, words, settings, 0);
    if ValidateBullish(candles, ob, words, settings).entryAllowed {
      var entry, stop := retest.candle.value.close, ob.zone.low - settings.stopBuffer;
      RewardSign(ob.target.value - entry, entry - stop, settings.minimumRr);
      RewardError((ob.target.value - entry) / (entry - stop), settings.minimumRr);
    }
  }

  /** The bearish side checks the order itself, whatever the minimum reward. */
  lemma BearishEntryIsOrdered(candles: seq<Candle>, ob: OrderBlock, words: Words, settings: Settings)
    ensures BearishOrdered(ValidateBearish(candles, ob, words, settings), ob, settings)
  {
    hide BearishScan, QualityScore, WarningsOf, Round;
    ConfirmedHasCandle(candles, ob, words, settings, 0);
    var retest := BearishScan(candles, ob, words, settings, 0);
    if ValidateBearish(candles, ob, words, settings).entryAllowed {
      var entry, stop := retest.candle.value.close, ob.zone.high + settings.stopBuffer;
      RewardError((entry - ob.target.value) / (stop - entry), settings.minimumRr);
    }
  }

  ghost predicate BullishAlwaysOrdered(settings: Settings) {
    forall candles: seq<Candle>, ob: OrderBlock, words: Words ::
      BullishOrdered(ValidateBullish(candles, ob, words, settings), ob, settings)
  }

  /** Bullish entries are in order on every input exactly when the minimum reward is positive. */
  lemma BullishOrderedExactly(settings: Settings)
    ensures BullishAlwaysOrdered(settings) <==> settings.minimumRr > 0.0
  {
    if settings.minimumRr > 0.0 {
      forall candles: seq<Candle>, ob: OrderBlock, words: Words
        ensures BullishOrdered(ValidateBullish(candles, ob, words, settings), ob, settings)
      {
        BullishEntryIsOrdered(candles, ob, words, settings);
      }
    } else {
      var candles, ob, words := ZeroRewardAllowed(settings);
      assert !BullishOrdered(ValidateBullish(candles, ob, words, settings), ob, settings);
    }
  }

  /** A target at the entry itself has a reward of zero, which the bullish side takes as enough. */
  lemma ZeroRewardAllowed(settings: Settings) returns (candles: seq<Candle>, ob: OrderBlock, words: Words)
    requires settings.minimumRr <= 0.0
    ensures var v := ValidateBullish(candles, ob, words, settings);
            v.entryAllowed && v.retest.candle.Some? && ob.target == Some(v.retest.candle.value.close)
  {
    hide QualityScore, WarningsOf, Round;
    words := Words(true, false, true, false, false, false, false, false);
    var close := Max(0.0, 1.0 - settings.stopBuffer);
    var c := Candle(1, close, close, -1.0, close);
    candles := [c];
    ob := OrderBlock(Zone(0.0, 0.0, 0.0), 0, 5.0, Some(close));
    var stop := -settings.stopBuffer;
    assert BullishScan(candles, ob, words, settings, 0) == Classified(c, BullishDepth(c, ob.zone), StructureShift);
    assert (close - close) / (close - stop) == 0.0;
    RoundFixesGrid(0.0, CENT_SCALE);
  }

  // ---------- mirror images ----------

  function MirrorWords(w: Words): Words {
    Words(w.bearish, w.bullish, w.mss, w.choch, w.buySide, w.sellSide, w.sweep, w.displacement)
  }

  function MirrorBlock(ob: OrderBlock): OrderBlock {
    OrderBlock(MirrorZone(ob.zone), ob.confirmationIndex, ob.quality, Negated(ob.target))
  }

  function MirrorRetest(r: Retest): Retest {
    r.(candle := if r.candle.Some? then Some(MirrorCandle(r.candle.value)) else None)
  }

  lemma {:induction false} ScansMirror(candles: seq<Candle>, ob: OrderBlock, words: Words, settings: Settings, i: nat)
    requires i <= |candles|
    ensures BearishScan(MirrorCandles(candles), MirrorBlock(ob), MirrorWords(words), settings, i)
            == MirrorRetest(BullishScan(candles, ob, words, settings, i))
    decreases |candles| - i
  {
    hide MirrorCandles;
    if i < |candles| {
      ScansMirror(candles, ob, words, settings, i + 1);
    }
  }

  /** The mirrored bearish reward is the bullish one, except that a target on the wrong side is refused. */
  lemma RewardsMirror(target: Option<real>, entry: real, stop: real)
    ensures BearishReward(Negated(target), -entry, -stop)
            == if target.Some? && target.value <= entry then None else BullishReward(target, entry, stop)
  {
    hide Round;
    if target.Some? && entry > stop {
      var t := target.value;
      assert -entry - -t == t - entry && -stop - -entry == entry - stop;
    }
  }

  /** What both sides say of a retest, leaving out the ratio and the warnings. */
  ghost predicate SameVerdict(bullish: Validation, bearish: Validation) {
    bearish.retest == MirrorRetest(bullish.retest) && bearish.entered == bullish.entered
    && bearish.entryAllowed == bullish.entryAllowed && bearish.quality == bullish.quality
    && bearish.stop == -bullish.stop && bearish.invalidation == -bullish.invalidation
  }

  lemma WrongSideNeverAllowed(target: Option<real>, entry: real, stop: real, settings: Settings)
    requires settings.minimumRr > 0.0 && target.Some? && target.value <= entry
    ensures var reward := BullishReward(target, entry, stop); reward.Some? ==> reward.value < settings.minimumRr
  {
    hide Round;
    if entry > stop && BullishReward(target, entry, stop).value >= settings.minimumRr {
      RewardSign(target.value - entry, entry - stop, settings.minimumRr);
    }
  }

  lemma VerdictsMirror(candles: seq<Candle>, ob: OrderBlock, words: Words, settings: Settings)
    requires settings.minimumRr > 0.0
    ensures SameVerdict(ValidateBullish(candles, ob, words, settings),
                        ValidateBearish(MirrorCandles(candles), MirrorBlock(ob), MirrorWords(words), settings))
  {
    hide BullishScan, BearishScan, QualityScore, WarningsOf, Round, BullishReward, BearishReward, MirrorCandles;
    ScansMirror(candles, ob, words, settings, 0);
    var retest := BullishScan(candles, ob, words, settings, 0);
    var entry, stop := Entry(retest, ob.zone.high), ob.zone.low - settings.stopBuffer;
    assert Entry(MirrorRetest(retest), -ob.zone.high) == -entry;
    assert -ob.zone.low + settings.stopBuffer == -stop;
    RewardsMirror(ob.target, entry, stop);
    RoundOdd(stop, R_SCALE);
    if ob.target.Some? && ob.target.value <= entry {
      WrongSideNeverAllowed(ob.target, entry, stop, settings);
    }
  }

  ghost predicate Mirrors(settings: Settings) {
    forall candles: seq<Candle>, ob: OrderBlock, words: Words ::
      SameVerdict(ValidateBullish(candles, ob, words, settings),
                  ValidateBearish(MirrorCandles(candles), MirrorBlock(ob), MirrorWords(words), settings))
  }

  /** The two validators mirror each other on every input exactly when the minimum reward is positive: only the
      bearish one refuses a target that is not beyond the entry. */
  lemma MirrorExactly(settings: Settings)
    ensures Mirrors(settings) <==> settings.minimumRr > 0.0
  {
    if settings.minimumRr > 0.0 {
      forall candles: seq<Candle>, ob: OrderBlock, words: Words
        ensures SameVerdict(ValidateBullish(candles, ob, words, settings),
                            ValidateBearish(MirrorCandles(candles), MirrorBlock(ob), MirrorWords(words), settings))
      {
        VerdictsMirror(candles, ob, words, settings);
      }
    } else {
      MirrorBreaks(settings);
    }
  }

  lemma MirrorBreaks(settings: Settings)
    requires settings.minimumRr <= 0.0
    ensures !Mirrors(settings)
  {
    hide BullishScan, BearishScan, QualityScore, WarningsOf, Round, MirrorCandles;
    var candles, ob, words := ZeroRewardAllowed(settings);
    var retest := BullishScan(candles, ob, words, settings, 0);
    ScansMirror(candles, ob, words, settings, 0);
    RewardsMirror(ob.target, Entry(retest, ob.zone.high), ob.zone.low - settings.stopBuffer);
    assert !ValidateBearish(MirrorCandles(candles), MirrorBlock(ob), MirrorWords(words), settings).entryAllowed;
  }
}
