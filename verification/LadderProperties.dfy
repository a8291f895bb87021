/** What the built ladder is: positive rungs up to the final reward, percentages that make a whole, and exactly
    when every rung lies at or beyond the price the position was filled at. */
module LadderProperties {
  import opened Common
  import opened Rounding
  import opened TradeManagement
  import opened TargetLadder
  import opened TradeSafety

  // ---------- the milestones ----------

  lemma {:induction false} PositiveOnlyPositive(xs: seq<real>)
    ensures forall x :: x in PositiveOnly(xs) <==> x in xs && x > 0.0
    decreases |xs|
  {
    if xs != [] {
      PositiveOnlyPositive(xs[1..]);
      assert xs == [xs[0]] + xs[1..];
    }
  }

  /** Every milestone is positive and at least one reaches the final reward. */
  lemma MilestonesReachFinal(cfg: LadderConfig, estimatedRr: real)
    ensures var ms := Milestones(cfg, estimatedRr);
            (forall k :: 0 <= k < |ms| ==> ms[k] > 0.0) && Largest(ms) >= FinalRr(cfg, estimatedRr) > 0.0
  {
    var ms := Milestones(cfg, estimatedRr);
    PositiveOnlyPositive(if cfg.milestones == [] then [1.0, 2.0, 3.0] else cfg.milestones);
    forall k | 0 <= k < |ms|
      ensures ms[k] > 0.0
    {
      assert ms[k] in ms;
    }
    assert ms[|ms| - 1] in ms;
  }

  function Smallest(xs: seq<real>): (m: real)
    requires xs != []
    ensures m in xs && forall x :: x in xs ==> m <= x
  {
    assert xs == [xs[0]] + xs[1..];
    if |xs| == 1 then xs[0] else Min(xs[0], Smallest(xs[1..]))
  }

  // ---------- the rungs ----------

  lemma {:induction false} RungsAt(entry: real, risk: real, isBuy: bool, cfg: LadderConfig, ms: seq<real>, n: nat)
    requires n <= |ms|
    ensures |Rungs(entry, risk, isBuy, cfg, ms, n)| == n
    ensures forall k :: 0 <= k < n ==> Rungs(entry, risk, isBuy, cfg, ms, n)[k] == Rung(entry, risk, isBuy, cfg, ms, k)
    decreases n
  {
    hide Rung;
    if n > 0 {
      RungsAt(entry, risk, isBuy, cfg, ms, n - 1);
    }
  }

  /** Normalising touches nothing but the percentages. */
  lemma NormalizeKeepsRungs(ts: seq<Target>)
    ensures |Normalize(ts)| == |ts|
    ensures forall k :: 0 <= k < |ts| ==> Normalize(ts)[k] == ts[k].(closePercent := Normalize(ts)[k].closePercent)
  {
    hide Round;
    if TotalPercent(ts) > 0.0 {
      forall k | 0 <= k < |ts|
        ensures Scaled(ts, TotalPercent(ts))[k] == ts[k].(closePercent := Scaled(ts, TotalPercent(ts))[k].closePercent)
      {
        ScaledAt(ts, TotalPercent(ts), k);
      }
    }
  }

  /** The rungs are numbered in order, the last one is the final target, none is filled, every reward is positive,
      and one of them reaches the final reward; without risk there is no ladder. */
  lemma LadderShape(entry: real, stop: real, isBuy: bool, cfg: LadderConfig, estimatedRr: real)
    ensures entry == stop <==> Ladder(entry, stop, isBuy, cfg, estimatedRr) == []
    ensures var ts := Ladder(entry, stop, isBuy, cfg, estimatedRr);
            (forall k :: 0 <= k < |ts| ==>
               ts[k].rr.Some? && ts[k].rr.value > 0.0 && !ts[k].filled
               && ts[k].price == RungPrice(entry, Abs(entry - stop), isBuy, ts[k].rr.value)
               && ts[k].index == if k == |ts| - 1 then FINAL_INDEX else k + 1)
            && (ts != [] ==> exists k :: 0 <= k < |ts| && ts[k].rr.value >= FinalRr(cfg, estimatedRr))
  {
    hide RungPrice, RungPercent, Normalize, Rungs, FinalRr, Milestones;
    var risk, ms := Abs(entry - stop), Milestones(cfg, estimatedRr);
    MilestonesReachFinal(cfg, estimatedRr);
    if risk > 0.0 {
      RungsAt(entry, risk, isBuy, cfg, ms, |ms|);
      NormalizeKeepsRungs(Rungs(entry, risk, isBuy, cfg, ms, |ms|));
      var k :| 0 <= k < |ms| && ms[k] == Largest(ms);
      assert Ladder(entry, stop, isBuy, cfg, estimatedRr)[k].rr.value == ms[k];
    }
  }

  // ---------- the percentages ----------

  predicate PercentsNonNegative(cfg: LadderConfig) {
    forall k :: 0 <= k < |cfg.closePercents| && cfg.closePercents[k].Some? ==> cfg.closePercents[k].value >= 0.0
  }

  lemma RungPercentNonNegative(cfg: LadderConfig, n: nat, k: nat)
    requires PercentsNonNegative(cfg) && k < n
    ensures RungPercent(cfg, n, k) >= 0.0
  {
    hide Round;
    IntegersOnGrid(0, R_SCALE, 100000);
    QuotientOrder(1.0, n as real, 0.0);
    RoundRespectsGridPoint(1.0 / n as real, 0.0, R_SCALE);
  }

  /** With non-negative configured percentages no rung closes a negative share; and when they have a positive total
      the built ladder's shares sum to one within half a unit in the fifth digit per rung. */
  lemma LadderIsWhole(entry: real, stop: real, isBuy: bool, cfg: LadderConfig, estimatedRr: real)
    requires PercentsNonNegative(cfg) && entry != stop
    ensures var ms, ts := Milestones(cfg, estimatedRr), Ladder(entry, stop, isBuy, cfg, estimatedRr);
            var raw := TotalPercent(Rungs(entry, Abs(entry - stop), isBuy, cfg, ms, |ms|));
            NonNegative(ts) && raw >= 0.0
            && (if raw > 0.0 then Abs(TotalPercent(ts) - 1.0) <= HalfUnits(|ts| as real) else TotalPercent(ts) == 0.0)
  {
    hide RungPrice, RungPercent, Normalize, Rungs, Milestones, TotalPercent;
    var risk, ms := Abs(entry - stop), Milestones(cfg, estimatedRr);
    var rungs := Rungs(entry, risk, isBuy, cfg, ms, |ms|);
    RungsAt(entry, risk, isBuy, cfg, ms, |ms|);
    forall k | 0 <= k < |rungs|
      ensures rungs[k].closePercent >= 0.0
    {
      RungPercentNonNegative(cfg, |ms|, k);
    }
    TotalNonNegative(rungs);
    NormalizeKeepsNonNegative(rungs);
    if TotalPercent(rungs) > 0.0 {
      NormalizedTotal(rungs);
    } else {
      NothingToNormalize(rungs);
    }
  }

  lemma NothingToNormalize(ts: seq<Target>)
    requires TotalPercent(ts) <= 0.0
    ensures Normalize(ts) == ts
  {
  }

  lemma {:induction false} TotalNonNegative(ts: seq<Target>)
    requires NonNegative(ts)
    ensures TotalPercent(ts) >= 0.0
    decreases |ts|
  {
    if ts != [] {
      TotalNonNegative(ts[..|ts| - 1]);
    }
  }

  // ---------- rungs and the fill price ----------

  function Side(isBuy: bool): Direction {
    if isBuy then Bullish else Bearish
  }

  /** Rounding keeps the order of the rungs. */
  lemma RungsInOrder(entry: real, risk: real, isBuy: bool, near: real, far: real, filled: real)
    requires risk > 0.0 && near <= far
    ensures Gain(Side(isBuy), filled, RungPrice(entry, risk, isBuy, near))
            <= Gain(Side(isBuy), filled, RungPrice(entry, risk, isBuy, far))
  {
    hide Round;
    ProductNonNegative(risk, far - near);
    assert risk * (far - near) == risk * far - risk * near;
    if isBuy {
      RoundMonotone(entry + risk * near, entry + risk * far, R_SCALE);
    } else {
      RoundMonotone(entry - risk * far, entry - risk * near, R_SCALE);
    }
  }

  ghost predicate RungsBeyond(ts: seq<Target>, direction: Direction, filled: real) {
    forall k :: 0 <= k < |ts| ==> Gain(direction, filled, ts[k].price) >= 0.0
  }

  /** Every rung lies at or beyond the fill price exactly when the rounded price of the smallest milestone does. */
  lemma RungsBeyondExactly(entry: real, stop: real, isBuy: bool, cfg: LadderConfig, estimatedRr: real, filled: real)
    requires entry != stop
    ensures RungsBeyond(Ladder(entry, stop, isBuy, cfg, estimatedRr), Side(isBuy), filled)
            <==> Gain(Side(isBuy), filled,
                      RungPrice(entry, Abs(entry - stop), isBuy, Smallest(Milestones(cfg, estimatedRr)))) >= 0.0
  {
    hide RungPrice, RungPercent, Normalize, Rungs, Milestones;
    var risk, ms := Abs(entry - stop), Milestones(cfg, estimatedRr);
    var ts := Ladder(entry, stop, isBuy, cfg, estimatedRr);
    RungsAt(entry, risk, isBuy, cfg, ms, |ms|);
    NormalizeKeepsRungs(Rungs(entry, risk, isBuy, cfg, ms, |ms|));
    forall k | 0 <= k < |ts|
      ensures ts[k].price == RungPrice(entry, risk, isBuy, ms[k])
      ensures Gain(Side(isBuy), filled, RungPrice(entry, risk, isBuy, Smallest(ms)))
              <= Gain(Side(isBuy), filled, ts[k].price)
    {
      assert ms[k] in ms;
      RungsInOrder(entry, risk, isBuy, Smallest(ms), ms[k], filled);
    }
    var k :| 0 <= k < |ms| && ms[k] == Smallest(ms);
    assert ts[k].price == RungPrice(entry, risk, isBuy, ms[k]);
  }

  lemma RungBeyondGridEntry(entry: real, risk: real, isBuy: bool, milestone: real)
    requires risk >= 0.0 && milestone >= 0.0 && OnGrid(entry, R_SCALE)
    ensures Gain(Side(isBuy), entry, RungPrice(entry, risk, isBuy, milestone)) >= 0.0
  {
    hide Round, OnGrid;
    ProductNonNegative(risk, milestone);
    RoundRespectsGridPoint(entry + risk * milestone, entry, R_SCALE);
    RoundRespectsGridPoint(entry - risk * milestone, entry, R_SCALE);
  }

  /** For an entry on the five-digit grid filled without cost every rung is at or beyond it. */
  lemma GridEntryIsBeyond(entry: real, stop: real, isBuy: bool, cfg: LadderConfig, estimatedRr: real)
    requires entry != stop && OnGrid(entry, R_SCALE)
    ensures RungsBeyond(Ladder(entry, stop, isBuy, cfg, estimatedRr), Side(isBuy), entry)
  {
    hide Round, OnGrid, Ladder, Milestones, FinalRr, RungPrice, Gain;
    var risk, ms := Abs(entry - stop), Milestones(cfg, estimatedRr);
    MilestonesReachFinal(cfg, estimatedRr);
    var near := Smallest(ms);
    var k :| 0 <= k < |ms| && ms[k] == near;
    RungBeyondGridEntry(entry, risk, isBuy, near);
    RungsBeyondExactly(entry, stop, isBuy, cfg, estimatedRr, entry);
  }

  /** A fresh fill carrying a built ladder is sound, so its loss is bounded on every run, exactly when its nearest
      rung survived the rounding and the cost of the fill. */
  lemma LadderedFillSoundExactly(pos: Position, entry: real, stop: real, isBuy: bool, cfg: LadderConfig,
                                 estimatedRr: real)
    requires Fresh(pos) && Tradable(pos) && pos.direction == Side(isBuy) && pos.breakevenBuffer >= 0.0
    requires PercentsNonNegative(cfg) && entry != stop
    requires pos.targets == Ladder(entry, stop, isBuy, cfg, estimatedRr)
    ensures Sound(pos)
            <==> Gain(Side(isBuy), pos.entry,
                      RungPrice(entry, Abs(entry - stop), isBuy, Smallest(Milestones(cfg, estimatedRr)))) >= 0.0
  {
    hide Ladder, RungPrice, Milestones, Smallest, Gain;
    RungsBeyondExactly(entry, stop, isBuy, cfg, estimatedRr, pos.entry);
    LadderIsWhole(entry, stop, isBuy, cfg, estimatedRr);
    if RungsBeyond(pos.targets, Side(isBuy), pos.entry) {
      FreshIsSound(pos);
    }
  }

  // ---------- which rungs there are ----------

  /** The final reward: as configured, or the setup's own estimate where neither one is configured nor it is fixed, and
      three where that is missing or not positive. */
  function FinalReward(cfg: LadderConfig, estimatedRr: real): real {
    match cfg.finalRr
    case Some(rr) => if rr > 0.0 then rr else 3.0
    case None => if !cfg.fixedRr && estimatedRr > 0.0 then estimatedRr else 3.0
  }

  /** Each configured reward is kept exactly when it is positive, in its place. */
  lemma {:induction false} PositivesInOrder(xs: seq<real>, x: real, ys: seq<real>)
    ensures PositiveOnly(xs + [x] + ys) == PositiveOnly(xs) + (if x > 0.0 then [x] else []) + PositiveOnly(ys)
    ensures PositiveOnly([]) == []
    decreases |xs|
  {
    if xs == [] {
      assert [] + [x] + ys == [x] + ys;
      assert ([x] + ys)[1..] == ys;
    } else {
      PositivesInOrder(xs[1..], x, ys);
      assert (xs + [x] + ys)[1..] == xs[1..] + [x] + ys;
    }
  }

  /** The rewards of the rungs: the positive ones configured, by default one, two and three, or without any one, two and
      the final one; with the final one added when all of them are smaller. */
  lemma MilestonesExactly(cfg: LadderConfig, estimatedRr: real)
    ensures var final := FinalReward(cfg, estimatedRr);
            var given := PositiveOnly(if |cfg.milestones| == 0 then [1.0, 2.0, 3.0] else cfg.milestones);
            var base := if |given| == 0 then [1.0, 2.0, final] else given;
            Milestones(cfg, estimatedRr) == if forall x :: x in base ==> x < final then base + [final] else base
  {
    hide PositiveOnly;
    var final := FinalReward(cfg, estimatedRr);
    var given := PositiveOnly(if |cfg.milestones| == 0 then [1.0, 2.0, 3.0] else cfg.milestones);
    var base := if |given| == 0 then [1.0, 2.0, final] else given;
    assert Largest(base) in base;
  }

  // ---------- each rung in full ----------

  /** The share configured for a rung, or an equal one on five digits. */
  function ShareOf(cfg: LadderConfig, n: nat, k: nat): real
    requires k < n
  {
    if k < |cfg.closePercents| && cfg.closePercents[k] != None then cfg.closePercents[k].value
    else Round(1.0 / n as real, 100000.0)
  }

  function SharesUpTo(cfg: LadderConfig, n: nat, k: nat): real
    requires k <= n
    decreases k
  {
    if k == 0 then 0.0 else SharesUpTo(cfg, n, k - 1) + ShareOf(cfg, n, k - 1)
  }

  function Times(risk: real, rr: real): real {
    risk * rr
  }

  lemma PriceSpelledOut(entry: real, risk: real, isBuy: bool, rr: real)
    ensures RungPrice(entry, risk, isBuy, rr)
            == Round(if isBuy then entry + Times(risk, rr) else entry - Times(risk, rr), 100000.0)
  {
    hide Round;
  }

  lemma {:induction false} SharesTotal(entry: real, risk: real, isBuy: bool, cfg: LadderConfig, ms: seq<real>, n: nat)
    requires n <= |ms|
    ensures TotalPercent(Rungs(entry, risk, isBuy, cfg, ms, n)) == SharesUpTo(cfg, |ms|, n)
    decreases n
  {
    hide RungPrice, Round;
    if n > 0 {
      SharesTotal(entry, risk, isBuy, cfg, ms, n - 1);
      var rungs := Rungs(entry, risk, isBuy, cfg, ms, n);
      assert rungs[..|rungs| - 1] == Rungs(entry, risk, isBuy, cfg, ms, n - 1);
    }
  }

  /** Every rung of a ladder with risk: its reward is the milestone, its price that many times the risk beyond the entry,
      and its part the share over the total of the shares, or the share itself without a positive total. */
  lemma RungExactly(entry: real, stop: real, isBuy: bool, cfg: LadderConfig, estimatedRr: real, k: nat)
    requires entry != stop && k < |Milestones(cfg, estimatedRr)|
    ensures var ts, ms := Ladder(entry, stop, isBuy, cfg, estimatedRr), Milestones(cfg, estimatedRr);
            var n, risk := |ms|, if entry > stop then entry - stop else stop - entry;
            var share, total := ShareOf(cfg, n, k), SharesUpTo(cfg, n, n);
            |ts| == n
            && ts[k].rr == Some(ms[k]) && ts[k].index == (if k == n - 1 then 999 else k + 1) && !ts[k].filled
            && ts[k].price == Round(if isBuy then entry + Times(risk, ms[k]) else entry - Times(risk, ms[k]), 100000.0)
            && ts[k].closePercent == (if total > 0.0 then Round(share / total, 100000.0) else share)
  {
    hide RungPrice, Round, Times, TotalPercent, Scaled, SharesUpTo, Milestones;
    var risk, ms := Abs(entry - stop), Milestones(cfg, estimatedRr);
    var rungs := Rungs(entry, risk, isBuy, cfg, ms, |ms|);
    RungsAt(entry, risk, isBuy, cfg, ms, |ms|);
    SharesTotal(entry, risk, isBuy, cfg, ms, |ms|);
    PriceSpelledOut(entry, risk, isBuy, ms[k]);
    if TotalPercent(rungs) > 0.0 {
      ScaledAt(rungs, TotalPercent(rungs), k);
    }
  }
}
