/** What every run of trade management keeps: the size adds up, the credited R is the
    size-weighted R of the exits up to a rounding bound that does not grow with the run,
    the stop never moves backwards and the loss is bounded. */
module PositionAccounting {
  import opened Common
  import opened Rounding
  import opened TradeManagement

  // ---------- sums over the partial exits ----------

  function ClosedSize(ps: seq<Partial>): real {
    if ps == [] then 0.0 else ClosedSize(ps[..|ps| - 1]) + ps[|ps| - 1].closePercent
  }

  /** Total absolute size: differs from ClosedSize only when some percentage is negative. */
  function GrossSize(ps: seq<Partial>): real {
    if ps == [] then 0.0 else GrossSize(ps[..|ps| - 1]) + Abs(ps[|ps| - 1].closePercent)
  }

  /** What closing `size` at `price` is exactly worth, in R. */
  function Worth(direction: Direction, entry: real, stop: real, size: real, price: real): real {
    size * ExactR(direction, entry, stop, price)
  }

  /** Size-weighted exact R of the partial exits. */
  function WeightedR(direction: Direction, entry: real, stop: real, ps: seq<Partial>): real {
    if ps == [] then 0.0
    else
      var last := ps[|ps| - 1];
      WeightedR(direction, entry, stop, ps[..|ps| - 1]) + Worth(direction, entry, stop, last.closePercent, last.price)
  }

  function Credited(pos: Position): real {
    WeightedR(pos.direction, pos.entry, pos.stop, pos.partials)
  }

  lemma SumsAfterExit(pos: Position, ps: seq<Partial>, exit: Partial)
    ensures ClosedSize(ps + [exit]) == ClosedSize(ps) + exit.closePercent
    ensures GrossSize(ps + [exit]) == GrossSize(ps) + Abs(exit.closePercent)
    ensures WeightedR(pos.direction, pos.entry, pos.stop, ps + [exit])
         == WeightedR(pos.direction, pos.entry, pos.stop, ps)
            + Worth(pos.direction, pos.entry, pos.stop, exit.closePercent, exit.price)
  {
    assert (ps + [exit])[..|ps|] == ps;
  }

  function FilledCount(ts: seq<Target>): nat {
    if ts == [] then 0 else FilledCount(ts[..|ts| - 1]) + (if ts[|ts| - 1].filled then 1 else 0)
  }

  lemma {:induction false} FilledCountAfterFill(ts: seq<Target>, k: nat)
    requires k < |ts| && !ts[k].filled
    ensures FilledCount(ts[k := ts[k].(filled := true)]) == FilledCount(ts) + 1
  {
    var after := ts[k := ts[k].(filled := true)];
    var n := |ts| - 1;
    if k == n {
      assert after[..n] == ts[..n];
    } else {
      assert after[..n] == ts[..n][k := ts[..n][k].(filled := true)];
      FilledCountAfterFill(ts[..n], k);
    }
  }

  lemma {:induction false} FilledCountBound(ts: seq<Target>)
    ensures FilledCount(ts) <= |ts|
  {
    if ts != [] {
      FilledCountBound(ts[..|ts| - 1]);
    }
  }

  lemma RMultipleError(direction: Direction, entry: real, stop: real, price: real)
    ensures Abs(RMultiple(direction, entry, stop, price) - ExactR(direction, entry, stop, price)) <= HalfUnits(1.0)
  {
    hide Round;
    var risk := Risk(direction, entry, stop);
    if risk > 0.0 {
      RoundRError(Gain(direction, entry, price) / risk);
    }
  }

  /** What is credited for an exit is off by at most half a unit times its size. */
  lemma PayoffError(pos: Position, size: real, price: real)
    ensures Abs(Payoff(pos, size, price) - Worth(pos.direction, pos.entry, pos.stop, size, price)) <= HalfUnits(Abs(size))
  {
    hide RMultiple, ExactR, HalfUnits;
    RMultipleError(pos.direction, pos.entry, pos.stop, price);
    WeightedRError(size, RMultiple(pos.direction, pos.entry, pos.stop, price),
                   ExactR(pos.direction, pos.entry, pos.stop, price));
  }

  // ---------- the accounting invariant ----------

  /** Same trade: nothing but the running state differs. */
  predicate SameTrade(p: Position, q: Position) {
    p == q.(currentStop := p.currentStop, targets := p.targets, remaining := p.remaining,
            realizedR := p.realizedR, partials := p.partials)
    && |p.targets| == |q.targets|
    && forall k :: 0 <= k < |p.targets| ==> p.targets[k] == q.targets[k].(filled := p.targets[k].filled)
  }

  /** The size still open and the sizes closed make up the whole; every rung is filled at most once. */
  ghost predicate SizesAddUp(pos: Position) {
    pos.remaining >= 0.0
    && pos.remaining + ClosedSize(pos.partials) == 1.0
    && |pos.partials| <= FilledCount(pos.targets)
  }

  /** The credited R is off by at most half a unit per rounding of the running total and half a
      unit times the gross size for the rounded R multiples. */
  ghost predicate WithinError(pos: Position, roundings: nat) {
    Abs(pos.realizedR - Credited(pos)) <= HalfUnits(roundings as real + GrossSize(pos.partials))
  }

  ghost predicate Balanced(pos: Position, roundings: nat) {
    SizesAddUp(pos) && WithinError(pos, roundings)
  }

  ghost predicate Accounted(pos: Position) {
    Balanced(pos, |pos.partials|) && OnGrid(pos.realizedR, R_SCALE)
  }

  lemma FillKeepsSizes(pos: Position, c: Candle, k: nat)
    requires k < |pos.targets| && !pos.targets[k].filled && SizesAddUp(pos)
    ensures SizesAddUp(FillTarget(pos, c, k)) && SameTrade(FillTarget(pos, c, k), pos)
  {
    var next := FillTarget(pos, c, k);
    SumsAfterExit(pos, pos.partials, next.partials[|pos.partials|]);
    FilledCountAfterFill(pos.targets, k);
  }

  lemma FillKeepsError(pos: Position, c: Candle, k: nat, roundings: nat)
    requires k < |pos.targets| && WithinError(pos, roundings)
    ensures WithinError(FillTarget(pos, c, k), roundings)
  {
    hide Payoff, Worth, MovesToBreakeven, BreakevenLevel;
    var next, price := FillTarget(pos, c, k), pos.targets[k].price;
    var exit := next.partials[|pos.partials|];
    PayoffError(pos, exit.closePercent, price);
    SumsAfterExit(pos, pos.partials, exit);
  }

  lemma {:induction false} FillsKeepBalance(pos: Position, c: Candle, hits: seq<nat>, roundings: nat)
    requires Balanced(pos, roundings)
    requires forall j :: 0 <= j < |hits| ==> hits[j] < |pos.targets| && !pos.targets[hits[j]].filled
    requires forall i, j :: 0 <= i < j < |hits| ==> hits[i] < hits[j]
    ensures Balanced(FillTargets(pos, c, hits), roundings)
    ensures SameTrade(FillTargets(pos, c, hits), pos)
    ensures |FillTargets(pos, c, hits).partials| >= |pos.partials|
    ensures |FillTargets(pos, c, hits).partials| == |pos.partials| ==> FillTargets(pos, c, hits) == pos
    decreases |hits|
  {
    if hits != [] && pos.remaining > 0.0 {
      FillKeepsSizes(pos, c, hits[0]);
      FillKeepsError(pos, c, hits[0], roundings);
      FillsKeepBalance(FillTarget(pos, c, hits[0]), c, hits[1..], roundings);
    }
  }

  /** Rounding the credited R at the end of a candle costs one half unit, and only when something was filled. */
  lemma SettleKeepsBalance(before: Position, after: Position, c: Candle)
    requires Accounted(before) && Balanced(after, |before.partials|)
    requires |after.partials| >= |before.partials|
    requires |after.partials| == |before.partials| ==> after == before
    ensures Settle(after, c).StillOpen? ==> Accounted(Settle(after, c).open)
  {
    var settled := after.(remaining := Max(0.0, after.remaining), realizedR := Round(after.realizedR, R_SCALE));
    RoundLandsOnGrid(after.realizedR, R_SCALE);
    if |after.partials| == |before.partials| {
      RoundFixesGrid(after.realizedR, R_SCALE);
    } else {
      RoundRError(after.realizedR);
    }
  }

  lemma FreshIsAccounted(pos: Position)
    requires Fresh(pos)
    ensures Accounted(pos)
  {
    assert 0.0 * R_SCALE == 0.0;
  }

  // ---------- what a closed trade is worth ----------

  /** The price at which the size still open left the market. */
  function FinalPrice(last: Position, trade: Trade): real {
    if trade.reason.IsTimeExit() && trade.exitPrice.Some? then trade.exitPrice.value else last.currentStop
  }

  /** Exact R of the whole trade, each exit weighted by its size.  A ladder that filled
      leaves at most a billionth of the size uncounted. */
  function ExactTradeR(last: Position, trade: Trade): real {
    WeightedR(last.direction, last.entry, last.stop, trade.partials)
    + if trade.reason.FinalTarget? then 0.0
      else Worth(last.direction, last.entry, last.stop, 1.0 - ClosedSize(trade.partials), FinalPrice(last, trade))
  }

  ghost predicate ReportedFaithfully(last: Position, trade: Trade) {
    var rest := 1.0 - ClosedSize(trade.partials);
    Abs(trade.realizedR - ExactTradeR(last, trade))
    <= HalfUnits(|trade.partials| as real + 1.0 + GrossSize(trade.partials) + Abs(rest))
    && |trade.partials| <= |last.targets|
    && 0.0 <= rest
    && (trade.reason.FinalTarget? ==> rest <= 0.000000001)
  }

  lemma CloseAllReportsFaithfully(pos: Position, c: Candle, reason: ExitReason, price: real, ambiguous: bool,
                                  exitPrice: Option<real>)
    requires Accounted(pos) && !reason.FinalTarget?
    requires if reason.IsTimeExit() then exitPrice == Some(price) else price == pos.currentStop
    ensures var out := CloseAll(pos, c, reason, price, ambiguous, exitPrice);
            ReportedFaithfully(out.last, out.trade)
  {
    hide Payoff, Worth, Nearest;
    var out := CloseAll(pos, c, reason, price, ambiguous, exitPrice);
    PayoffError(pos, pos.remaining, price);
    RoundSumR(pos.realizedR + Payoff(pos, pos.remaining, price),
              Credited(pos) + Worth(pos.direction, pos.entry, pos.stop, pos.remaining, price),
              |pos.partials| as real + GrossSize(pos.partials) + Abs(pos.remaining));
    FilledCountBound(pos.targets);
    assert 1.0 - ClosedSize(out.trade.partials) == pos.remaining;
  }

  lemma SettleReportsFaithfully(before: Position, after: Position, c: Candle)
    requires Accounted(before) && Balanced(after, |before.partials|)
    requires |after.partials| >= |before.partials|
    requires Settle(after, c).Closed?
    ensures ReportedFaithfully(Settle(after, c).last, Settle(after, c).trade)
  {
    var out := Settle(after, c);
    RoundRError(after.realizedR);
    FilledCountBound(after.targets);
  }

  lemma AccountedIsBalanced(pos: Position)
    requires Accounted(pos)
    ensures Balanced(pos, |pos.partials|)
  {
  }

  /** One candle: an open position stays accounted for, a closed one is reported faithfully. */
  lemma ManageKeepsAccount(pos: Position, c: Candle, cfg: Config)
    requires Accounted(pos)
    ensures match Manage(pos, c, cfg)
            case StillOpen(next) =>
              Accounted(next) && SameTrade(next, pos) && 0.000000001 < next.remaining
            case Closed(last, trade) => ReportedFaithfully(last, trade) && SameTrade(last, pos)
            case _ => !Tradable(pos)
  {
    hide Payoff, TimeExit, StopTouched, Nearest, FillTargets, ClosePrice, ReportedFaithfully, Accounted,
         Balanced;
    AccountedIsBalanced(pos);
    if Tradable(pos) {
      var timeExit := TimeExit(pos, c, cfg);
      var hits := HitIndices(pos, c, 0);
      if timeExit.Some? {
        CloseAllReportsFaithfully(pos, c, timeExit.value, ClosePrice(pos, c), false, Some(ClosePrice(pos, c)));
      } else if StopTouched(pos.direction, pos.currentStop, c) {
        if hits != [] && cfg.stopFirst {
          CloseAllReportsFaithfully(pos, c, AmbiguousStopFirst, pos.currentStop, true, None);
        } else {
          CloseAllReportsFaithfully(pos, c, StopReason(pos), pos.currentStop, false, None);
        }
      } else {
        var filled := FillTargets(pos, c, hits);
        FillsKeepBalance(pos, c, hits, |pos.partials|);
        if Settle(filled, c).StillOpen? {
          SettleKeepsBalance(pos, filled, c);
        } else {
          SettleReportsFaithfully(pos, filled, c);
        }
      }
    }
  }

  /** Conservation over whole runs from an accounted position: the size open plus the sizes
      closed is the whole, and the reported R is the exact size-weighted R up to the bound. */
  lemma {:induction false} RunKeepsAccount(pos: Position, candles: seq<Candle>, cfg: Config)
    requires Accounted(pos)
    ensures match Run(pos, candles, cfg)
            case StillOpen(last) => Accounted(last) && SameTrade(last, pos)
            case Closed(last, trade) => ReportedFaithfully(last, trade) && SameTrade(last, pos)
            case _ => false
    decreases |candles|
  {
    if candles != [] {
      ManageKeepsAccount(pos, candles[0], cfg);
      match Manage(pos, candles[0], cfg)
      case StillOpen(next) => RunKeepsAccount(next, candles[1..], cfg);
      case Closed(_, _) =>
      case _ => RunKeepsAccount(pos, candles[1..], cfg);
    }
  }

  /** The headline bound: with T rungs and non-negative percentages the reported R of any trade,
      however long it ran, is within (T + 2) half units of the exact size-weighted R. */
  lemma ReportedRBound(pos: Position, candles: seq<Candle>, cfg: Config)
    requires Fresh(pos)
    requires forall k :: 0 <= k < |pos.targets| ==> pos.targets[k].closePercent >= 0.0
    ensures match Run(pos, candles, cfg)
            case StillOpen(last) => last.remaining + ClosedSize(last.partials) == 1.0
            case Closed(last, trade) =>
              Abs(trade.realizedR - ExactTradeR(last, trade)) <= HalfUnits(|pos.targets| as real + 2.0)
            case _ => false
  {
    hide Run, ExactTradeR, GrossSize, ClosedSize, FilledCount;
    FreshIsAccounted(pos);
    RunKeepsAccount(pos, candles, cfg);
    RunClosesNonNegative(pos, candles, cfg);
    match Run(pos, candles, cfg)
    case Closed(last, trade) => GrossIsClosed(trade.partials);
    case _ =>
  }

  predicate NonNegativeSizes(ts: seq<Target>, ps: seq<Partial>) {
    (forall k :: 0 <= k < |ts| ==> ts[k].closePercent >= 0.0)
    && (forall k :: 0 <= k < |ps| ==> ps[k].closePercent >= 0.0)
  }

  lemma {:induction false} GrossIsClosed(ps: seq<Partial>)
    requires forall k :: 0 <= k < |ps| ==> ps[k].closePercent >= 0.0
    ensures GrossSize(ps) == ClosedSize(ps)
  {
    if ps != [] {
      GrossIsClosed(ps[..|ps| - 1]);
    }
  }

  lemma {:induction false} FillsKeepNonNegative(pos: Position, c: Candle, hits: seq<nat>)
    requires NonNegativeSizes(pos.targets, pos.partials)
    requires forall j :: 0 <= j < |hits| ==> hits[j] < |pos.targets|
    ensures NonNegativeSizes(FillTargets(pos, c, hits).targets, FillTargets(pos, c, hits).partials)
    decreases |hits|
  {
    hide Payoff, MovesToBreakeven, BreakevenLevel;
    if hits != [] && pos.remaining > 0.0 {
      FillsKeepNonNegative(FillTarget(pos, c, hits[0]), c, hits[1..]);
    }
  }

  /** Where the ladder and the partial exits of an outcome come from. */
  lemma OutcomeShape(pos: Position, c: Candle, cfg: Config)
    ensures var filled := FillTargets(pos, c, HitIndices(pos, c, 0));
            match Manage(pos, c, cfg)
            case StillOpen(next) => next.targets == filled.targets && next.partials == filled.partials
            case Closed(last, trade) =>
              last.partials == trade.partials
              && ((last.targets == pos.targets && last.partials == pos.partials)
                  || (last.targets == filled.targets && last.partials == filled.partials))
            case _ => true
  {
    hide Payoff, TimeExit, StopTouched, FillTargets, HitIndices, Round, ExitPrice, StopReason, ClosePrice;
  }

  lemma {:induction false} RunClosesNonNegative(pos: Position, candles: seq<Candle>, cfg: Config)
    requires NonNegativeSizes(pos.targets, pos.partials)
    ensures match Run(pos, candles, cfg)
            case StillOpen(last) => NonNegativeSizes(last.targets, last.partials)
            case Closed(last, trade) =>
              NonNegativeSizes(last.targets, last.partials) && last.partials == trade.partials
            case _ => true
    decreases |candles|
  {
    hide Manage, FillTargets;
    if candles != [] {
      OutcomeShape(pos, candles[0], cfg);
      FillsKeepNonNegative(pos, candles[0], HitIndices(pos, candles[0], 0));
      match Manage(pos, candles[0], cfg)
      case StillOpen(next) => RunClosesNonNegative(next, candles[1..], cfg);
      case Closed(_, _) =>
      case _ => RunClosesNonNegative(pos, candles[1..], cfg);
    }
  }
}
