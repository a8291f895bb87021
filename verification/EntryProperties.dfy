/** When an order is filled, at what price, what position the fill opens, and exactly when the full-system run refuses
    it: all in the fields of the order, the candle and the settings. */
module EntryProperties {
  import opened Common
  import opened Rounding
  import opened TradeManagement
  import BacktestRun
  import FullSystemRun

  type Order = BacktestRun.Order

  // ---------- fills ----------

  function ExpiresAt(order: Order): int {
    match order.expiry
    case Some(time) => time
    case None => order.signalTime + 20 * 60
  }

  /** The candle is closed, opens before the expiry, and ends after the order becomes valid, or at that moment if it
      does not open before it. */
  predicate InTime(order: Order, c: Candle) {
    c.isClosed && c.openTime < ExpiresAt(order)
    && (order.tag.validFrom < c.closeTime || (order.tag.validFrom == c.closeTime && c.openTime >= order.tag.validFrom))
  }

  /** Against the trade by half the spread, and for a market order by the slippage too; neither can help. */
  function FillPrice(order: Order, c: Candle, spread: real, slippage: real): real {
    var half, slip := if spread > 0.0 then spread / 2.0 else 0.0, if slippage > 0.0 then slippage else 0.0;
    var mid, cost := if order.tag.orderType.Market? then c.open else order.entry,
                     if order.tag.orderType.Market? then half + slip else half;
    match order.direction
    case Bullish => Round(mid + cost, 10000000000.0)
    case Bearish => Round(mid - cost, 10000000000.0)
    case NoDirection => mid
  }

  predicate LimitTouched(order: Order, c: Candle) {
    c.low <= order.entry && order.entry <= c.high
  }

  /** An order is filled exactly on a candle in time that, for a limit order, touches its entry; and otherwise the
      reason says what was missing. */
  lemma FilledExactly(order: Order, c: Candle, spread: real, slippage: real)
    ensures var fill := BacktestRun.SimulateOrderFill(order, c, spread, slippage);
            (fill.Filled? <==> InTime(order, c) && (order.tag.orderType.Market? || LimitTouched(order, c)))
            && (fill.Filled? ==>
                  fill.price == FillPrice(order, c, spread, slippage)
                  && fill.time == (if order.tag.orderType.Market? then c.openTime else c.closeTime)
                  && (fill.ambiguous <==> order.tag.orderType.Limit?
                                          && ((order.direction.Bullish? && c.low <= order.stop)
                                              || (order.direction.Bearish? && c.high >= order.stop))))
            && (fill.NotFilled? ==>
                  (fill.reason.CandleNotClosed? <==> !c.isClosed)
                  && (fill.reason.OrderExpired? <==> c.isClosed && ExpiresAt(order) <= c.openTime)
                  && (fill.reason.LimitNotTouched? <==> InTime(order, c)))
  {
    hide Round;
  }

  /** A fill opens the whole size with the order's own stop and ladder, and the break-even defaults. */
  lemma OpensExactly(order: Order, fill: BacktestRun.Fill)
    requires fill.Filled?
    ensures var pos := BacktestRun.PositionFromFill(order, fill);
            pos.tradeId == order.id && pos.direction == order.direction && pos.entry == fill.price
            && pos.stop == order.stop && pos.currentStop == order.stop && pos.targets == order.targets
            && pos.remaining == 1.0 && pos.realizedR == 0.0 && pos.partials == [] && pos.entryTime == fill.time
            && pos.session == order.session && pos.order == order.tag
            && pos.moveToBreakeven && pos.breakevenAfterIndex == 1 && pos.breakevenAfterRr == None
            && pos.breakevenBuffer == 0.0
  {
  }

  // ---------- the entry checks ----------

  function Against(x: real): real {
    if x > 0.0 then x else 0.0
  }

  function Apart(x: real, y: real): real {
    if x > y then x - y else y - x
  }

  /** The fill is further from the intended entry than a limit that is set allows: in price, or as a share of the
      intended risk. */
  predicate Drifted(w: FullSystemRun.Waiting, price: real, cfg: FullSystemRun.Config) {
    (cfg.maxDriftPrice.Some? && Apart(price, w.order.entry) > cfg.maxDriftPrice.value)
    || (cfg.maxDriftFraction > 0.0 && w.order.entry != w.order.stop
        && Apart(price, w.order.entry) > cfg.maxDriftFraction * Apart(w.order.entry, w.order.stop))
  }

  predicate TooSmall(w: FullSystemRun.Waiting, price: real, cfg: FullSystemRun.Config) {
    var cost := Against(cfg.spread) + Against(cfg.slippage);
    cost > 0.0 && Round(Apart(price, w.order.stop) / cost, 100000.0) < cfg.minimumRiskToCost
  }

  /** The reward after costs over the risk with costs; nothing without a target or without any risk. */
  function RewardAfterCost(w: FullSystemRun.Waiting, price: real, cfg: FullSystemRun.Config): real {
    var cost := Against(cfg.orderSpread) + Against(cfg.orderSlippage);
    var risk := Apart(price, w.order.stop) + cost;
    var goal := if w.finalTarget.Some? then w.finalTarget
                else if |w.order.targets| > 0 then Some(w.order.targets[|w.order.targets| - 1].price) else None;
    if goal.None? || risk == 0.0 then 0.0
    else
      var gain := match w.order.direction
                  case Bullish => goal.value - price
                  case Bearish => price - goal.value
                  case NoDirection => 0.0;
      if gain <= cost then Round(0.0, 100000.0) else Round((gain - cost) / risk, 100000.0)
  }

  /** A fill is refused exactly for too much drift, else for too little risk over its cost, else for too little
      reward. */
  lemma RefusedExactly(w: FullSystemRun.Waiting, price: real, cfg: FullSystemRun.Config)
    ensures FullSystemRun.EntryRefusal(w, price, cfg)
            == if Drifted(w, price, cfg) then Some(FullSystemRun.EntryDrift)
               else if TooSmall(w, price, cfg) then Some(FullSystemRun.RiskTooSmallForCost)
               else if RewardAfterCost(w, price, cfg) < cfg.minimumRr then Some(FullSystemRun.RrBelowMinimum)
               else None
  {
    hide FullSystemRun.DriftTooLarge, FullSystemRun.PostCostRr, FullSystemRun.RiskTooSmall, Drifted, TooSmall,
         RewardAfterCost;
    DriftSpelledOut(w, price, cfg);
    SmallSpelledOut(w, price, cfg);
    RewardSpelledOut(w, price, cfg);
  }

  lemma DriftSpelledOut(w: FullSystemRun.Waiting, price: real, cfg: FullSystemRun.Config)
    ensures FullSystemRun.DriftTooLarge(w, price, cfg) <==> Drifted(w, price, cfg)
  {
    var drift, risk := Apart(price, w.order.entry), Apart(w.order.entry, w.order.stop);
    if risk > 0.0 {
      QuotientOrder(drift, risk, cfg.maxDriftFraction);
    }
  }

  lemma SmallSpelledOut(w: FullSystemRun.Waiting, price: real, cfg: FullSystemRun.Config)
    ensures FullSystemRun.RiskTooSmall(w, price, cfg) <==> TooSmall(w, price, cfg)
  {
    hide Round;
  }

  lemma RewardSpelledOut(w: FullSystemRun.Waiting, price: real, cfg: FullSystemRun.Config)
    ensures FullSystemRun.PostCostRr(w, price, cfg) == RewardAfterCost(w, price, cfg)
  {
    hide Round;
    var cost := Against(cfg.orderSpread) + Against(cfg.orderSlippage);
    var risk := Apart(price, w.order.stop) + cost;
    if risk > 0.0 {
      var goal := if w.finalTarget.Some? then w.finalTarget
                  else if |w.order.targets| > 0 then Some(w.order.targets[|w.order.targets| - 1].price) else None;
      if goal.Some? {
        QuotientOrder(Gain(w.order.direction, price, goal.value) - cost, risk, 0.0);
      }
    }
  }

  /** A full-system fill opens the same position; an order without a ladder exits at its final target, for 0.34 of the size. */
  lemma OpensWithTarget(w: FullSystemRun.Waiting, fill: BacktestRun.Fill)
    requires fill.Filled?
    ensures var pos, plain := FullSystemRun.PositionFromFill(w, fill), BacktestRun.PositionFromFill(w.order, fill);
            (w.order.targets != [] || w.finalTarget.None? ==> pos == plain)
            && (w.order.targets == [] && w.finalTarget.Some? ==>
                  pos == plain.(targets := pos.targets) && |pos.targets| == 1
                  && pos.targets[0].index == 999 && pos.targets[0].price == w.finalTarget.value
                  && pos.targets[0].closePercent == 0.34 && pos.targets[0].rr.None? && !pos.targets[0].filled)
  {
  }
}
