/** What every position and trade of a full-system run satisfies: it was opened by a fill that passed the entry
    checks, it is accounted for, and it is reported within the bound of its exits. */
module FullSystemLogProperties {
  import opened Common
  import opened Rounding
  import opened TradeManagement
  import opened PositionAccounting
  import opened TradeSafety
  import opened PositionHistory
  import BacktestRun
  import opened FullSystemRun
  import opened FullSystemProperties

  /** What a run is given. */
  datatype Feed = Feed(candles: seq<Candle>, selections: seq<Option<Selection>>, cfg: FullSystemRun.Config)

  /** A selection that was not trapped, as it waits for its fill. */
  ghost predicate Selected(feed: Feed, w: Waiting) {
    exists i :: 0 <= i < |feed.selections| && feed.selections[i].Some? && !feed.selections[i].value.trapped
      && w == Waiting(feed.selections[i].value.order, feed.selections[i].value.finalTarget)
  }

  // ---------- what the entry checks achieve ----------

  /** The price the reward is measured to: the final target, or without one the last rung. */
  function RewardPrice(w: Waiting): Option<real> {
    if w.finalTarget.None? && w.order.targets != [] then Some(w.order.targets[|w.order.targets| - 1].price)
    else w.finalTarget
  }

  /** The fill has not drifted past either limit that is set. */
  predicate NearIntended(w: Waiting, price: real, cfg: FullSystemRun.Config) {
    var drift, risk := Abs(price - w.order.entry), Abs(w.order.entry - w.order.stop);
    (cfg.maxDriftPrice.Some? ==> drift <= cfg.maxDriftPrice.value)
    && (cfg.maxDriftFraction > 0.0 && risk > 0.0 ==> drift <= cfg.maxDriftFraction * risk)
  }

  /** The risk taken is worth the minimum multiple of spread and slippage, up to the rounding of the ratio. */
  predicate RiskCoversCost(w: Waiting, price: real, cfg: FullSystemRun.Config) {
    var cost := Max(0.0, cfg.spread) + Max(0.0, cfg.slippage);
    Abs(price - w.order.stop) >= (cfg.minimumRiskToCost - HalfUnits(1.0)) * cost
  }

  /** The gain to the target left after costs is worth the minimum multiple of the risk with costs. */
  predicate RewardCoversRisk(w: Waiting, price: real, cfg: FullSystemRun.Config) {
    var cost := Max(0.0, cfg.orderSpread) + Max(0.0, cfg.orderSlippage);
    var risk := Abs(price - w.order.stop) + cost;
    RewardPrice(w).Some? && risk > 0.0
    && Gain(w.order.direction, price, RewardPrice(w).value) - cost >= (cfg.minimumRr - HalfUnits(1.0)) * risk
  }

  lemma DriftExactly(w: Waiting, price: real, cfg: FullSystemRun.Config)
    ensures DriftTooLarge(w, price, cfg) <==> !NearIntended(w, price, cfg)
  {
    var drift, risk := Abs(price - w.order.entry), Abs(w.order.entry - w.order.stop);
    if risk > 0.0 {
      QuotientOrder(drift, risk, cfg.maxDriftFraction);
    }
  }

  lemma CostCovered(w: Waiting, price: real, cfg: FullSystemRun.Config)
    requires !RiskTooSmall(w, price, cfg)
    ensures RiskCoversCost(w, price, cfg)
  {
    hide Round;
    var cost, risk := Max(0.0, cfg.spread) + Max(0.0, cfg.slippage), Abs(price - w.order.stop);
    if cost > 0.0 {
      RoundRError(risk / cost);
      QuotientOrder(risk, cost, cfg.minimumRiskToCost - HalfUnits(1.0));
    }
  }

  lemma RewardCovered(w: Waiting, price: real, cfg: FullSystemRun.Config)
    requires PostCostRr(w, price, cfg) >= cfg.minimumRr > HalfUnits(1.0)
    ensures RewardCoversRisk(w, price, cfg)
  {
    hide Round;
    var cost := Max(0.0, cfg.orderSpread) + Max(0.0, cfg.orderSlippage);
    var risk := Abs(price - w.order.stop) + cost;
    var net := Gain(w.order.direction, price, RewardPrice(w).value) - cost;
    RoundRError(Max(0.0, net / risk));
    QuotientOrder(net, risk, cfg.minimumRr - HalfUnits(1.0));
  }

  /** The fill was near the intended entry, and risk and reward were worth their costs at its price; the reward
      for any minimum that is more than a rounding error. */
  predicate Checked(w: Waiting, price: real, cfg: FullSystemRun.Config) {
    NearIntended(w, price, cfg) && RiskCoversCost(w, price, cfg)
    && (cfg.minimumRr > HalfUnits(1.0) ==> RewardCoversRisk(w, price, cfg))
  }

  lemma AcceptedIsChecked(w: Waiting, price: real, cfg: FullSystemRun.Config)
    requires EntryRefusal(w, price, cfg).None?
    ensures Checked(w, price, cfg)
  {
    hide DriftTooLarge, RiskTooSmall, PostCostRr, NearIntended, RiskCoversCost, RewardCoversRisk;
    DriftExactly(w, price, cfg);
    CostCovered(w, price, cfg);
    if cfg.minimumRr > HalfUnits(1.0) {
      RewardCovered(w, price, cfg);
    }
  }

  // ---------- where positions and trades come from ----------

  ghost predicate FillIn(feed: Feed, w: Waiting, c: Candle): (fills: bool)
    ensures fills ==> FullSystemRun.Fill(w, c, feed.cfg).Filled?
  {
    Selected(feed, w) && c in feed.candles && FullSystemRun.Fill(w, c, feed.cfg).Filled?
  }

  function Opening(feed: Feed, w: Waiting, c: Candle): Position
    requires FullSystemRun.Fill(w, c, feed.cfg).Filled?
  {
    FullSystemRun.PositionFromFill(w, FullSystemRun.Fill(w, c, feed.cfg))
  }

  ghost predicate Enters(feed: Feed, start: Position) {
    exists w, c :: FillIn(feed, w, c) && start == Opening(feed, w, c) && Checked(w, start.entry, feed.cfg)
  }

  /** The fills of the selected orders on the candles that pass the entry checks at their price. */
  ghost function Starts(feed: Feed): iset<Position> {
    iset start | Enters(feed, start)
  }

  ghost predicate AllSelected(feed: Feed, ws: seq<Waiting>) {
    forall k :: 0 <= k < |ws| ==> Selected(feed, ws[k])
  }

  /** Every position held was opened by such a fill and is accounted for, its stop in place; every logged trade
      tells of its fill, within the bound of its exits and with the floor of a sound one. */
  ghost predicate ProperState(feed: Feed, st: FullSystemRun.State) {
    AllOpenFrom(Starts(feed), st.open) && AllLoggedFrom(Starts(feed), st.trades, feed.cfg.management)
    && AllSelected(feed, st.pending)
  }

  lemma OpeningIsProper(feed: Feed, w: Waiting, c: Candle)
    requires FillIn(feed, w, c) && EntryRefusal(w, Opening(feed, w, c).entry, feed.cfg).None?
    ensures OpenFrom(Starts(feed), Opening(feed, w, c))
  {
    hide FullSystemRun.Fill, FillIn, Follows, EntryRefusal, Checked;
    AcceptedIsChecked(w, Opening(feed, w, c).entry, feed.cfg);
    assert Enters(feed, Opening(feed, w, c));
    StartIsOpen(Starts(feed), Opening(feed, w, c));
  }

  // ---------- the run ----------

  ghost predicate ProperWork(feed: Feed, done: FullSystemRun.Worked) {
    AllOpenFrom(Starts(feed), done.open) && AllLoggedFrom(Starts(feed), done.trades, feed.cfg.management)
    && AllSelected(feed, done.pending)
  }

  /** A fill that passes the checks is managed at once: it is held, or logged already. */
  lemma AddFillKeepsProper(feed: Feed, done: FullSystemRun.Worked, w: Waiting, c: Candle)
    requires ProperWork(feed, done) && Selected(feed, w) && c in feed.candles
    ensures ProperWork(feed, AddFill(done, w, FullSystemRun.Fill(w, c, feed.cfg), c, feed.cfg))
  {
    hide Manage, FullSystemRun.Fill, EntryRefusal, Starts, OpenFrom, LoggedFrom, Selected;
    var fill := FullSystemRun.Fill(w, c, feed.cfg);
    if fill.Filled? && EntryRefusal(w, fill.price, feed.cfg).None? {
      var pos := Opening(feed, w, c);
      OpeningIsProper(feed, w, c);
      ManageKeepsHistory(Starts(feed), pos, c, feed.cfg.management);
    }
  }

  lemma {:induction false} WorkingKeepsProper(feed: Feed, ws: seq<Waiting>, c: Candle, k: nat)
    requires k <= |ws| && AllSelected(feed, ws) && c in feed.candles
    ensures ProperWork(feed, FullSystemRun.WorkFirst(ws, c, feed.cfg, k))
    decreases k
  {
    hide AddFill, FullSystemRun.Fill, Starts, OpenFrom, LoggedFrom, Selected;
    if k > 0 {
      WorkingKeepsProper(feed, ws, c, k - 1);
      AddFillKeepsProper(feed, FullSystemRun.WorkFirst(ws, c, feed.cfg, k - 1), ws[k - 1], c);
    }
  }

  lemma BeforeSelectionKeepsProper(feed: Feed, st: FullSystemRun.State, c: Candle)
    requires ProperState(feed, st) && c in feed.candles
    ensures ProperState(feed, BeforeSelection(st, c, feed.cfg))
  {
    hide BacktestRun.ManageFirst, FullSystemRun.WorkFirst, Starts, AllOpenFrom, AllLoggedFrom, AllSelected;
    var cfg, starts := feed.cfg.management, Starts(feed);
    var managed := BacktestRun.ManageFirst(st.open, c, cfg, |st.open|);
    var worked := FullSystemRun.WorkFirst(st.pending, c, feed.cfg, |st.pending|);
    ManagingKeepsHistory(starts, st.open, c, cfg, |st.open|);
    WorkingKeepsProper(feed, st.pending, c, |st.pending|);
    AllOpenAppend(starts, managed.open, worked.open);
    AllLoggedAppend(starts, st.trades, managed.trades, cfg);
    AllLoggedAppend(starts, st.trades + managed.trades, worked.trades, cfg);
  }

  lemma SelectKeepsProper(feed: Feed, st: FullSystemRun.State, i: nat, now: int)
    requires ProperState(feed, st) && i < |feed.selections| && feed.selections[i].Some?
    ensures ProperState(feed, Select(st, feed.selections[i].value, now, feed.cfg))
  {
    hide Starts, AllOpenFrom, AllLoggedFrom;
    var s := feed.selections[i].value;
    if !s.trapped {
      assert Selected(feed, Waiting(s.order, s.finalTarget));
    }
  }

  /** After every candle of a full-system run each position held and each trade logged started as a fill of a
      selected, untrapped order that was near its intended entry and whose risk and reward were worth their costs
      at the fill price; it is accounted for or reported within the bound of its exits, and lost at most one R if
      that fill was sound and time exits are off. */
  lemma {:induction false} FullRunIsProper(feed: Feed, cooldowns: map<string, int>, n: nat)
    requires n <= |feed.candles| == |feed.selections|
    ensures ProperState(feed, FullSystemRun.Replay(FullSystemRun.Start(cooldowns), feed.candles, feed.selections,
                                                   feed.cfg, n))
    decreases n
  {
    hide BeforeSelection, Select, Starts, OpenFrom, LoggedFrom, Selected;
    if n > 0 {
      FullRunIsProper(feed, cooldowns, n - 1);
      var st, c := FullSystemRun.Replay(FullSystemRun.Start(cooldowns), feed.candles, feed.selections, feed.cfg, n - 1),
                   feed.candles[n - 1];
      BeforeSelectionKeepsProper(feed, st, c);
      if feed.selections[n - 1].Some? {
        SelectKeepsProper(feed, BeforeSelection(st, c, feed.cfg), n - 1, c.closeTime);
      }
    }
  }

  // ---------- the end of the test ----------

  /** A short is marked at its worth at the close; a long at what it has credited less its open worth. */
  ghost predicate MarkedInTheEnd(pos: Position, c: Candle, t: Trade) {
    t.tradeId == pos.tradeId && t.reason.EndOfTest? && t.partials == pos.partials
    && (Tradable(pos) ==>
          Abs(t.realizedR - (if pos.direction.Bearish? then TrueMarkR(pos, c.close)
                             else pos.realizedR - (TrueMarkR(pos, c.close) - pos.realizedR))) <= HalfUnits(1.0))
  }

  lemma MarkTradeIsMarked(pos: Position, c: Candle)
    ensures MarkedInTheEnd(pos, c, MarkTrade(pos, c))
  {
    hide Round, MarkedR, TrueMarkR;
    RoundRError(MarkedR(pos, c.close));
    if Tradable(pos) {
      EndMarkRightExactly(pos, c.close);
    }
  }

  lemma {:induction false} MarkFirstAt(ps: seq<Position>, c: Candle, n: nat)
    requires n <= |ps|
    ensures |MarkFirst(ps, c, n)| == n && forall k :: 0 <= k < n ==> MarkFirst(ps, c, n)[k] == MarkTrade(ps[k], c)
    decreases n
  {
    hide MarkTrade;
    if n > 0 {
      MarkFirstAt(ps, c, n - 1);
    }
  }

  /** The returned log is the proper log of the replay followed, when open positions are marked, by one trade for
      each of them: right for a short, with the open part reversed for a long. */
  lemma FinishedFullLog(feed: Feed, cooldowns: map<string, int>)
    requires |feed.candles| == |feed.selections|
    ensures var st := FullSystemRun.Replay(FullSystemRun.Start(cooldowns), feed.candles, feed.selections, feed.cfg,
                                           |feed.candles|);
            var log := FullSystemRun.Finish(st, feed.candles, feed.cfg).trades;
            ProperState(feed, st)
            && (if feed.cfg.closeAtEnd && feed.candles != [] then
                  |log| == |st.trades| + |st.open| && log[..|st.trades|] == st.trades
                  && forall k :: 0 <= k < |st.open| ==>
                       MarkedInTheEnd(st.open[k], feed.candles[|feed.candles| - 1], log[|st.trades| + k])
                else log == st.trades)
  {
    hide FullSystemRun.Replay, ProperState, MarkedInTheEnd, MarkFirst, MarkTrade;
    FullRunIsProper(feed, cooldowns, |feed.candles|);
    var st := FullSystemRun.Replay(FullSystemRun.Start(cooldowns), feed.candles, feed.selections, feed.cfg,
                                   |feed.candles|);
    if feed.cfg.closeAtEnd && feed.candles != [] {
      var c := feed.candles[|feed.candles| - 1];
      MarkFirstAt(st.open, c, |st.open|);
      forall k | 0 <= k < |st.open|
        ensures MarkedInTheEnd(st.open[k], c, MarkTrade(st.open[k], c))
      {
        MarkTradeIsMarked(st.open[k], c);
      }
    }
  }
}
