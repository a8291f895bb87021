/** What every entry of a run's trade log satisfies: it was opened by a fill of one of the signals' orders, its
    reported R is that of its exits up to the rounding bound, and without time exits it lost at most one R. */
module TradeLogProperties {
  import opened Common
  import opened Rounding
  import opened TradeManagement
  import opened PositionAccounting
  import opened TradeSafety
  import opened PositionHistory
  import opened BacktestRun
  import opened BacktestProperties

  /** What a run is given. */
  datatype Feed = Feed(candles: seq<Candle>, signals: seq<Signal>, cfg: RunConfig)

  function FillOf(feed: Feed, order: Order, c: Candle): Fill {
    SimulateOrderFill(order, c, feed.cfg.spread, feed.cfg.slippage)
  }

  /** The order of one of the signals. */
  ghost predicate Signalled(feed: Feed, order: Order) {
    exists i :: 0 <= i < |feed.signals| && feed.signals[i].order == order
  }

  ghost predicate FillIn(feed: Feed, order: Order, c: Candle): (fills: bool)
    ensures fills ==> FillOf(feed, order, c).Filled?
  {
    Signalled(feed, order) && c in feed.candles && FillOf(feed, order, c).Filled?
  }

  function Opening(feed: Feed, order: Order, c: Candle): Position
    requires FillOf(feed, order, c).Filled?
  {
    PositionFromFill(order, FillOf(feed, order, c))
  }

  ghost predicate Start(feed: Feed, start: Position) {
    (exists order, c :: FillIn(feed, order, c) && start == Opening(feed, order, c))
    && (start.order.orderType.Limit? ==> start.entryTime >= start.order.validFrom)
  }

  /** The fills of the signals' orders on the candles, no limit order entered before it is valid. */
  ghost function Starts(feed: Feed): iset<Position> {
    iset start | Start(feed, start)
  }

  ghost predicate AllSignalled(feed: Feed, orders: seq<Order>) {
    forall k :: 0 <= k < |orders| ==> Signalled(feed, orders[k])
  }

  /** Every position held was opened by such a fill and is accounted for, its stop in place; every logged trade
      tells of its fill, within the bound of its exits and with the floor of a sound one. */
  ghost predicate ProperState(feed: Feed, st: State) {
    AllOpenFrom(Starts(feed), st.open) && AllLoggedFrom(Starts(feed), st.trades, feed.cfg.management)
    && AllSignalled(feed, st.pending)
  }

  lemma OpeningIsProper(feed: Feed, order: Order, c: Candle)
    requires FillIn(feed, order, c)
    ensures OpenFrom(Starts(feed), Opening(feed, order, c))
  {
    hide EntryCost, StopTouched, FillIn, Follows;
    assert Start(feed, Opening(feed, order, c));
    StartIsOpen(Starts(feed), Opening(feed, order, c));
  }

  // ---------- the run ----------

  lemma {:induction false} WorkingKeepsProper(feed: Feed, orders: seq<Order>, c: Candle, k: nat)
    requires k <= |orders| && AllSignalled(feed, orders) && c in feed.candles
    ensures AllOpenFrom(Starts(feed), WorkFirst(orders, c, feed.cfg, k).entered)
    ensures AllSignalled(feed, WorkFirst(orders, c, feed.cfg, k).pending)
    decreases k
  {
    hide SimulateOrderFill, Starts, OpenFrom, Signalled;
    if k > 0 {
      WorkingKeepsProper(feed, orders, c, k - 1);
      var fill := FillOf(feed, orders[k - 1], c);
      if fill.Filled? {
        OpeningIsProper(feed, orders[k - 1], c);
        AllOpenAppend(Starts(feed), WorkFirst(orders, c, feed.cfg, k - 1).entered, [Opening(feed, orders[k - 1], c)]);
      }
    }
  }

  lemma TakeSignalKeepsProper(feed: Feed, st: State, i: nat, c: Candle, following: Option<Candle>)
    requires ProperState(feed, st) && i < |feed.signals| && (following.Some? ==> following.value in feed.candles)
    ensures ProperState(feed, TakeSignal(st, feed.signals[i], c, following, feed.cfg))
  {
    hide SimulateOrderFill, Starts, OpenFrom, AllLoggedFrom;
    var order := feed.signals[i].order;
    assert Signalled(feed, order);
    if following.Some? && FillOf(feed, order, following.value).Filled? {
      OpeningIsProper(feed, order, following.value);
      AllOpenAppend(Starts(feed), st.open, [Opening(feed, order, following.value)]);
    }
  }

  lemma {:induction false} SignalsKeepProper(feed: Feed, st: State, c: Candle, following: Option<Candle>)
    requires ProperState(feed, st) && (following.Some? ==> following.value in feed.candles)
    ensures ProperState(feed, TakeSignals(st, feed.signals, c, following, feed.cfg))
    decreases |feed.signals| - st.next
  {
    hide TakeSignal, ProperState;
    if Due(st, feed.signals, c) {
      var next := TakeSignal(st, feed.signals[st.next], c, following, feed.cfg);
      TakeSignalKeepsProper(feed, st, st.next, c, following);
      TakeSignalAdvances(st, feed.signals[st.next], c, following, feed.cfg);
      SignalsKeepProper(feed, next, c, following);
    }
  }

  lemma StepKeepsProper(feed: Feed, st: State, c: Candle, following: Option<Candle>)
    requires ProperState(feed, st) && c in feed.candles && (following.Some? ==> following.value in feed.candles)
    ensures ProperState(feed, Step(st, feed.signals, c, following, feed.cfg))
  {
    hide ManageFirst, WorkFirst, TakeSignals, Starts, AllOpenFrom, AllLoggedFrom, AllSignalled;
    var managed := ManageFirst(st.open, c, feed.cfg.management, |st.open|);
    ManagingKeepsHistory(Starts(feed), st.open, c, feed.cfg.management, |st.open|);
    WorkingKeepsProper(feed, st.pending, c, |st.pending|);
    AllOpenAppend(Starts(feed), managed.open, WorkFirst(st.pending, c, feed.cfg, |st.pending|).entered);
    AllLoggedAppend(Starts(feed), st.trades, managed.trades, feed.cfg.management);
    SignalsKeepProper(feed, BeforeSignals(st, c, feed.cfg), c, following);
  }

  /** After every candle, every position held and every trade logged is proper: it started as a fill of a signal's
      order, never early for a limit order, is accounted for or reported within the bound of its exits, and lost at
      most one R if that fill was sound and time exits are off. */
  lemma {:induction false} RunIsProper(feed: Feed, n: nat)
    requires n <= |feed.candles|
    ensures ProperState(feed, Replay(feed.candles, feed.signals, feed.cfg, n))
    decreases n
  {
    hide Step, Starts, OpenFrom, LoggedFrom;
    if n > 0 {
      RunIsProper(feed, n - 1);
      StepKeepsProper(feed, Replay(feed.candles, feed.signals, feed.cfg, n - 1), feed.candles[n - 1],
                      Following(feed.candles, n - 1));
    }
  }

  // ---------- the end of the test ----------

  /** What the end of the test makes of an open position, up to the same kind of bound: its exits and the size still
      open at the last close.  A stop of zero counts as missing there. */
  ghost predicate EndedFaithfully(pos: Position, c: Candle, t: Trade) {
    t.tradeId == pos.tradeId && t.reason.EndOfTest? && t.partials == pos.partials
    && (pos.stop != 0.0 ==>
          Abs(t.realizedR - (Credited(pos) + Worth(pos.direction, pos.entry, pos.stop, pos.remaining, ClosePrice(pos, c))))
          <= HalfUnits(|pos.partials| as real + 1.0 + GrossSize(pos.partials) + Abs(pos.remaining)))
  }

  lemma EndTradeFaithful(pos: Position, c: Candle)
    requires Accounted(pos)
    ensures EndedFaithfully(pos, c, EndTrade(pos, c))
  {
    hide Worth, Nearest, Payoff, ClosePrice, WeightedR, EndTrade;
    EndTradeIs(pos, c);
    if pos.stop != 0.0 {
      var price := ClosePrice(pos, c);
      PayoffError(pos, pos.remaining, price);
      RoundSumR(pos.realizedR + Payoff(pos, pos.remaining, price),
                Credited(pos) + Worth(pos.direction, pos.entry, pos.stop, pos.remaining, price),
                |pos.partials| as real + GrossSize(pos.partials) + Abs(pos.remaining));
    }
  }

  lemma HeldIsAccounted(starts: iset<Position>, pos: Position)
    requires OpenFrom(starts, pos)
    ensures Accounted(pos)
  {
  }

  lemma EndTradeIs(pos: Position, c: Candle)
    ensures var t := EndTrade(pos, c);
            t.tradeId == pos.tradeId && t.reason.EndOfTest? && t.partials == pos.partials
            && (pos.stop != 0.0 ==>
                  t.realizedR == Round(pos.realizedR + Payoff(pos, pos.remaining, ClosePrice(pos, c)), R_SCALE))
  {
    hide RMultiple, Round, ClosePrice;
  }

  lemma {:induction false} EndFirstAt(ps: seq<Position>, c: Candle, n: nat)
    requires n <= |ps|
    ensures |EndFirst(ps, c, n)| == n && forall k :: 0 <= k < n ==> EndFirst(ps, c, n)[k] == EndTrade(ps[k], c)
    decreases n
  {
    hide EndTrade;
    if n > 0 {
      EndFirstAt(ps, c, n - 1);
    }
  }

  /** The returned log is the log of the replay followed, when the test closes what is open, by one faithful trade
      for each open position. */
  lemma FinishedLogIsProper(feed: Feed)
    ensures var st := Replay(feed.candles, feed.signals, feed.cfg, |feed.candles|);
            var log := Finish(st, feed.candles, feed.cfg).trades;
            ProperState(feed, st)
            && (if feed.cfg.closeAtEnd && feed.candles != [] then
                  |log| == |st.trades| + |st.open| && log[..|st.trades|] == st.trades
                  && forall k :: 0 <= k < |st.open| ==>
                       EndedFaithfully(st.open[k], feed.candles[|feed.candles| - 1], log[|st.trades| + k])
                else log == st.trades)
  {
    hide Replay, Starts, OpenFrom, LoggedFrom, EndedFaithfully, EndFirst, EndTrade;
    RunIsProper(feed, |feed.candles|);
    var st := Replay(feed.candles, feed.signals, feed.cfg, |feed.candles|);
    if feed.cfg.closeAtEnd && feed.candles != [] {
      var c := feed.candles[|feed.candles| - 1];
      EndFirstAt(st.open, c, |st.open|);
      forall k | 0 <= k < |st.open|
        ensures EndedFaithfully(st.open[k], c, EndTrade(st.open[k], c))
      {
        assert OpenFrom(Starts(feed), st.open[k]);
        HeldIsAccounted(Starts(feed), st.open[k]);
        EndTradeFaithful(st.open[k], c);
      }
    }
  }
}
