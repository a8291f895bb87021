/** How long orders wait, and exactly when a run holds or logs a trade entered before its order was valid: a market
    order is filled at the opening of the candle after its signal, even when it becomes valid only inside that
    candle. */
module OrderTimeProperties {
  import opened Common
  import opened Rounding
  import opened TradeManagement
  import opened PositionHistory
  import opened BacktestRun
  import opened BacktestProperties
  import opened SkipLogProperties

  predicate Early(tag: OrderTag, entryTime: int) {
    entryTime < tag.validFrom
  }

  ghost predicate AnyEarly(ps: seq<Position>) {
    exists k :: 0 <= k < |ps| && Early(ps[k].order, ps[k].entryTime)
  }

  ghost predicate AnyEarlyTrade(ts: seq<Trade>) {
    exists k :: 0 <= k < |ts| && Early(ts[k].order, ts[k].entryTime)
  }

  /** Some position held or trade logged was entered before its order was valid. */
  ghost predicate HasEarly(st: State) {
    AnyEarly(st.open) || AnyEarlyTrade(st.trades)
  }

  /** The signal on the first candle is an admitted market one, and the next candle fills it while the order
      becomes valid strictly inside that candle. */
  predicate FillsEarly(s: Signal, c: Candle, following: Option<Candle>, cfg: RunConfig) {
    AdmittedMarket(s, c, cfg) && following.Some?
    && following.value.openTime < s.order.tag.validFrom < following.value.closeTime
    && SimulateOrderFill(s.order, following.value, cfg.spread, cfg.slippage).Filled?
  }

  /** One of the signals the n-th candle consumes fills early. */
  ghost predicate EarlySignal(candles: seq<Candle>, signals: seq<Signal>, cfg: RunConfig, n: nat)
    requires 0 < n <= |candles|
  {
    exists i :: ConsumedBy(candles, signals, n - 1) <= i < ConsumedBy(candles, signals, n)
      && FillsEarly(signals[i], candles[n - 1], Following(candles, n - 1), cfg)
  }

  ghost predicate EarlySignalBy(candles: seq<Candle>, signals: seq<Signal>, cfg: RunConfig, n: nat)
    requires n <= |candles|
  {
    exists k :: 0 < k <= n && EarlySignal(candles, signals, cfg, k)
  }

  lemma AnyEarlyAppend(a: seq<Position>, b: seq<Position>)
    ensures AnyEarly(a + b) <==> AnyEarly(a) || AnyEarly(b)
  {
    hide Early;
    forall k | 0 <= k < |a|
      ensures (a + b)[k] == a[k]
    {
    }
    forall k | 0 <= k < |b|
      ensures (a + b)[|a| + k] == b[k]
    {
    }
  }

  lemma AnyEarlyTradeAppend(a: seq<Trade>, b: seq<Trade>)
    ensures AnyEarlyTrade(a + b) <==> AnyEarlyTrade(a) || AnyEarlyTrade(b)
  {
    hide Early;
    forall k | 0 <= k < |a|
      ensures (a + b)[k] == a[k]
    {
    }
    forall k | 0 <= k < |b|
      ensures (a + b)[|a| + k] == b[k]
    {
    }
  }

  lemma AnyEarlyOne(p: Position)
    ensures AnyEarly([p]) <==> Early(p.order, p.entryTime)
  {
    assert [p][0] == p;
  }

  lemma AnyEarlyTradeOne(t: Trade)
    ensures AnyEarlyTrade([t]) <==> Early(t.order, t.entryTime)
  {
    assert [t][0] == t;
  }

  // ---------- one candle ----------

  lemma {:induction false} ManagingKeepsEarly(ps: seq<Position>, c: Candle, cfg: Config, k: nat)
    requires k <= |ps|
    ensures var done := ManageFirst(ps, c, cfg, k);
            AnyEarly(done.open) || AnyEarlyTrade(done.trades) <==> AnyEarly(ps[..k])
    decreases k
  {
    hide Manage, Early, AnyEarly, AnyEarlyTrade;
    if k > 0 {
      var pos, done := ps[k - 1], ManageFirst(ps, c, cfg, k - 1);
      ManagingKeepsEarly(ps, c, cfg, k - 1);
      ManageKeepsIdentity(pos, c, cfg);
      assert ps[..k] == ps[..k - 1] + [pos];
      AnyEarlyAppend(ps[..k - 1], [pos]);
      AnyEarlyOne(pos);
      match Manage(pos, c, cfg)
      case Closed(_, trade) =>
        AnyEarlyTradeAppend(done.trades, [trade]);
        AnyEarlyTradeOne(trade);
      case StillOpen(next) =>
        AnyEarlyAppend(done.open, [next]);
        AnyEarlyOne(next);
      case _ => AnyEarlyAppend(done.open, [pos]);
    } else {
      NoneEarly();
      assert ps[..0] == [];
    }
  }

  lemma NoneEarly()
    ensures !AnyEarly([]) && !AnyEarlyTrade([])
  {
  }

  ghost predicate AllLimit(orders: seq<Order>) {
    forall k :: 0 <= k < |orders| ==> orders[k].tag.orderType.Limit?
  }

  ghost predicate TimesOrdered(candles: seq<Candle>) {
    forall k :: 0 <= k < |candles| ==> candles[k].openTime <= candles[k].closeTime
  }

  lemma {:induction false} WorkingIsInTime(orders: seq<Order>, c: Candle, cfg: RunConfig, k: nat)
    requires k <= |orders| && AllLimit(orders) && c.openTime <= c.closeTime
    ensures !AnyEarly(WorkFirst(orders, c, cfg, k).entered) && AllLimit(WorkFirst(orders, c, cfg, k).pending)
    decreases k
  {
    hide SimulateOrderFill, AnyEarly;
    if k > 0 {
      var done, fill := WorkFirst(orders, c, cfg, k - 1), SimulateOrderFill(orders[k - 1], c, cfg.spread, cfg.slippage);
      WorkingIsInTime(orders, c, cfg, k - 1);
      FillTimes(orders[k - 1], c, cfg.spread, cfg.slippage);
      if fill.Filled? {
        AnyEarlyAppend(done.entered, [PositionFromFill(orders[k - 1], fill)]);
        AnyEarlyOne(PositionFromFill(orders[k - 1], fill));
      }
    } else {
      NoneEarly();
    }
  }

  lemma TakeSignalEarly(st: State, s: Signal, c: Candle, following: Option<Candle>, cfg: RunConfig)
    requires AllLimit(st.pending) && (following.Some? ==> following.value.openTime <= following.value.closeTime)
    ensures var after := TakeSignal(st, s, c, following, cfg);
            AllLimit(after.pending) && (HasEarly(after) <==> HasEarly(st) || FillsEarly(s, c, following, cfg))
  {
    hide SimulateOrderFill, AnyEarly, AnyEarlyTrade, Ready;
    if following.Some? {
      var fill := SimulateOrderFill(s.order, following.value, cfg.spread, cfg.slippage);
      FillTimes(s.order, following.value, cfg.spread, cfg.slippage);
      if fill.Filled? && s.order.tag.orderType.Market? {
        MarketFillTime(s.order, following.value, cfg.spread, cfg.slippage);
        AnyEarlyAppend(st.open, [PositionFromFill(s.order, fill)]);
        AnyEarlyOne(PositionFromFill(s.order, fill));
      }
    }
  }

  lemma MarketFillTime(order: Order, c: Candle, spread: real, slippage: real)
    requires order.tag.orderType.Market? && SimulateOrderFill(order, c, spread, slippage).Filled?
    ensures SimulateOrderFill(order, c, spread, slippage).time == c.openTime
  {
  }

  lemma {:induction false} TakingEarly(st: State, signals: seq<Signal>, c: Candle, following: Option<Candle>,
                                       cfg: RunConfig)
    requires AllLimit(st.pending) && (following.Some? ==> following.value.openTime <= following.value.closeTime)
    requires st.next <= |signals|
    ensures var after := TakeSignals(st, signals, c, following, cfg);
            AllLimit(after.pending)
            && (HasEarly(after) <==>
                  HasEarly(st)
                  || exists i :: st.next <= i < DueEnd(signals, st.next, c.closeTime)
                       && FillsEarly(signals[i], c, following, cfg))
    decreases |signals| - st.next
  {
    hide TakeSignal, FillsEarly, AllLimit, HasEarly;
    if Due(st, signals, c) {
      TakeSignalEarly(st, signals[st.next], c, following, cfg);
      TakeSignalAdvances(st, signals[st.next], c, following, cfg);
      TakingEarly(TakeSignal(st, signals[st.next], c, following, cfg), signals, c, following, cfg);
    }
  }

  // ---------- the run ----------

  lemma StepEarly(st: State, c: Candle, cfg: RunConfig)
    requires AllLimit(st.pending) && c.openTime <= c.closeTime
    ensures AllLimit(BeforeSignals(st, c, cfg).pending) && BeforeSignals(st, c, cfg).next == st.next
    ensures HasEarly(BeforeSignals(st, c, cfg)) <==> HasEarly(st)
  {
    hide ManageFirst, WorkFirst, AnyEarly, AnyEarlyTrade, AllLimit;
    var managed := ManageFirst(st.open, c, cfg.management, |st.open|);
    ManagingKeepsEarly(st.open, c, cfg.management, |st.open|);
    assert st.open[..|st.open|] == st.open;
    WorkingIsInTime(st.pending, c, cfg, |st.pending|);
    AnyEarlyAppend(managed.open, WorkFirst(st.pending, c, cfg, |st.pending|).entered);
    AnyEarlyTradeAppend(st.trades, managed.trades);
  }

  lemma EarlySignalByNext(candles: seq<Candle>, signals: seq<Signal>, cfg: RunConfig, n: nat)
    requires 0 < n <= |candles|
    ensures EarlySignalBy(candles, signals, cfg, n)
            <==> EarlySignalBy(candles, signals, cfg, n - 1) || EarlySignal(candles, signals, cfg, n)
  {
    hide EarlySignal;
  }

  /** After n candles some trade held or logged was entered before its order was valid if and only if one of the
      signals consumed so far was an admitted market signal whose next candle fills it and straddles the moment
      the order becomes valid. */
  lemma {:induction false} EarlyEntryExactly(candles: seq<Candle>, signals: seq<Signal>, cfg: RunConfig, n: nat)
    requires n <= |candles| && TimesOrdered(candles)
    ensures AllLimit(Replay(candles, signals, cfg, n).pending)
    ensures HasEarly(Replay(candles, signals, cfg, n)) <==> EarlySignalBy(candles, signals, cfg, n)
    decreases n
  {
    hide BeforeSignals, TakeSignals, FillsEarly, AllLimit, HasEarly, EarlySignalBy, ConsumedBy, DueEnd;
    if n > 0 {
      EarlyEntryExactly(candles, signals, cfg, n - 1);
      var st, c := Replay(candles, signals, cfg, n - 1), candles[n - 1];
      StepEarly(st, c, cfg);
      ReplayConsumes(candles, signals, cfg, n - 1);
      ConsumedStep(candles, signals, n);
      TakingEarly(BeforeSignals(st, c, cfg), signals, c, Following(candles, n - 1), cfg);
      EarlySignalByNext(candles, signals, cfg, n);
    } else {
      NothingYet(candles, signals, cfg);
    }
  }

  lemma NothingYet(candles: seq<Candle>, signals: seq<Signal>, cfg: RunConfig)
    ensures AllLimit(INITIAL.pending) && !HasEarly(INITIAL) && !EarlySignalBy(candles, signals, cfg, 0)
  {
  }

  // ---------- the returned log, and a run that shows it ----------

  lemma {:induction false} EndingKeepsEarly(ps: seq<Position>, c: Candle, k: nat)
    requires k <= |ps|
    ensures AnyEarlyTrade(EndFirst(ps, c, k)) <==> AnyEarly(ps[..k])
    decreases k
  {
    hide EndTrade, Early, AnyEarly, AnyEarlyTrade;
    if k > 0 {
      EndingKeepsEarly(ps, c, k - 1);
      assert ps[..k] == ps[..k - 1] + [ps[k - 1]];
      EndTradeKeepsEntry(ps[k - 1], c);
      AnyEarlyAppend(ps[..k - 1], [ps[k - 1]]);
      AnyEarlyOne(ps[k - 1]);
      AnyEarlyTradeAppend(EndFirst(ps, c, k - 1), [EndTrade(ps[k - 1], c)]);
      AnyEarlyTradeOne(EndTrade(ps[k - 1], c));
    } else {
      NoneEarly();
      assert ps[..0] == [];
    }
  }

  lemma EndTradeKeepsEntry(pos: Position, c: Candle)
    ensures EndTrade(pos, c).order == pos.order && EndTrade(pos, c).entryTime == pos.entryTime
  {
    hide RMultiple, Round;
  }

  /** The same of what the run returns: closing at the end of the test keeps the entry. */
  lemma FinishedEarlyExactly(candles: seq<Candle>, signals: seq<Signal>, cfg: RunConfig)
    requires TimesOrdered(candles)
    ensures HasEarly(Finish(Replay(candles, signals, cfg, |candles|), candles, cfg))
            <==> EarlySignalBy(candles, signals, cfg, |candles|)
  {
    hide Replay, EndFirst, AnyEarly, AnyEarlyTrade, EarlySignalBy, AllLimit;
    var st := Replay(candles, signals, cfg, |candles|);
    EarlyEntryExactly(candles, signals, cfg, |candles|);
    if cfg.closeAtEnd && candles != [] {
      var last := candles[|candles| - 1];
      EndingKeepsEarly(st.open, last, |st.open|);
      assert st.open[..|st.open|] == st.open;
      AnyEarlyTradeAppend(st.trades, EndFirst(st.open, last, |st.open|));
      NoneEarly();
    }
  }

  /** It does happen, under any settings that admit a signal: an order valid from the middle of the next candle
      is entered at the opening of that candle. */
  lemma EarlyFillHappens(cfg: RunConfig) returns (candles: seq<Candle>, signals: seq<Signal>)
    requires cfg.requireAllTimeframes ==> Ready(cfg.timeframes, 300)
    ensures TimesOrdered(candles) && |candles| == 2
    ensures HasEarly(Finish(Replay(candles, signals, cfg, 2), candles, cfg))
  {
    hide Replay, Finish, HasEarly, Ready;
    var order := Order(7, Bullish, OrderTag(Market, 450), 100.0, 98.0, [], "", 300, None);
    signals := [Signal(Some(300), true, false, order)];
    candles := [Candle(0, 300, 100.0, 101.0, 99.0, 100.0, true, ""),
                Candle(300, 600, 100.0, 101.0, 99.0, 100.0, true, "")];
    FinishedEarlyExactly(candles, signals, cfg);
    assert ConsumedBy(candles, signals, 0) == 0;
    assert DueEnd(signals, 0, 300) == 1;
    assert FillsEarly(signals[0], candles[0], Following(candles, 0), cfg);
    assert EarlySignal(candles, signals, cfg, 1);
  }

  // ---------- how long orders wait ----------

  lemma {:induction false} WorkingKeepsUnexpired(orders: seq<Order>, c: Candle, cfg: RunConfig, k: nat)
    requires k <= |orders| && c.isClosed
    ensures forall order :: order in WorkFirst(orders, c, cfg, k).pending <==>
              order in orders[..k] && c.openTime < Expiry(order)
                && !SimulateOrderFill(order, c, cfg.spread, cfg.slippage).Filled?
    decreases k
  {
    hide EntryCost, StopTouched, Expiry;
    if k > 0 {
      WorkingKeepsUnexpired(orders, c, cfg, k - 1);
      assert orders[..k] == orders[..k - 1] + [orders[k - 1]];
    }
  }

  lemma {:induction false} TakingAddsDue(st: State, signals: seq<Signal>, c: Candle, following: Option<Candle>,
                                         cfg: RunConfig, order: Order)
    requires order in TakeSignals(st, signals, c, following, cfg).pending && st.next <= |signals|
    ensures order in st.pending
            || exists i :: st.next <= i < DueEnd(signals, st.next, c.closeTime) && signals[i].order == order
    decreases |signals| - st.next
  {
    hide SimulateOrderFill;
    if Due(st, signals, c) {
      var after := TakeSignal(st, signals[st.next], c, following, cfg);
      TakingAddsDue(after, signals, c, following, cfg, order);
    }
  }

  /** After a closed candle an order still waits only if its signal was taken on that candle or the candle opened
      before its expiry; and without an expiry of its own that is twenty minutes after its signal. */
  lemma WaitingIsBounded(candles: seq<Candle>, signals: seq<Signal>, cfg: RunConfig, n: nat, order: Order)
    requires 0 < n <= |candles| && candles[n - 1].isClosed && order in Replay(candles, signals, cfg, n).pending
    ensures (exists i :: ConsumedBy(candles, signals, n - 1) <= i < ConsumedBy(candles, signals, n)
                      && signals[i].order == order)
            || candles[n - 1].openTime < (if order.expiry.Some? then order.expiry.value else order.signalTime + 1200)
  {
    hide Replay, TakeSignals, ManageFirst, WorkFirst, ConsumedBy, DueEnd;
    var st, c := Replay(candles, signals, cfg, n - 1), candles[n - 1];
    LastStep(candles, signals, cfg, n);
    ReplayConsumes(candles, signals, cfg, n - 1);
    ConsumedStep(candles, signals, n);
    TakingAddsDue(BeforeSignals(st, c, cfg), signals, c, Following(candles, n - 1), cfg, order);
    WorkingKeepsUnexpired(st.pending, c, cfg, |st.pending|);
  }
}
