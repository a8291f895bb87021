/** A prepared-signal run is nothing but the separate lives of its signals: what each signal comes to depends on its own
    order and the candles alone, and the lists hold exactly what the lives have come to. */
module BacktestLives {
  import opened Common
  import opened Rounding
  import opened TradeManagement
  import opened ManagementProperties
  import opened BacktestRun
  import opened Fates
  import opened BacktestProperties
  import opened SkipLogProperties
  import opened TradeLogProperties

  datatype Life = Waiting(order: Order) | Entered(fate: Fate) | Dropped(skip: Skip)

  /** A limit order over the candles after its signal: it expires, is filled and managed from the next candle, or goes
      on waiting. */
  function Waits(order: Order, candles: seq<Candle>, cfg: RunConfig): Life
    decreases |candles|
  {
    if candles == [] then Waiting(order)
    else
      var fill := SimulateOrderFill(order, candles[0], cfg.spread, cfg.slippage);
      if fill.Filled? then Entered(FateOf(PositionFromFill(order, fill), candles[1..], cfg.management))
      else if fill.reason.OrderExpired? then Dropped(Skip(order.id, PendingOrderExpired))
      else Waits(order, candles[1..], cfg)
  }

  /** What a signal taken on candle j has come to after n candles; a market order is filled by the next candle, and
      managed from that candle on. */
  function LifeOf(feed: Feed, s: Signal, j: nat, n: nat): Life
    requires j < n <= |feed.candles|
  {
    var order, cfg := s.order, feed.cfg;
    if !s.tradeAllowed then Dropped(Skip(order.id, TradeNotAllowed))
    else if s.newsRestricted then Dropped(Skip(order.id, NewsRestricted))
    else if cfg.requireAllTimeframes && !Ready(cfg.timeframes, feed.candles[j].closeTime) then
      Dropped(Skip(order.id, TimeframesNotReady))
    else if order.tag.orderType.Limit? then Waits(order, feed.candles[j + 1..n], cfg)
    else if j + 1 == |feed.candles| then Dropped(Skip(order.id, NoNextCandle))
    else
      var fill := SimulateOrderFill(order, feed.candles[j + 1], cfg.spread, cfg.slippage);
      if fill.Filled? then Entered(FateOf(PositionFromFill(order, fill), feed.candles[j + 1..n], cfg.management))
      else Dropped(Skip(order.id, FillRefused(fill.reason)))
  }

  ghost predicate InLists(st: State, life: Life) {
    match life
    case Waiting(order) => order in st.pending
    case Entered(fate) => InManaged(st.open, st.trades, fate)
    case Dropped(skip) => skip in st.skipped
  }

  // ---------- one more candle in a life ----------

  /** What the candle after makes of a life. */
  function Aged(life: Life, c: Candle, cfg: RunConfig): Life {
    match life
    case Waiting(order) =>
      (var fill := SimulateOrderFill(order, c, cfg.spread, cfg.slippage);
       if fill.Filled? then Entered(Held(PositionFromFill(order, fill)))
       else if fill.reason.OrderExpired? then Dropped(Skip(order.id, PendingOrderExpired))
       else life)
    case Entered(fate) => Entered(Later(fate, c, cfg.management))
    case Dropped(_) => life
  }

  lemma {:induction false} WaitsAges(order: Order, candles: seq<Candle>, c: Candle, cfg: RunConfig)
    ensures Waits(order, candles + [c], cfg) == Aged(Waits(order, candles, cfg), c, cfg)
    decreases |candles|
  {
    hide Later, SimulateOrderFill, FateOf;
    if candles == [] {
      assert [c][1..] == [] && candles + [c] == [c];
      var fill := SimulateOrderFill(order, c, cfg.spread, cfg.slippage);
      if fill.Filled? {
        FateLater(PositionFromFill(order, fill), [], c, cfg.management);
      }
    } else {
      assert (candles + [c])[1..] == candles[1..] + [c];
      var fill := SimulateOrderFill(order, candles[0], cfg.spread, cfg.slippage);
      if fill.Filled? {
        FateLater(PositionFromFill(order, fill), candles[1..], c, cfg.management);
      } else if !fill.reason.OrderExpired? {
        WaitsAges(order, candles[1..], c, cfg);
      }
    }
  }

  lemma LifeAges(feed: Feed, s: Signal, j: nat, n: nat)
    requires j < n < |feed.candles|
    ensures LifeOf(feed, s, j, n + 1) == Aged(LifeOf(feed, s, j, n), feed.candles[n], feed.cfg)
  {
    hide Later, SimulateOrderFill, FateOf, Waits, Ready;
    assert feed.candles[j + 1..n + 1] == feed.candles[j + 1..n] + [feed.candles[n]];
    WaitsAges(s.order, feed.candles[j + 1..n], feed.candles[n], feed.cfg);
    var fill := SimulateOrderFill(s.order, feed.candles[j + 1], feed.cfg.spread, feed.cfg.slippage);
    if fill.Filled? {
      FateLater(PositionFromFill(s.order, fill), feed.candles[j + 1..n], feed.candles[n], feed.cfg.management);
    }
  }

  // ---------- one candle of the run ages every life ----------

  ghost predicate InWorked(done: Worked, life: Life) {
    match life
    case Waiting(order) => order in done.pending
    case Entered(fate) => fate.Held? && fate.pos in done.entered
    case Dropped(skip) => skip in done.skipped
  }

  ghost predicate AgedWaiting(orders: seq<Order>, k: nat, c: Candle, cfg: RunConfig, life: Life)
    requires k <= |orders|
  {
    exists i :: 0 <= i < k && Aged(Waiting(orders[i]), c, cfg) == life
  }

  lemma {:induction false} WorkingAges(orders: seq<Order>, c: Candle, cfg: RunConfig, k: nat, life: Life)
    requires k <= |orders|
    ensures InWorked(WorkFirst(orders, c, cfg, k), life) <==> AgedWaiting(orders, k, c, cfg, life)
    decreases k
  {
    hide SimulateOrderFill;
    if k > 0 {
      WorkingAges(orders, c, cfg, k - 1, life);
      assert AgedWaiting(orders, k, c, cfg, life)
             <==> AgedWaiting(orders, k - 1, c, cfg, life) || life == Aged(Waiting(orders[k - 1]), c, cfg);
    }
  }

  ghost predicate AgedInto(st: State, c: Candle, cfg: RunConfig, life: Life) {
    exists was :: InLists(st, was) && Aged(was, c, cfg) == life
  }

  /** Managing and working a candle ages every life in the lists, and puts nothing else in them. */
  lemma BeforeSignalsAges(st: State, c: Candle, cfg: RunConfig, life: Life)
    ensures InLists(BeforeSignals(st, c, cfg), life) <==> AgedInto(st, c, cfg, life)
  {
    hide ManageFirst, WorkFirst, SimulateOrderFill, Later, LaterAmong, AgedWaiting, AgedInto;
    WorkingAges(st.pending, c, cfg, |st.pending|, life);
    if life.Entered? {
      ManagingIsLater(st.open, c, cfg.management, |st.open|, life.fate);
    }
    if AgedInto(st, c, cfg, life) {
      AgedIsListed(st, c, cfg, life);
    }
    if InLists(BeforeSignals(st, c, cfg), life) {
      ListedComesFrom(st, c, cfg, life);
    }
  }

  ghost predicate OpenAged(st: State, c: Candle, cfg: RunConfig, life: Life) {
    life.Entered? && LaterAmong(st.open, |st.open|, c, cfg.management, life.fate)
  }

  lemma ListedComesFrom(st: State, c: Candle, cfg: RunConfig, life: Life)
    requires OpenAged(st, c, cfg, life) || AgedWaiting(st.pending, |st.pending|, c, cfg, life)
             || (life.Entered? && life.fate.Traded? && life.fate.trade in st.trades)
             || (life.Dropped? && life.skip in st.skipped)
    ensures AgedInto(st, c, cfg, life)
  {
    hide SimulateOrderFill, Manage;
    if OpenAged(st, c, cfg, life) {
      var i :| 0 <= i < |st.open| && Later(Held(st.open[i]), c, cfg.management) == life.fate;
      assert InLists(st, Entered(Held(st.open[i])));
    } else if AgedWaiting(st.pending, |st.pending|, c, cfg, life) {
      var i :| 0 <= i < |st.pending| && Aged(Waiting(st.pending[i]), c, cfg) == life;
      assert InLists(st, Waiting(st.pending[i]));
    } else {
      assert InLists(st, life) && Aged(life, c, cfg) == life;
    }
  }

  lemma AgedIsListed(st: State, c: Candle, cfg: RunConfig, life: Life)
    requires AgedInto(st, c, cfg, life)
    ensures OpenAged(st, c, cfg, life) || AgedWaiting(st.pending, |st.pending|, c, cfg, life)
            || (life.Entered? && life.fate.Traded? && life.fate.trade in st.trades)
            || (life.Dropped? && life.skip in st.skipped)
  {
    hide SimulateOrderFill, Manage;
    var was :| InLists(st, was) && Aged(was, c, cfg) == life;
    match was
    case Entered(fate) =>
      if fate.Held? {
        var i :| 0 <= i < |st.open| && st.open[i] == fate.pos;
        assert Later(Held(st.open[i]), c, cfg.management) == life.fate;
      }
    case Waiting(order) =>
      var i :| 0 <= i < |st.pending| && st.pending[i] == order;
      assert Aged(Waiting(st.pending[i]), c, cfg) == life;
    case Dropped(_) =>
  }

  // ---------- one candle of the run starts the lives of the signals due ----------

  lemma NewLife(feed: Feed, st: State, s: Signal, j: nat, life: Life)
    requires j < |feed.candles|
    ensures InLists(TakeSignal(st, s, feed.candles[j], Following(feed.candles, j), feed.cfg), life)
            <==> InLists(st, life) || life == LifeOf(feed, s, j, j + 1)
  {
    hide SimulateOrderFill, Ready, Run;
    assert feed.candles[j + 1..j + 1] == [];
    if j + 1 < |feed.candles| {
      var fill := SimulateOrderFill(s.order, feed.candles[j + 1], feed.cfg.spread, feed.cfg.slippage);
      if fill.Filled? {
        NothingRun(PositionFromFill(s.order, fill), feed.cfg.management);
      }
    }
  }

  /** The signals taken on candle j are those from one number up to another. */
  ghost predicate StartedAmong(feed: Feed, j: nat, from: nat, end: nat, life: Life)
    requires j < |feed.candles| && end <= |feed.signals|
  {
    exists i :: from <= i < end && life == LifeOf(feed, feed.signals[i], j, j + 1)
  }

  lemma {:induction false} TakingStarts(feed: Feed, st: State, j: nat, life: Life)
    requires j < |feed.candles| && st.next <= |feed.signals|
    ensures InLists(TakeSignals(st, feed.signals, feed.candles[j], Following(feed.candles, j), feed.cfg), life)
            <==> InLists(st, life)
                 || StartedAmong(feed, j, st.next, DueEnd(feed.signals, st.next, feed.candles[j].closeTime), life)
    decreases |feed.signals| - st.next
  {
    hide TakeSignal, LifeOf, InLists;
    var c, following := feed.candles[j], Following(feed.candles, j);
    if Due(st, feed.signals, c) {
      NewLife(feed, st, feed.signals[st.next], j, life);
      TakeSignalAdvances(st, feed.signals[st.next], c, following, feed.cfg);
      TakingStarts(feed, TakeSignal(st, feed.signals[st.next], c, following, feed.cfg), j, life);
    }
  }

  // ---------- the run ----------

  /** What some signal taken on one of the first n candles has come to. */
  ghost predicate IsLife(feed: Feed, n: nat, life: Life)
    requires n <= |feed.candles|
  {
    exists j, i :: 0 <= j < n && TakenOn(feed, i, j) && life == LifeOf(feed, feed.signals[i], j, n)
  }

  /** The i-th signal is consumed by candle j. */
  predicate TakenOn(feed: Feed, i: int, j: nat): (taken: bool)
    requires j < |feed.candles|
    ensures taken ==> 0 <= i < |feed.signals|
  {
    ConsumedBy(feed.candles, feed.signals, j) <= i < ConsumedBy(feed.candles, feed.signals, j + 1)
  }

  lemma OldLivesAge(feed: Feed, n: nat, life: Life)
    requires n < |feed.candles|
    ensures (exists was :: IsLife(feed, n, was) && Aged(was, feed.candles[n], feed.cfg) == life)
            <==> exists j, i :: 0 <= j < n && TakenOn(feed, i, j) && life == LifeOf(feed, feed.signals[i], j, n + 1)
  {
    hide LifeOf, Aged, TakenOn;
    if was :| IsLife(feed, n, was) && Aged(was, feed.candles[n], feed.cfg) == life {
      var j, i :| 0 <= j < n && TakenOn(feed, i, j) && was == LifeOf(feed, feed.signals[i], j, n);
      LifeAges(feed, feed.signals[i], j, n);
    }
    if j, i :| 0 <= j < n && TakenOn(feed, i, j) && life == LifeOf(feed, feed.signals[i], j, n + 1) {
      LifeAges(feed, feed.signals[i], j, n);
      assert IsLife(feed, n, LifeOf(feed, feed.signals[i], j, n));
    }
  }

  lemma LivesSplit(feed: Feed, n: nat, life: Life)
    requires n < |feed.candles|
    ensures IsLife(feed, n + 1, life)
            <==> (exists j, i :: 0 <= j < n && TakenOn(feed, i, j) && life == LifeOf(feed, feed.signals[i], j, n + 1))
                 || (exists i :: TakenOn(feed, i, n) && life == LifeOf(feed, feed.signals[i], n, n + 1))
  {
    hide LifeOf, TakenOn;
  }

  /** After n candles the lists hold exactly what the signals taken so far have come to, each by itself: its order still
      waiting, or the position that managing its own fill over the candles since leaves, or the trade that management
      closes with, or the reason it was dropped. */
  lemma {:induction false} RunIsItsLives(feed: Feed, n: nat, life: Life)
    requires n <= |feed.candles|
    ensures InLists(Replay(feed.candles, feed.signals, feed.cfg, n), life) <==> IsLife(feed, n, life)
    decreases n
  {
    hide BeforeSignals, TakeSignals, InLists, IsLife, LifeOf, Aged, TakenOn;
    if n == 0 {
      NoLives(feed, life);
    } else {
      var st, c := Replay(feed.candles, feed.signals, feed.cfg, n - 1), feed.candles[n - 1];
      StepIsItsLives(feed, st, n - 1, life);
      ReplayConsumes(feed.candles, feed.signals, feed.cfg, n - 1);
      BeforeKeepsNext(st, c, feed.cfg);
      BeforeSignalsAges(st, c, feed.cfg, life);
      forall was
        ensures InLists(st, was) <==> IsLife(feed, n - 1, was)
      {
        RunIsItsLives(feed, n - 1, was);
      }
      OldLivesAge(feed, n - 1, life);
      LivesSplit(feed, n - 1, life);
      StartedExactly(feed, n - 1, life);
      assert AgedInto(st, c, feed.cfg, life) <==> exists was :: IsLife(feed, n - 1, was) && Aged(was, c, feed.cfg) == life;
    }
  }

  lemma NoLives(feed: Feed, life: Life)
    ensures !InLists(INITIAL, life) && !IsLife(feed, 0, life)
  {
  }

  lemma BeforeKeepsNext(st: State, c: Candle, cfg: RunConfig)
    ensures BeforeSignals(st, c, cfg).next == st.next
  {
    hide ManageFirst, WorkFirst;
  }

  lemma StartedExactly(feed: Feed, n: nat, life: Life)
    requires n < |feed.candles|
    ensures StartedAmong(feed, n, ConsumedBy(feed.candles, feed.signals, n),
                         ConsumedBy(feed.candles, feed.signals, n + 1), life)
            <==> exists i :: TakenOn(feed, i, n) && life == LifeOf(feed, feed.signals[i], n, n + 1)
  {
    hide LifeOf, ConsumedBy;
  }

  lemma StepIsItsLives(feed: Feed, st: State, n: nat, life: Life)
    requires n < |feed.candles| && st == Replay(feed.candles, feed.signals, feed.cfg, n)
    ensures InLists(Replay(feed.candles, feed.signals, feed.cfg, n + 1), life)
            <==> InLists(BeforeSignals(st, feed.candles[n], feed.cfg), life)
                 || StartedAmong(feed, n, ConsumedBy(feed.candles, feed.signals, n),
                                 ConsumedBy(feed.candles, feed.signals, n + 1), life)
  {
    hide BeforeSignals, TakeSignals, InLists, LifeOf, DueEnd, Replay, ConsumedBy, StartedAmong;
    var before := BeforeSignals(st, feed.candles[n], feed.cfg);
    BeforeKeepsNext(st, feed.candles[n], feed.cfg);
    ReplayConsumes(feed.candles, feed.signals, feed.cfg, n);
    LastStep(feed.candles, feed.signals, feed.cfg, n + 1);
    ConsumedStep(feed.candles, feed.signals, n + 1);
    TakingStarts(feed, before, n, life);
  }

  // ---------- the end of the test ----------

  /** A protected position still open at the end leaves at the last close; a stop of zero counts as missing and leaves
      only what has been credited. */
  lemma EndsExactly(pos: Position, c: Candle)
    requires Protected(pos)
    ensures var r := pos.realizedR + if pos.stop == 0.0 then 0.0 else Paid(pos, pos.remaining, CloseOf(pos, c));
            EndTrade(pos, c) == Trade(pos.tradeId, EndOfTest, Round(r, 100000.0), pos.partials, false, None,
                                      pos.entryTime, c.closeTime, pos.order)
  {
    hide Round, Paid, Payoff, RMultiple;
    PaidExactly(pos, pos.remaining, CloseOf(pos, c));
    EndTradeIs(pos, c);
    EndTradeKeeps(pos, c);
    if pos.stop == 0.0 {
      NoRiskNoR(pos.direction, pos.entry, CloseOf(pos, c));
      EndedUnpriced(pos, c);
    }
  }

  lemma NoRiskNoR(direction: Direction, entry: real, price: real)
    ensures RMultiple(direction, entry, entry, price) == 0.0
  {
  }

  lemma EndedUnpriced(pos: Position, c: Candle)
    requires pos.stop == 0.0 && RMultiple(pos.direction, pos.entry, pos.entry, ClosePrice(pos, c)) == 0.0
    ensures EndTrade(pos, c).realizedR == Round(pos.realizedR, 100000.0)
  {
    hide Round, RMultiple, ClosePrice;
  }

  lemma EndTradeKeeps(pos: Position, c: Candle)
    ensures var t := EndTrade(pos, c);
            t == Trade(pos.tradeId, EndOfTest, t.realizedR, pos.partials, false, None, pos.entryTime, c.closeTime,
                       pos.order)
  {
    hide Round, RMultiple, ClosePrice;
  }

  /** The returned lists: at the end of the test each open position becomes one trade, after those logged before. */
  lemma FinishExactly(st: State, candles: seq<Candle>, cfg: RunConfig)
    ensures var done := Finish(st, candles, cfg);
            done.pending == st.pending && done.skipped == st.skipped
            && if cfg.closeAtEnd && candles != [] then
                 done.open == [] && |done.trades| == |st.trades| + |st.open| && done.trades[..|st.trades|] == st.trades
                 && forall k :: 0 <= k < |st.open| ==>
                      done.trades[|st.trades| + k] == EndTrade(st.open[k], candles[|candles| - 1])
               else done == st
  {
    hide EndTrade, EndFirst;
    if cfg.closeAtEnd && candles != [] {
      EndFirstAt(st.open, candles[|candles| - 1], |st.open|);
    }
  }
}
