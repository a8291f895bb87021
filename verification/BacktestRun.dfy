/** The prepared-signal backtest: orders wait, fill and expire, positions are managed, and every
    consumed signal ends up in exactly one list.  Nothing in the trade log depends on a later candle. */
module BacktestRun {
  import opened Common
  import opened Rounding
  import opened TradeManagement

  datatype Order = Order(id: int, direction: Direction, tag: OrderTag, entry: real, stop: real,
                         targets: seq<Target>, session: string, signalTime: int, expiry: Option<int>)

  /** A prepared signal.  A signal without a readable time is never due. */
  datatype Signal = Signal(time: Option<int>, tradeAllowed: bool, newsRestricted: bool, order: Order)

  datatype FillReason =
    | CandleNotClosed | OrderExpired | OrderNotActive | NoRetroactiveFill | LimitNotTouched
    | MarketNextOpen | LimitTouched

  datatype Fill =
    | NotFilled(reason: FillReason)
    | Filled(price: real, time: int, how: FillReason, ambiguous: bool)

  datatype SkipReason =
    | PendingOrderExpired | TradeNotAllowed | NewsRestricted | TimeframesNotReady
    | NoNextCandle | FillRefused(why: FillReason)

  datatype Skip = Skip(id: int, reason: SkipReason)

  /** `timeframes` holds, for each timeframe, when its closed candles ended. */
  datatype RunConfig = RunConfig(management: Config, spread: real, slippage: real,
                                 requireAllTimeframes: bool, timeframes: seq<seq<int>>, closeAtEnd: bool)

  datatype State = State(pending: seq<Order>, open: seq<Position>, trades: seq<Trade>, skipped: seq<Skip>, next: nat)

  const INITIAL := State([], [], [], [], 0)

  // ---------- fills ----------

  const DEFAULT_PENDING_SECONDS := 1200

  /** An order is read again whenever a fill is tried, with the default settings: one that carries no expiry gets
      the default twenty minutes from its signal, whatever settings it was placed under. */
  function Expiry(order: Order): int {
    if order.expiry.Some? then order.expiry.value else order.signalTime + DEFAULT_PENDING_SECONDS
  }

  /** Half the spread and the slippage, always against the trade; neither can be negative. */
  function EntryCost(price: real, direction: Direction, spread: real, slippage: real): real {
    var cost := Max(0.0, spread) / 2.0 + Max(0.0, slippage);
    match direction
    case Bullish => Round(price + cost, FILL_SCALE)
    case Bearish => Round(price - cost, FILL_SCALE)
    case NoDirection => price
  }

  function SimulateOrderFill(order: Order, c: Candle, spread: real, slippage: real): Fill {
    var validFrom := order.tag.validFrom;
    if !c.isClosed then NotFilled(CandleNotClosed)
    else if c.openTime >= Expiry(order) then NotFilled(OrderExpired)
    else if c.closeTime < validFrom then NotFilled(OrderNotActive)
    else if c.openTime < validFrom && c.closeTime <= validFrom then NotFilled(NoRetroactiveFill)
    else if order.tag.orderType.Market? then
      Filled(EntryCost(c.open, order.direction, spread, slippage), c.openTime, MarketNextOpen, false)
    else if c.low <= order.entry <= c.high then
      Filled(EntryCost(order.entry, order.direction, spread, 0.0), c.closeTime, LimitTouched,
             StopTouched(order.direction, order.stop, c))
    else NotFilled(LimitNotTouched)
  }

  /** Orders do not carry break-even settings, so every position starts with the defaults. */
  function PositionFromFill(order: Order, fill: Fill): Position
    requires fill.Filled?
  {
    Position(order.id, order.direction, fill.price, order.stop, order.stop, order.targets, 1.0, 0.0, [],
             true, 1, None, 0.0, fill.time, order.session, order.tag)
  }

  // ---------- one candle ----------

  datatype Managed = Managed(open: seq<Position>, trades: seq<Trade>)

  /** A closed position moves to the log, any other stays open. */
  function AddOutcome(done: Managed, pos: Position, out: Outcome): Managed {
    match out
    case Closed(_, trade) => done.(trades := done.trades + [trade])
    case StillOpen(next) => done.(open := done.open + [next])
    case _ => done.(open := done.open + [pos])
  }

  function ManageFirst(ps: seq<Position>, c: Candle, cfg: Config, k: nat): Managed
    requires k <= |ps|
    decreases k
  {
    if k == 0 then Managed([], [])
    else AddOutcome(ManageFirst(ps, c, cfg, k - 1), ps[k - 1], Manage(ps[k - 1], c, cfg))
  }

  datatype Worked = Worked(pending: seq<Order>, entered: seq<Position>, skipped: seq<Skip>)

  function WorkFirst(orders: seq<Order>, c: Candle, cfg: RunConfig, k: nat): Worked
    requires k <= |orders|
    decreases k
  {
    if k == 0 then Worked([], [], [])
    else
      var done, order := WorkFirst(orders, c, cfg, k - 1), orders[k - 1];
      var fill := SimulateOrderFill(order, c, cfg.spread, cfg.slippage);
      if fill.Filled? then done.(entered := done.entered + [PositionFromFill(order, fill)])
      else if fill.reason.OrderExpired? then done.(skipped := done.skipped + [Skip(order.id, PendingOrderExpired)])
      else done.(pending := done.pending + [order])
  }

  function Skipped(st: State, order: Order, reason: SkipReason): State {
    st.(skipped := st.skipped + [Skip(order.id, reason)], next := st.next + 1)
  }

  predicate SomeEndedBy(ends: seq<int>, now: int) {
    exists end :: end in ends && end <= now
  }

  /** Every timeframe has a candle that has ended by now. */
  predicate Ready(timeframes: seq<seq<int>>, now: int) {
    forall t :: 0 <= t < |timeframes| ==> SomeEndedBy(timeframes[t], now)
  }

  /** A market order is filled on the next candle or not at all; a limit order waits. */
  function TakeSignal(st: State, s: Signal, c: Candle, following: Option<Candle>, cfg: RunConfig): State {
    if !s.tradeAllowed then Skipped(st, s.order, TradeNotAllowed)
    else if s.newsRestricted then Skipped(st, s.order, NewsRestricted)
    else if cfg.requireAllTimeframes && !Ready(cfg.timeframes, c.closeTime) then Skipped(st, s.order, TimeframesNotReady)
    else if s.order.tag.orderType.Limit? then st.(pending := st.pending + [s.order], next := st.next + 1)
    else if following.None? then Skipped(st, s.order, NoNextCandle)
    else
      var fill := SimulateOrderFill(s.order, following.value, cfg.spread, cfg.slippage);
      if fill.Filled? then st.(open := st.open + [PositionFromFill(s.order, fill)], next := st.next + 1)
      else Skipped(st, s.order, FillRefused(fill.reason))
  }

  predicate Due(st: State, signals: seq<Signal>, c: Candle) {
    st.next < |signals| && signals[st.next].time.Some? && signals[st.next].time.value <= c.closeTime
  }

  function TakeSignals(st: State, signals: seq<Signal>, c: Candle, following: Option<Candle>, cfg: RunConfig): State
    decreases |signals| - st.next
  {
    if Due(st, signals, c) then
      TakeSignals(TakeSignal(st, signals[st.next], c, following, cfg), signals, c, following, cfg)
    else st
  }

  /** Managing what is open, then working the orders, before any signal of this candle is looked at. */
  function BeforeSignals(st: State, c: Candle, cfg: RunConfig): State {
    var managed := ManageFirst(st.open, c, cfg.management, |st.open|);
    var worked := WorkFirst(st.pending, c, cfg, |st.pending|);
    State(worked.pending, managed.open + worked.entered, st.trades + managed.trades, st.skipped + worked.skipped, st.next)
  }

  function Step(st: State, signals: seq<Signal>, c: Candle, following: Option<Candle>, cfg: RunConfig): State {
    TakeSignals(BeforeSignals(st, c, cfg), signals, c, following, cfg)
  }

  function Following(candles: seq<Candle>, k: nat): Option<Candle> {
    if k + 1 < |candles| then Some(candles[k + 1]) else None
  }

  /** The state after the first n candles. */
  function Replay(candles: seq<Candle>, signals: seq<Signal>, cfg: RunConfig, n: nat): State
    requires n <= |candles|
    decreases n
  {
    if n == 0 then INITIAL
    else Step(Replay(candles, signals, cfg, n - 1), signals, candles[n - 1], Following(candles, n - 1), cfg)
  }

  // ---------- closing at the end of the test ----------

  function EndTrade(pos: Position, c: Candle): Trade {
    var stop := if pos.stop != 0.0 then pos.stop else pos.entry;
    var r := RMultiple(pos.direction, pos.entry, stop, ClosePrice(pos, c));
    ClosedTrade(pos, c, EndOfTest, pos.realizedR + pos.remaining * r, false, None)
  }

  function EndFirst(ps: seq<Position>, c: Candle, k: nat): seq<Trade>
    requires k <= |ps|
    decreases k
  {
    if k == 0 then [] else EndFirst(ps, c, k - 1) + [EndTrade(ps[k - 1], c)]
  }

  function Finish(st: State, candles: seq<Candle>, cfg: RunConfig): State {
    if cfg.closeAtEnd && candles != [] then
      st.(trades := st.trades + EndFirst(st.open, candles[|candles| - 1], |st.open|), open := [])
    else st
  }

  // ---------- the run itself ----------

  method ManageOpen(ps: seq<Position>, c: Candle, cfg: Config) returns (open: seq<Position>, trades: seq<Trade>)
    ensures Managed(open, trades) == ManageFirst(ps, c, cfg, |ps|)
  {
    hide Manage;
    open, trades := [], [];
    for k := 0 to |ps|
      invariant Managed(open, trades) == ManageFirst(ps, c, cfg, k)
    {
      var outcome := SimulateTradeManagement(ps[k], c, cfg);
      match outcome
      case Closed(_, trade) => trades := trades + [trade];
      case StillOpen(next) => open := open + [next];
      case _ => open := open + [ps[k]];
    }
  }

  method WorkOrders(orders: seq<Order>, c: Candle, cfg: RunConfig)
      returns (pending: seq<Order>, entered: seq<Position>, skipped: seq<Skip>)
    ensures Worked(pending, entered, skipped) == WorkFirst(orders, c, cfg, |orders|)
  {
    pending, entered, skipped := [], [], [];
    for k := 0 to |orders|
      invariant Worked(pending, entered, skipped) == WorkFirst(orders, c, cfg, k)
    {
      var fill := SimulateOrderFill(orders[k], c, cfg.spread, cfg.slippage);
      if fill.Filled? {
        entered := entered + [PositionFromFill(orders[k], fill)];
      } else if fill.reason.OrderExpired? {
        skipped := skipped + [Skip(orders[k].id, PendingOrderExpired)];
      } else {
        pending := pending + [orders[k]];
      }
    }
  }

  method RunBacktest(candles: seq<Candle>, signals: seq<Signal>, cfg: RunConfig) returns (st: State)
    ensures st == Finish(Replay(candles, signals, cfg, |candles|), candles, cfg)
  {
    hide ManageFirst, WorkFirst, SimulateOrderFill, EndTrade;
    st := INITIAL;
    for n := 0 to |candles|
      invariant st == Replay(candles, signals, cfg, n)
    {
      var c, following := candles[n], Following(candles, n);
      var stillOpen, closed := ManageOpen(st.open, c, cfg.management);
      var pending, entered, expired := WorkOrders(st.pending, c, cfg);
      st := State(pending, stillOpen + entered, st.trades + closed, st.skipped + expired, st.next);
      ghost var worked := st;
      while Due(st, signals, c)
        invariant TakeSignals(worked, signals, c, following, cfg) == TakeSignals(st, signals, c, following, cfg)
        decreases |signals| - st.next
      {
        st := TakeSignal(st, signals[st.next], c, following, cfg);
      }
    }
    if cfg.closeAtEnd && candles != [] {
      var ended: seq<Trade> := [];
      for k := 0 to |st.open|
        invariant ended == EndFirst(st.open, candles[|candles| - 1], k)
      {
        ended := ended + [EndTrade(st.open[k], candles[|candles| - 1])];
      }
      st := st.(trades := st.trades + ended, open := []);
    }
  }
}
