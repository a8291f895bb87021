/** Order and position flow of the full-system replay: capacity, cooldown, entry checks, immediate
    management of a fill, and the mark at the end of the test.  The strategy selector is a parameter:
    what it would select on each candle, which never depends on the orders already placed. */
module FullSystemRun {
  import opened Common
  import opened Rounding
  import opened TradeManagement
  import BacktestRun

  type Order = BacktestRun.Order

  /** A selected signal: its order, its cooldown key, and whether the early-trap filter refuses it. */
  datatype Selection = Selection(key: string, order: Order, finalTarget: Option<real>, trapped: bool)

  datatype Waiting = Waiting(order: Order, finalTarget: Option<real>)

  datatype Config = Config(
    management: TradeManagement.Config, spread: real, slippage: real, orderSpread: real, orderSlippage: real,
    warmupBars: int, maxConcurrent: int, cooldown: int, maxDriftPrice: Option<real>, maxDriftFraction: real,
    minimumRr: real, minimumRiskToCost: real, closeAtEnd: bool)

  /** The settings as the constructor stores them. */
  function Clamped(cfg: Config): Config {
    cfg.(spread := Max(0.0, cfg.spread), slippage := Max(0.0, cfg.slippage),
         warmupBars := if cfg.warmupBars >= 1 then cfg.warmupBars else 1,
         maxConcurrent := if cfg.maxConcurrent >= 1 then cfg.maxConcurrent else 1,
         cooldown := if cfg.cooldown >= 0 then cfg.cooldown else 0,
         maxDriftFraction := Max(0.0, cfg.maxDriftFraction))
  }

  datatype SkipReason =
    | OrderExpired | EntryDrift | RiskTooSmallForCost | RrBelowMinimum
    | BlockedByOpenPosition | CoolingDown | TrapRejected
  {
    /** Skips of an order that had been placed, as opposed to a signal never placed. */
    predicate OrderLevel() {
      OrderExpired? || EntryDrift? || RiskTooSmallForCost? || RrBelowMinimum?
    }
  }

  datatype Skip = Skip(id: int, reason: SkipReason)

  datatype Placement = Placement(id: int, key: string, time: int)

  datatype State = State(pending: seq<Waiting>, open: seq<Position>, trades: seq<Trade>, skipped: seq<Skip>,
                         placed: seq<Placement>, cooldowns: map<string, int>)

  // ---------- entry checks ----------

  predicate DriftTooLarge(w: Waiting, fillPrice: real, cfg: Config) {
    var drift, risk := Abs(fillPrice - w.order.entry), Abs(w.order.entry - w.order.stop);
    !(cfg.maxDriftPrice.None? && cfg.maxDriftFraction <= 0.0)
    && ((cfg.maxDriftPrice.Some? && drift > cfg.maxDriftPrice.value)
        || (risk > 0.0 && cfg.maxDriftFraction > 0.0 && drift / risk > cfg.maxDriftFraction))
  }

  /** Without a positive cost the ratio is infinite, so nothing is too small. */
  predicate RiskTooSmall(w: Waiting, fillPrice: real, cfg: Config) {
    var cost := Max(0.0, cfg.spread) + Max(0.0, cfg.slippage);
    cost > 0.0 && Round(Abs(fillPrice - w.order.stop) / cost, R_SCALE) < cfg.minimumRiskToCost
  }

  function PostCostRr(w: Waiting, fillPrice: real, cfg: Config): real {
    var targets := w.order.targets;
    var final := if w.finalTarget.None? && targets != [] then Some(targets[|targets| - 1].price) else w.finalTarget;
    var cost := Max(0.0, cfg.orderSpread) + Max(0.0, cfg.orderSlippage);
    var risk := Abs(fillPrice - w.order.stop) + cost;
    if final.None? || risk <= 0.0 then 0.0
    else Round(Max(0.0, (Gain(w.order.direction, fillPrice, final.value) - cost) / risk), R_SCALE)
  }

  function EntryRefusal(w: Waiting, fillPrice: real, cfg: Config): Option<SkipReason> {
    if DriftTooLarge(w, fillPrice, cfg) then Some(EntryDrift)
    else if RiskTooSmall(w, fillPrice, cfg) then Some(RiskTooSmallForCost)
    else if PostCostRr(w, fillPrice, cfg) < cfg.minimumRr then Some(RrBelowMinimum)
    else None
  }

  /** An order without a ladder gets its final target as a single rung. */
  function PositionFromFill(w: Waiting, fill: BacktestRun.Fill): Position
    requires fill.Filled?
  {
    var pos := BacktestRun.PositionFromFill(w.order, fill);
    if w.order.targets == [] && w.finalTarget.Some? then
      pos.(targets := [Target(999, w.finalTarget.value, 0.34, None, false)])
    else pos
  }

  // ---------- one candle ----------

  datatype Worked = Worked(pending: seq<Waiting>, open: seq<Position>, trades: seq<Trade>, skipped: seq<Skip>)

  /** A filled order passes the entry checks or is dropped; the new position is managed on its fill candle. */
  function AddFill(done: Worked, w: Waiting, fill: BacktestRun.Fill, c: Candle, cfg: Config): Worked {
    if fill.Filled? then
      var refusal := EntryRefusal(w, fill.price, cfg);
      if refusal.Some? then done.(skipped := done.skipped + [Skip(w.order.id, refusal.value)])
      else
        var pos := PositionFromFill(w, fill);
        match Manage(pos, c, cfg.management)
        case Closed(_, trade) => done.(trades := done.trades + [trade])
        case StillOpen(next) => done.(open := done.open + [next])
        case _ => done.(open := done.open + [pos])
    else if fill.reason.OrderExpired? then done.(skipped := done.skipped + [Skip(w.order.id, OrderExpired)])
    else done.(pending := done.pending + [w])
  }

  function Fill(w: Waiting, c: Candle, cfg: Config): BacktestRun.Fill {
    BacktestRun.SimulateOrderFill(w.order, c, cfg.spread, cfg.slippage)
  }

  function WorkFirst(ws: seq<Waiting>, c: Candle, cfg: Config, k: nat): Worked
    requires k <= |ws|
    decreases k
  {
    if k == 0 then Worked([], [], [], [])
    else AddFill(WorkFirst(ws, c, cfg, k - 1), ws[k - 1], Fill(ws[k - 1], c, cfg), c, cfg)
  }

  function BeforeSelection(st: State, c: Candle, cfg: Config): State {
    var managed := BacktestRun.ManageFirst(st.open, c, cfg.management, |st.open|);
    var worked := WorkFirst(st.pending, c, cfg, |st.pending|);
    st.(pending := worked.pending, open := managed.open + worked.open,
        trades := st.trades + managed.trades + worked.trades, skipped := st.skipped + worked.skipped)
  }

  function Refuse(st: State, s: Selection, reason: SkipReason): State {
    st.(skipped := st.skipped + [Skip(s.order.id, reason)])
  }

  /** The cooldown starts even when the trap filter then refuses the signal. */
  function Select(st: State, s: Selection, now: int, cfg: Config): State {
    if |st.open| + |st.pending| >= cfg.maxConcurrent then Refuse(st, s, BlockedByOpenPosition)
    else if s.key in st.cooldowns && now < st.cooldowns[s.key] then Refuse(st, s, CoolingDown)
    else
      var cooling := st.(cooldowns := st.cooldowns[s.key := now + cfg.cooldown]);
      if s.trapped then Refuse(cooling, s, TrapRejected)
      else cooling.(pending := st.pending + [Waiting(s.order, s.finalTarget)],
                    placed := st.placed + [Placement(s.order.id, s.key, now)])
  }

  function Step(st: State, c: Candle, index: nat, selection: Option<Selection>, cfg: Config): State {
    var before := BeforeSelection(st, c, cfg);
    if index + 1 < cfg.warmupBars || selection.None? then before
    else Select(before, selection.value, c.closeTime, cfg)
  }

  function Start(cooldowns: map<string, int>): State {
    State([], [], [], [], [], cooldowns)
  }

  function Replay(start: State, candles: seq<Candle>, selections: seq<Option<Selection>>, cfg: Config, n: nat): State
    requires n <= |candles| == |selections|
    decreases n
  {
    if n == 0 then start
    else Step(Replay(start, candles, selections, cfg, n - 1), candles[n - 1], n - 1, selections[n - 1], cfg)
  }

  // ---------- the end-of-test mark ----------

  /** How a position's direction is written once its order has been placed. */
  function DirectionText(d: Direction): string {
    match d
    case Bullish => "BULLISH"
    case Bearish => "BEARISH"
    case NoDirection => "NONE"
  }

  /** The R a position is marked at.  The buy formula is chosen by comparing the text with "BUY". */
  function MarkedR(pos: Position, close: real): real {
    var risk := Abs(pos.entry - pos.stop);
    if risk <= 0.0 then pos.realizedR
    else if DirectionText(pos.direction) == "BUY" then pos.realizedR + pos.remaining * ((close - pos.entry) / risk)
    else pos.realizedR + pos.remaining * ((pos.entry - close) / risk)
  }

  function MarkTrade(pos: Position, c: Candle): Trade {
    Trade(pos.tradeId, EndOfTest, Round(MarkedR(pos, c.close), R_SCALE), pos.partials, false, Some(c.close),
          pos.entryTime, c.closeTime, pos.order)
  }

  function MarkFirst(ps: seq<Position>, c: Candle, k: nat): seq<Trade>
    requires k <= |ps|
    decreases k
  {
    if k == 0 then [] else MarkFirst(ps, c, k - 1) + [MarkTrade(ps[k - 1], c)]
  }

  function Finish(st: State, candles: seq<Candle>, cfg: Config): State {
    if cfg.closeAtEnd && candles != [] then
      st.(trades := st.trades + MarkFirst(st.open, candles[|candles| - 1], |st.open|), open := [])
    else st
  }

  // ---------- the backtester object ----------

  /** Keeps the cooldown registry between runs, as the backtester object does. */
  class FullSystemBacktester {
    var cooldownRegistry: map<string, int>
    const cfg: Config

    constructor (cfg: Config)
      ensures this.cfg == Clamped(cfg) && cooldownRegistry == map[]
    {
      this.cfg := Clamped(cfg);
      cooldownRegistry := map[];
    }

    method WorkOrders(ws: seq<Waiting>, c: Candle) returns (done: Worked)
      ensures done == WorkFirst(ws, c, cfg, |ws|)
    {
      done := Worked([], [], [], []);
      for k := 0 to |ws|
        invariant done == WorkFirst(ws, c, cfg, k)
      {
        done := AddFill(done, ws[k], Fill(ws[k], c, cfg), c, cfg);
      }
    }

    /** A series too short to warm up is an error. */
    method Run(candles: seq<Candle>, selections: seq<Option<Selection>>) returns (result: Option<State>)
      requires |selections| == |candles|
      modifies this
      ensures result.None? <==> |candles| < cfg.warmupBars + 2
      ensures result.None? ==> cooldownRegistry == old(cooldownRegistry)
      ensures result.Some? ==>
                var last := Replay(Start(old(cooldownRegistry)), candles, selections, cfg, |candles|);
                result.value == Finish(last, candles, cfg) && cooldownRegistry == last.cooldowns
    {
      hide Select, WorkFirst, BacktestRun.ManageFirst, MarkTrade;
      if |candles| < cfg.warmupBars + 2 {
        return None;
      }
      ghost var start := Start(cooldownRegistry);
      var st := Start(cooldownRegistry);
      for n := 0 to |candles|
        invariant st == Replay(start, candles, selections, cfg, n)
      {
        var c := candles[n];
        var open, trades := BacktestRun.ManageOpen(st.open, c, cfg.management);
        var worked := WorkOrders(st.pending, c);
        st := st.(pending := worked.pending, open := open + worked.open, trades := st.trades + trades + worked.trades,
                  skipped := st.skipped + worked.skipped);
        if n + 1 >= cfg.warmupBars && selections[n].Some? {
          st := Select(st, selections[n].value, c.closeTime, cfg);
        }
      }
      cooldownRegistry := st.cooldowns;
      if cfg.closeAtEnd && candles != [] {
        var marked: seq<Trade> := [];
        for k := 0 to |st.open|
          invariant marked == MarkFirst(st.open, candles[|candles| - 1], k)
        {
          marked := marked + [MarkTrade(st.open[k], candles[|candles| - 1])];
        }
        st := st.(trades := st.trades + marked, open := []);
      }
      result := Some(st);
    }
  }
}
