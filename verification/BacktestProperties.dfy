/** Whole-run properties of the backtest: causality, conservation of signals, no early limit
    fill, and the accounting of every position it ever holds. */
module BacktestProperties {
  import opened Common
  import opened Rounding
  import opened TradeManagement
  import opened PositionHistory
  import opened BacktestRun

  // ---------- causality ----------

  lemma {:induction false} SignalsKeepTrades(st: State, signals: seq<Signal>, c: Candle, following: Option<Candle>,
                                             cfg: RunConfig)
    ensures TakeSignals(st, signals, c, following, cfg).trades == st.trades
    decreases |signals| - st.next
  {
    hide SimulateOrderFill, PositionFromFill;
    if Due(st, signals, c) {
      SignalsKeepTrades(TakeSignal(st, signals[st.next], c, following, cfg), signals, c, following, cfg);
    }
  }

  function NextTrades(st: State, c: Candle, cfg: RunConfig): seq<Trade> {
    st.trades + ManageFirst(st.open, c, cfg.management, |st.open|).trades
  }

  lemma StepTrades(st: State, signals: seq<Signal>, c: Candle, following: Option<Candle>, cfg: RunConfig)
    ensures Step(st, signals, c, following, cfg).trades == NextTrades(st, c, cfg)
  {
    hide ManageFirst, WorkFirst, TakeSignals;
    SignalsKeepTrades(BeforeSignals(st, c, cfg), signals, c, following, cfg);
  }

  predicate SameUpTo(a: seq<Candle>, b: seq<Candle>, n: nat) {
    n <= |a| && n <= |b| && forall k :: 0 <= k < n ==> a[k] == b[k]
  }

  /** Two series with the same first k + 1 candles are in the same state after k of them. */
  lemma {:induction false} SamePastSameState(a: seq<Candle>, b: seq<Candle>, signals: seq<Signal>, cfg: RunConfig, k: nat)
    requires SameUpTo(a, b, k + 1)
    ensures Replay(a, signals, cfg, k) == Replay(b, signals, cfg, k)
    decreases k
  {
    hide Step;
    if k > 0 {
      SamePastSameState(a, b, signals, cfg, k - 1);
      assert a[k - 1] == b[k - 1] && a[k] == b[k];
    }
  }

  lemma ReplayTrades(candles: seq<Candle>, signals: seq<Signal>, cfg: RunConfig, n: nat)
    requires 0 < n <= |candles|
    ensures Replay(candles, signals, cfg, n).trades
         == NextTrades(Replay(candles, signals, cfg, n - 1), candles[n - 1], cfg)
  {
    hide Step, NextTrades;
    StepTrades(Replay(candles, signals, cfg, n - 1), signals, candles[n - 1], Following(candles, n - 1), cfg);
  }

  lemma ReplayStart(candles: seq<Candle>, signals: seq<Signal>, cfg: RunConfig)
    ensures Replay(candles, signals, cfg, 0) == INITIAL
  {
  }

  /** No lookahead: the trade log after n candles is a function of those n candles. */
  lemma SamePastSameTrades(a: seq<Candle>, b: seq<Candle>, signals: seq<Signal>, cfg: RunConfig, n: nat)
    requires SameUpTo(a, b, n)
    ensures Replay(a, signals, cfg, n).trades == Replay(b, signals, cfg, n).trades
  {
    hide Replay, NextTrades;
    if n > 0 {
      SamePastSameState(a, b, signals, cfg, n - 1);
      ReplayTrades(a, signals, cfg, n);
      ReplayTrades(b, signals, cfg, n);
    } else {
      ReplayStart(a, signals, cfg);
      ReplayStart(b, signals, cfg);
    }
  }

  lemma {:induction false} TradesOnlyAppended(candles: seq<Candle>, signals: seq<Signal>, cfg: RunConfig, m: nat, n: nat)
    requires m <= n <= |candles|
    ensures Replay(candles, signals, cfg, m).trades <= Replay(candles, signals, cfg, n).trades
    decreases n - m
  {
    hide Replay, ManageFirst;
    if m < n {
      TradesOnlyAppended(candles, signals, cfg, m, n - 1);
      ReplayTrades(candles, signals, cfg, n);
    }
  }

  // ---------- the other timeframes, cut where the prefix ends ----------

  function EndedBy(ends: seq<int>, time: int): (early: seq<int>)
    ensures forall end :: end in early <==> end in ends && end <= time
  {
    if ends == [] then []
    else
      var rest, last := EndedBy(ends[..|ends| - 1], time), ends[|ends| - 1];
      if last <= time then rest + [last] else rest
  }

  /** Every timeframe without the candles that end after a time. */
  function CutAt(timeframes: seq<seq<int>>, time: int): (cut: seq<seq<int>>)
    ensures |cut| == |timeframes| && forall t :: 0 <= t < |cut| ==> cut[t] == EndedBy(timeframes[t], time)
  {
    seq(|timeframes|, t requires 0 <= t < |timeframes| => EndedBy(timeframes[t], time))
  }

  function Cut(cfg: RunConfig, time: int): RunConfig {
    cfg.(timeframes := CutAt(cfg.timeframes, time))
  }

  lemma ReadyOnCut(timeframes: seq<seq<int>>, time: int, now: int)
    requires now <= time
    ensures Ready(CutAt(timeframes, time), now) == Ready(timeframes, now)
  {
    hide EndedBy;
    forall t | 0 <= t < |timeframes|
      ensures SomeEndedBy(CutAt(timeframes, time)[t], now) == SomeEndedBy(timeframes[t], now)
    {
    }
  }

  lemma {:induction false} WorkingOnCut(orders: seq<Order>, c: Candle, cfg: RunConfig, time: int, k: nat)
    requires k <= |orders|
    ensures WorkFirst(orders, c, Cut(cfg, time), k) == WorkFirst(orders, c, cfg, k)
    decreases k
  {
    hide SimulateOrderFill, CutAt;
    if k > 0 {
      WorkingOnCut(orders, c, cfg, time, k - 1);
    }
  }

  lemma {:induction false} SignalsOnCut(st: State, signals: seq<Signal>, c: Candle, following: Option<Candle>,
                                        cfg: RunConfig, time: int)
    requires c.closeTime <= time
    ensures TakeSignals(st, signals, c, following, Cut(cfg, time)) == TakeSignals(st, signals, c, following, cfg)
    decreases |signals| - st.next
  {
    hide SimulateOrderFill, CutAt, Ready;
    if Due(st, signals, c) {
      ReadyOnCut(cfg.timeframes, time, c.closeTime);
      SignalsOnCut(TakeSignal(st, signals[st.next], c, following, cfg), signals, c, following, cfg, time);
    }
  }

  /** Candles of other timeframes that end after every candle replayed make no difference. */
  lemma {:induction false} ReplayOnCut(candles: seq<Candle>, signals: seq<Signal>, cfg: RunConfig, time: int, n: nat)
    requires n <= |candles| && forall k :: 0 <= k < n ==> candles[k].closeTime <= time
    ensures Replay(candles, signals, Cut(cfg, time), n) == Replay(candles, signals, cfg, n)
    decreases n
  {
    hide TakeSignals, ManageFirst, WorkFirst, CutAt;
    if n > 0 {
      ReplayOnCut(candles, signals, cfg, time, n - 1);
      var st, c := Replay(candles, signals, cfg, n - 1), candles[n - 1];
      WorkingOnCut(st.pending, c, cfg, time, |st.pending|);
      SignalsOnCut(BeforeSignals(st, c, cfg), signals, c, Following(candles, n - 1), cfg, time);
    }
  }

  /** With end-of-test closing off, the trade log of any prefix of the series, run on what every timeframe had by
      then, is a prefix of the trade log of the whole series. */
  lemma BacktestIsCausal(candles: seq<Candle>, signals: seq<Signal>, cfg: RunConfig, n: nat, time: int)
    requires n <= |candles| && !cfg.closeAtEnd
    requires forall k :: 0 <= k < n ==> candles[k].closeTime <= time
    ensures Finish(Replay(candles[..n], signals, Cut(cfg, time), n), candles[..n], Cut(cfg, time)).trades
         <= Finish(Replay(candles, signals, cfg, |candles|), candles, cfg).trades
  {
    hide Replay, CutAt;
    ReplayOnCut(candles[..n], signals, cfg, time, n);
    SamePastSameTrades(candles[..n], candles, signals, cfg, n);
    TradesOnlyAppended(candles, signals, cfg, n, |candles|);
  }

  // ---------- conservation of signals ----------

  function PendingIds(orders: seq<Order>): (ids: seq<int>)
    ensures |ids| == |orders| && forall k :: 0 <= k < |orders| ==> ids[k] == orders[k].id
  {
    seq(|orders|, k requires 0 <= k < |orders| => orders[k].id)
  }

  function OpenIds(ps: seq<Position>): (ids: seq<int>)
    ensures |ids| == |ps| && forall k :: 0 <= k < |ps| ==> ids[k] == ps[k].tradeId
  {
    seq(|ps|, k requires 0 <= k < |ps| => ps[k].tradeId)
  }

  function TradeIds(ts: seq<Trade>): (ids: seq<int>)
    ensures |ids| == |ts| && forall k :: 0 <= k < |ts| ==> ids[k] == ts[k].tradeId
  {
    seq(|ts|, k requires 0 <= k < |ts| => ts[k].tradeId)
  }

  function SkipIds(ss: seq<Skip>): (ids: seq<int>)
    ensures |ids| == |ss| && forall k :: 0 <= k < |ss| ==> ids[k] == ss[k].id
  {
    seq(|ss|, k requires 0 <= k < |ss| => ss[k].id)
  }

  function SignalIds(signals: seq<Signal>): (ids: seq<int>)
    ensures |ids| == |signals| && forall k :: 0 <= k < |signals| ==> ids[k] == signals[k].order.id
  {
    seq(|signals|, k requires 0 <= k < |signals| => signals[k].order.id)
  }

  /** How many entries have a selected id: one id, all of them, or any family in between. */
  function Count(ids: seq<int>, which: iset<int>): nat {
    if ids == [] then 0 else Count(ids[..|ids| - 1], which) + One(ids[|ids| - 1], which)
  }

  function One(id: int, which: iset<int>): nat {
    if id in which then 1 else 0
  }

  lemma CountSnoc(ids: seq<int>, id: int, which: iset<int>)
    ensures Count(ids + [id], which) == Count(ids, which) + One(id, which)
  {
    assert (ids + [id])[..|ids|] == ids;
  }

  lemma {:induction false} CountAppend(a: seq<int>, b: seq<int>, which: iset<int>)
    ensures Count(a + b, which) == Count(a, which) + Count(b, which)
  {
    if b == [] {
      assert a + b == a;
    } else {
      assert (a + b)[..|a + b| - 1] == a + b[..|b| - 1];
      CountAppend(a, b[..|b| - 1], which);
    }
  }

  function PendingCount(orders: seq<Order>, which: iset<int>): nat {
    Count(PendingIds(orders), which)
  }

  function OpenCount(ps: seq<Position>, which: iset<int>): nat {
    Count(OpenIds(ps), which)
  }

  function TradeCount(ts: seq<Trade>, which: iset<int>): nat {
    Count(TradeIds(ts), which)
  }

  function SkipCount(ss: seq<Skip>, which: iset<int>): nat {
    Count(SkipIds(ss), which)
  }

  function SignalCount(signals: seq<Signal>, which: iset<int>): nat {
    Count(SignalIds(signals), which)
  }

  lemma PendingCountSnoc(orders: seq<Order>, order: Order, which: iset<int>)
    ensures PendingCount(orders + [order], which) == PendingCount(orders, which) + One(order.id, which)
  {
    CountSnoc(PendingIds(orders), order.id, which);
    assert PendingIds(orders + [order]) == PendingIds(orders) + [order.id];
  }

  lemma NothingCounted(which: iset<int>)
    ensures PendingCount([], which) == OpenCount([], which) == 0
    ensures TradeCount([], which) == SkipCount([], which) == SignalCount([], which) == 0
  {
  }

  lemma OpenCountSnoc(ps: seq<Position>, p: Position, which: iset<int>)
    ensures OpenCount(ps + [p], which) == OpenCount(ps, which) + One(p.tradeId, which)
  {
    CountSnoc(OpenIds(ps), p.tradeId, which);
    assert OpenIds(ps + [p]) == OpenIds(ps) + [p.tradeId];
  }

  lemma TradeCountSnoc(ts: seq<Trade>, t: Trade, which: iset<int>)
    ensures TradeCount(ts + [t], which) == TradeCount(ts, which) + One(t.tradeId, which)
  {
    CountSnoc(TradeIds(ts), t.tradeId, which);
    assert TradeIds(ts + [t]) == TradeIds(ts) + [t.tradeId];
  }

  lemma SkipCountSnoc(ss: seq<Skip>, s: Skip, which: iset<int>)
    ensures SkipCount(ss + [s], which) == SkipCount(ss, which) + One(s.id, which)
  {
    CountSnoc(SkipIds(ss), s.id, which);
    assert SkipIds(ss + [s]) == SkipIds(ss) + [s.id];
  }

  lemma OpenCountAppend(a: seq<Position>, b: seq<Position>, which: iset<int>)
    ensures OpenCount(a + b, which) == OpenCount(a, which) + OpenCount(b, which)
  {
    CountAppend(OpenIds(a), OpenIds(b), which);
    assert OpenIds(a + b) == OpenIds(a) + OpenIds(b);
  }

  lemma TradeCountAppend(a: seq<Trade>, b: seq<Trade>, which: iset<int>)
    ensures TradeCount(a + b, which) == TradeCount(a, which) + TradeCount(b, which)
  {
    CountAppend(TradeIds(a), TradeIds(b), which);
    assert TradeIds(a + b) == TradeIds(a) + TradeIds(b);
  }

  lemma SkipCountAppend(a: seq<Skip>, b: seq<Skip>, which: iset<int>)
    ensures SkipCount(a + b, which) == SkipCount(a, which) + SkipCount(b, which)
  {
    CountAppend(SkipIds(a), SkipIds(b), which);
    assert SkipIds(a + b) == SkipIds(a) + SkipIds(b);
  }

  lemma OutcomeConserves(done: Managed, pos: Position, out: Outcome, which: iset<int>)
    requires out.StillOpen? ==> out.open.tradeId == pos.tradeId
    requires out.Closed? ==> out.trade.tradeId == pos.tradeId
    ensures var next := AddOutcome(done, pos, out);
            OpenCount(next.open, which) + TradeCount(next.trades, which)
            == OpenCount(done.open, which) + TradeCount(done.trades, which) + One(pos.tradeId, which)
  {
    hide OpenCount, TradeCount;
    match out
    case Closed(_, trade) => TradeCountSnoc(done.trades, trade, which);
    case StillOpen(next) => OpenCountSnoc(done.open, next, which);
    case _ => OpenCountSnoc(done.open, pos, which);
  }

  lemma ManageOneConserves(done: Managed, before: seq<Position>, pos: Position, c: Candle, cfg: Config,
                           which: iset<int>)
    requires OpenCount(done.open, which) + TradeCount(done.trades, which) == OpenCount(before, which)
    ensures var next := AddOutcome(done, pos, Manage(pos, c, cfg));
            OpenCount(next.open, which) + TradeCount(next.trades, which) == OpenCount(before + [pos], which)
  {
    hide Manage, OpenCount, TradeCount, AddOutcome, One;
    ManageKeepsIdentity(pos, c, cfg);
    OutcomeConserves(done, pos, Manage(pos, c, cfg), which);
    OpenCountSnoc(before, pos, which);
  }

  lemma {:induction false} ManagingConserves(ps: seq<Position>, c: Candle, cfg: Config, k: nat, which: iset<int>)
    requires k <= |ps|
    ensures var done := ManageFirst(ps, c, cfg, k);
            OpenCount(done.open, which) + TradeCount(done.trades, which) == OpenCount(ps[..k], which)
    decreases k
  {
    hide Manage, OpenCount, TradeCount, AddOutcome;
    if k > 0 {
      ManagingConserves(ps, c, cfg, k - 1, which);
      ManageOneConserves(ManageFirst(ps, c, cfg, k - 1), ps[..k - 1], ps[k - 1], c, cfg, which);
      assert ps[..k] == ps[..k - 1] + [ps[k - 1]];
    } else {
      assert ps[..0] == [];
      NothingCounted(which);
    }
  }

  lemma {:induction false} WorkingConserves(orders: seq<Order>, c: Candle, cfg: RunConfig, k: nat, which: iset<int>)
    requires k <= |orders|
    ensures var done := WorkFirst(orders, c, cfg, k);
            PendingCount(done.pending, which) + OpenCount(done.entered, which) + SkipCount(done.skipped, which)
            == PendingCount(orders[..k], which)
    decreases k
  {
    hide SimulateOrderFill, PendingCount, OpenCount, SkipCount;
    if k > 0 {
      var done, order := WorkFirst(orders, c, cfg, k - 1), orders[k - 1];
      WorkingConserves(orders, c, cfg, k - 1, which);
      assert orders[..k] == orders[..k - 1] + [order];
      PendingCountSnoc(orders[..k - 1], order, which);
      var fill := SimulateOrderFill(order, c, cfg.spread, cfg.slippage);
      if fill.Filled? {
        OpenCountSnoc(done.entered, PositionFromFill(order, fill), which);
      } else if fill.reason.OrderExpired? {
        SkipCountSnoc(done.skipped, Skip(order.id, PendingOrderExpired), which);
      } else {
        PendingCountSnoc(done.pending, order, which);
      }
    } else {
      assert orders[..0] == [];
      NothingCounted(which);
    }
  }

  function Held(st: State, which: iset<int>): nat {
    PendingCount(st.pending, which) + OpenCount(st.open, which) + TradeCount(st.trades, which)
    + SkipCount(st.skipped, which)
  }

  /** The consumed signals with selected ids are exactly the entries with those ids. */
  predicate Conserved(st: State, signals: seq<Signal>, which: iset<int>) {
    st.next <= |signals| && Held(st, which) == SignalCount(signals[..st.next], which)
  }

  lemma BeforeSignalsConserves(st: State, c: Candle, cfg: RunConfig, which: iset<int>)
    ensures Held(BeforeSignals(st, c, cfg), which) == Held(st, which)
    ensures BeforeSignals(st, c, cfg).next == st.next
  {
    hide ManageFirst, WorkFirst, PendingCount, OpenCount, TradeCount, SkipCount;
    var managed := ManageFirst(st.open, c, cfg.management, |st.open|);
    var worked := WorkFirst(st.pending, c, cfg, |st.pending|);
    ManagingConserves(st.open, c, cfg.management, |st.open|, which);
    WorkingConserves(st.pending, c, cfg, |st.pending|, which);
    assert st.open[..|st.open|] == st.open && st.pending[..|st.pending|] == st.pending;
    OpenCountAppend(managed.open, worked.entered, which);
    TradeCountAppend(st.trades, managed.trades, which);
    SkipCountAppend(st.skipped, worked.skipped, which);
  }

  /** Taking a signal adds its id to one list, once. */
  lemma TakeSignalConserves(st: State, s: Signal, c: Candle, following: Option<Candle>, cfg: RunConfig,
                            which: iset<int>)
    ensures var after := TakeSignal(st, s, c, following, cfg);
            after.next == st.next + 1
            && Held(after, which) == Held(st, which) + One(s.order.id, which)
  {
    hide SimulateOrderFill, PendingCount, OpenCount, TradeCount, SkipCount;
    var after, id := TakeSignal(st, s, c, following, cfg), s.order.id;
    if |after.pending| > |st.pending| {
      PendingCountSnoc(st.pending, s.order, which);
    } else if |after.open| > |st.open| {
      OpenCountSnoc(st.open, after.open[|st.open|], which);
    } else {
      SkipCountSnoc(st.skipped, after.skipped[|st.skipped|], which);
    }
  }

  lemma {:induction false} TakeSignalsConserves(st: State, signals: seq<Signal>, c: Candle, following: Option<Candle>,
                                                cfg: RunConfig, which: iset<int>)
    requires Conserved(st, signals, which)
    ensures Conserved(TakeSignals(st, signals, c, following, cfg), signals, which)
    decreases |signals| - st.next
  {
    hide TakeSignal, Held;
    if Due(st, signals, c) {
      TakeSignalConserves(st, signals[st.next], c, following, cfg, which);
      assert SignalIds(signals[..st.next + 1]) == SignalIds(signals[..st.next]) + [signals[st.next].order.id];
      CountSnoc(SignalIds(signals[..st.next]), signals[st.next].order.id, which);
      TakeSignalsConserves(TakeSignal(st, signals[st.next], c, following, cfg), signals, c, following, cfg, which);
    }
  }

  lemma StartConserves(signals: seq<Signal>, which: iset<int>)
    ensures Conserved(INITIAL, signals, which)
  {
    assert signals[..0] == [];
  }

  /** After every candle, each consumed signal is in exactly one of the pending orders, the open
      positions, the trade log and the skip log; with every id selected, the four lengths add up. */
  lemma {:induction false} SignalsAreConserved(candles: seq<Candle>, signals: seq<Signal>, cfg: RunConfig, n: nat,
                                               which: iset<int>)
    requires n <= |candles|
    ensures Conserved(Replay(candles, signals, cfg, n), signals, which)
    decreases n
  {
    hide BeforeSignals, TakeSignals, Held, SignalCount;
    if n == 0 {
      StartConserves(signals, which);
    } else {
      SignalsAreConserved(candles, signals, cfg, n - 1, which);
      var before, c := Replay(candles, signals, cfg, n - 1), candles[n - 1];
      BeforeSignalsConserves(before, c, cfg, which);
      TakeSignalsConserves(BeforeSignals(before, c, cfg), signals, c, Following(candles, n - 1), cfg, which);
    }
  }

  lemma {:induction false} EndingConserves(ps: seq<Position>, c: Candle, k: nat, which: iset<int>)
    requires k <= |ps|
    ensures TradeCount(EndFirst(ps, c, k), which) == OpenCount(ps[..k], which)
    decreases k
  {
    hide EndTrade, TradeCount, OpenCount;
    if k > 0 {
      EndingConserves(ps, c, k - 1, which);
      assert ps[..k] == ps[..k - 1] + [ps[k - 1]];
      OpenCountSnoc(ps[..k - 1], ps[k - 1], which);
      TradeCountSnoc(EndFirst(ps, c, k - 1), EndTrade(ps[k - 1], c), which);
      EndTradeKeepsId(ps[k - 1], c);
    } else {
      assert ps[..0] == [];
      NothingCounted(which);
    }
  }

  lemma EndTradeKeepsId(pos: Position, c: Candle)
    ensures EndTrade(pos, c).tradeId == pos.tradeId
  {
    hide RMultiple, Round;
  }

  /** The same holds of what the run returns, with or without closing at the end of the test. */
  lemma FinishedRunConserves(candles: seq<Candle>, signals: seq<Signal>, cfg: RunConfig, which: iset<int>)
    ensures Conserved(Finish(Replay(candles, signals, cfg, |candles|), candles, cfg), signals, which)
  {
    hide Replay, EndFirst, PendingCount, TradeCount, SkipCount, SignalCount;
    var st := Replay(candles, signals, cfg, |candles|);
    SignalsAreConserved(candles, signals, cfg, |candles|, which);
    if cfg.closeAtEnd && candles != [] {
      var last := candles[|candles| - 1];
      EndingConserves(st.open, last, |st.open|, which);
      assert st.open[..|st.open|] == st.open;
      TradeCountAppend(st.trades, EndFirst(st.open, last, |st.open|), which);
    }
  }

  // ---------- when orders fill ----------

  /** A limit order never fills before it is valid nor on a candle opening at or after its expiry.  A market
      fill is stamped before the order is valid exactly on a candle that straddles that moment. */
  lemma FillTimes(order: Order, c: Candle, spread: real, slippage: real)
    requires c.openTime <= c.closeTime
    ensures var fill := SimulateOrderFill(order, c, spread, slippage);
            fill.Filled? ==>
              c.openTime <= fill.time <= c.closeTime && c.closeTime >= order.tag.validFrom
              && c.openTime < Expiry(order)
              && (order.tag.orderType.Limit? ==> fill.time >= order.tag.validFrom)
              && (order.tag.orderType.Market? ==>
                    (fill.time < order.tag.validFrom <==> c.openTime < order.tag.validFrom < c.closeTime))
  {
  }

  lemma TakeSignalAdvances(st: State, s: Signal, c: Candle, following: Option<Candle>, cfg: RunConfig)
    ensures TakeSignal(st, s, c, following, cfg).next == st.next + 1
  {
    hide SimulateOrderFill;
  }
}
