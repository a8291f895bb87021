/** Exactly when the skip log of a shorter series is the beginning of the skip log of a longer one: a market
    signal on the last candle is skipped for want of a next candle, and nothing else looks ahead. */
module SkipLogProperties {
  import opened Common
  import opened TradeManagement
  import opened BacktestRun
  import opened BacktestProperties

  // ---------- which signals fall due when ----------

  /** Signals are consumed in order up to the first that is not due. */
  function DueEnd(signals: seq<Signal>, from: nat, time: int): (end: nat)
    ensures from <= end && (from <= |signals| ==> end <= |signals|)
    decreases |signals| - from
  {
    if from < |signals| && signals[from].time.Some? && signals[from].time.value <= time then
      DueEnd(signals, from + 1, time)
    else from
  }

  /** How many signals the first n candles consume. */
  function ConsumedBy(candles: seq<Candle>, signals: seq<Signal>, n: nat): (k: nat)
    requires n <= |candles|
    ensures k <= |signals|
    decreases n
  {
    if n == 0 then 0 else DueEnd(signals, ConsumedBy(candles, signals, n - 1), candles[n - 1].closeTime)
  }

  /** A market signal that passes every check before a candle is looked for to fill it. */
  predicate AdmittedMarket(s: Signal, c: Candle, cfg: RunConfig) {
    s.tradeAllowed && !s.newsRestricted && (cfg.requireAllTimeframes ==> Ready(cfg.timeframes, c.closeTime))
    && s.order.tag.orderType.Market?
  }

  /** An admitted market signal falls due on the n-th candle. */
  predicate MarketDue(candles: seq<Candle>, signals: seq<Signal>, cfg: RunConfig, n: nat)
    requires 0 < n <= |candles|
  {
    exists i :: ConsumedBy(candles, signals, n - 1) <= i < ConsumedBy(candles, signals, n)
      && AdmittedMarket(signals[i], candles[n - 1], cfg)
  }

  lemma {:induction false} TakingConsumes(st: State, signals: seq<Signal>, c: Candle, following: Option<Candle>,
                                          cfg: RunConfig)
    ensures TakeSignals(st, signals, c, following, cfg).next == DueEnd(signals, st.next, c.closeTime)
    decreases |signals| - st.next
  {
    hide TakeSignal;
    if Due(st, signals, c) {
      TakeSignalAdvances(st, signals[st.next], c, following, cfg);
      TakingConsumes(TakeSignal(st, signals[st.next], c, following, cfg), signals, c, following, cfg);
    }
  }

  lemma {:induction false} ReplayConsumes(candles: seq<Candle>, signals: seq<Signal>, cfg: RunConfig, n: nat)
    requires n <= |candles|
    ensures Replay(candles, signals, cfg, n).next == ConsumedBy(candles, signals, n)
    decreases n
  {
    hide TakeSignals, ManageFirst, WorkFirst, DueEnd;
    if n > 0 {
      ReplayConsumes(candles, signals, cfg, n - 1);
      var before := BeforeSignals(Replay(candles, signals, cfg, n - 1), candles[n - 1], cfg);
      TakingConsumes(before, signals, candles[n - 1], Following(candles, n - 1), cfg);
    }
  }

  lemma {:induction false} ConsumedGrows(candles: seq<Candle>, signals: seq<Signal>, m: nat, n: nat)
    requires m <= n <= |candles|
    ensures ConsumedBy(candles, signals, m) <= ConsumedBy(candles, signals, n)
    decreases n
  {
    hide DueEnd;
    if m < n {
      ConsumedGrows(candles, signals, m, n - 1);
    }
  }

  // ---------- without an admitted market signal nothing looks ahead ----------

  lemma TakeLooksAhead(st: State, s: Signal, c: Candle, next: Candle, cfg: RunConfig)
    requires !AdmittedMarket(s, c, cfg)
    ensures TakeSignal(st, s, c, None, cfg) == TakeSignal(st, s, c, Some(next), cfg)
  {
    hide SimulateOrderFill;
  }

  lemma {:induction false} TakingLooksAhead(st: State, signals: seq<Signal>, c: Candle, next: Candle, cfg: RunConfig)
    requires forall i :: st.next <= i < DueEnd(signals, st.next, c.closeTime) && i < |signals| ==>
               !AdmittedMarket(signals[i], c, cfg)
    ensures TakeSignals(st, signals, c, None, cfg) == TakeSignals(st, signals, c, Some(next), cfg)
    decreases |signals| - st.next
  {
    hide TakeSignal, AdmittedMarket;
    if Due(st, signals, c) {
      TakeLooksAhead(st, signals[st.next], c, next, cfg);
      TakeSignalAdvances(st, signals[st.next], c, None, cfg);
      TakingLooksAhead(TakeSignal(st, signals[st.next], c, None, cfg), signals, c, next, cfg);
    }
  }

  // ---------- skips are only appended ----------

  lemma {:induction false} TakingAppendsSkips(st: State, signals: seq<Signal>, c: Candle, following: Option<Candle>,
                                              cfg: RunConfig)
    ensures st.skipped <= TakeSignals(st, signals, c, following, cfg).skipped
    decreases |signals| - st.next
  {
    hide SimulateOrderFill;
    if Due(st, signals, c) {
      TakingAppendsSkips(TakeSignal(st, signals[st.next], c, following, cfg), signals, c, following, cfg);
    }
  }

  lemma {:induction false} SkipsOnlyAppended(candles: seq<Candle>, signals: seq<Signal>, cfg: RunConfig, m: nat, n: nat)
    requires m <= n <= |candles|
    ensures Replay(candles, signals, cfg, m).skipped <= Replay(candles, signals, cfg, n).skipped
    decreases n
  {
    hide TakeSignals, ManageFirst, WorkFirst;
    if m < n {
      SkipsOnlyAppended(candles, signals, cfg, m, n - 1);
      var before := BeforeSignals(Replay(candles, signals, cfg, n - 1), candles[n - 1], cfg);
      TakingAppendsSkips(before, signals, candles[n - 1], Following(candles, n - 1), cfg);
    }
  }

  // ---------- an admitted market signal on the last candle ----------

  function Missed(s: Signal): Skip {
    Skip(s.order.id, NoNextCandle)
  }

  lemma {:induction false} MissedIsLogged(st: State, signals: seq<Signal>, c: Candle, cfg: RunConfig, i: nat)
    requires st.next <= i < DueEnd(signals, st.next, c.closeTime) && i < |signals| && AdmittedMarket(signals[i], c, cfg)
    ensures Missed(signals[i]) in TakeSignals(st, signals, c, None, cfg).skipped
    decreases |signals| - st.next
  {
    hide TakeSignals;
    var after := TakeSignal(st, signals[st.next], c, None, cfg);
    TakingUnfolds(st, signals, c, None, cfg);
    if i == st.next {
      assert after.skipped[|st.skipped|] == Missed(signals[i]);
      TakingAppendsSkips(after, signals, c, None, cfg);
    } else {
      TakeSignalAdvances(st, signals[st.next], c, None, cfg);
      MissedIsLogged(after, signals, c, cfg, i);
    }
  }

  lemma TakingUnfolds(st: State, signals: seq<Signal>, c: Candle, following: Option<Candle>, cfg: RunConfig)
    requires Due(st, signals, c)
    ensures TakeSignals(st, signals, c, following, cfg)
            == TakeSignals(TakeSignal(st, signals[st.next], c, following, cfg), signals, c, following, cfg)
  {
  }

  /** Where an entry for want of a next candle can come from. */
  lemma {:induction false} MissedComesFrom(st: State, signals: seq<Signal>, c: Candle, following: Option<Candle>,
                                           cfg: RunConfig, e: Skip)
    requires e.reason.NoNextCandle? && e in TakeSignals(st, signals, c, following, cfg).skipped
    ensures e in st.skipped
            || (following.None? && exists j :: st.next <= j < |signals| && e.id == signals[j].order.id)
    decreases |signals| - st.next
  {
    hide SimulateOrderFill;
    if Due(st, signals, c) {
      MissedComesFrom(TakeSignal(st, signals[st.next], c, following, cfg), signals, c, following, cfg, e);
    }
  }

  lemma {:induction false} WorkingNeverMisses(orders: seq<Order>, c: Candle, cfg: RunConfig, k: nat, e: Skip)
    requires k <= |orders| && e in WorkFirst(orders, c, cfg, k).skipped
    ensures e.reason.PendingOrderExpired?
    decreases k
  {
    hide SimulateOrderFill;
    if e in WorkFirst(orders, c, cfg, k - 1).skipped {
      WorkingNeverMisses(orders, c, cfg, k - 1, e);
    }
  }

  ghost predicate DistinctIds(signals: seq<Signal>) {
    forall i, j :: 0 <= i < j < |signals| ==> signals[i].order.id != signals[j].order.id
  }

  /** A signal consumed before the last candle is never in the log for want of a next candle. */
  lemma {:induction false} ConsumedIsNotMissed(candles: seq<Candle>, signals: seq<Signal>, cfg: RunConfig, n: nat,
                                               k: nat, i: nat)
    requires DistinctIds(signals) && 0 < n < |candles| && k <= |candles| && i < ConsumedBy(candles, signals, n)
    ensures Missed(signals[i]) !in Replay(candles, signals, cfg, k).skipped
    decreases k
  {
    hide TakeSignals, ManageFirst, WorkFirst, ConsumedBy;
    if k > 0 {
      ConsumedIsNotMissed(candles, signals, cfg, n, k - 1, i);
      var e, st, c := Missed(signals[i]), Replay(candles, signals, cfg, k - 1), candles[k - 1];
      var before := BeforeSignals(st, c, cfg);
      if e in Replay(candles, signals, cfg, k).skipped {
        MissedComesFrom(before, signals, c, Following(candles, k - 1), cfg, e);
        if e in before.skipped {
          WorkingNeverMisses(st.pending, c, cfg, |st.pending|, e);
        } else {
          ReplayConsumes(candles, signals, cfg, k - 1);
          ConsumedGrows(candles, signals, n, k - 1);
        }
      }
    }
  }

  /** The skip log of the first n candles is the beginning of the skip log of the longer series exactly when no
      admitted market signal falls due on the n-th candle. */
  lemma SkipLogCausalExactly(candles: seq<Candle>, signals: seq<Signal>, cfg: RunConfig, n: nat)
    requires DistinctIds(signals) && 0 < n < |candles|
    ensures Replay(candles[..n], signals, cfg, n).skipped <= Replay(candles, signals, cfg, |candles|).skipped
            <==> !MarketDue(candles, signals, cfg, n)
  {
    hide Replay, TakeSignals, ConsumedBy, BeforeSignals, AdmittedMarket;
    var prefix, c := candles[..n], candles[n - 1];
    SamePastSameState(prefix, candles, signals, cfg, n - 1);
    var before := BeforeSignals(Replay(candles, signals, cfg, n - 1), c, cfg);
    LastStep(prefix, signals, cfg, n);
    LastStep(candles, signals, cfg, n);
    ReplayConsumes(candles, signals, cfg, n - 1);
    ConsumedStep(candles, signals, n);
    if MarketDue(candles, signals, cfg, n) {
      var i :| ConsumedBy(candles, signals, n - 1) <= i < ConsumedBy(candles, signals, n)
            && AdmittedMarket(signals[i], c, cfg);
      MissedIsLogged(before, signals, c, cfg, i);
      ConsumedIsNotMissed(candles, signals, cfg, n, |candles|, i);
    } else {
      TakingLooksAhead(before, signals, c, candles[n], cfg);
      SkipsOnlyAppended(candles, signals, cfg, n, |candles|);
    }
  }

  /** So under any settings that admit a signal the skip log is not causal in general. */
  lemma SkipLogLooksAhead(cfg: RunConfig)
    requires cfg.requireAllTimeframes ==> Ready(cfg.timeframes, 300)
    ensures exists candles: seq<Candle>, signals: seq<Signal> ::
      |candles| == 2
      && !(Replay(candles[..1], signals, cfg, 1).skipped <= Replay(candles, signals, cfg, 2).skipped)
  {
    hide Replay;
    var a := Candle(0, 300, 100.0, 101.0, 99.0, 100.0, true, "");
    var order := Order(7, Bullish, OrderTag(Market, 300), 100.0, 98.0, [], "", 300, None);
    var signals := [Signal(Some(300), true, false, order)];
    var candles := [a, a];
    assert ConsumedBy(candles, signals, 0) == 0 && DueEnd(signals, 0, 300) == 1;
    assert AdmittedMarket(signals[0], candles[0], cfg);
    SkipLogCausalExactly(candles, signals, cfg, 1);
  }

  lemma LastStep(candles: seq<Candle>, signals: seq<Signal>, cfg: RunConfig, n: nat)
    requires 0 < n <= |candles|
    ensures var before := BeforeSignals(Replay(candles, signals, cfg, n - 1), candles[n - 1], cfg);
            before.next == Replay(candles, signals, cfg, n - 1).next
            && Replay(candles, signals, cfg, n)
               == TakeSignals(before, signals, candles[n - 1], Following(candles, n - 1), cfg)
  {
    hide TakeSignals, ManageFirst, WorkFirst;
  }

  lemma ConsumedStep(candles: seq<Candle>, signals: seq<Signal>, n: nat)
    requires 0 < n <= |candles|
    ensures ConsumedBy(candles, signals, n) == DueEnd(signals, ConsumedBy(candles, signals, n - 1), candles[n - 1].closeTime)
  {
  }
}
