/** Whole-run properties of the full-system replay: placed orders are conserved, capacity is
    respected, placements respect the cooldown, and the end-of-test mark is right only for shorts. */
module FullSystemProperties {
  import opened Common
  import opened Rounding
  import opened TradeManagement
  import opened PositionHistory
  import BacktestRun
  import opened BacktestProperties
  import opened FullSystemRun

  // ---------- conservation of placed orders ----------

  function WaitingIds(ws: seq<Waiting>): (ids: seq<int>)
    ensures |ids| == |ws| && forall k :: 0 <= k < |ws| ==> ids[k] == ws[k].order.id
  {
    seq(|ws|, k requires 0 <= k < |ws| => ws[k].order.id)
  }

  function PlacedIds(ps: seq<Placement>): (ids: seq<int>)
    ensures |ids| == |ps| && forall k :: 0 <= k < |ps| ==> ids[k] == ps[k].id
  {
    seq(|ps|, k requires 0 <= k < |ps| => ps[k].id)
  }

  /** Skipped entries at the given level with a selected id. */
  function SkipsAt(ss: seq<FullSystemRun.Skip>, orderLevel: bool, which: iset<int>): nat {
    if ss == [] then 0
    else
      var last := ss[|ss| - 1];
      SkipsAt(ss[..|ss| - 1], orderLevel, which)
      + if last.reason.OrderLevel() == orderLevel then One(last.id, which) else 0
  }

  function WaitingCount(ws: seq<Waiting>, which: iset<int>): nat {
    Count(WaitingIds(ws), which)
  }

  lemma WaitingCountSnoc(ws: seq<Waiting>, w: Waiting, which: iset<int>)
    ensures WaitingCount(ws + [w], which) == WaitingCount(ws, which) + One(w.order.id, which)
  {
    CountSnoc(WaitingIds(ws), w.order.id, which);
    assert WaitingIds(ws + [w]) == WaitingIds(ws) + [w.order.id];
  }

  lemma SkipsAtSnoc(ss: seq<FullSystemRun.Skip>, s: FullSystemRun.Skip, orderLevel: bool, which: iset<int>)
    ensures SkipsAt(ss + [s], orderLevel, which)
         == SkipsAt(ss, orderLevel, which) + if s.reason.OrderLevel() == orderLevel then One(s.id, which) else 0
  {
    assert (ss + [s])[..|ss|] == ss;
  }

  lemma {:induction false} SkipsAtAppend(a: seq<FullSystemRun.Skip>, b: seq<FullSystemRun.Skip>, orderLevel: bool,
                                         which: iset<int>)
    ensures SkipsAt(a + b, orderLevel, which) == SkipsAt(a, orderLevel, which) + SkipsAt(b, orderLevel, which)
  {
    if b == [] {
      assert a + b == a;
    } else {
      assert (a + b)[..|a + b| - 1] == a + b[..|b| - 1];
      SkipsAtAppend(a, b[..|b| - 1], orderLevel, which);
    }
  }

  function WorkedCount(done: FullSystemRun.Worked, which: iset<int>): nat {
    WaitingCount(done.pending, which) + OpenCount(done.open, which) + TradeCount(done.trades, which)
    + SkipsAt(done.skipped, true, which)
  }

  /** Working one waiting order puts its id in exactly one list. */
  lemma AddFillConserves(done: FullSystemRun.Worked, w: Waiting, fill: BacktestRun.Fill, c: Candle,
                         cfg: FullSystemRun.Config, which: iset<int>)
    ensures WorkedCount(AddFill(done, w, fill, c, cfg), which) == WorkedCount(done, which) + One(w.order.id, which)
    ensures SkipsAt(AddFill(done, w, fill, c, cfg).skipped, false, which) == SkipsAt(done.skipped, false, which)
  {
    hide Manage, EntryRefusal, WaitingCount, OpenCount, TradeCount, SkipsAt, One;
    if fill.Filled? {
      RefusalsAreOrderLevel(w, fill.price, cfg);
      var refusal := EntryRefusal(w, fill.price, cfg);
      if refusal.Some? {
        SkipsAtSnoc(done.skipped, FullSystemRun.Skip(w.order.id, refusal.value), true, which);
        SkipsAtSnoc(done.skipped, FullSystemRun.Skip(w.order.id, refusal.value), false, which);
      } else {
        var pos := FullSystemRun.PositionFromFill(w, fill);
        ManageKeepsIdentity(pos, c, cfg.management);
        match Manage(pos, c, cfg.management)
        case Closed(_, trade) => TradeCountSnoc(done.trades, trade, which);
        case StillOpen(next) => OpenCountSnoc(done.open, next, which);
        case _ => OpenCountSnoc(done.open, pos, which);
      }
    } else if fill.reason.OrderExpired? {
      SkipsAtSnoc(done.skipped, FullSystemRun.Skip(w.order.id, OrderExpired), true, which);
      SkipsAtSnoc(done.skipped, FullSystemRun.Skip(w.order.id, OrderExpired), false, which);
    } else {
      WaitingCountSnoc(done.pending, w, which);
    }
  }

  lemma RefusalsAreOrderLevel(w: Waiting, fillPrice: real, cfg: FullSystemRun.Config)
    ensures EntryRefusal(w, fillPrice, cfg).Some? ==> EntryRefusal(w, fillPrice, cfg).value.OrderLevel()
  {
    hide DriftTooLarge, RiskTooSmall, PostCostRr;
  }

  lemma NothingWorked(which: iset<int>)
    ensures WorkedCount(FullSystemRun.Worked([], [], [], []), which) == WaitingCount([], which) == 0
    ensures SkipsAt([], false, which) == 0
  {
    NothingCounted(which);
  }

  lemma {:induction false} WorkingConservesPlaced(ws: seq<Waiting>, c: Candle, cfg: FullSystemRun.Config, k: nat,
                                                  which: iset<int>)
    requires k <= |ws|
    ensures WorkedCount(FullSystemRun.WorkFirst(ws, c, cfg, k), which) == WaitingCount(ws[..k], which)
    ensures SkipsAt(FullSystemRun.WorkFirst(ws, c, cfg, k).skipped, false, which) == 0
    decreases k
  {
    hide AddFill, WorkedCount, WaitingCount, SkipsAt, One;
    if k > 0 {
      WorkingConservesPlaced(ws, c, cfg, k - 1, which);
      AddFillConserves(FullSystemRun.WorkFirst(ws, c, cfg, k - 1), ws[k - 1], FullSystemRun.Fill(ws[k - 1], c, cfg), c,
                       cfg, which);
      assert ws[..k] == ws[..k - 1] + [ws[k - 1]];
      WaitingCountSnoc(ws[..k - 1], ws[k - 1], which);
    } else {
      assert ws[..0] == [];
      NothingWorked(which);
    }
  }

  function OrdersHeld(st: FullSystemRun.State, which: iset<int>): nat {
    WaitingCount(st.pending, which) + OpenCount(st.open, which) + TradeCount(st.trades, which)
    + SkipsAt(st.skipped, true, which)
  }

  /** Every placed order is pending, open, logged as a trade, or skipped after having been placed. */
  predicate PlacedConserved(st: FullSystemRun.State, which: iset<int>) {
    OrdersHeld(st, which) == Count(PlacedIds(st.placed), which)
  }

  lemma BeforeSelectionConserves(st: FullSystemRun.State, c: Candle, cfg: FullSystemRun.Config, which: iset<int>)
    ensures var before := BeforeSelection(st, c, cfg);
            OrdersHeld(before, which) == OrdersHeld(st, which)
            && SkipsAt(before.skipped, false, which) == SkipsAt(st.skipped, false, which)
            && before.placed == st.placed && before.cooldowns == st.cooldowns
  {
    hide WaitingCount, OpenCount, TradeCount, SkipsAt;
    var managed := BacktestRun.ManageFirst(st.open, c, cfg.management, |st.open|);
    var worked := FullSystemRun.WorkFirst(st.pending, c, cfg, |st.pending|);
    ManagingConserves(st.open, c, cfg.management, |st.open|, which);
    WorkingConservesPlaced(st.pending, c, cfg, |st.pending|, which);
    assert st.open[..|st.open|] == st.open && st.pending[..|st.pending|] == st.pending;
    OpenCountAppend(managed.open, worked.open, which);
    TradeCountAppend(st.trades, managed.trades, which);
    TradeCountAppend(st.trades + managed.trades, worked.trades, which);
    SkipsAtAppend(st.skipped, worked.skipped, true, which);
    SkipsAtAppend(st.skipped, worked.skipped, false, which);
  }

  /** A selection is either placed, once, or refused with a signal-level skip, once. */
  lemma SelectConserves(st: FullSystemRun.State, s: Selection, now: int, cfg: FullSystemRun.Config, which: iset<int>)
    requires PlacedConserved(st, which)
    ensures var after := Select(st, s, now, cfg);
            PlacedConserved(after, which)
            && Count(PlacedIds(after.placed), which) + SkipsAt(after.skipped, false, which)
               == Count(PlacedIds(st.placed), which) + SkipsAt(st.skipped, false, which) + One(s.order.id, which)
  {
    hide WaitingCount, OpenCount, TradeCount, SkipsAt, One, Count;
    var after := Select(st, s, now, cfg);
    if |after.placed| > |st.placed| {
      WaitingCountSnoc(st.pending, Waiting(s.order, s.finalTarget), which);
      CountSnoc(PlacedIds(st.placed), s.order.id, which);
      assert PlacedIds(after.placed) == PlacedIds(st.placed) + [s.order.id];
    } else {
      var skip := after.skipped[|st.skipped|];
      SkipsAtSnoc(st.skipped, skip, true, which);
      SkipsAtSnoc(st.skipped, skip, false, which);
    }
  }

  /** Selections looked at in the first n candles: those past the warm-up. */
  function Considered(selections: seq<Option<Selection>>, cfg: FullSystemRun.Config, n: nat, which: iset<int>): nat
    requires n <= |selections|
    decreases n
  {
    if n == 0 then 0
    else
      var s := selections[n - 1];
      Considered(selections, cfg, n - 1, which)
      + if n >= cfg.warmupBars && s.Some? then One(s.value.order.id, which) else 0
  }

  /** Signals looked at so far: those placed and those refused. */
  function SignalsSeen(st: FullSystemRun.State, which: iset<int>): nat {
    Count(PlacedIds(st.placed), which) + SkipsAt(st.skipped, false, which)
  }

  lemma StepConserves(st: FullSystemRun.State, c: Candle, index: nat, selection: Option<Selection>,
                      cfg: FullSystemRun.Config, which: iset<int>)
    requires PlacedConserved(st, which)
    ensures var after := FullSystemRun.Step(st, c, index, selection, cfg);
            PlacedConserved(after, which)
            && SignalsSeen(after, which)
               == SignalsSeen(st, which)
                  + if index + 1 >= cfg.warmupBars && selection.Some? then One(selection.value.order.id, which) else 0
  {
    hide BeforeSelection, Select, OrdersHeld, SkipsAt, Count, One;
    BeforeSelectionConserves(st, c, cfg, which);
    if index + 1 >= cfg.warmupBars && selection.Some? {
      SelectConserves(BeforeSelection(st, c, cfg), selection.value, c.closeTime, cfg, which);
    }
  }

  lemma StartConservesPlaced(cooldowns: map<string, int>, which: iset<int>)
    ensures PlacedConserved(Start(cooldowns), which) && SignalsSeen(Start(cooldowns), which) == 0
  {
    NothingWorked(which);
  }

  /** Conservation after every candle: placed orders are pending, open, traded or skipped, and every
      selection considered was placed or refused, exactly once. */
  lemma {:induction false} OrdersAreConserved(cooldowns: map<string, int>, candles: seq<Candle>,
      selections: seq<Option<Selection>>, cfg: FullSystemRun.Config, n: nat, which: iset<int>)
    requires n <= |candles| == |selections|
    ensures var st := FullSystemRun.Replay(Start(cooldowns), candles, selections, cfg, n);
            PlacedConserved(st, which) && SignalsSeen(st, which) == Considered(selections, cfg, n, which)
    decreases n
  {
    hide FullSystemRun.Step, PlacedConserved, SignalsSeen, One;
    if n > 0 {
      OrdersAreConserved(cooldowns, candles, selections, cfg, n - 1, which);
      StepConserves(FullSystemRun.Replay(Start(cooldowns), candles, selections, cfg, n - 1), candles[n - 1], n - 1,
                    selections[n - 1], cfg, which);
    } else {
      StartConservesPlaced(cooldowns, which);
    }
  }

  lemma {:induction false} MarkingConserves(ps: seq<Position>, c: Candle, k: nat, which: iset<int>)
    requires k <= |ps|
    ensures TradeCount(MarkFirst(ps, c, k), which) == OpenCount(ps[..k], which)
    decreases k
  {
    hide MarkedR, TradeCount, OpenCount, Round;
    if k > 0 {
      MarkingConserves(ps, c, k - 1, which);
      assert ps[..k] == ps[..k - 1] + [ps[k - 1]];
      OpenCountSnoc(ps[..k - 1], ps[k - 1], which);
      TradeCountSnoc(MarkFirst(ps, c, k - 1), MarkTrade(ps[k - 1], c), which);
    } else {
      assert ps[..0] == [];
      NothingCounted(which);
    }
  }

  /** The same holds of what the run returns, with or without marking the open positions at the end of the test. */
  lemma FinishedOrdersConserved(cooldowns: map<string, int>, candles: seq<Candle>,
      selections: seq<Option<Selection>>, cfg: FullSystemRun.Config, which: iset<int>)
    requires |candles| == |selections|
    ensures var st := FullSystemRun.Replay(Start(cooldowns), candles, selections, cfg, |candles|);
            PlacedConserved(FullSystemRun.Finish(st, candles, cfg), which)
            && SignalsSeen(FullSystemRun.Finish(st, candles, cfg), which)
               == Considered(selections, cfg, |candles|, which)
  {
    hide FullSystemRun.Replay, MarkFirst, TradeCount, OpenCount, WaitingCount, SkipsAt, Count;
    var st := FullSystemRun.Replay(Start(cooldowns), candles, selections, cfg, |candles|);
    OrdersAreConserved(cooldowns, candles, selections, cfg, |candles|, which);
    if cfg.closeAtEnd && candles != [] {
      var c := candles[|candles| - 1];
      MarkingConserves(st.open, c, |st.open|, which);
      assert st.open[..|st.open|] == st.open;
      TradeCountAppend(st.trades, MarkFirst(st.open, c, |st.open|), which);
      NothingCounted(which);
    }
  }

  // ---------- capacity ----------

  lemma {:induction false} ManagingKeepsRoom(ps: seq<Position>, c: Candle, cfg: TradeManagement.Config, k: nat)
    requires k <= |ps|
    ensures |BacktestRun.ManageFirst(ps, c, cfg, k).open| <= k
    decreases k
  {
    hide Manage;
    if k > 0 {
      ManagingKeepsRoom(ps, c, cfg, k - 1);
    }
  }

  lemma {:induction false} WorkingKeepsRoom(ws: seq<Waiting>, c: Candle, cfg: FullSystemRun.Config, k: nat)
    requires k <= |ws|
    ensures var done := FullSystemRun.WorkFirst(ws, c, cfg, k); |done.pending| + |done.open| <= k
    decreases k
  {
    hide Manage, EntryRefusal, FullSystemRun.Fill, FullSystemRun.PositionFromFill;
    if k > 0 {
      WorkingKeepsRoom(ws, c, cfg, k - 1);
    }
  }

  predicate WithinCapacity(st: FullSystemRun.State, cfg: FullSystemRun.Config) {
    |st.open| + |st.pending| <= cfg.maxConcurrent
  }

  lemma StepKeepsCapacity(st: FullSystemRun.State, c: Candle, index: nat, selection: Option<Selection>,
                          cfg: FullSystemRun.Config)
    requires WithinCapacity(st, cfg)
    ensures WithinCapacity(FullSystemRun.Step(st, c, index, selection, cfg), cfg)
  {
    hide BacktestRun.ManageFirst, FullSystemRun.WorkFirst;
    ManagingKeepsRoom(st.open, c, cfg.management, |st.open|);
    WorkingKeepsRoom(st.pending, c, cfg, |st.pending|);
  }

  lemma StartWithinCapacity(cooldowns: map<string, int>, cfg: FullSystemRun.Config)
    ensures WithinCapacity(Start(cooldowns), Clamped(cfg))
  {
  }

  /** Open positions and pending orders together never exceed the limit, on any candle. */
  lemma {:induction false} CapacityRespected(cooldowns: map<string, int>, candles: seq<Candle>,
      selections: seq<Option<Selection>>, cfg: FullSystemRun.Config, n: nat)
    requires n <= |candles| == |selections|
    ensures WithinCapacity(FullSystemRun.Replay(Start(cooldowns), candles, selections, Clamped(cfg), n), Clamped(cfg))
    decreases n
  {
    hide FullSystemRun.Step, WithinCapacity, Clamped;
    if n > 0 {
      CapacityRespected(cooldowns, candles, selections, cfg, n - 1);
      StepKeepsCapacity(FullSystemRun.Replay(Start(cooldowns), candles, selections, Clamped(cfg), n - 1), candles[n - 1],
                        n - 1, selections[n - 1], Clamped(cfg));
    } else {
      StartWithinCapacity(cooldowns, cfg);
    }
  }

  // ---------- cooldown ----------

  /** Two placements of the same strategy and direction are at least one cooldown apart. */
  predicate Spaced(placed: seq<Placement>, cooldown: int) {
    forall i, j :: 0 <= i < j < |placed| && placed[i].key == placed[j].key ==> placed[j].time >= placed[i].time + cooldown
  }

  predicate RegistryCovers(st: FullSystemRun.State, cooldown: int) {
    forall k :: 0 <= k < |st.placed| ==>
      st.placed[k].key in st.cooldowns && st.cooldowns[st.placed[k].key] >= st.placed[k].time + cooldown
  }

  lemma SelectKeepsSpacing(st: FullSystemRun.State, s: Selection, now: int, cfg: FullSystemRun.Config)
    requires cfg.cooldown >= 0 && Spaced(st.placed, cfg.cooldown) && RegistryCovers(st, cfg.cooldown)
    ensures Spaced(Select(st, s, now, cfg).placed, cfg.cooldown) && RegistryCovers(Select(st, s, now, cfg), cfg.cooldown)
  {
    var after := Select(st, s, now, cfg);
    forall k | 0 <= k < |after.placed|
      ensures after.placed[k].key in after.cooldowns
           && after.cooldowns[after.placed[k].key] >= after.placed[k].time + cfg.cooldown
    {
      if k < |st.placed| {
        assert after.placed[k] == st.placed[k];
      }
    }
    forall i, j | 0 <= i < j < |after.placed| && after.placed[i].key == after.placed[j].key
      ensures after.placed[j].time >= after.placed[i].time + cfg.cooldown
    {
      assert after.placed[i] == st.placed[i];
      if j < |st.placed| {
        assert after.placed[j] == st.placed[j];
      }
    }
  }

  lemma StepKeepsSpacing(st: FullSystemRun.State, c: Candle, index: nat, selection: Option<Selection>,
                         cfg: FullSystemRun.Config)
    requires cfg.cooldown >= 0 && Spaced(st.placed, cfg.cooldown) && RegistryCovers(st, cfg.cooldown)
    ensures var after := FullSystemRun.Step(st, c, index, selection, cfg);
            Spaced(after.placed, cfg.cooldown) && RegistryCovers(after, cfg.cooldown)
  {
    hide Select, Spaced;
    var before := BeforeSelection(st, c, cfg);
    assert before.placed == st.placed && before.cooldowns == st.cooldowns;
    if index + 1 >= cfg.warmupBars && selection.Some? {
      SelectKeepsSpacing(before, selection.value, c.closeTime, cfg);
    }
  }

  lemma StartSpaced(cooldowns: map<string, int>, cfg: FullSystemRun.Config)
    ensures Clamped(cfg).cooldown >= 0
    ensures Spaced(Start(cooldowns).placed, Clamped(cfg).cooldown)
    ensures RegistryCovers(Start(cooldowns), Clamped(cfg).cooldown)
  {
  }

  /** Over every run, placements of one strategy and direction are at least a cooldown apart. */
  lemma {:induction false} PlacementsAreSpaced(candles: seq<Candle>, selections: seq<Option<Selection>>,
                                               cfg: FullSystemRun.Config, cooldowns: map<string, int>, n: nat)
    requires n <= |candles| == |selections|
    ensures var st := FullSystemRun.Replay(Start(cooldowns), candles, selections, Clamped(cfg), n);
            Spaced(st.placed, Clamped(cfg).cooldown) && RegistryCovers(st, Clamped(cfg).cooldown)
    decreases n
  {
    hide FullSystemRun.Step, Spaced, RegistryCovers, Clamped;
    var clamped := Clamped(cfg);
    StartSpaced(cooldowns, cfg);
    if n > 0 {
      PlacementsAreSpaced(candles, selections, cfg, cooldowns, n - 1);
      StepKeepsSpacing(FullSystemRun.Replay(Start(cooldowns), candles, selections, clamped, n - 1), candles[n - 1],
                       n - 1, selections[n - 1], clamped);
    }
  }

  // ---------- the end-of-test mark ----------

  /** The R the open part is really worth at `close`, on top of what has been credited. */
  function TrueMarkR(pos: Position, close: real): real {
    pos.realizedR + pos.remaining * ExactR(pos.direction, pos.entry, pos.stop, close)
  }

  /** The mark at the end of the test is the true one for every short.  For a long it has the sign of
      the open part wrong, so it is the true one exactly when there is nothing to mark. */
  lemma EndMarkRightExactly(pos: Position, close: real)
    requires Tradable(pos)
    ensures MarkedR(pos, close) == TrueMarkR(pos, close)
            <==> pos.direction.Bearish? || close == pos.entry || pos.remaining == 0.0
    ensures pos.direction.Bullish? ==>
              MarkedR(pos, close) - pos.realizedR == -(TrueMarkR(pos, close) - pos.realizedR)
  {
    var risk := Risk(pos.direction, pos.entry, pos.stop);
    assert Abs(pos.entry - pos.stop) == risk;
    assert DirectionText(Bullish)[1] == 'U' && DirectionText(Bearish)[1] == 'E' && "BUY"[1] == 'U';
    assert |DirectionText(Bullish)| != |"BUY"| && |DirectionText(Bearish)| != |"BUY"|;
    if pos.direction.Bullish? {
      assert pos.entry - close == -(close - pos.entry);
    }
  }

  /** A long held to the end with a ten-R profit open is reported as a ten-R loss. */
  lemma LongMarkedBackwards()
    ensures exists pos: Position, c: Candle ::
      Tradable(pos) && Fresh(pos) && TrueMarkR(pos, c.close) == 10.0 && MarkTrade(pos, c).realizedR == -10.0
  {
    var pos := Position(1, Bullish, 100.0, 99.0, 99.0, [], 1.0, 0.0, [], true, 1, None, 0.0, 0, "", OrderTag(Market, 0));
    var c := Candle(0, 60, 110.0, 110.0, 110.0, 110.0, true, "");
    EndMarkRightExactly(pos, 110.0);
    assert Tradable(pos) && Fresh(pos);
    assert TrueMarkR(pos, c.close) == 10.0;
    assert MarkedR(pos, c.close) == -10.0;
    IntegersOnGrid(-10, R_SCALE, 100000);
    RoundFixesGrid(-10.0, R_SCALE);
    assert MarkTrade(pos, c).realizedR == -10.0;
  }
}
