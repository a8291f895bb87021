/** A full-system run is the separate lives of its selections: one that finds room and is not cooling down waits for its
    fill, is checked at the fill price and managed from the fill candle on, and the lists hold exactly what these lives
    have come to. */
module FullSystemLives {
  import opened Common
  import opened Rounding
  import opened TradeManagement
  import opened ManagementProperties
  import BacktestRun
  import PositionHistory
  import opened FullSystemRun
  import opened Fates
  import opened FullSystemLogProperties

  datatype Life = Pending(w: Waiting) | Entered(fate: Fate) | Dropped(skip: FullSystemRun.Skip)

  /** A waiting order over the candles after its placement; an accepted fill is managed on its own candle already. */
  function Waits(w: Waiting, candles: seq<Candle>, cfg: FullSystemRun.Config): Life
    decreases |candles|
  {
    if candles == [] then Pending(w)
    else
      var fill := FullSystemRun.Fill(w, candles[0], cfg);
      if fill.Filled? then
        var refusal := EntryRefusal(w, fill.price, cfg);
        if refusal.Some? then Dropped(FullSystemRun.Skip(w.order.id, refusal.value))
        else Entered(FateOf(FullSystemRun.PositionFromFill(w, fill), candles, cfg.management))
      else if fill.reason.OrderExpired? then Dropped(FullSystemRun.Skip(w.order.id, FullSystemRun.OrderExpired))
      else Waits(w, candles[1..], cfg)
  }

  /** Why a selection is not placed, if it is not: no room first, then cooling down, then the trap filter. */
  function Verdict(st: FullSystemRun.State, s: Selection, now: int, cfg: FullSystemRun.Config)
    : Option<FullSystemRun.SkipReason>
  {
    if cfg.maxConcurrent <= |st.pending| + |st.open| then Some(BlockedByOpenPosition)
    else if s.key in st.cooldowns && st.cooldowns[s.key] > now then Some(CoolingDown)
    else if s.trapped then Some(TrapRejected)
    else None
  }

  function Began(feed: Feed, cooldowns: map<string, int>, n: nat): FullSystemRun.State
    requires n <= |feed.candles| == |feed.selections|
  {
    FullSystemRun.Replay(FullSystemRun.Start(cooldowns), feed.candles, feed.selections, feed.cfg, n)
  }

  /** The selector's answer on a candle is looked at once the series is warm. */
  predicate Looked(feed: Feed, j: nat)
    requires j < |feed.selections|
  {
    feed.cfg.warmupBars <= j + 1 && feed.selections[j].Some?
  }

  function VerdictOn(feed: Feed, cooldowns: map<string, int>, j: nat): Option<FullSystemRun.SkipReason>
    requires j < |feed.candles| == |feed.selections| && feed.selections[j].Some?
  {
    Verdict(BeforeSelection(Began(feed, cooldowns, j), feed.candles[j], feed.cfg), feed.selections[j].value,
            feed.candles[j].closeTime, feed.cfg)
  }

  /** What the selection on candle j has come to after n candles. */
  function LifeOf(feed: Feed, cooldowns: map<string, int>, j: nat, n: nat): Life
    requires j < n <= |feed.candles| == |feed.selections| && feed.selections[j].Some?
  {
    var s, verdict := feed.selections[j].value, VerdictOn(feed, cooldowns, j);
    if verdict.Some? then Dropped(FullSystemRun.Skip(s.order.id, verdict.value))
    else Waits(Waiting(s.order, s.finalTarget), feed.candles[j + 1..n], feed.cfg)
  }

  ghost predicate InLists(st: FullSystemRun.State, life: Life) {
    match life
    case Pending(w) => w in st.pending
    case Entered(fate) => InManaged(st.open, st.trades, fate)
    case Dropped(skip) => skip in st.skipped
  }

  // ---------- one more candle in a life ----------

  function Aged(life: Life, c: Candle, cfg: FullSystemRun.Config): Life {
    match life
    case Pending(w) => Waits(w, [c], cfg)
    case Entered(fate) => Entered(Later(fate, c, cfg.management))
    case Dropped(_) => life
  }

  lemma {:induction false} WaitsAges(w: Waiting, candles: seq<Candle>, c: Candle, cfg: FullSystemRun.Config)
    ensures Waits(w, candles + [c], cfg) == Aged(Waits(w, candles, cfg), c, cfg)
    decreases |candles|
  {
    hide Later, FullSystemRun.Fill, FateOf, EntryRefusal;
    if candles == [] {
      assert candles + [c] == [c];
    } else {
      assert (candles + [c])[1..] == candles[1..] + [c];
      var fill := FullSystemRun.Fill(w, candles[0], cfg);
      if fill.Filled? {
        FateLater(FullSystemRun.PositionFromFill(w, fill), candles, c, cfg.management);
      } else if !fill.reason.OrderExpired? {
        WaitsAges(w, candles[1..], c, cfg);
      }
    }
  }

  lemma LifeAges(feed: Feed, cooldowns: map<string, int>, j: nat, n: nat)
    requires j < n < |feed.candles| == |feed.selections| && feed.selections[j].Some?
    ensures LifeOf(feed, cooldowns, j, n + 1) == Aged(LifeOf(feed, cooldowns, j, n), feed.candles[n], feed.cfg)
  {
    hide Waits, VerdictOn, Later;
    var s := feed.selections[j].value;
    assert feed.candles[j + 1..n + 1] == feed.candles[j + 1..n] + [feed.candles[n]];
    WaitsAges(Waiting(s.order, s.finalTarget), feed.candles[j + 1..n], feed.candles[n], feed.cfg);
  }

  // ---------- one candle of the run ages every life ----------

  ghost predicate InWorked(done: FullSystemRun.Worked, life: Life) {
    match life
    case Pending(w) => w in done.pending
    case Entered(fate) => InManaged(done.open, done.trades, fate)
    case Dropped(skip) => skip in done.skipped
  }

  ghost predicate AgedWaiting(ws: seq<Waiting>, k: nat, c: Candle, cfg: FullSystemRun.Config, life: Life)
    requires k <= |ws|
  {
    exists i :: 0 <= i < k && Aged(Pending(ws[i]), c, cfg) == life
  }

  lemma WaitsOne(w: Waiting, c: Candle, cfg: FullSystemRun.Config)
    ensures var fill := FullSystemRun.Fill(w, c, cfg);
            Waits(w, [c], cfg)
            == if fill.Filled? then
                 (var refusal := EntryRefusal(w, fill.price, cfg);
                  if refusal.Some? then Dropped(FullSystemRun.Skip(w.order.id, refusal.value))
                  else Entered(Later(Held(FullSystemRun.PositionFromFill(w, fill)), c, cfg.management)))
               else if fill.reason.OrderExpired? then Dropped(FullSystemRun.Skip(w.order.id, FullSystemRun.OrderExpired))
               else Pending(w)
  {
    hide FullSystemRun.Fill, EntryRefusal, Later, FateOf;
    assert [c][1..] == [];
    var fill := FullSystemRun.Fill(w, c, cfg);
    if fill.Filled? {
      FateLater(FullSystemRun.PositionFromFill(w, fill), [], c, cfg.management);
      assert [] + [c] == [c];
    }
  }

  lemma AddedFill(done: FullSystemRun.Worked, w: Waiting, c: Candle, cfg: FullSystemRun.Config, life: Life)
    ensures InWorked(AddFill(done, w, FullSystemRun.Fill(w, c, cfg), c, cfg), life)
            <==> InWorked(done, life) || life == Aged(Pending(w), c, cfg)
  {
    hide FullSystemRun.Fill, EntryRefusal, Manage, Waits, FullSystemRun.PositionFromFill;
    WaitsOne(w, c, cfg);
  }

  lemma {:induction false} WorkingAges(ws: seq<Waiting>, c: Candle, cfg: FullSystemRun.Config, k: nat, life: Life)
    requires k <= |ws|
    ensures InWorked(FullSystemRun.WorkFirst(ws, c, cfg, k), life) <==> AgedWaiting(ws, k, c, cfg, life)
    decreases k
  {
    hide FullSystemRun.Fill, AddFill, Aged, InWorked;
    if k > 0 {
      WorkingAges(ws, c, cfg, k - 1, life);
      AddedFill(FullSystemRun.WorkFirst(ws, c, cfg, k - 1), ws[k - 1], c, cfg, life);
      assert AgedWaiting(ws, k, c, cfg, life)
             <==> AgedWaiting(ws, k - 1, c, cfg, life) || life == Aged(Pending(ws[k - 1]), c, cfg);
    } else {
      NoneWorked(life);
    }
  }

  lemma NoneWorked(life: Life)
    ensures !InWorked(FullSystemRun.Worked([], [], [], []), life)
  {
  }

  ghost predicate AgedInto(st: FullSystemRun.State, c: Candle, cfg: FullSystemRun.Config, life: Life) {
    exists was :: InLists(st, was) && Aged(was, c, cfg) == life
  }

  ghost predicate OpenAged(st: FullSystemRun.State, c: Candle, cfg: FullSystemRun.Config, life: Life) {
    life.Entered? && LaterAmong(st.open, |st.open|, c, cfg.management, life.fate)
  }

  lemma AgedExactly(st: FullSystemRun.State, c: Candle, cfg: FullSystemRun.Config, life: Life)
    ensures AgedInto(st, c, cfg, life)
            <==> OpenAged(st, c, cfg, life) || AgedWaiting(st.pending, |st.pending|, c, cfg, life)
                 || (life.Entered? && life.fate.Traded? && life.fate.trade in st.trades)
                 || (life.Dropped? && life.skip in st.skipped)
  {
    hide Waits, Manage;
    if AgedInto(st, c, cfg, life) {
      var was :| InLists(st, was) && Aged(was, c, cfg) == life;
      match was
      case Entered(fate) =>
        if fate.Held? {
          var i :| 0 <= i < |st.open| && st.open[i] == fate.pos;
          assert Later(Held(st.open[i]), c, cfg.management) == life.fate;
        }
      case Pending(w) =>
        var i :| 0 <= i < |st.pending| && st.pending[i] == w;
        assert Aged(Pending(st.pending[i]), c, cfg) == life;
      case Dropped(_) =>
    }
    if OpenAged(st, c, cfg, life) {
      var i :| 0 <= i < |st.open| && Later(Held(st.open[i]), c, cfg.management) == life.fate;
      assert InLists(st, Entered(Held(st.open[i])));
    } else if AgedWaiting(st.pending, |st.pending|, c, cfg, life) {
      var i :| 0 <= i < |st.pending| && Aged(Pending(st.pending[i]), c, cfg) == life;
      assert InLists(st, Pending(st.pending[i]));
    } else if life.Dropped? || (life.Entered? && life.fate.Traded?) {
      assert InLists(st, life) ==> Aged(life, c, cfg) == life;
    }
  }

  /** Managing and working a candle ages every life in the lists, and puts nothing else in them. */
  lemma BeforeSelectionAges(st: FullSystemRun.State, c: Candle, cfg: FullSystemRun.Config, life: Life)
    ensures InLists(BeforeSelection(st, c, cfg), life) <==> AgedInto(st, c, cfg, life)
  {
    hide BacktestRun.ManageFirst, FullSystemRun.WorkFirst, LaterAmong, AgedWaiting, AgedInto;
    WorkingAges(st.pending, c, cfg, |st.pending|, life);
    AgedExactly(st, c, cfg, life);
    if life.Entered? {
      ManagingIsLater(st.open, c, cfg.management, |st.open|, life.fate);
    }
  }

  // ---------- the selection of a candle ----------

  lemma SelectStarts(feed: Feed, cooldowns: map<string, int>, j: nat, life: Life)
    requires j < |feed.candles| == |feed.selections| && feed.selections[j].Some?
    ensures var before := BeforeSelection(Began(feed, cooldowns, j), feed.candles[j], feed.cfg);
            InLists(Select(before, feed.selections[j].value, feed.candles[j].closeTime, feed.cfg), life)
            <==> InLists(before, life) || life == LifeOf(feed, cooldowns, j, j + 1)
  {
    hide BeforeSelection, Began;
    assert feed.candles[j + 1..j + 1] == [];
  }

  ghost predicate IsLife(feed: Feed, cooldowns: map<string, int>, n: nat, life: Life)
    requires n <= |feed.candles| == |feed.selections|
  {
    exists j :: 0 <= j < n && Looked(feed, j) && life == LifeOf(feed, cooldowns, j, n)
  }

  lemma LivesSplit(feed: Feed, cooldowns: map<string, int>, n: nat, life: Life)
    requires n < |feed.candles| == |feed.selections|
    ensures IsLife(feed, cooldowns, n + 1, life)
            <==> (exists was :: IsLife(feed, cooldowns, n, was) && Aged(was, feed.candles[n], feed.cfg) == life)
                 || (Looked(feed, n) && life == LifeOf(feed, cooldowns, n, n + 1))
  {
    hide LifeOf, Aged;
    if IsLife(feed, cooldowns, n + 1, life) {
      var j :| 0 <= j < n + 1 && Looked(feed, j) && life == LifeOf(feed, cooldowns, j, n + 1);
      if j < n {
        LifeAges(feed, cooldowns, j, n);
        assert IsLife(feed, cooldowns, n, LifeOf(feed, cooldowns, j, n));
      }
    }
    if was :| IsLife(feed, cooldowns, n, was) && Aged(was, feed.candles[n], feed.cfg) == life {
      var j :| 0 <= j < n && Looked(feed, j) && was == LifeOf(feed, cooldowns, j, n);
      LifeAges(feed, cooldowns, j, n);
    }
  }

  lemma BeganStep(feed: Feed, cooldowns: map<string, int>, n: nat)
    requires n < |feed.candles| == |feed.selections|
    ensures var before := BeforeSelection(Began(feed, cooldowns, n), feed.candles[n], feed.cfg);
            Began(feed, cooldowns, n + 1)
            == if Looked(feed, n) then Select(before, feed.selections[n].value, feed.candles[n].closeTime, feed.cfg)
               else before
  {
    hide BeforeSelection, Select;
  }

  /** After n candles the lists hold exactly what the selections looked at so far have come to: each its own order
      waiting, or its checked fill managed from the fill candle on, held or closed, or the reason it was dropped. */
  lemma {:induction false} FullRunIsItsLives(feed: Feed, cooldowns: map<string, int>, n: nat, life: Life)
    requires n <= |feed.candles| == |feed.selections|
    ensures InLists(Began(feed, cooldowns, n), life) <==> IsLife(feed, cooldowns, n, life)
    decreases n
  {
    hide BeforeSelection, Select, InLists, IsLife, LifeOf, Aged, Began;
    if n == 0 {
      NoLives(feed, cooldowns, life);
    } else {
      var st, c := Began(feed, cooldowns, n - 1), feed.candles[n - 1];
      BeganStep(feed, cooldowns, n - 1);
      BeforeSelectionAges(st, c, feed.cfg, life);
      forall was
        ensures InLists(st, was) <==> IsLife(feed, cooldowns, n - 1, was)
      {
        FullRunIsItsLives(feed, cooldowns, n - 1, was);
      }
      LivesSplit(feed, cooldowns, n - 1, life);
      if Looked(feed, n - 1) {
        SelectStarts(feed, cooldowns, n - 1, life);
      }
      assert AgedInto(st, c, feed.cfg, life)
             <==> exists was :: IsLife(feed, cooldowns, n - 1, was) && Aged(was, c, feed.cfg) == life;
    }
  }

  lemma NoLives(feed: Feed, cooldowns: map<string, int>, life: Life)
    requires |feed.candles| == |feed.selections|
    ensures !InLists(Began(feed, cooldowns, 0), life) && !IsLife(feed, cooldowns, 0, life)
  {
  }

  // ---------- cooling down ----------

  /** When a key is free again: a cooldown after the last selection under it that found room and was not cooling down,
      placed or trapped alike; without one, as the registry said at the start. */
  function FreeAgain(feed: Feed, cooldowns: map<string, int>, key: string, n: nat): Option<int>
    requires n <= |feed.candles| == |feed.selections|
    decreases n
  {
    if n == 0 then (if key in cooldowns then Some(cooldowns[key]) else None)
    else if Looked(feed, n - 1) && feed.selections[n - 1].value.key == key && StartsCooldown(feed, cooldowns, n - 1) then
      Some(feed.candles[n - 1].closeTime + feed.cfg.cooldown)
    else FreeAgain(feed, cooldowns, key, n - 1)
  }

  predicate StartsCooldown(feed: Feed, cooldowns: map<string, int>, j: nat)
    requires j < |feed.candles| == |feed.selections| && feed.selections[j].Some?
  {
    var verdict := VerdictOn(feed, cooldowns, j);
    verdict.None? || verdict.value.TrapRejected?
  }

  lemma {:induction false} RegistryExactly(feed: Feed, cooldowns: map<string, int>, key: string, n: nat)
    requires n <= |feed.candles| == |feed.selections|
    ensures var registry := Began(feed, cooldowns, n).cooldowns;
            FreeAgain(feed, cooldowns, key, n) == if key in registry then Some(registry[key]) else None
    decreases n
  {
    hide Began, BacktestRun.ManageFirst, FullSystemRun.WorkFirst;
    if n > 0 {
      RegistryExactly(feed, cooldowns, key, n - 1);
      BeganStep(feed, cooldowns, n - 1);
    } else {
      BeganEmpty(feed, cooldowns);
    }
  }

  lemma BeganEmpty(feed: Feed, cooldowns: map<string, int>)
    requires |feed.candles| == |feed.selections|
    ensures Began(feed, cooldowns, 0) == FullSystemRun.Start(cooldowns)
  {
  }

  // ---------- stopped on the fill candle ----------

  ghost predicate DistinctOrders(feed: Feed) {
    forall i, j :: 0 <= i < j < |feed.selections| && feed.selections[i].Some? && feed.selections[j].Some? ==>
      feed.selections[i].value.order.id != feed.selections[j].value.order.id
  }

  /** The selection on candle j waits until candle k and is filled there, and the fill is accepted. */
  predicate FilledOn(feed: Feed, cooldowns: map<string, int>, j: nat, k: nat)
    requires j < k < |feed.candles| == |feed.selections| && Looked(feed, j)
  {
    var w := Waiting(feed.selections[j].value.order, feed.selections[j].value.finalTarget);
    LifeOf(feed, cooldowns, j, k) == Pending(w) && FullSystemRun.Fill(w, feed.candles[k], feed.cfg).Filled?
    && EntryRefusal(w, FullSystemRun.Fill(w, feed.candles[k], feed.cfg).price, feed.cfg).None?
  }

  lemma {:induction false} WaitsKeepsId(w: Waiting, candles: seq<Candle>, cfg: FullSystemRun.Config)
    ensures match Waits(w, candles, cfg)
            case Entered(Held(pos)) => pos.tradeId == w.order.id
            case Entered(Traded(t)) => t.tradeId == w.order.id
            case Pending(v) => v == w
            case Dropped(skip) => skip.id == w.order.id
    decreases |candles|
  {
    hide FullSystemRun.Fill, EntryRefusal, Run;
    if candles != [] {
      var fill := FullSystemRun.Fill(w, candles[0], cfg);
      if fill.Filled? {
        RunKeepsId(FullSystemRun.PositionFromFill(w, fill), candles, cfg.management);
      } else if !fill.reason.OrderExpired? {
        WaitsKeepsId(w, candles[1..], cfg);
      }
    }
  }

  lemma {:induction false} RunKeepsId(pos: Position, candles: seq<Candle>, cfg: TradeManagement.Config)
    ensures match Run(pos, candles, cfg)
            case StillOpen(last) => last.tradeId == pos.tradeId
            case Closed(_, t) => t.tradeId == pos.tradeId
            case _ => true
    decreases |candles|
  {
    hide Manage;
    if candles != [] {
      PositionHistory.ManageKeepsIdentity(pos, candles[0], cfg);
      match Manage(pos, candles[0], cfg)
      case StillOpen(next) => RunKeepsId(next, candles[1..], cfg);
      case Closed(_, _) =>
      case _ => RunKeepsId(pos, candles[1..], cfg);
    }
  }

  /** An accepted fill whose own candle reaches its stop is logged as stopped by the end of that candle, and with
      distinct order ids no position of that order is open. */
  lemma StoppedOnFillCandle(feed: Feed, cooldowns: map<string, int>, j: nat, k: nat)
    requires j < k < |feed.candles| == |feed.selections| && Looked(feed, j) && FilledOn(feed, cooldowns, j, k)
    requires var w := Waiting(feed.selections[j].value.order, feed.selections[j].value.finalTarget);
             var start := FullSystemRun.PositionFromFill(w, FullSystemRun.Fill(w, feed.candles[k], feed.cfg));
             Protected(start) && NoneDue(start, feed.candles[k], feed.cfg.management) && StopReached(start, feed.candles[k])
    ensures var id, after := feed.selections[j].value.order.id, Began(feed, cooldowns, k + 1);
            (exists t :: t in after.trades && t.tradeId == id && t.exitTime == feed.candles[k].closeTime
                         && (t.reason.StopLoss? || t.reason.BreakevenStop? || t.reason.AmbiguousStopFirst?))
            && (DistinctOrders(feed) ==> forall pos :: pos in after.open ==> pos.tradeId != id)
  {
    hide Manage, Began, FullSystemRun.Fill, EntryRefusal, NoneDue, StopReached, Waits, VerdictOn, LifeOf,
         FullSystemRun.PositionFromFill;
    var c, s := feed.candles[k], feed.selections[j].value;
    var w := Waiting(s.order, s.finalTarget);
    var start := FullSystemRun.PositionFromFill(w, FullSystemRun.Fill(w, c, feed.cfg));
    LifeAges(feed, cooldowns, j, k);
    WaitsOne(w, c, feed.cfg);
    LeavesWhenStopped(start, c, feed.cfg.management);
    PositionHistory.ManageKeepsIdentity(start, c, feed.cfg.management);
    StartKeepsId(w, FullSystemRun.Fill(w, c, feed.cfg));
    var t := Manage(start, c, feed.cfg.management).trade;
    var life := Entered(Traded(t));
    assert LifeOf(feed, cooldowns, j, k + 1) == life;
    FullRunIsItsLives(feed, cooldowns, k + 1, life);
    if DistinctOrders(feed) {
      forall pos | pos in Began(feed, cooldowns, k + 1).open
        ensures pos.tradeId != s.order.id
      {
        FullRunIsItsLives(feed, cooldowns, k + 1, Entered(Held(pos)));
        var i :| 0 <= i < k + 1 && Looked(feed, i) && Entered(Held(pos)) == LifeOf(feed, cooldowns, i, k + 1);
        LifeKeepsId(feed, cooldowns, i, k + 1);
      }
    }
  }

  lemma StartKeepsId(w: Waiting, fill: BacktestRun.Fill)
    requires fill.Filled?
    ensures FullSystemRun.PositionFromFill(w, fill).tradeId == w.order.id
  {
  }

  lemma LifeKeepsId(feed: Feed, cooldowns: map<string, int>, j: nat, n: nat)
    requires j < n <= |feed.candles| == |feed.selections| && feed.selections[j].Some?
    ensures match LifeOf(feed, cooldowns, j, n)
            case Entered(Held(pos)) => pos.tradeId == feed.selections[j].value.order.id
            case _ => true
  {
    hide Waits, VerdictOn;
    var s := feed.selections[j].value;
    WaitsKeepsId(Waiting(s.order, s.finalTarget), feed.candles[j + 1..n], feed.cfg);
  }

  // ---------- the settings ----------

  /** Costs, cooldown and drift share are not negative, and at least one bar and one position are allowed. */
  lemma ClampsExactly(cfg: FullSystemRun.Config)
    ensures var c := Clamped(cfg);
            c == cfg.(spread := c.spread, slippage := c.slippage, warmupBars := c.warmupBars,
                      maxConcurrent := c.maxConcurrent, cooldown := c.cooldown, maxDriftFraction := c.maxDriftFraction)
            && c.spread == (if cfg.spread < 0.0 then 0.0 else cfg.spread)
            && c.slippage == (if cfg.slippage < 0.0 then 0.0 else cfg.slippage)
            && c.maxDriftFraction == (if cfg.maxDriftFraction < 0.0 then 0.0 else cfg.maxDriftFraction)
            && c.warmupBars == (if cfg.warmupBars < 1 then 1 else cfg.warmupBars)
            && c.maxConcurrent == (if cfg.maxConcurrent < 1 then 1 else cfg.maxConcurrent)
            && c.cooldown == (if cfg.cooldown < 0 then 0 else cfg.cooldown)
  {
  }
}
