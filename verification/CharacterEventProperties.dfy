/** What the change-of-character detector reports on each candle, in the fields of the candle, the swings and the sweeps:
    which movement it reads, whether there is an event, of which swing, and everything the event says. */
module CharacterEventProperties {
  import opened AverageRange
  import opened Common
  import opened Market
  import opened Rounding
  import opened Swings
  import opened ChangeOfCharacter
  import opened CharacterProperties

  // ---------- the range of a candle ----------

  /** The largest of the candle's own range and its reach from the close before it; of a first candle never negative. */
  lemma RangeExactly(c: Candle, previous: Option<Candle>)
    ensures var r := TrueRange(c, previous);
            r >= c.high - c.low
            && (previous.None? ==> r >= 0.0 && (r == 0.0 || r == c.high - c.low))
            && (previous.Some? ==>
                  r >= c.high - previous.value.close && r >= previous.value.close - c.high
                  && r >= c.low - previous.value.close && r >= previous.value.close - c.low
                  && (r == c.high - c.low || r == c.high - previous.value.close || r == previous.value.close - c.high
                      || r == c.low - previous.value.close || r == previous.value.close - c.low))
  {
  }

  // ---------- the movement before ----------

  /** Where the window of at most five candles up to k begins. */
  function WindowOf(k: nat): nat {
    if k < 4 then 0 else k - 4
  }

  /** Three candles or more that end below their first close, the last high at or below an earlier high. */
  predicate Fell(candles: seq<Candle>, k: nat)
    requires k < |candles|
  {
    k >= 2 && candles[k].close < candles[WindowOf(k)].close
    && exists j :: WindowOf(k) <= j < k && candles[k].high <= candles[j].high
  }

  /** Three candles or more that end above their first close, the last low at or above an earlier low. */
  predicate Rose(candles: seq<Candle>, k: nat)
    requires k < |candles|
  {
    k >= 2 && candles[k].close > candles[WindowOf(k)].close
    && exists j :: WindowOf(k) <= j < k && candles[k].low >= candles[j].low
  }

  /** What decides the movement before the candles do: the configured text, or else the candle's own. */
  function TextOf(cfg: Config, c: Candle): Option<TrendLabel> {
    if cfg.movement.Some? then cfg.movement else c.trend
  }

  predicate ReadsFall(cfg: Config, candles: seq<Candle>, k: nat)
    requires k < |candles|
  {
    var text := TextOf(cfg, candles[k]);
    if text.Some? then text.value.bearish else Fell(candles, k)
  }

  predicate ReadsRise(cfg: Config, candles: seq<Candle>, k: nat)
    requires k < |candles|
  {
    var text := TextOf(cfg, candles[k]);
    if text.Some? then text.value.bullish && !text.value.bearish else Rose(candles, k)
  }

  /** After a fall only the bullish side may report, after a rise only the bearish one. */
  predicate MayReport(cfg: Config, candles: seq<Candle>, k: nat, direction: Direction)
    requires k < |candles|
  {
    match direction
    case Bullish => !ReadsRise(cfg, candles, k)
    case Bearish => !ReadsFall(cfg, candles, k)
  }

  lemma MovementExactly(cfg: Config, candles: seq<Candle>, k: nat)
    requires k < |candles|
    ensures var movement := PreviousMovement(cfg, candles, k);
            (movement.Down? <==> ReadsFall(cfg, candles, k)) && (movement.Up? <==> ReadsRise(cfg, candles, k))
    ensures forall direction :: Answers(direction, PreviousMovement(cfg, candles, k))
                                <==> MayReport(cfg, candles, k, direction)
  {
  }

  // ---------- the swing looked at ----------

  function KeyOf(s: Swing): SwingKey {
    SwingKey(s.kind, s.index, Round(s.price, 100000000.0))
  }

  /** The level has been spent by an event of an earlier candle. */
  ghost predicate SpentBefore(events: seq<Event>, s: Swing, index: int) {
    exists i :: 0 <= i < |events| && events[i].candle.index < index
      && KeyOf(s) == SwingKey(events[i].swing.kind, events[i].swing.index, Round(events[i].swing.price, 100000000.0))
  }

  predicate Breakable(cfg: Config, s: Swing, index: int, direction: Direction) {
    s.kind == (if direction == Bullish then SwingHigh else SwingLow)
    && s.confirmationIndex < index && s.strength >= cfg.minimumStrength && (s.status == Unswept || s.status == Swept)
  }

  /** The p-th swing is the one looked at: of those breakable the latest confirmed, then the strongest, then the first
      in the list; whether or not its level is spent. */
  ghost predicate LookedAt(cfg: Config, swings: seq<Swing>, p: nat, index: int, direction: Direction): (looked: bool)
    ensures looked ==> p < |swings|
  {
    p < |swings| && Breakable(cfg, swings[p], index, direction)
    && forall q :: 0 <= q < |swings| && Breakable(cfg, swings[q], index, direction) ==>
         swings[q].confirmationIndex < swings[p].confirmationIndex
         || (swings[q].confirmationIndex == swings[p].confirmationIndex
             && (swings[q].strength < swings[p].strength || (swings[q].strength == swings[p].strength && p <= q)))
  }

  // ---------- what a break has to pass ----------

  function Margin(cfg: Config, candles: seq<Candle>, k: nat): real
    requires k < |candles|
  {
    var margin := Atr(candles, k, cfg.atrPeriod, TrueRange) * cfg.bufferMultiplier;
    if margin > 0.0 then margin else 0.0
  }

  lemma MarginIs(cfg: Config, candles: seq<Candle>, k: nat)
    requires k < |candles|
    ensures Buffer(Atr(candles, k, cfg.atrPeriod, TrueRange), cfg.bufferMultiplier) == Margin(cfg, candles, k)
  {
    hide Atr;
  }

  predicate ClosesPast(c: Candle, price: real, margin: real, direction: Direction) {
    match direction
    case Bullish => c.close > price + margin
    case Bearish => c.close < price - margin
  }

  predicate WicksPast(c: Candle, price: real, margin: real, direction: Direction) {
    match direction
    case Bullish => c.high > price + margin
    case Bearish => c.low < price - margin
  }

  /** One of the closes after it, up to the end of the look ahead, is back on the other side of the price; an end
      before the start of the feed is counted from its other end. */
  ghost predicate ComesBack(candles: seq<Candle>, k: nat, lookahead: int, price: real, direction: Direction) {
    exists j :: k < j < |candles| && (if k + 1 + lookahead >= 0 then j <= k + lookahead
                                      else j <= |candles| + k + lookahead)
      && ((direction.Bullish? && candles[j].close < price) || (direction.Bearish? && candles[j].close > price))
  }

  // ---------- what an event says ----------

  /** A valid sweep of the opposite side's liquidity, on the candle or at most so many bars before it. */
  predicate SweepCounts(cfg: Config, v: LiquidityEvent, index: int, direction: Direction) {
    v.valid && v.kind == (if direction == Bullish then SellSideSweep else BuySideSweep)
    && v.index <= index <= v.index + cfg.maxSweepBars
  }

  /** The latest of the sweeps that count, the first of them in the list. */
  ghost predicate SaysSweep(cfg: Config, liquidity: seq<LiquidityEvent>, e: Event) {
    if e.sweep.None? then
      forall q :: 0 <= q < |liquidity| ==> !SweepCounts(cfg, liquidity[q], e.candle.index, e.direction)
    else
      exists p :: 0 <= p < |liquidity| && liquidity[p] == e.sweep.value
        && SweepCounts(cfg, liquidity[p], e.candle.index, e.direction)
        && forall q :: 0 <= q < |liquidity| && SweepCounts(cfg, liquidity[q], e.candle.index, e.direction) ==>
             liquidity[q].index < liquidity[p].index || (liquidity[q].index == liquidity[p].index && p <= q)
  }

  /** The movement, the level and margin, whether the close broke it, and how it went: an upgrade hides a failure. */
  ghost predicate SaysHow(cfg: Config, candles: seq<Candle>, k: nat, e: Event)
    requires k < |candles|
  {
    var price, margin := e.swing.price, Margin(cfg, candles, k);
    var closed := ClosesPast(candles[k], price, margin, e.direction);
    var back := ComesBack(candles, k, cfg.lookahead, price, e.direction);
    (e.movement.Down? <==> ReadsFall(cfg, candles, k)) && (e.movement.Up? <==> ReadsRise(cfg, candles, k))
    && e.buffer == Round(margin, 1000000.0)
    && e.required == Round(if e.direction.Bullish? then price + margin else price - margin, 1000000.0)
    && (e.detected <==> closed) && (e.wickOnly <==> !closed)
    && (e.mssCandidate <==> closed && e.sweep.Some? && (e.displacement.StrongMove? || e.displacement.ModerateMove?)
                            && e.swing.strength >= cfg.upgradeStrength)
    && (e.status.Upgraded? <==> e.mssCandidate)
    && (e.status.Failed? <==> closed && back && !e.mssCandidate)
    && (e.status.Confirmed? <==> closed && !back && !e.mssCandidate)
    && (e.status.WickOnlyCandidate? <==> !closed)
    && var warnings := cfg.warn(candles[..k + 1], e.swing, closed, e.sweep);
       e.warnings == if closed && back then warnings + ["choch_failed_after_reclaim_loss"] else warnings
  }

  /** The displacement, the gap, the score and the grade. */
  ghost predicate SaysHowGood(cfg: Config, candles: seq<Candle>, k: nat, e: Event)
    requires k < |candles|
  {
    var score := cfg.score(candles[..k + 1], e.swing, e.detected, e.sweep);
    e.displacement == cfg.displacement(candles[k], Atr(candles, k, cfg.atrPeriod, TrueRange), e.direction)
    && (e.gap == if k < 2 then None
                 else if e.direction.Bullish? && candles[k - 2].high < candles[k].low then
                   Some(Gap(candles[k - 2].high, candles[k].low))
                 else if e.direction.Bearish? && candles[k].high < candles[k - 2].low then
                   Some(Gap(candles[k].high, candles[k - 2].low))
                 else None)
    && e.score == Round(score, 100.0)
    && (e.grade.MssCandidate? <==> e.status.Upgraded?) && (e.grade.Invalid? <==> e.status.Failed?)
    && (e.grade.Weak? <==> e.status.WickOnlyCandidate? || (e.status.Confirmed? && score < 5.0))
    && (e.grade.Moderate? <==> e.status.Confirmed? && 5.0 <= score < 7.0)
    && (e.grade.StrongWarning? <==> e.status.Confirmed? && 7.0 <= score)
  }

  ghost predicate SaysAll(cfg: Config, candles: seq<Candle>, liquidity: seq<LiquidityEvent>, k: nat, e: Event, s: Swing)
    requires k < |candles|
  {
    e.candle == candles[k]
    && e.swing == BrokenSwing(s.kind, s.index, s.confirmationIndex, s.price, s.strength)
    && SaysSweep(cfg, liquidity, e) && SaysHow(cfg, candles, k, e) && SaysHowGood(cfg, candles, k, e)
  }

  // ---------- one event ----------

  lemma {:induction false} SweepExactly(cfg: Config, liquidity: seq<LiquidityEvent>, index: int, direction: Direction)
    returns (p: nat)
    ensures var sweep := LatestSweep(cfg, liquidity, index, direction);
            if sweep.None? then forall q :: 0 <= q < |liquidity| ==> !SweepCounts(cfg, liquidity[q], index, direction)
            else p < |liquidity| && liquidity[p] == sweep.value && SweepCounts(cfg, liquidity[p], index, direction)
                 && forall q :: 0 <= q < |liquidity| && SweepCounts(cfg, liquidity[q], index, direction) ==>
                      liquidity[q].index < liquidity[p].index || (liquidity[q].index == liquidity[p].index && p <= q)
    decreases |liquidity|
  {
    p := 0;
    if liquidity != [] {
      var n := |liquidity| - 1;
      var earlier := LatestSweep(cfg, liquidity[..n], index, direction);
      p := SweepExactly(cfg, liquidity[..n], index, direction);
      if Relevant(cfg, liquidity[n], index, direction) && (earlier.None? || liquidity[n].index > earlier.value.index) {
        p := n;
      }
    }
  }

  lemma ComesBackExactly(candles: seq<Candle>, k: nat, lookahead: int, price: real, direction: Direction)
    requires k < |candles|
    ensures FailedAfterBreak(candles, k, lookahead, price, direction)
            <==> ComesBack(candles, k, lookahead, price, direction)
  {
    if FailedAfterBreak(candles, k, lookahead, price, direction) {
      var end := SliceEnd(k + 1 + lookahead, |candles|);
      var j :| 0 <= j < |candles| && k + 1 <= j < end && BackBeyond(candles[j], price, direction);
    }
    if ComesBack(candles, k, lookahead, price, direction) {
      var j :| k < j < |candles| && (if k + 1 + lookahead >= 0 then j <= k + lookahead
                                     else j <= |candles| + k + lookahead)
        && ((direction.Bullish? && candles[j].close < price) || (direction.Bearish? && candles[j].close > price));
      assert BackBeyond(candles[j], price, direction);
    }
  }

  /** The event built for a swing on candle k. */
  ghost function Built(cfg: Config, candles: seq<Candle>, liquidity: seq<LiquidityEvent>, k: nat, s: Swing,
                       direction: Direction): Event
    requires k < |candles|
  {
    BuildEvent(cfg, candles, liquidity, k, Recorded(s), direction, PreviousMovement(cfg, candles, k),
               Atr(candles, k, cfg.atrPeriod, TrueRange),
               FailedAfterBreak(candles, k, cfg.lookahead, s.price, direction))
  }

  lemma BuiltSaysSweep(cfg: Config, candles: seq<Candle>, liquidity: seq<LiquidityEvent>, k: nat, s: Swing,
                       direction: Direction)
    requires k < |candles|
    ensures SaysSweep(cfg, liquidity, Built(cfg, candles, liquidity, k, s, direction))
  {
    hide Atr, FailedAfterBreak, Gaps, PreviousMovement, SweepCounts, Round, LatestSweep;
    var p := SweepExactly(cfg, liquidity, candles[k].index, direction);
  }

  lemma BuiltSaysHow(cfg: Config, candles: seq<Candle>, liquidity: seq<LiquidityEvent>, k: nat, s: Swing,
                     direction: Direction)
    requires k < |candles|
    requires ClosesPast(candles[k], s.price, Margin(cfg, candles, k), direction)
             || WicksPast(candles[k], s.price, Margin(cfg, candles, k), direction)
    ensures SaysHow(cfg, candles, k, Built(cfg, candles, liquidity, k, s, direction))
  {
    hide Atr, Buffer, Margin, FailedAfterBreak, ComesBack, Gaps, PreviousMovement, Round, LatestSweep, ReadsFall, ReadsRise;
    MarginIs(cfg, candles, k);
    MovementExactly(cfg, candles, k);
    ComesBackExactly(candles, k, cfg.lookahead, s.price, direction);
  }

  lemma BuiltSaysHowGood(cfg: Config, candles: seq<Candle>, liquidity: seq<LiquidityEvent>, k: nat, s: Swing,
                         direction: Direction)
    requires k < |candles|
    ensures SaysHowGood(cfg, candles, k, Built(cfg, candles, liquidity, k, s, direction))
  {
    hide Atr, FailedAfterBreak, PreviousMovement, Round, LatestSweep;
  }

  // ---------- the events of one candle ----------

  lemma {:induction false} AddedFrom(cfg: Config, candles: seq<Candle>, swings: seq<Swing>, liquidity: seq<LiquidityEvent>,
                                     n: nat, m: nat, i: nat)
    requires n <= m <= |candles|
    requires |ScanFirst(cfg, candles, swings, liquidity, n).events| <= i
             < |ScanFirst(cfg, candles, swings, liquidity, m).events|
    ensures exists k :: n <= k < m && ScanFirst(cfg, candles, swings, liquidity, m).events[i].candle == candles[k]
    decreases m
  {
    hide Side, Key;
    if n < m && i < |ScanFirst(cfg, candles, swings, liquidity, m - 1).events| {
      AddedFrom(cfg, candles, swings, liquidity, n, m - 1, i);
    } else {
      SidesFacts(cfg, candles, swings, liquidity, m - 1, ScanFirst(cfg, candles, swings, liquidity, m - 1));
    }
  }

  /** Whose the reports of a candle's two sides are. */
  lemma SidesFacts(cfg: Config, candles: seq<Candle>, swings: seq<Swing>, liquidity: seq<LiquidityEvent>, k: nat, s: Scan)
    requires k < |candles|
    ensures forall used, direction ::
              var event := Side(cfg, candles, swings, liquidity, k, direction, used);
              event.Some? ==> event.value.candle == candles[k] && event.value.direction == direction
                              && event.value.swing.kind == BrokenKind(direction)
  {
    hide Side;
    forall used, direction
      ensures var event := Side(cfg, candles, swings, liquidity, k, direction, used);
              event.Some? ==> event.value.candle == candles[k] && event.value.direction == direction
                              && event.value.swing.kind == BrokenKind(direction)
    {
      SideFacts(cfg, candles, swings, liquidity, k, direction, used);
    }
  }

  lemma SideFacts(cfg: Config, candles: seq<Candle>, swings: seq<Swing>, liquidity: seq<LiquidityEvent>, k: nat,
                  direction: Direction, used: set<SwingKey>)
    requires k < |candles|
    ensures var event := Side(cfg, candles, swings, liquidity, k, direction, used);
            event.Some? ==> event.value.candle == candles[k] && event.value.direction == direction
                            && event.value.swing.kind == BrokenKind(direction)
  {
    hide Atr, LatestConfirmedSwing, FailedAfterBreak, LatestSweep, Gaps, PreviousMovement, Answers, Reports, Key,
         RequiredLevel;
    var chosen := LatestConfirmedSwing(cfg, swings, candles[k].index, BrokenKind(direction));
    if chosen.Some? {
      ChosenIsUsable(cfg, swings, candles[k].index, BrokenKind(direction));
    }
  }

  /** Which of the events belong to candle k. */
  lemma EventsOfCandle(cfg: Config, candles: seq<Candle>, swings: seq<Swing>, liquidity: seq<LiquidityEvent>, k: nat,
                       i: nat)
    requires Increasing(candles) && k < |candles| && i < |Detected(cfg, candles, swings, liquidity)|
    ensures var from, end := |ScanFirst(cfg, candles, swings, liquidity, k).events|,
                             |ScanFirst(cfg, candles, swings, liquidity, k + 1).events|;
            var events := Detected(cfg, candles, swings, liquidity);
            (events[i].candle.index < candles[k].index <==> i < from)
            && (events[i].candle.index == candles[k].index <==> from <= i < end)
            && from <= end <= |events|
            && (i < end ==> events[i] == ScanFirst(cfg, candles, swings, liquidity, k + 1).events[i])
  {
    hide ScanFirst;
    ScanAppends(cfg, candles, swings, liquidity, k, k + 1);
    ScanAppends(cfg, candles, swings, liquidity, k + 1, |candles|);
    ScanStart(cfg, candles, swings, liquidity);
    var from, end := |ScanFirst(cfg, candles, swings, liquidity, k).events|,
                     |ScanFirst(cfg, candles, swings, liquidity, k + 1).events|;
    if i < from {
      AddedFrom(cfg, candles, swings, liquidity, 0, k, i);
      var j :| 0 <= j < k && ScanFirst(cfg, candles, swings, liquidity, k).events[i].candle == candles[j];
    } else if i < end {
      AddedFrom(cfg, candles, swings, liquidity, k, k + 1, i);
    } else {
      AddedFrom(cfg, candles, swings, liquidity, k + 1, |candles|, i);
      var j :| k + 1 <= j < |candles|
            && ScanFirst(cfg, candles, swings, liquidity, |candles|).events[i].candle == candles[j];
    }
  }

  lemma ScanStart(cfg: Config, candles: seq<Candle>, swings: seq<Swing>, liquidity: seq<LiquidityEvent>)
    ensures ScanFirst(cfg, candles, swings, liquidity, 0) == Scan([], {})
  {
  }

  lemma {:induction false} UsedExactly(cfg: Config, candles: seq<Candle>, swings: seq<Swing>,
                                       liquidity: seq<LiquidityEvent>, n: nat, key: SwingKey)
    requires n <= |candles|
    ensures var s := ScanFirst(cfg, candles, swings, liquidity, n);
            key in s.used <==> exists i :: 0 <= i < |s.events| && Key(s.events[i].swing) == key
    decreases n
  {
    hide Side, Key;
    if n > 0 {
      UsedExactly(cfg, candles, swings, liquidity, n - 1, key);
      var s := ScanFirst(cfg, candles, swings, liquidity, n - 1);
      var bullish := Side(cfg, candles, swings, liquidity, n - 1, Bullish, s.used);
      RecordUses(s, bullish, key);
      var t := Record(s, bullish);
      RecordUses(t, Side(cfg, candles, swings, liquidity, n - 1, Bearish, t.used), key);
    }
  }

  lemma RecordUses(s: Scan, event: Option<Event>, key: SwingKey)
    requires key in s.used <==> exists i :: 0 <= i < |s.events| && Key(s.events[i].swing) == key
    ensures var t := Record(s, event);
            key in t.used <==> exists i :: 0 <= i < |t.events| && Key(t.events[i].swing) == key
  {
    hide Key;
    if event.Some? {
      var t := Record(s, event);
      assert t.events[|s.events|] == event.value;
      forall i | 0 <= i < |s.events|
        ensures t.events[i] == s.events[i]
      {
      }
    }
  }

  lemma SpentExactly(cfg: Config, candles: seq<Candle>, swings: seq<Swing>, liquidity: seq<LiquidityEvent>, k: nat,
                     s: Swing)
    requires Increasing(candles) && k < |candles|
    ensures Key(Recorded(s)) in ScanFirst(cfg, candles, swings, liquidity, k).used
            <==> SpentBefore(Detected(cfg, candles, swings, liquidity), s, candles[k].index)
  {
    hide ScanFirst, Increasing, Round;
    var events, seen := Detected(cfg, candles, swings, liquidity),
                        ScanFirst(cfg, candles, swings, liquidity, k).events;
    UsedExactly(cfg, candles, swings, liquidity, k, Key(Recorded(s)));
    ScanAppends(cfg, candles, swings, liquidity, k, |candles|);
    forall i: nat | i < |events|
      ensures events[i].candle.index < candles[k].index <==> i < |seen|
    {
      EventsOfCandle(cfg, candles, swings, liquidity, k, i);
    }
  }

  // ---------- the swing chosen ----------

  /** The usable swings are those of the list, in its order. */
  lemma {:induction false} UsablePlaces(cfg: Config, swings: seq<Swing>, index: int, direction: Direction)
    returns (places: seq<nat>)
    ensures var usable := UsableSwings(cfg, swings, index, BrokenKind(direction));
            |places| == |usable|
            && (forall i :: 0 <= i < |places| ==> places[i] < |swings| && usable[i] == swings[places[i]])
            && (forall i, j :: 0 <= i < j < |places| ==> places[i] < places[j])
            && (forall p :: p in places <==> 0 <= p < |swings| && Breakable(cfg, swings[p], index, direction))
    decreases |swings|
  {
    places := [];
    if swings != [] {
      var earlier, n := swings[..|swings| - 1], |swings| - 1;
      places := UsablePlaces(cfg, earlier, index, direction);
      if Breakable(cfg, swings[n], index, direction) {
        places := places + [n];
      }
    }
  }

  lemma ChosenIsLookedAt(cfg: Config, swings: seq<Swing>, index: int, direction: Direction) returns (p: nat)
    ensures var chosen := LatestConfirmedSwing(cfg, swings, index, BrokenKind(direction));
            if chosen.None? then forall q :: 0 <= q < |swings| ==> !Breakable(cfg, swings[q], index, direction)
            else LookedAt(cfg, swings, p, index, direction) && chosen.value == swings[p]
  {
    hide Breakable, UsableSwings;
    var usable := UsableSwings(cfg, swings, index, BrokenKind(direction));
    var places := UsablePlaces(cfg, swings, index, direction);
    p := 0;
    if usable != [] {
      var best := PickLatestExact(usable);
      p := places[best];
      forall q | 0 <= q < |swings| && Breakable(cfg, swings[q], index, direction)
        ensures !Outranks(swings[q], swings[p]) && (q < p ==> Outranks(swings[p], swings[q]))
      {
        var i :| 0 <= i < |places| && places[i] == q;
        assert usable[i] == swings[q];
      }
    }
  }

  // ---------- the theorem ----------

  predicate On(e: Event, c: Candle, direction: Direction) {
    e.candle.index == c.index && e.direction == direction
  }

  /** The side's own report on candle k, given the levels spent before; a bullish report spends no low. */
  ghost function Report(cfg: Config, candles: seq<Candle>, swings: seq<Swing>, liquidity: seq<LiquidityEvent>, k: nat,
                        direction: Direction): Option<Event>
    requires k < |candles|
  {
    Side(cfg, candles, swings, liquidity, k, direction, ScanFirst(cfg, candles, swings, liquidity, k).used)
  }

  lemma SpendsOwnKind(cfg: Config, candles: seq<Candle>, swings: seq<Swing>, liquidity: seq<LiquidityEvent>, k: nat,
                      used: set<SwingKey>, key: SwingKey)
    requires k < |candles| && key.kind.SwingHigh?
    ensures Side(cfg, candles, swings, liquidity, k, Bearish, used + {key})
            == Side(cfg, candles, swings, liquidity, k, Bearish, used)
  {
    hide Atr, UsableSwings, PickLatest, FailedAfterBreak, BuildEvent, PreviousMovement, Reports, RequiredLevel, Usable;
    var chosen := LatestConfirmedSwing(cfg, swings, candles[k].index, SwingLow);
    if chosen.Some? {
      ChosenIsUsable(cfg, swings, candles[k].index, SwingLow);
      UsableKind(cfg, chosen.value, candles[k].index, SwingLow);
    }
  }

  lemma UsableKind(cfg: Config, s: Swing, index: int, kind: SwingKind)
    requires Usable(cfg, s, index, kind)
    ensures s.kind == kind
  {
  }

  lemma ScanNext(cfg: Config, candles: seq<Candle>, swings: seq<Swing>, liquidity: seq<LiquidityEvent>, k: nat)
    requires k < |candles|
    ensures var s, bullish := ScanFirst(cfg, candles, swings, liquidity, k),
                              Report(cfg, candles, swings, liquidity, k, Bullish);
            ScanFirst(cfg, candles, swings, liquidity, k + 1).events
            == Record(Record(s, bullish), Report(cfg, candles, swings, liquidity, k, Bearish)).events
  {
    hide Side;
    var s, bullish := ScanFirst(cfg, candles, swings, liquidity, k),
                      Report(cfg, candles, swings, liquidity, k, Bullish);
    SidesFacts(cfg, candles, swings, liquidity, k, s);
    if bullish.Some? {
      SpendsOwnKind(cfg, candles, swings, liquidity, k, s.used, Key(bullish.value.swing));
    }
  }

  predicate InOrder(e: Event, f: Event) {
    e.direction == Bullish && f.direction == Bearish
  }

  lemma SidesAdded(s: Scan, bullish: Option<Event>, bearish: Option<Event>, direction: Direction)
    requires bullish.Some? ==> bullish.value.direction == Bullish
    requires bearish.Some? ==> bearish.value.direction == Bearish
    ensures var events, side := Record(Record(s, bullish), bearish).events,
                                if direction.Bullish? then bullish else bearish;
            s.events <= events
            && (side.Some? <==> exists i :: |s.events| <= i < |events| && events[i].direction == direction)
            && (forall i :: |s.events| <= i < |events| && events[i].direction == direction ==> side == Some(events[i]))
            && (forall i, j :: |s.events| <= i < j < |events| ==> InOrder(events[i], events[j]))
  {
    var events, n := Record(Record(s, bullish), bearish).events, |s.events|;
    if bullish.Some? {
      assert events[n] == bullish.value;
    }
    if bearish.Some? {
      assert events[|events| - 1] == bearish.value;
    }
  }

  lemma ReportsRecorded(cfg: Config, candles: seq<Candle>, swings: seq<Swing>, liquidity: seq<LiquidityEvent>, k: nat,
                        direction: Direction)
    requires k < |candles|
    ensures var from, events := |ScanFirst(cfg, candles, swings, liquidity, k).events|,
                                ScanFirst(cfg, candles, swings, liquidity, k + 1).events;
            var side := Report(cfg, candles, swings, liquidity, k, direction);
            (side.Some? <==> exists i :: from <= i < |events| && events[i].direction == direction)
            && (forall i :: from <= i < |events| && events[i].direction == direction ==> side == Some(events[i]))
            && (forall i, j :: from <= i < j < |events| ==> InOrder(events[i], events[j]))
  {
    hide Side, ScanFirst, Record;
    var s := ScanFirst(cfg, candles, swings, liquidity, k);
    ScanNext(cfg, candles, swings, liquidity, k);
    SidesFacts(cfg, candles, swings, liquidity, k, s);
    SidesAdded(s, Report(cfg, candles, swings, liquidity, k, Bullish),
               Report(cfg, candles, swings, liquidity, k, Bearish), direction);
  }

  /** The events of a candle and side are the side's own report. */
  lemma SideReported(cfg: Config, candles: seq<Candle>, swings: seq<Swing>, liquidity: seq<LiquidityEvent>, k: nat,
                     direction: Direction)
    requires Increasing(candles) && k < |candles|
    ensures var events, side := Detected(cfg, candles, swings, liquidity),
                                Report(cfg, candles, swings, liquidity, k, direction);
            (side.Some? <==> exists i :: 0 <= i < |events| && On(events[i], candles[k], direction))
            && (forall i :: 0 <= i < |events| && On(events[i], candles[k], direction) ==> side == Some(events[i]))
            && (forall i, j :: (0 <= i < |events| && 0 <= j < |events| && On(events[i], candles[k], direction)
                                && On(events[j], candles[k], direction)) ==> i == j)
  {
    hide Report, Increasing, ScanFirst;
    var events, from := Detected(cfg, candles, swings, liquidity),
                        |ScanFirst(cfg, candles, swings, liquidity, k).events|;
    var next := ScanFirst(cfg, candles, swings, liquidity, k + 1).events;
    ReportsRecorded(cfg, candles, swings, liquidity, k, direction);
    ScanAppends(cfg, candles, swings, liquidity, k + 1, |candles|);
    forall i: nat | i < |events|
      ensures events[i].candle.index == candles[k].index <==> from <= i < |next|
      ensures i < |next| ==> events[i] == next[i]
    {
      EventsOfCandle(cfg, candles, swings, liquidity, k, i);
    }
    if Report(cfg, candles, swings, liquidity, k, direction).Some? {
      var i :| from <= i < |next| && next[i].direction == direction;
      assert On(events[i], candles[k], direction);
    }
  }

  lemma ReportExactly(cfg: Config, candles: seq<Candle>, swings: seq<Swing>, liquidity: seq<LiquidityEvent>, k: nat,
                      direction: Direction, p: nat)
    requires Increasing(candles) && k < |candles| && p < |swings|
    requires LatestConfirmedSwing(cfg, swings, candles[k].index, BrokenKind(direction)) == Some(swings[p])
    ensures var s, margin, c := swings[p], Margin(cfg, candles, k), candles[k];
            var side := Report(cfg, candles, swings, liquidity, k, direction);
            (side.Some? <==>
               MayReport(cfg, candles, k, direction)
               && !SpentBefore(Detected(cfg, candles, swings, liquidity), s, c.index)
               && (ClosesPast(c, s.price, margin, direction)
                   || (cfg.allowWicks && WicksPast(c, s.price, margin, direction))))
            && (side.Some? ==> SaysAll(cfg, candles, liquidity, k, side.value, s))
  {
    hide Atr, LatestConfirmedSwing, LatestSweep, BuildEvent, PreviousMovement, SpentBefore, MayReport, Answers, Key,
         FailedAfterBreak, Increasing, SaysHow, SaysHowGood, SaysSweep, Buffer, Margin;
    MarginIs(cfg, candles, k);
    var s := swings[p];
    SpentExactly(cfg, candles, swings, liquidity, k, s);
    MovementExactly(cfg, candles, k);
    BuiltSaysSweep(cfg, candles, liquidity, k, s, direction);
    BuiltSaysHowGood(cfg, candles, liquidity, k, s, direction);
    if ClosesPast(candles[k], s.price, Margin(cfg, candles, k), direction)
       || WicksPast(candles[k], s.price, Margin(cfg, candles, k), direction) {
      BuiltSaysHow(cfg, candles, liquidity, k, s, direction);
    }
    BuiltFor(cfg, candles, liquidity, k, s, direction);
  }

  lemma BuiltFor(cfg: Config, candles: seq<Candle>, liquidity: seq<LiquidityEvent>, k: nat, s: Swing,
                 direction: Direction)
    requires k < |candles|
    ensures var e := Built(cfg, candles, liquidity, k, s, direction);
            e.candle == candles[k] && e.swing == BrokenSwing(s.kind, s.index, s.confirmationIndex, s.price, s.strength)
  {
    hide Atr, FailedAfterBreak, Gaps, PreviousMovement, Round, LatestSweep;
  }

  /** What the detector returns about a candle and a side: it looks at one swing at most, returns an event, and only
      one, exactly when the movement before lets the side report, the level is unspent, and the close, or where wicks
      are allowed the extreme, is past the price by more than the margin; and the event says exactly what happened. */
  lemma WarnsExactly(cfg: Config, candles: seq<Candle>, swings: seq<Swing>, liquidity: seq<LiquidityEvent>, k: nat,
                     direction: Direction) returns (looked: Option<nat>)
    requires Increasing(candles) && k < |candles|
    ensures var events, c, margin := Detected(cfg, candles, swings, liquidity), candles[k], Margin(cfg, candles, k);
            (looked.None? ==> forall q :: 0 <= q < |swings| ==> !Breakable(cfg, swings[q], c.index, direction))
            && (looked.Some? ==> LookedAt(cfg, swings, looked.value, c.index, direction))
            && ((exists i :: 0 <= i < |events| && On(events[i], c, direction))
                <==> looked.Some? && MayReport(cfg, candles, k, direction)
                     && !SpentBefore(events, swings[looked.value], c.index)
                     && (ClosesPast(c, swings[looked.value].price, margin, direction)
                         || (cfg.allowWicks && WicksPast(c, swings[looked.value].price, margin, direction))))
            && (forall i :: 0 <= i < |events| && On(events[i], c, direction) ==>
                  looked.Some? && SaysAll(cfg, candles, liquidity, k, events[i], swings[looked.value])
                  && forall j :: 0 <= j < |events| && On(events[j], c, direction) ==> i == j)
  {
    hide ScanFirst, LookedAt, Breakable, SaysAll, Margin, ClosesPast, WicksPast, Increasing, Detected, SpentBefore,
         MayReport, LatestConfirmedSwing;
    SideReported(cfg, candles, swings, liquidity, k, direction);
    var p := ChosenIsLookedAt(cfg, swings, candles[k].index, direction);
    if LatestConfirmedSwing(cfg, swings, candles[k].index, BrokenKind(direction)).None? {
      looked := None;
      NoneChosen(cfg, candles, swings, liquidity, k, direction);
    } else {
      looked := Some(p);
      ReportExactly(cfg, candles, swings, liquidity, k, direction, p);
    }
  }

  lemma NoneChosen(cfg: Config, candles: seq<Candle>, swings: seq<Swing>, liquidity: seq<LiquidityEvent>, k: nat,
                   direction: Direction)
    requires k < |candles| && LatestConfirmedSwing(cfg, swings, candles[k].index, BrokenKind(direction)).None?
    ensures Report(cfg, candles, swings, liquidity, k, direction).None?
  {
    hide LatestConfirmedSwing, PreviousMovement;
  }

  /** Events come in the order of their candles, the bullish one of a candle first. */
  lemma EventsInOrder(cfg: Config, candles: seq<Candle>, swings: seq<Swing>, liquidity: seq<LiquidityEvent>, i: nat,
                      j: nat)
    requires Increasing(candles) && i < j < |Detected(cfg, candles, swings, liquidity)|
    ensures var e, f := Detected(cfg, candles, swings, liquidity)[i], Detected(cfg, candles, swings, liquidity)[j];
            e.candle.index < f.candle.index
            || (e.candle.index == f.candle.index && e.direction == Bullish && f.direction == Bearish)
  {
    hide ScanFirst, Increasing, Report;
    ScanStart(cfg, candles, swings, liquidity);
    AddedFrom(cfg, candles, swings, liquidity, 0, |candles|, j);
    var k :| 0 <= k < |candles| && Detected(cfg, candles, swings, liquidity)[j].candle == candles[k];
    EventsOfCandle(cfg, candles, swings, liquidity, k, i);
    EventsOfCandle(cfg, candles, swings, liquidity, k, j);
    ReportsRecorded(cfg, candles, swings, liquidity, k, Bullish);
    var next := ScanFirst(cfg, candles, swings, liquidity, k + 1).events;
    assert InOrder(next[i], next[j]) || i < |ScanFirst(cfg, candles, swings, liquidity, k).events|;
  }
}
