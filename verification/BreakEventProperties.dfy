/** What the break detector reports on each candle, in the candle's and the swing's own fields: whether there is an
    event, of which swing, and everything the event says. */
module BreakEventProperties {
  import opened AverageRange
  import opened Common
  import opened Market
  import opened Rounding
  import opened Swings
  import opened BreakOfStructure
  import opened BreakProperties

  // ---------- the range of a candle ----------

  /** The largest of a billionth, the candle's own range, and its reach from the close before it. */
  lemma RangeExactly(c: Candle, previous: Option<Candle>)
    ensures var r := TrueRange(c, previous);
            r >= 0.000000001 && r >= c.high - c.low
            && (previous.Some? ==> r >= c.high - previous.value.close && r >= previous.value.close - c.high
                                   && r >= c.low - previous.value.close && r >= previous.value.close - c.low)
            && (r == 0.000000001 || r == c.high - c.low
                || (previous.Some? && (r == c.high - previous.value.close || r == previous.value.close - c.high
                                       || r == c.low - previous.value.close || r == previous.value.close - c.low)))
  {
  }

  // ---------- the swing looked at ----------

  /** The keys of the levels that earlier candles have broken by a close. */
  ghost predicate BrokenBefore(events: seq<Event>, key: SwingKey, index: int) {
    exists i :: 0 <= i < |events| && events[i].candle.index < index && events[i].detected && !events[i].wickOnly
      && key == SwingKey(events[i].swing.kind, events[i].swing.index, events[i].swing.price)
  }

  /** A swing of the side, formed and confirmed before the candle, strong enough, and not broken, by its status or by
      an earlier candle. */
  ghost predicate Breakable(cfg: Config, events: seq<Event>, s: Swing, index: int, direction: Direction) {
    s.kind == (if direction == Bullish then SwingHigh else SwingLow)
    && s.index < index && s.confirmationIndex < index && s.strength >= cfg.minimumStrength && s.status != Broken
    && !BrokenBefore(events, SwingKey(s.kind, s.index, s.price), index)
  }

  /** The p-th swing is the one looked at: of those breakable the latest confirmed, then the strongest, then the first
      in the list. */
  ghost predicate LookedAt(cfg: Config, events: seq<Event>, swings: seq<Swing>, p: nat, index: int,
                           direction: Direction): (looked: bool)
    ensures looked ==> p < |swings|
  {
    p < |swings| && Breakable(cfg, events, swings[p], index, direction)
    && forall q :: 0 <= q < |swings| && Breakable(cfg, events, swings[q], index, direction) ==>
         swings[q].confirmationIndex < swings[p].confirmationIndex
         || (swings[q].confirmationIndex == swings[p].confirmationIndex
             && (swings[q].strength < swings[p].strength || (swings[q].strength == swings[p].strength && p <= q)))
  }

  // ---------- what a break has to pass ----------

  /** The share of the average range by which a level has to be passed; never negative. */
  function Margin(cfg: Config, candles: seq<Candle>, k: nat): real
    requires k < |candles|
  {
    var margin := Atr(candles, k, cfg.atrPeriod, TrueRange) * cfg.bufferMultiplier;
    if margin > 0.0 then margin else 0.0
  }

  lemma MarginIs(cfg: Config, candles: seq<Candle>, k: nat)
    requires k < |candles|
    ensures Buffer(Atr(candles, k, cfg.atrPeriod, TrueRange), cfg.bufferMultiplier) == Margin(cfg, candles, k)
  {
    hide Atr;
  }

  predicate ClosesPast(c: Candle, price: real, margin: real, direction: Direction) {
    match direction
    case Bullish => c.close > price + margin
    case Bearish => c.close < price - margin
  }

  predicate WicksPast(c: Candle, price: real, margin: real, direction: Direction) {
    match direction
    case Bullish => c.high > price + margin
    case Bearish => c.low < price - margin
  }

  /** One of the next `lookahead` closes is back on the other side of the price. */
  ghost predicate ComesBack(candles: seq<Candle>, k: nat, lookahead: nat, price: real, direction: Direction) {
    exists j :: 0 <= j < |candles| && k < j <= k + lookahead
      && ((direction.Bullish? && candles[j].close < price) || (direction.Bearish? && candles[j].close > price))
  }

  // ---------- what an event says ----------

  predicate Continues(cfg: Config, c: Candle, direction: Direction) {
    var trend := if cfg.trend.Some? then cfg.trend else c.trend;
    trend.Some? && ((direction.Bullish? && trend.value.bullish) || (direction.Bearish? && trend.value.bearish))
  }

  /** The level and margin, whether it was broken by the close, and how it went. */
  ghost predicate SaysHow(cfg: Config, candles: seq<Candle>, k: nat, e: Event)
    requires k < |candles|
  {
    var c, price, margin, closed := candles[k], e.swing.price, Margin(cfg, candles, k),
                                    ClosesPast(candles[k], e.swing.price, Margin(cfg, candles, k), e.direction);
    e.buffer == Round(margin, 100000.0)
    && e.required == Round(if e.direction.Bullish? then price + margin else price - margin, 100000.0)
    && (e.wickOnly <==> !closed) && (e.detected <==> closed || !cfg.closeRequired)
    && (e.status.UnconfirmedWickBreak? <==> !closed)
    && (e.status.Failed? <==> closed && ComesBack(candles, k, cfg.lookahead, price, e.direction))
    && (e.status.Confirmed? <==> closed && !e.status.Failed? && cfg.closeRequired)
    && (e.status.PendingRetest? <==> closed && !e.status.Failed? && !cfg.closeRequired)
    && !e.status.Invalidated?
  }

  /** The warnings are those of the report, with the two of a failure added where they are not there already. */
  ghost predicate Warns(cfg: Config, candles: seq<Candle>, k: nat, e: Event)
    requires k < |candles|
  {
    var warnings := cfg.warn(candles[..k + 1], e.swing, e.direction, e.detected, e.wickOnly);
    if e.status.Failed? then
      (forall text :: text in e.warnings
                      <==> text in warnings || text == "Price closed back inside broken structure"
                           || text == "failed_bos_risk")
      && forall i, j :: 0 <= i < j < |e.warnings| ==> e.warnings[i] != e.warnings[j]
    else e.warnings == warnings
  }

  /** The type, the score and the grade. */
  ghost predicate SaysHowGood(cfg: Config, candles: seq<Candle>, k: nat, e: Event)
    requires k < |candles|
  {
    var score := cfg.score(candles[..k + 1], e.swing, e.direction, e.detected, e.wickOnly);
    (e.external <==> e.swing.strength >= cfg.externalStrength)
    && (e.continuation <==> Continues(cfg, candles[k], e.direction))
    && (e.breakType.AggressiveCandidate? <==> e.wickOnly && !cfg.closeRequired)
    && (e.breakType.WickBreakOnly? <==> e.wickOnly && cfg.closeRequired)
    && (e.breakType.PossibleShift? <==> !e.wickOnly && !e.continuation)
    && (e.breakType.WeakBreak? <==> !e.wickOnly && e.continuation && score < 5.0)
    && (e.breakType.StructureBreak? <==> !e.wickOnly && e.continuation && score >= 5.0)
    && e.score == (if e.status.Failed? && score > 5.0 then 5.0 else score)
    && (e.grade.Invalid? <==> !e.detected || e.score <= 2.0)
    && (e.grade.Low? <==> e.detected && 2.0 < e.score <= 4.5)
    && (e.grade.Moderate? <==> e.detected && 4.5 < e.score <= 6.5)
    && (e.grade.Strong? <==> e.detected && 6.5 < e.score <= 8.5)
    && (e.grade.HighQuality? <==> e.detected && 8.5 < e.score)
  }

  predicate AgainstIt(c: Candle, direction: Direction) {
    (direction.Bullish? && c.close < c.open) || (direction.Bearish? && c.close > c.open)
  }

  /** The gap, the source block and the sweep, in the candles just before. */
  ghost predicate SaysWhatLedToIt(cfg: Config, candles: seq<Candle>, k: nat, e: Event)
    requires k < |candles|
  {
    (e.gap == if k < 2 then None
              else if e.direction.Bullish? && candles[k - 2].high < candles[k].low then
                Some(Gap(candles[k - 2].high, candles[k].low))
              else if e.direction.Bearish? && candles[k].high < candles[k - 2].low then
                Some(Gap(candles[k].high, candles[k - 2].low))
              else None)
    && (e.orderBlock.None? ==> forall j :: 0 <= j < k && k - 6 <= j ==> !AgainstIt(candles[j], e.direction))
    && (e.orderBlock.Some? ==>
          e.orderBlock.value.validated == cfg.displaced(candles[..k + 1], e.direction)
          && exists j :: 0 <= j < k && k - 6 <= j && candles[j] == e.orderBlock.value.candle
               && AgainstIt(candles[j], e.direction)
               && forall i :: j < i < k ==> !AgainstIt(candles[i], e.direction))
    && (e.oppositeSweep <==>
          exists j :: 0 <= j < k && k - 6 <= j
            && ((e.direction.Bullish? && candles[j].low < e.swing.price < candles[j].close)
                || (e.direction.Bearish? && candles[j].close < e.swing.price < candles[j].high)))
  }

  // ---------- one event ----------

  lemma {:induction false} LastOppositeIs(candles: seq<Candle>, from: nat, k: nat, direction: Direction)
    requires from <= k <= |candles|
    ensures match LastOpposite(candles, from, k, direction)
            case None => forall j :: from <= j < k ==> !AgainstIt(candles[j], direction)
            case Some(c) => exists j :: from <= j < k && candles[j] == c && AgainstIt(c, direction)
                              && forall i :: j < i < k ==> !AgainstIt(candles[i], direction)
    decreases k
  {
    if from < k && !AgainstIt(candles[k - 1], direction) {
      LastOppositeIs(candles, from, k - 1, direction);
    }
  }

  /** What is reported at first, before any close can come back. */
  lemma ReportSays(cfg: Config, candles: seq<Candle>, k: nat, s: BrokenSwing, direction: Direction)
    requires k < |candles|
    ensures var event := EvaluateBreak(cfg, candles, k, s, direction, Atr(candles, k, cfg.atrPeriod, TrueRange));
            (event.Some? <==> ClosesPast(candles[k], s.price, Margin(cfg, candles, k), direction)
                              || WicksPast(candles[k], s.price, Margin(cfg, candles, k), direction))
            && (event.Some? ==> event.value.swing == s && event.value.candle == candles[k]
                                && event.value.direction == direction && !event.value.status.Failed?)
  {
    hide Atr, Buffer, Margin, LastOpposite, OppositeSweep, Gaps, Round, TypeOf, GradeOf;
    MarginIs(cfg, candles, k);
  }

  /** The event as it is returned: failed if it was broken by the close and a close came back. */
  ghost predicate Returned(cfg: Config, candles: seq<Candle>, k: nat, raw: Event, e: Event) {
    e == if raw.detected && !raw.wickOnly && ComesBack(candles, k, cfg.lookahead, raw.swing.price, raw.direction)
         then FailEvent(raw) else raw
  }

  lemma ReturnSaysHow(cfg: Config, candles: seq<Candle>, k: nat, s: BrokenSwing, direction: Direction, raw: Event,
                      e: Event)
    requires k < |candles| && Returned(cfg, candles, k, raw, e)
    requires EvaluateBreak(cfg, candles, k, s, direction, Atr(candles, k, cfg.atrPeriod, TrueRange)) == Some(raw)
    ensures SaysHow(cfg, candles, k, e)
  {
    hide Atr, Buffer, Margin, LastOpposite, OppositeSweep, Gaps, ComesBack, Round, Distinct, TypeOf, GradeOf, Names;
    MarginIs(cfg, candles, k);
  }

  lemma {:induction false} DistinctExactly(texts: seq<string>)
    ensures forall text :: text in Distinct(texts) <==> text in texts
    ensures forall i, j :: 0 <= i < j < |Distinct(texts)| ==> Distinct(texts)[i] != Distinct(texts)[j]
    decreases |texts|
  {
    if texts != [] {
      DistinctExactly(texts[..|texts| - 1]);
      assert texts == texts[..|texts| - 1] + [texts[|texts| - 1]];
    }
  }

  lemma ReturnWarns(cfg: Config, candles: seq<Candle>, k: nat, s: BrokenSwing, direction: Direction, raw: Event,
                    e: Event)
    requires k < |candles| && Returned(cfg, candles, k, raw, e)
    requires EvaluateBreak(cfg, candles, k, s, direction, Atr(candles, k, cfg.atrPeriod, TrueRange)) == Some(raw)
    ensures Warns(cfg, candles, k, e)
  {
    hide Atr, Buffer, TypeOf, GradeOf, Names, LastOpposite, OppositeSweep, Gaps, ComesBack, Round, Distinct;
    DistinctExactly(raw.warnings + [CLOSED_BACK, FAILED_RISK]);
  }

  lemma ReturnSaysHowGood(cfg: Config, candles: seq<Candle>, k: nat, s: BrokenSwing, direction: Direction, raw: Event,
                          e: Event)
    requires k < |candles| && Returned(cfg, candles, k, raw, e)
    requires EvaluateBreak(cfg, candles, k, s, direction, Atr(candles, k, cfg.atrPeriod, TrueRange)) == Some(raw)
    ensures SaysHowGood(cfg, candles, k, e)
  {
    hide Atr, Buffer, LastOpposite, OppositeSweep, Gaps, ComesBack, Round, Distinct;
  }

  lemma ReturnSaysWhatLedToIt(cfg: Config, candles: seq<Candle>, k: nat, s: BrokenSwing, direction: Direction,
                              raw: Event, e: Event)
    requires k < |candles| && Returned(cfg, candles, k, raw, e)
    requires EvaluateBreak(cfg, candles, k, s, direction, Atr(candles, k, cfg.atrPeriod, TrueRange)) == Some(raw)
    ensures SaysWhatLedToIt(cfg, candles, k, e)
  {
    hide Atr, Buffer, TypeOf, GradeOf, Names, ComesBack, Round, Distinct, LastOpposite;
    LastOppositeIs(candles, SixBack(k), k, direction);
  }

  // ---------- the events of one candle ----------

  /** The events the scan adds from one candle on belong to those candles. */
  lemma {:induction false} AddedFrom(cfg: Config, candles: seq<Candle>, swings: seq<Swing>, n: nat, m: nat, i: nat)
    requires n <= m <= |candles|
    requires |ScanFirst(cfg, candles, swings, n).events| <= i < |ScanFirst(cfg, candles, swings, m).events|
    ensures exists k :: n <= k < m && ScanFirst(cfg, candles, swings, m).events[i].candle == candles[k]
    decreases m
  {
    hide LatestValidSwing, EvaluateBreak;
    if n < m && i < |ScanFirst(cfg, candles, swings, m - 1).events| {
      AddedFrom(cfg, candles, swings, n, m - 1, i);
    }
  }

  lemma {:induction false} AddedBefore(cfg: Config, candles: seq<Candle>, swings: seq<Swing>, n: nat, i: nat)
    requires n <= |candles| && i < |ScanFirst(cfg, candles, swings, n).events|
    ensures exists k :: 0 <= k < n && ScanFirst(cfg, candles, swings, n).events[i].candle == candles[k]
  {
    hide ScanCandle;
    AddedFrom(cfg, candles, swings, 0, n, i);
  }

  /** Which of the events belong to candle k. */
  lemma EventsOfCandle(cfg: Config, candles: seq<Candle>, swings: seq<Swing>, k: nat, i: nat)
    requires Increasing(candles) && k < |candles| && i < |ScanFirst(cfg, candles, swings, |candles|).events|
    ensures var from, end := |ScanFirst(cfg, candles, swings, k).events|, |ScanFirst(cfg, candles, swings, k + 1).events|;
            var e := ScanFirst(cfg, candles, swings, |candles|).events[i];
            (e.candle.index < candles[k].index <==> i < from)
            && (e.candle.index == candles[k].index <==> from <= i < end)
            && (from <= i < end ==> e.candle == candles[k])
            && from <= end <= |ScanFirst(cfg, candles, swings, |candles|).events|
  {
    hide ScanFirst;
    ScanAppends(cfg, candles, swings, k, k + 1);
    ScanAppends(cfg, candles, swings, k + 1, |candles|);
    var from, end := |ScanFirst(cfg, candles, swings, k).events|, |ScanFirst(cfg, candles, swings, k + 1).events|;
    if i < from {
      AddedBefore(cfg, candles, swings, k, i);
      var j :| 0 <= j < k && ScanFirst(cfg, candles, swings, k).events[i].candle == candles[j];
    } else if i < end {
      AddedFrom(cfg, candles, swings, k, k + 1, i);
    } else {
      AddedFrom(cfg, candles, swings, k + 1, |candles|, i);
      var j :| k + 1 <= j < |candles| && ScanFirst(cfg, candles, swings, |candles|).events[i].candle == candles[j];
    }
  }

  lemma {:induction false} BrokenExactly(cfg: Config, candles: seq<Candle>, swings: seq<Swing>, n: nat, key: SwingKey)
    requires n <= |candles|
    ensures var s := ScanFirst(cfg, candles, swings, n);
            key in s.broken
            <==> exists i :: 0 <= i < |s.events| && CloseConfirmed(s.events[i]) && Key(s.events[i].swing) == key
    decreases n
  {
    hide LatestValidSwing, Side, Key, CloseConfirmed;
    if n > 0 {
      BrokenExactly(cfg, candles, swings, n - 1, key);
      var s, c := ScanFirst(cfg, candles, swings, n - 1), candles[n - 1];
      var bullish := Side(cfg, candles, n - 1, LatestValidSwing(cfg, swings, c.index, SwingHigh, s.broken), Bullish);
      var bearish := Side(cfg, candles, n - 1, LatestValidSwing(cfg, swings, c.index, SwingLow, s.broken), Bearish);
      RecordBreaks(s, bullish, key);
      RecordBreaks(Record(s, bullish), bearish, key);
    }
  }

  lemma RecordBreaks(s: Scan, event: Option<Event>, key: SwingKey)
    requires key in s.broken
             <==> exists i :: 0 <= i < |s.events| && CloseConfirmed(s.events[i]) && Key(s.events[i].swing) == key
    ensures var t := Record(s, event);
            key in t.broken
            <==> exists i :: 0 <= i < |t.events| && CloseConfirmed(t.events[i]) && Key(t.events[i].swing) == key
  {
    hide Key, CloseConfirmed;
    if event.Some? {
      var t := Record(s, event);
      assert t.events[|s.events|] == event.value;
      forall i | 0 <= i < |s.events|
        ensures t.events[i] == s.events[i]
      {
      }
    }
  }

  /** The broken levels a candle sees are those of the returned events of earlier candles. */
  lemma BrokenSeen(cfg: Config, candles: seq<Candle>, swings: seq<Swing>, k: nat, key: SwingKey)
    requires Increasing(candles) && k < |candles|
    ensures key in ScanFirst(cfg, candles, swings, k).broken
            <==> BrokenBefore(Detected(cfg, candles, swings), key, candles[k].index)
  {
    hide ScanFirst, Fails, Increasing;
    var raw, seen := ScanFirst(cfg, candles, swings, |candles|).events, ScanFirst(cfg, candles, swings, k).events;
    var events := Detected(cfg, candles, swings);
    BrokenExactly(cfg, candles, swings, k, key);
    ScanAppends(cfg, candles, swings, k, |candles|);
    forall i: nat | i < |raw|
      ensures events[i].candle == raw[i].candle && events[i].detected == raw[i].detected
      ensures events[i].wickOnly == raw[i].wickOnly && events[i].swing == raw[i].swing
      ensures events[i].candle.index < candles[k].index <==> i < |seen|
    {
      EventsOfCandle(cfg, candles, swings, k, i);
    }
  }

  // ---------- the swing chosen ----------

  /** The valid swings are those of the list, in its order. */
  lemma {:induction false} ValidPlaces(cfg: Config, swings: seq<Swing>, index: int, kind: SwingKind, broken: set<SwingKey>)
    returns (places: seq<nat>)
    ensures var valid := ValidSwings(cfg, swings, index, kind, broken);
            |places| == |valid|
            && (forall i :: 0 <= i < |places| ==> places[i] < |swings| && valid[i] == swings[places[i]])
            && (forall i, j :: 0 <= i < j < |places| ==> places[i] < places[j])
            && (forall p :: p in places <==> 0 <= p < |swings| && Valid(cfg, swings[p], index, kind, broken))
    decreases |swings|
  {
    hide Valid;
    places := [];
    if swings != [] {
      var earlier, n := swings[..|swings| - 1], |swings| - 1;
      places := ValidPlaces(cfg, earlier, index, kind, broken);
      if Valid(cfg, swings[n], index, kind, broken) {
        places := places + [n];
      }
    }
  }

  lemma ValidIsBreakable(cfg: Config, candles: seq<Candle>, swings: seq<Swing>, k: nat, direction: Direction, s: Swing)
    requires Increasing(candles) && k < |candles|
    ensures Valid(cfg, s, candles[k].index, BrokenKind(direction), ScanFirst(cfg, candles, swings, k).broken)
            <==> Breakable(cfg, Detected(cfg, candles, swings), s, candles[k].index, direction)
  {
    hide ScanFirst, Detected, Increasing;
    BrokenSeen(cfg, candles, swings, k, Key(Recorded(s)));
  }

  lemma ChosenIsLookedAt(cfg: Config, candles: seq<Candle>, swings: seq<Swing>, k: nat, direction: Direction)
    returns (p: nat)
    requires Increasing(candles) && k < |candles|
    ensures var chosen := LatestValidSwing(cfg, swings, candles[k].index, BrokenKind(direction),
                                           ScanFirst(cfg, candles, swings, k).broken);
            var events, index := Detected(cfg, candles, swings), candles[k].index;
            if chosen.None? then forall q :: 0 <= q < |swings| ==> !Breakable(cfg, events, swings[q], index, direction)
            else LookedAt(cfg, events, swings, p, index, direction) && chosen.value == swings[p]
  {
    hide ScanFirst, Detected, Valid, Breakable, ValidSwings, Increasing;
    var kind, broken, index := BrokenKind(direction), ScanFirst(cfg, candles, swings, k).broken, candles[k].index;
    var valid := ValidSwings(cfg, swings, index, kind, broken);
    var places := ValidPlaces(cfg, swings, index, kind, broken);
    forall q | 0 <= q < |swings|
      ensures q in places <==> Breakable(cfg, Detected(cfg, candles, swings), swings[q], index, direction)
    {
      ValidIsBreakable(cfg, candles, swings, k, direction, swings[q]);
    }
    p := 0;
    if valid != [] {
      var best := PickLatestExact(valid);
      p := places[best];
      forall q | 0 <= q < |swings| && Breakable(cfg, Detected(cfg, candles, swings), swings[q], index, direction)
        ensures !Outranks(swings[q], swings[p]) && (q < p ==> Outranks(swings[p], swings[q]))
      {
        var i :| 0 <= i < |places| && places[i] == q;
        assert valid[i] == swings[q];
      }
    } else {
      NothingPicked();
    }
  }

  lemma NothingPicked()
    ensures PickLatest([]) == None
  {
  }

  // ---------- the theorem ----------

  predicate On(e: Event, c: Candle, direction: Direction) {
    e.candle.index == c.index && e.direction == direction
  }

  predicate InOrder(e: Event, f: Event) {
    e.direction == Bullish && f.direction == Bearish
  }

  /** What recording both sides adds, told apart by direction. */
  lemma SidesAdded(s: Scan, bullish: Option<Event>, bearish: Option<Event>, direction: Direction)
    requires bullish.Some? ==> bullish.value.direction == Bullish
    requires bearish.Some? ==> bearish.value.direction == Bearish
    ensures var events, side := Record(Record(s, bullish), bearish).events,
                                if direction.Bullish? then bullish else bearish;
            s.events <= events
            && (side.Some? <==> exists i :: |s.events| <= i < |events| && events[i].direction == direction)
            && (forall i :: |s.events| <= i < |events| && events[i].direction == direction ==> side == Some(events[i]))
            && (forall i, j :: |s.events| <= i < j < |events| ==> InOrder(events[i], events[j]))
  {
    var events, n := Record(Record(s, bullish), bearish).events, |s.events|;
    if bullish.Some? {
      assert events[n] == bullish.value;
    }
    if bearish.Some? {
      assert events[|events| - 1] == bearish.value;
    }
  }

  /** The side's own report on candle k, given the levels broken before. */
  function Report(cfg: Config, candles: seq<Candle>, swings: seq<Swing>, k: nat, direction: Direction): Option<Event>
    requires k < |candles|
  {
    Side(cfg, candles, k, LatestValidSwing(cfg, swings, candles[k].index, BrokenKind(direction),
                                           ScanFirst(cfg, candles, swings, k).broken), direction)
  }

  lemma ReportsRecorded(cfg: Config, candles: seq<Candle>, swings: seq<Swing>, k: nat, direction: Direction)
    requires k < |candles|
    ensures ScanFirst(cfg, candles, swings, k).events <= ScanFirst(cfg, candles, swings, k + 1).events
    ensures var from, events := |ScanFirst(cfg, candles, swings, k).events|, ScanFirst(cfg, candles, swings, k + 1).events;
            var side := Report(cfg, candles, swings, k, direction);
            (side.Some? <==> exists i :: from <= i < |events| && events[i].direction == direction)
            && (forall i :: from <= i < |events| && events[i].direction == direction ==> side == Some(events[i]))
    ensures var from, events := |ScanFirst(cfg, candles, swings, k).events|, ScanFirst(cfg, candles, swings, k + 1).events;
            forall i, j :: from <= i < j < |events| ==> InOrder(events[i], events[j])
  {
    hide LatestValidSwing, EvaluateBreak, ScanFirst, Record;
    ScanNext(cfg, candles, swings, k);
    SidesAdded(ScanFirst(cfg, candles, swings, k), Report(cfg, candles, swings, k, Bullish),
               Report(cfg, candles, swings, k, Bearish), direction);
  }

  /** The raw events of a candle and side are the side's own report. */
  lemma SideReported(cfg: Config, candles: seq<Candle>, swings: seq<Swing>, k: nat, direction: Direction)
    requires Increasing(candles) && k < |candles|
    ensures var raw, side := ScanFirst(cfg, candles, swings, |candles|).events, Report(cfg, candles, swings, k, direction);
            (side.Some? <==> exists i :: 0 <= i < |raw| && On(raw[i], candles[k], direction))
            && (forall i :: 0 <= i < |raw| && On(raw[i], candles[k], direction) ==> side == Some(raw[i]))
            && (forall i, j :: (0 <= i < |raw| && 0 <= j < |raw| && On(raw[i], candles[k], direction)
                                && On(raw[j], candles[k], direction)) ==> i == j)
  {
    hide Report, Increasing, ScanFirst;
    var raw, s := ScanFirst(cfg, candles, swings, |candles|).events, ScanFirst(cfg, candles, swings, k);
    var next := ScanFirst(cfg, candles, swings, k + 1);
    ReportsRecorded(cfg, candles, swings, k, direction);
    ScanAppends(cfg, candles, swings, k + 1, |candles|);
    forall i: nat | i < |raw|
      ensures raw[i].candle.index == candles[k].index <==> |s.events| <= i < |next.events|
      ensures i < |next.events| ==> raw[i] == next.events[i]
    {
      EventsOfCandle(cfg, candles, swings, k, i);
    }
    if Report(cfg, candles, swings, k, direction).Some? {
      var i :| |s.events| <= i < |next.events| && next.events[i].direction == direction;
      assert On(raw[i], candles[k], direction);
    }
  }

  lemma ScanNext(cfg: Config, candles: seq<Candle>, swings: seq<Swing>, k: nat)
    requires k < |candles|
    ensures ScanFirst(cfg, candles, swings, k + 1)
            == ScanCandle(cfg, candles, swings, k, ScanFirst(cfg, candles, swings, k))
  {
  }

  ghost predicate SaysAll(cfg: Config, candles: seq<Candle>, k: nat, e: Event, s: Swing)
    requires k < |candles|
  {
    e.candle == candles[k]
    && e.swing == BrokenSwing(s.kind, s.index, s.confirmationIndex, s.price, s.strength)
    && SaysHow(cfg, candles, k, e) && SaysHowGood(cfg, candles, k, e) && SaysWhatLedToIt(cfg, candles, k, e)
    && Warns(cfg, candles, k, e)
  }

  lemma ReturnedSaysAll(cfg: Config, candles: seq<Candle>, swings: seq<Swing>, k: nat, s: Swing, direction: Direction,
                        i: nat)
    requires Increasing(candles) && k < |candles| && i < |ScanFirst(cfg, candles, swings, |candles|).events|
    requires Side(cfg, candles, k, Some(s), direction) == Some(ScanFirst(cfg, candles, swings, |candles|).events[i])
    ensures SaysAll(cfg, candles, k, Detected(cfg, candles, swings)[i], s)
  {
    hide ScanFirst, EvaluateBreak, SaysHow, SaysHowGood, SaysWhatLedToIt, Warns, PositionOf, Increasing;
    var raw, e := ScanFirst(cfg, candles, swings, |candles|).events[i], Detected(cfg, candles, swings)[i];
    ReportSays(cfg, candles, k, Recorded(s), direction);
    PositionFound(candles, k, |candles|);
    assert Returned(cfg, candles, k, raw, e);
    ReturnSaysHow(cfg, candles, k, Recorded(s), direction, raw, e);
    ReturnWarns(cfg, candles, k, Recorded(s), direction, raw, e);
    ReturnSaysHowGood(cfg, candles, k, Recorded(s), direction, raw, e);
    ReturnSaysWhatLedToIt(cfg, candles, k, Recorded(s), direction, raw, e);
  }

  /** What the detector returns about a candle and a side: it looks at one swing at most, returns an event, and only
      one, exactly when the close or the extreme of the candle is past that swing's price by more than the margin, and
      the event says exactly what happened. */
  lemma BreaksExactly(cfg: Config, candles: seq<Candle>, swings: seq<Swing>, k: nat, direction: Direction)
    returns (looked: Option<nat>)
    requires Increasing(candles) && k < |candles|
    ensures var events, c, margin := Detected(cfg, candles, swings), candles[k], Margin(cfg, candles, k);
            (looked.None? ==> forall q :: 0 <= q < |swings| ==> !Breakable(cfg, events, swings[q], c.index, direction))
            && (looked.Some? ==> LookedAt(cfg, events, swings, looked.value, c.index, direction))
            && ((exists i :: 0 <= i < |events| && On(events[i], c, direction))
                <==> looked.Some? && (ClosesPast(c, swings[looked.value].price, margin, direction)
                                      || WicksPast(c, swings[looked.value].price, margin, direction)))
            && (forall i :: 0 <= i < |events| && On(events[i], c, direction) ==>
                  looked.Some? && SaysAll(cfg, candles, k, events[i], swings[looked.value])
                  && forall j :: 0 <= j < |events| && On(events[j], c, direction) ==> i == j)
  {
    hide ScanFirst, LatestValidSwing, EvaluateBreak, LookedAt, Breakable, SaysAll, Fails, Margin, ClosesPast, WicksPast,
         Increasing;
    var c := candles[k];
    var broken := ScanFirst(cfg, candles, swings, k).broken;
    var chosen := LatestValidSwing(cfg, swings, c.index, BrokenKind(direction), broken);
    var raw, events := ScanFirst(cfg, candles, swings, |candles|).events, Detected(cfg, candles, swings);
    SideReported(cfg, candles, swings, k, direction);
    var p := ChosenIsLookedAt(cfg, candles, swings, k, direction);
    forall i: nat | i < |raw|
      ensures On(events[i], c, direction) == On(raw[i], c, direction)
    {
    }
    if chosen.None? {
      looked := None;
    } else {
      looked := Some(p);
      ReportSays(cfg, candles, k, Recorded(swings[p]), direction);
      forall i: nat | i < |events| && On(events[i], c, direction)
        ensures SaysAll(cfg, candles, k, events[i], swings[p])
      {
        ReturnedSaysAll(cfg, candles, swings, k, swings[p], direction, i);
      }
    }
  }

  /** Events come in the order of their candles, the bullish one of a candle first. */
  lemma EventsInOrder(cfg: Config, candles: seq<Candle>, swings: seq<Swing>, i: nat, j: nat)
    requires Increasing(candles) && i < j < |Detected(cfg, candles, swings)|
    ensures var e, f := Detected(cfg, candles, swings)[i], Detected(cfg, candles, swings)[j];
            e.candle.index < f.candle.index
            || (e.candle.index == f.candle.index && e.direction == Bullish && f.direction == Bearish)
  {
    hide ScanFirst, Increasing, Report, Fails;
    var raw := ScanFirst(cfg, candles, swings, |candles|).events;
    AddedBefore(cfg, candles, swings, |candles|, j);
    var k :| 0 <= k < |candles| && raw[j].candle == candles[k];
    EventsOfCandle(cfg, candles, swings, k, i);
    EventsOfCandle(cfg, candles, swings, k, j);
    ReportsRecorded(cfg, candles, swings, k, Bullish);
    ScanAppends(cfg, candles, swings, k + 1, |candles|);
    var next := ScanFirst(cfg, candles, swings, k + 1).events;
    assert raw[i] == next[i] && raw[j] == next[j];
  }
}
