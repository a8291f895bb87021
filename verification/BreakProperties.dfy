/** Break-of-structure events do not repaint, break each swing once and only use what was known before. */
module BreakProperties {
  import opened AverageRange
  import opened Common
  import opened Market
  import opened Swings
  import opened BreakOfStructure

  // ---------- one candle sees only its past ----------

  lemma {:induction false} LastOppositeOfPrefix(candles: seq<Candle>, longer: seq<Candle>, from: nat, k: nat,
                                                direction: Direction)
    requires candles <= longer && from <= k <= |candles|
    ensures LastOpposite(longer, from, k, direction) == LastOpposite(candles, from, k, direction)
    decreases k
  {
    if k > from {
      LastOppositeOfPrefix(candles, longer, from, k - 1, direction);
    }
  }

  lemma OppositeSweepOfPrefix(candles: seq<Candle>, longer: seq<Candle>, k: nat, price: real, direction: Direction)
    requires candles <= longer && k < |candles|
    ensures OppositeSweep(longer, k, price, direction) == OppositeSweep(candles, k, price, direction)
  {
    forall j | 0 <= j < k
      ensures longer[j] == candles[j]
    {
    }
  }

  lemma EventOfPrefix(cfg: Config, candles: seq<Candle>, longer: seq<Candle>, k: nat, swing: BrokenSwing,
                      direction: Direction, atr: real)
    requires candles <= longer && k < |candles|
    ensures EvaluateBreak(cfg, longer, k, swing, direction, atr) == EvaluateBreak(cfg, candles, k, swing, direction, atr)
  {
    hide OppositeSweep, LastOpposite;
    LastOppositeOfPrefix(candles, longer, SixBack(k), k, direction);
    OppositeSweepOfPrefix(candles, longer, k, swing.price, direction);
    assert longer[..k + 1] == candles[..k + 1];
  }

  lemma SideOfPrefix(cfg: Config, candles: seq<Candle>, longer: seq<Candle>, k: nat, chosen: Option<Swing>,
                     direction: Direction)
    requires candles <= longer && k < |candles|
    ensures Side(cfg, longer, k, chosen, direction) == Side(cfg, candles, k, chosen, direction)
  {
    hide EvaluateBreak, Atr;
    if chosen.Some? {
      AtrOfPrefix(candles, longer, k, cfg.atrPeriod, TrueRange);
      EventOfPrefix(cfg, candles, longer, k, Recorded(chosen.value), direction,
                    Atr(candles, k, cfg.atrPeriod, TrueRange));
    }
  }

  /** Only swings confirmed before the candle can be chosen, so nothing learned later matters. */
  lemma {:induction false} ValidAmongKnown(cfg: Config, swings: seq<Swing>, index: int, bound: int, kind: SwingKind,
                                           broken: set<SwingKey>)
    requires index <= bound
    ensures ValidSwings(cfg, KnownBefore(swings, bound), index, kind, broken)
            == ValidSwings(cfg, swings, index, kind, broken)
    decreases |swings|
  {
    hide Key;
    if swings != [] {
      var earlier, last := swings[..|swings| - 1], swings[|swings| - 1];
      ValidAmongKnown(cfg, earlier, index, bound, kind, broken);
      var known := KnownBefore(earlier, bound);
      assert (known + [last])[..|known + [last]| - 1] == known;
    }
  }

  lemma ChoiceUnchanged(cfg: Config, swings: seq<Swing>, later: seq<Swing>, index: int, bound: int, kind: SwingKind,
                        broken: set<SwingKey>)
    requires index <= bound && KnownBefore(later, bound) == KnownBefore(swings, bound)
    ensures LatestValidSwing(cfg, later, index, kind, broken) == LatestValidSwing(cfg, swings, index, kind, broken)
  {
    ValidAmongKnown(cfg, swings, index, bound, kind, broken);
    ValidAmongKnown(cfg, later, index, bound, kind, broken);
  }

  lemma {:induction false} ScanOfPrefix(cfg: Config, candles: seq<Candle>, swings: seq<Swing>, longer: seq<Candle>,
                                        later: seq<Swing>, n: nat)
    requires Extends(candles, swings, longer, later) && n <= |candles|
    ensures ScanFirst(cfg, longer, later, n) == ScanFirst(cfg, candles, swings, n)
    decreases n
  {
    hide Side, LatestValidSwing, KnownBefore;
    if n > 0 {
      ScanOfPrefix(cfg, candles, swings, longer, later, n - 1);
      var broken := ScanFirst(cfg, candles, swings, n - 1).broken;
      var index, bound := candles[n - 1].index, candles[|candles| - 1].index;
      assert longer[n - 1] == candles[n - 1] && longer[|candles| - 1] == candles[|candles| - 1];
      var high := LatestValidSwing(cfg, swings, index, SwingHigh, broken);
      var low := LatestValidSwing(cfg, swings, index, SwingLow, broken);
      ChoiceUnchanged(cfg, swings, later, index, bound, SwingHigh, broken);
      ChoiceUnchanged(cfg, swings, later, index, bound, SwingLow, broken);
      SideOfPrefix(cfg, candles, longer, n - 1, high, Bullish);
      SideOfPrefix(cfg, candles, longer, n - 1, low, Bearish);
    }
  }

  lemma {:induction false} ScanAppends(cfg: Config, candles: seq<Candle>, swings: seq<Swing>, n: nat, m: nat)
    requires n <= m <= |candles|
    ensures ScanFirst(cfg, candles, swings, n).events <= ScanFirst(cfg, candles, swings, m).events
    decreases m
  {
    hide Side, LatestValidSwing;
    if n < m {
      ScanAppends(cfg, candles, swings, n, m - 1);
    }
  }

  // ---------- where an event comes from ----------

  /** The event at a position: it breaks a swing of the list that was confirmed, and formed, strictly before. */
  ghost predicate Sourced(cfg: Config, candles: seq<Candle>, swings: seq<Swing>, e: Event, k: nat)
    requires k < |candles|
  {
    e.candle == candles[k] && e.swing.kind == BrokenKind(e.direction)
    && e.swing.confirmationIndex < e.candle.index && e.swing.index < e.candle.index
    && e.swing.strength >= cfg.minimumStrength
    && exists s :: s in swings && Recorded(s) == e.swing && !s.status.Broken?
  }

  lemma {:induction false} ValidSwingsAreValid(cfg: Config, swings: seq<Swing>, index: int, kind: SwingKind,
                                               broken: set<SwingKey>, i: nat)
    requires i < |ValidSwings(cfg, swings, index, kind, broken)|
    ensures var s := ValidSwings(cfg, swings, index, kind, broken)[i];
            s in swings && Valid(cfg, s, index, kind, broken)
    decreases |swings|
  {
    hide Valid;
    var earlier := swings[..|swings| - 1];
    if i < |ValidSwings(cfg, earlier, index, kind, broken)| {
      ValidSwingsAreValid(cfg, earlier, index, kind, broken, i);
    }
  }

  lemma ChosenIsValid(cfg: Config, swings: seq<Swing>, index: int, kind: SwingKind, broken: set<SwingKey>)
    requires LatestValidSwing(cfg, swings, index, kind, broken).Some?
    ensures var s := LatestValidSwing(cfg, swings, index, kind, broken).value;
            s in swings && Valid(cfg, s, index, kind, broken)
  {
    hide Valid, Outranks;
    var valid := ValidSwings(cfg, swings, index, kind, broken);
    var i := PickLatestExact(valid);
    ValidSwingsAreValid(cfg, swings, index, kind, broken, i);
  }

  lemma SideIsSourced(cfg: Config, candles: seq<Candle>, swings: seq<Swing>, k: nat, broken: set<SwingKey>,
                      direction: Direction)
    requires k < |candles|
    ensures var chosen := LatestValidSwing(cfg, swings, candles[k].index, BrokenKind(direction), broken);
            var event := Side(cfg, candles, k, chosen, direction);
            event.Some? ==> Sourced(cfg, candles, swings, event.value, k) && Key(event.value.swing) !in broken
                            && event.value.direction == direction && !event.value.status.Failed?
  {
    hide LatestValidSwing, Atr, CloseBreaks, WickBreaks, SourceBlock, OppositeSweep, Gaps;
    var chosen := LatestValidSwing(cfg, swings, candles[k].index, BrokenKind(direction), broken);
    if chosen.Some? {
      ChosenIsValid(cfg, swings, candles[k].index, BrokenKind(direction), broken);
    }
  }

  lemma {:induction false} ValidSwingListed(cfg: Config, swings: seq<Swing>, index: int, kind: SwingKind,
                                            broken: set<SwingKey>, swing: Swing)
    requires swing in swings && Valid(cfg, swing, index, kind, broken)
    ensures swing in ValidSwings(cfg, swings, index, kind, broken)
    decreases |swings|
  {
    hide Valid;
    if swing != swings[|swings| - 1] {
      ValidSwingListed(cfg, swings[..|swings| - 1], index, kind, broken, swing);
    }
  }

  /** When a candle reports a break: it looks at the latest and then strongest swing still valid, and reports
      it exactly when its close or its wick is past the price by more than the buffer; a close past it makes
      the break confirmed, and a wick alone is only a candidate. */
  lemma BreakReportedExactly(cfg: Config, candles: seq<Candle>, swings: seq<Swing>, k: nat, broken: set<SwingKey>,
                             direction: Direction) returns (chosen: Option<Swing>)
    requires k < |candles|
    ensures var kind, c := BrokenKind(direction), candles[k];
            var event := Side(cfg, candles, k, LatestValidSwing(cfg, swings, c.index, kind, broken), direction);
            (chosen.None? ==> event.None? && forall t :: t in swings ==> !Valid(cfg, t, c.index, kind, broken))
            && (chosen.Some? ==>
                  var s, buffer := chosen.value, Buffer(Atr(candles, k, cfg.atrPeriod, TrueRange), cfg.bufferMultiplier);
                  s in swings && Valid(cfg, s, c.index, kind, broken)
                  && (forall t :: t in swings && Valid(cfg, t, c.index, kind, broken) ==> !Outranks(t, s))
                  && (event.Some? <==> Past(c.close, s.price, direction) > buffer
                                       || Past(Extreme(c, direction), s.price, direction) > buffer)
                  && (event.Some? ==> (event.value.swing == Recorded(s) && event.value.direction == direction
                        && (CloseConfirmed(event.value) <==> Past(c.close, s.price, direction) > buffer)
                        && (event.value.detected <==> event.value.wickOnly ==> !cfg.closeRequired))))
  {
    hide Valid, Outranks, Atr, Buffer, SourceBlock, OppositeSweep, Gaps, PreviousTrend, Names;
    var kind, index := BrokenKind(direction), candles[k].index;
    var valid := ValidSwings(cfg, swings, index, kind, broken);
    forall t | t in swings && Valid(cfg, t, index, kind, broken)
      ensures t in valid
    {
      ValidSwingListed(cfg, swings, index, kind, broken, t);
    }
    if valid == [] {
      chosen := None;
    } else {
      var i := PickLatestExact(valid);
      ValidSwingsAreValid(cfg, swings, index, kind, broken, i);
      chosen := Some(valid[i]);
    }
  }

  ghost predicate HasSource(cfg: Config, candles: seq<Candle>, swings: seq<Swing>, e: Event, n: nat)
    requires n <= |candles|
  {
    exists k :: 0 <= k < n && Sourced(cfg, candles, swings, e, k)
  }

  /** What the first pass has reported after n candles. */
  ghost predicate WellFounded(cfg: Config, candles: seq<Candle>, swings: seq<Swing>, s: Scan, n: nat)
    requires n <= |candles|
  {
    (forall i :: 0 <= i < |s.events| ==> HasSource(cfg, candles, swings, s.events[i], n))
    && (forall i :: 0 <= i < |s.events| ==> !s.events[i].status.Failed?)
    && (forall i :: 0 <= i < |s.events| && CloseConfirmed(s.events[i]) ==> Key(s.events[i].swing) in s.broken)
    && (forall i, j :: 0 <= i < j < |s.events| && CloseConfirmed(s.events[i]) && CloseConfirmed(s.events[j]) ==>
          Key(s.events[i].swing) != Key(s.events[j].swing))
  }

  lemma RecordKeeps(cfg: Config, candles: seq<Candle>, swings: seq<Swing>, s: Scan, event: Option<Event>, k: nat)
    requires k < |candles| && WellFounded(cfg, candles, swings, s, k + 1)
    requires event.Some? ==> Sourced(cfg, candles, swings, event.value, k) && Key(event.value.swing) !in s.broken
                             && !event.value.status.Failed?
    ensures WellFounded(cfg, candles, swings, Record(s, event), k + 1)
  {
    hide Sourced;
    if event.Some? {
      assert HasSource(cfg, candles, swings, event.value, k + 1);
    }
  }

  lemma ScanCandleKeeps(cfg: Config, candles: seq<Candle>, swings: seq<Swing>, s: Scan, k: nat)
    requires k < |candles| && WellFounded(cfg, candles, swings, s, k + 1)
    ensures WellFounded(cfg, candles, swings, ScanCandle(cfg, candles, swings, k, s), k + 1)
  {
    hide WellFounded, LatestValidSwing, Side, Sourced;
    var high := LatestValidSwing(cfg, swings, candles[k].index, SwingHigh, s.broken);
    var low := LatestValidSwing(cfg, swings, candles[k].index, SwingLow, s.broken);
    SideIsSourced(cfg, candles, swings, k, s.broken, Bullish);
    SideIsSourced(cfg, candles, swings, k, s.broken, Bearish);
    var bullish := Side(cfg, candles, k, high, Bullish);
    RecordKeeps(cfg, candles, swings, s, bullish, k);
    if bullish.Some? {
      SourcedKind(cfg, candles, swings, bullish.value, k);
    }
    var bearish := Side(cfg, candles, k, low, Bearish);
    if bearish.Some? {
      SourcedKind(cfg, candles, swings, bearish.value, k);
    }
    RecordKeeps(cfg, candles, swings, Record(s, bullish), bearish, k);
  }

  lemma SourcedKind(cfg: Config, candles: seq<Candle>, swings: seq<Swing>, e: Event, k: nat)
    requires k < |candles| && Sourced(cfg, candles, swings, e, k)
    ensures Key(e.swing).kind == BrokenKind(e.direction)
  {
  }

  lemma MoreCandles(cfg: Config, candles: seq<Candle>, swings: seq<Swing>, s: Scan, n: nat)
    requires n < |candles| && WellFounded(cfg, candles, swings, s, n)
    ensures WellFounded(cfg, candles, swings, s, n + 1)
  {
    hide Sourced;
    forall i | 0 <= i < |s.events|
      ensures HasSource(cfg, candles, swings, s.events[i], n + 1)
    {
      assert HasSource(cfg, candles, swings, s.events[i], n);
    }
  }

  lemma {:induction false} ScanIsWellFounded(cfg: Config, candles: seq<Candle>, swings: seq<Swing>, n: nat)
    requires n <= |candles|
    ensures WellFounded(cfg, candles, swings, ScanFirst(cfg, candles, swings, n), n)
    decreases n
  {
    hide ScanCandle, Sourced;
    if n > 0 {
      ScanIsWellFounded(cfg, candles, swings, n - 1);
      MoreCandles(cfg, candles, swings, ScanFirst(cfg, candles, swings, n - 1), n - 1);
      ScanCandleKeeps(cfg, candles, swings, ScanFirst(cfg, candles, swings, n - 1), n - 1);
    }
  }

  // ---------- the theorems ----------

  /** Every reported break uses a swing that was confirmed strictly before the breaking candle. */
  lemma BreaksUseOnlyThePast(cfg: Config, candles: seq<Candle>, swings: seq<Swing>, i: nat)
    requires i < |Detected(cfg, candles, swings)|
    ensures exists k :: 0 <= k < |candles| && Sourced(cfg, candles, swings, Detected(cfg, candles, swings)[i], k)
  {
    hide Sourced, Fails, ScanFirst;
    ScanIsWellFounded(cfg, candles, swings, |candles|);
    var raw := ScanFirst(cfg, candles, swings, |candles|).events[i];
    var k :| 0 <= k < |candles| && Sourced(cfg, candles, swings, raw, k);
    FailingKeepsSource(cfg, candles, swings, raw, k);
  }

  lemma FailingKeepsSource(cfg: Config, candles: seq<Candle>, swings: seq<Swing>, e: Event, k: nat)
    requires k < |candles|
    ensures Sourced(cfg, candles, swings, FailEvent(e), k) == Sourced(cfg, candles, swings, e, k)
  {
  }

  /** A swing level is broken by at most one confirmed close. */
  lemma EachSwingBrokenOnce(cfg: Config, candles: seq<Candle>, swings: seq<Swing>, i: nat, j: nat)
    requires i < j < |Detected(cfg, candles, swings)|
    requires CloseConfirmed(Detected(cfg, candles, swings)[i]) && CloseConfirmed(Detected(cfg, candles, swings)[j])
    ensures Key(Detected(cfg, candles, swings)[i].swing) != Key(Detected(cfg, candles, swings)[j].swing)
  {
    hide Sourced, Fails, ScanFirst;
    ScanIsWellFounded(cfg, candles, swings, |candles|);
  }

  lemma {:induction false} PositionFound(candles: seq<Candle>, k: nat, n: nat)
    requires Increasing(candles) && k < n <= |candles|
    ensures PositionOf(candles, candles[k].index, n) == Some(k)
    decreases n
  {
    if k < n - 1 {
      assert candles[k].index < candles[n - 1].index;
      PositionFound(candles, k, n - 1);
    }
  }

  /** A break is marked failed exactly when a close within the lookahead comes back beyond the swing. */
  lemma FailedExactly(cfg: Config, candles: seq<Candle>, swings: seq<Swing>, i: nat) returns (k: nat)
    requires Increasing(candles) && i < |Detected(cfg, candles, swings)|
    ensures k < |candles| && Detected(cfg, candles, swings)[i].candle == candles[k]
    ensures var e := Detected(cfg, candles, swings)[i];
            e.status.Failed? <==>
              CloseConfirmed(e) && ClosesBack(candles, k + 1, k + cfg.lookahead + 1, e.swing.price, e.direction)
  {
    hide ScanFirst, ClosesBack, PositionOf, Increasing;
    k := PositionOfEvent(cfg, candles, swings, i);
    ScanIsWellFounded(cfg, candles, swings, |candles|);
  }

  lemma PositionOfEvent(cfg: Config, candles: seq<Candle>, swings: seq<Swing>, i: nat) returns (k: nat)
    requires Increasing(candles) && i < |ScanFirst(cfg, candles, swings, |candles|).events|
    ensures k < |candles| && ScanFirst(cfg, candles, swings, |candles|).events[i].candle == candles[k]
    ensures PositionOf(candles, candles[k].index, |candles|) == Some(k)
  {
    hide ScanFirst, PositionOf, Increasing;
    ScanIsWellFounded(cfg, candles, swings, |candles|);
    var raw := ScanFirst(cfg, candles, swings, |candles|).events[i];
    k :| 0 <= k < |candles| && Sourced(cfg, candles, swings, raw, k);
    PositionFound(candles, k, |candles|);
  }

  lemma IncreasingPrefix(candles: seq<Candle>, longer: seq<Candle>)
    requires candles <= longer && Increasing(longer)
    ensures Increasing(candles)
  {
    forall i, j | 0 <= i < j < |candles|
      ensures candles[i].index < candles[j].index
    {
      assert candles[i] == longer[i] && candles[j] == longer[j];
    }
  }

  /** More candles can only add to the closes that come back, and only past the old end. */
  lemma ClosesBackGrows(candles: seq<Candle>, longer: seq<Candle>, from: int, end: int, level: real,
                        direction: Direction)
    requires candles <= longer
    ensures ClosesBack(candles, from, end, level, direction) ==> ClosesBack(longer, from, end, level, direction)
    ensures ClosesBack(longer, from, end, level, direction) && end <= |candles| ==>
              ClosesBack(candles, from, end, level, direction)
  {
    hide BackBeyond;
    forall j | 0 <= j < |candles|
      ensures longer[j] == candles[j]
    {
    }
  }

  /** Breaks do not repaint.  On a longer feed every earlier event is still there, at the same place, with the
      same swing, candle, direction and levels; the one change possible is that a confirmed break is marked
      failed, and only if its candle is within the lookahead of the old end. */
  lemma BreaksDoNotRepaint(cfg: Config, candles: seq<Candle>, swings: seq<Swing>, longer: seq<Candle>,
                           later: seq<Swing>, i: nat)
    requires Extends(candles, swings, longer, later) && i < |Detected(cfg, candles, swings)|
    ensures i < |Detected(cfg, longer, later)|
    ensures var was, now := Detected(cfg, candles, swings)[i], Detected(cfg, longer, later)[i];
            now == was
            || (now == FailEvent(was) && CloseConfirmed(was) && !was.status.Failed?
                && exists k :: 0 <= k < |candles| <= k + cfg.lookahead && candles[k] == was.candle)
  {
    hide ScanFirst, ClosesBack, PositionOf, Increasing, KnownBefore;
    IncreasingPrefix(candles, longer);
    ScanOfPrefix(cfg, candles, swings, longer, later, |candles|);
    ScanAppends(cfg, longer, later, |candles|, |longer|);
    var k := PositionOfEvent(cfg, candles, swings, i);
    PositionFound(longer, k, |longer|);
    ScanIsWellFounded(cfg, candles, swings, |candles|);
    var raw := ScanFirst(cfg, candles, swings, |candles|).events[i];
    ClosesBackGrows(candles, longer, k + 1, k + cfg.lookahead + 1, raw.swing.price, raw.direction);
  }

  /** What the guarantee rests on: a swing's status is read as it stands now, so marking a swing as broken
      afterwards erases every event that broke it. */
  lemma BrokenStatusErasesEvents(cfg: Config, candles: seq<Candle>, swings: seq<Swing>, key: SwingKey)
    requires forall s :: s in swings && Key(Recorded(s)) == key ==> s.status.Broken?
    ensures forall e :: e in Detected(cfg, candles, swings) ==> Key(e.swing) != key
  {
    hide Key, Detected;
    forall e | e in Detected(cfg, candles, swings)
      ensures Key(e.swing) != key
    {
      var i :| 0 <= i < |Detected(cfg, candles, swings)| && Detected(cfg, candles, swings)[i] == e;
      BreaksUseOnlyThePast(cfg, candles, swings, i);
    }
  }
}
