/** Change-of-character warnings: one per swing, from the past only, and stable except for the look ahead. */
module CharacterProperties {
  import opened AverageRange
  import opened Common
  import opened Market
  import opened Swings
  import opened ChangeOfCharacter

  // ---------- one candle sees only its past ----------

  lemma MovementOfPrefix(cfg: Config, candles: seq<Candle>, longer: seq<Candle>, k: nat)
    requires candles <= longer && k < |candles|
    ensures PreviousMovement(cfg, longer, k) == PreviousMovement(cfg, candles, k)
  {
    forall j | 0 <= j <= k
      ensures longer[j] == candles[j]
    {
    }
  }

  lemma {:induction false} UsableAmongKnown(cfg: Config, swings: seq<Swing>, index: int, bound: int, kind: SwingKind)
    requires index <= bound
    ensures UsableSwings(cfg, KnownBefore(swings, bound), index, kind) == UsableSwings(cfg, swings, index, kind)
    decreases |swings|
  {
    if swings != [] {
      var earlier, last := swings[..|swings| - 1], swings[|swings| - 1];
      UsableAmongKnown(cfg, earlier, index, bound, kind);
      var known := KnownBefore(earlier, bound);
      assert (known + [last])[..|known + [last]| - 1] == known;
    }
  }

  lemma ChoiceUnchanged(cfg: Config, swings: seq<Swing>, later: seq<Swing>, index: int, bound: int, kind: SwingKind)
    requires index <= bound && KnownBefore(later, bound) == KnownBefore(swings, bound)
    ensures LatestConfirmedSwing(cfg, later, index, kind) == LatestConfirmedSwing(cfg, swings, index, kind)
  {
    UsableAmongKnown(cfg, swings, index, bound, kind);
    UsableAmongKnown(cfg, later, index, bound, kind);
  }

  /** The sweeps that had happened by a candle index. */
  function SweptBy(events: seq<LiquidityEvent>, index: int): seq<LiquidityEvent> {
    if events == [] then []
    else
      var rest, last := SweptBy(events[..|events| - 1], index), events[|events| - 1];
      if last.index <= index then rest + [last] else rest
  }

  lemma {:induction false} SweepAmongHappened(cfg: Config, events: seq<LiquidityEvent>, index: int, bound: int,
                                              direction: Direction)
    requires index <= bound
    ensures LatestSweep(cfg, SweptBy(events, bound), index, direction) == LatestSweep(cfg, events, index, direction)
    decreases |events|
  {
    if events != [] {
      var earlier, last := events[..|events| - 1], events[|events| - 1];
      SweepAmongHappened(cfg, earlier, index, bound, direction);
      var happened := SweptBy(earlier, bound);
      assert (happened + [last])[..|happened + [last]| - 1] == happened;
    }
  }

  ghost predicate SweepsAgree(candles: seq<Candle>, events: seq<LiquidityEvent>, later: seq<LiquidityEvent>) {
    candles != [] ==>
      SweptBy(later, candles[|candles| - 1].index) == SweptBy(events, candles[|candles| - 1].index)
  }

  // ---------- an event apart from its look ahead ----------

  /** What the look ahead can still do to an event: a warning, and for one that was not upgraded, failure. */
  function Fail(e: Event): Event {
    if e.status.Upgraded? then e.(warnings := e.warnings + [RECLAIM_LOST])
    else e.(status := Failed, grade := Invalid, warnings := e.warnings + [RECLAIM_LOST])
  }

  function Judge(e: Event, failed: bool): Event {
    if e.detected && failed then Fail(e) else e
  }

  /** The report of one side with the look ahead left out. */
  function Fresh(cfg: Config, candles: seq<Candle>, swings: seq<Swing>, liquidity: seq<LiquidityEvent>, k: nat,
                 direction: Direction, used: set<SwingKey>): Option<Event>
    requires k < |candles|
  {
    var movement := PreviousMovement(cfg, candles, k);
    var chosen := LatestConfirmedSwing(cfg, swings, candles[k].index, BrokenKind(direction));
    if !Answers(direction, movement) || chosen.None? || Key(Recorded(chosen.value)) in used then None
    else
      var swing, atr := Recorded(chosen.value), Atr(candles, k, cfg.atrPeriod, TrueRange);
      if Reports(cfg, candles[k], RequiredLevel(swing, direction, atr, cfg.bufferMultiplier), direction) then
        Some(BuildEvent(cfg, candles, liquidity, k, swing, direction, movement, atr, false))
      else None
  }

  lemma SideIsFreshJudged(cfg: Config, candles: seq<Candle>, swings: seq<Swing>, liquidity: seq<LiquidityEvent>,
                          k: nat, direction: Direction, used: set<SwingKey>)
    requires k < |candles|
    ensures var side, event := Side(cfg, candles, swings, liquidity, k, direction, used),
                               Fresh(cfg, candles, swings, liquidity, k, direction, used);
            if event.None? then side.None?
            else side == Some(Judge(event.value, FailedAfterBreak(candles, k, cfg.lookahead, event.value.swing.price,
                                                                  direction)))
  {
    hide Atr, LatestConfirmedSwing, FailedAfterBreak, LatestSweep, Gaps, PreviousMovement, Answers, Reports, Key,
         RequiredLevel;
  }

  lemma BuildOfPrefix(cfg: Config, candles: seq<Candle>, longer: seq<Candle>, liquidity: seq<LiquidityEvent>,
                      later: seq<LiquidityEvent>, k: nat, swing: BrokenSwing, direction: Direction, movement: Movement,
                      atr: real)
    requires candles <= longer && k < |candles|
    requires LatestSweep(cfg, later, candles[k].index, direction)
             == LatestSweep(cfg, liquidity, candles[k].index, direction)
    ensures BuildEvent(cfg, longer, later, k, swing, direction, movement, atr, false)
            == BuildEvent(cfg, candles, liquidity, k, swing, direction, movement, atr, false)
  {
    hide LatestSweep;
    assert longer[..k + 1] == candles[..k + 1];
  }

  lemma FreshOfPrefix(cfg: Config, candles: seq<Candle>, swings: seq<Swing>, liquidity: seq<LiquidityEvent>,
                      longer: seq<Candle>, later: seq<Swing>, moreLiquidity: seq<LiquidityEvent>, k: nat,
                      direction: Direction, used: set<SwingKey>)
    requires Extends(candles, swings, longer, later) && k < |candles|
    requires SweepsAgree(candles, liquidity, moreLiquidity)
    ensures Fresh(cfg, longer, later, moreLiquidity, k, direction, used)
            == Fresh(cfg, candles, swings, liquidity, k, direction, used)
  {
    hide Atr, LatestConfirmedSwing, LatestSweep, BuildEvent, PreviousMovement, KnownBefore, SweptBy, Reports, Key,
         RequiredLevel, Answers;
    var bound, index, last := candles[|candles| - 1].index, candles[k].index, |candles| - 1;
    assert longer[k] == candles[k] && longer[last] == candles[last];
    MovementOfPrefix(cfg, candles, longer, k);
    ChoiceUnchanged(cfg, swings, later, index, bound, BrokenKind(direction));
    SweepAmongHappened(cfg, liquidity, index, bound, direction);
    SweepAmongHappened(cfg, moreLiquidity, index, bound, direction);
    AtrOfPrefix(candles, longer, k, cfg.atrPeriod, TrueRange);
    var chosen := LatestConfirmedSwing(cfg, swings, index, BrokenKind(direction));
    if chosen.Some? {
      BuildOfPrefix(cfg, candles, longer, liquidity, moreLiquidity, k, Recorded(chosen.value), direction,
                    PreviousMovement(cfg, candles, k), Atr(candles, k, cfg.atrPeriod, TrueRange));
    }
  }

  // ---------- the look ahead itself ----------

  /** On a longer feed the verdict on an event changes only towards failed, and only while the old feed ended
      inside the window after it. */
  lemma VerdictGrows(candles: seq<Candle>, longer: seq<Candle>, k: nat, lookahead: int, level: real,
                     direction: Direction)
    requires candles <= longer && k < |candles| && lookahead >= -1
    ensures FailedAfterBreak(candles, k, lookahead, level, direction) ==>
              FailedAfterBreak(longer, k, lookahead, level, direction)
    ensures FailedAfterBreak(longer, k, lookahead, level, direction) && k + lookahead < |candles| ==>
              FailedAfterBreak(candles, k, lookahead, level, direction)
  {
    hide BackBeyond;
    forall j | 0 <= j < |candles|
      ensures longer[j] == candles[j]
    {
    }
  }

  // ---------- whole runs ----------

  /** The event an earlier feed reported, as a longer feed reports it: the same, or now failed within its
      look ahead. */
  ghost predicate OnlyJudged(cfg: Config, candles: seq<Candle>, was: Event, now: Event) {
    now == was
    || (now == Fail(was) && was.detected && exists k :: 0 <= k < |candles| <= k + cfg.lookahead && candles[k] == was.candle)
  }

  ghost predicate AllJudged(cfg: Config, candles: seq<Candle>, was: Scan, now: Scan) {
    now.used == was.used && |now.events| == |was.events|
    && forall i :: 0 <= i < |was.events| ==> OnlyJudged(cfg, candles, was.events[i], now.events[i])
  }

  lemma FreshFacts(cfg: Config, candles: seq<Candle>, swings: seq<Swing>, liquidity: seq<LiquidityEvent>, k: nat,
                   direction: Direction, used: set<SwingKey>)
    requires k < |candles|
    ensures var event := Fresh(cfg, candles, swings, liquidity, k, direction, used);
            event.Some? ==> event.value.candle == candles[k] && event.value.direction == direction
                            && Key(event.value.swing) !in used
  {
    hide Atr, LatestConfirmedSwing, LatestSweep, Gaps, PreviousMovement, Answers, Reports, Key, RequiredLevel;
  }

  lemma SideOnLongerFeed(cfg: Config, candles: seq<Candle>, swings: seq<Swing>, liquidity: seq<LiquidityEvent>,
                         longer: seq<Candle>, later: seq<Swing>, moreLiquidity: seq<LiquidityEvent>, k: nat,
                         direction: Direction, used: set<SwingKey>)
    requires Extends(candles, swings, longer, later) && k < |candles| && cfg.lookahead >= -1
    requires SweepsAgree(candles, liquidity, moreLiquidity)
    ensures var was, now := Side(cfg, candles, swings, liquidity, k, direction, used),
                            Side(cfg, longer, later, moreLiquidity, k, direction, used);
            (was.None? <==> now.None?)
            && (was.Some? ==> OnlyJudged(cfg, candles, was.value, now.value)
                              && was.value.swing == now.value.swing)
  {
    hide Fresh, Side, FailedAfterBreak, Extends, SweepsAgree;
    ExtendsPrefix(candles, swings, longer, later);
    FreshOfPrefix(cfg, candles, swings, liquidity, longer, later, moreLiquidity, k, direction, used);
    SideIsFreshJudged(cfg, candles, swings, liquidity, k, direction, used);
    SideIsFreshJudged(cfg, longer, later, moreLiquidity, k, direction, used);
    var event := Fresh(cfg, candles, swings, liquidity, k, direction, used);
    if event.Some? {
      FreshFacts(cfg, candles, swings, liquidity, k, direction, used);
      VerdictGrows(candles, longer, k, cfg.lookahead, event.value.swing.price, direction);
    }
  }

  lemma ExtendsPrefix(candles: seq<Candle>, swings: seq<Swing>, longer: seq<Candle>, later: seq<Swing>)
    requires Extends(candles, swings, longer, later)
    ensures candles <= longer
  {
  }

  lemma {:induction false} ScanOnLongerFeed(cfg: Config, candles: seq<Candle>, swings: seq<Swing>,
                                            liquidity: seq<LiquidityEvent>, longer: seq<Candle>, later: seq<Swing>,
                                            moreLiquidity: seq<LiquidityEvent>, n: nat)
    requires Extends(candles, swings, longer, later) && n <= |candles| <= |longer| && cfg.lookahead >= -1
    requires SweepsAgree(candles, liquidity, moreLiquidity)
    ensures AllJudged(cfg, candles, ScanFirst(cfg, candles, swings, liquidity, n),
                      ScanFirst(cfg, longer, later, moreLiquidity, n))
    decreases n
  {
    hide Side, OnlyJudged, Extends, SweepsAgree, Key;
    if n > 0 {
      ScanOnLongerFeed(cfg, candles, swings, liquidity, longer, later, moreLiquidity, n - 1);
      var s, t := ScanFirst(cfg, candles, swings, liquidity, n - 1), ScanFirst(cfg, longer, later, moreLiquidity, n - 1);
      SideOnLongerFeed(cfg, candles, swings, liquidity, longer, later, moreLiquidity, n - 1, Bullish, s.used);
      var s' := Record(s, Side(cfg, candles, swings, liquidity, n - 1, Bullish, s.used));
      SideOnLongerFeed(cfg, candles, swings, liquidity, longer, later, moreLiquidity, n - 1, Bearish, s'.used);
    }
  }

  lemma {:induction false} ScanAppends(cfg: Config, candles: seq<Candle>, swings: seq<Swing>,
                                       liquidity: seq<LiquidityEvent>, n: nat, m: nat)
    requires n <= m <= |candles|
    ensures ScanFirst(cfg, candles, swings, liquidity, n).events <= ScanFirst(cfg, candles, swings, liquidity, m).events
    decreases m
  {
    hide Side;
    if n < m {
      ScanAppends(cfg, candles, swings, liquidity, n, m - 1);
    }
  }

  /** Warnings do not repaint: on a longer feed each earlier event is still there at the same place with the same
      swing, candle, levels and context, and only its look ahead may still turn it to failed, while the old feed
      ended within its look ahead; an upgraded event gets the warning but keeps its upgrade. */
  lemma WarningsDoNotRepaint(cfg: Config, candles: seq<Candle>, swings: seq<Swing>, liquidity: seq<LiquidityEvent>,
                             longer: seq<Candle>, later: seq<Swing>, moreLiquidity: seq<LiquidityEvent>, i: nat)
    requires Extends(candles, swings, longer, later) && SweepsAgree(candles, liquidity, moreLiquidity)
    requires cfg.lookahead >= -1 && i < |Detected(cfg, candles, swings, liquidity)|
    ensures i < |Detected(cfg, longer, later, moreLiquidity)|
    ensures OnlyJudged(cfg, candles, Detected(cfg, candles, swings, liquidity)[i],
                       Detected(cfg, longer, later, moreLiquidity)[i])
  {
    hide ScanFirst, OnlyJudged, KnownBefore, SweptBy, Increasing;
    ScanOnLongerFeed(cfg, candles, swings, liquidity, longer, later, moreLiquidity, |candles|);
    ScanAppends(cfg, longer, later, moreLiquidity, |candles|, |longer|);
  }

  // ---------- a negative look ahead ----------

  /** On every longer feed every event stays, up to a verdict inside its look ahead. */
  ghost predicate WarningsStand(cfg: Config) {
    forall candles: seq<Candle>, swings: seq<Swing>, liquidity: seq<LiquidityEvent>, longer: seq<Candle>,
           later: seq<Swing>, moreLiquidity: seq<LiquidityEvent> |
      Extends(candles, swings, longer, later) && SweepsAgree(candles, liquidity, moreLiquidity) ::
      Stand(cfg, candles, Detected(cfg, candles, swings, liquidity), Detected(cfg, longer, later, moreLiquidity))
  }

  ghost predicate Stand(cfg: Config, candles: seq<Candle>, was: seq<Event>, now: seq<Event>) {
    |was| <= |now| && forall i :: 0 <= i < |was| ==> OnlyJudged(cfg, candles, was[i], now[i])
  }

  /** A side the configured movement lets answer. */
  function AnsweringSide(cfg: Config): Direction {
    if cfg.movement.Some? && MovementOf(cfg.movement.value).Up? then Bearish else Bullish
  }

  function Flat(index: int, price: real): Candle {
    Candle(index, price, price, price, price, Some(TrendLabel(false, false)))
  }

  /** A candle past the level, then n candles that close back. */
  function BreakAndReturn(direction: Direction, n: nat): (cs: seq<Candle>)
    ensures |cs| == n + 1 && Increasing(cs)
    ensures cs[0] == Flat(10, if direction.Bullish? then 2.0 else 0.0)
    ensures forall i :: 0 < i <= n ==> cs[i] == Flat(10 + i, if direction.Bullish? then 0.0 else 2.0)
    decreases n
  {
    if n == 0 then [Flat(10, if direction.Bullish? then 2.0 else 0.0)]
    else BreakAndReturn(direction, n - 1) + [Flat(10 + n, if direction.Bullish? then 0.0 else 2.0)]
  }

  function BrokenLevel(cfg: Config): Swing {
    Swing(BrokenKind(AnsweringSide(cfg)), 1, 5, 1.0, cfg.minimumStrength, Unswept)
  }

  lemma FlatAtr(candles: seq<Candle>, period: Positive)
    requires candles != [] && candles[0].high == candles[0].low
    ensures Atr(candles, 0, period, TrueRange) == 0.0
  {
    var ranges := Ranges(candles, 1, TrueRange);
    assert ranges[WindowStart(1, period)..] == [0.0];
    assert [0.0][..0] == [];
  }

  lemma LevelIsChosen(cfg: Config)
    ensures LatestConfirmedSwing(cfg, [BrokenLevel(cfg)], 10, BrokenKind(AnsweringSide(cfg))) == Some(BrokenLevel(cfg))
  {
    var s := BrokenLevel(cfg);
    assert [s][..|[s]| - 1] == [] && Usable(cfg, s, 10, s.kind);
    assert UsableSwings(cfg, [], 10, s.kind) == [];
    assert UsableSwings(cfg, [s], 10, s.kind) == [s];
    assert PickLatest([s]) == Some(s);
  }

  /** The candle past the level warns at once. */
  lemma BreakWarns(cfg: Config, candles: seq<Candle>)
    requires candles != [] && candles[0] == BreakAndReturn(AnsweringSide(cfg), 0)[0]
    ensures var event := Fresh(cfg, candles, [BrokenLevel(cfg)], [], 0, AnsweringSide(cfg), {});
            event.Some? && event.value.detected && event.value.swing.price == 1.0 && event.value.candle == candles[0]
  {
    hide Atr, LatestSweep, Gaps, LatestConfirmedSwing;
    FlatAtr(candles, cfg.atrPeriod);
    LevelIsChosen(cfg);
  }

  lemma OtherSideSilent(cfg: Config, candles: seq<Candle>, swings: seq<Swing>, liquidity: seq<LiquidityEvent>)
    requires candles != [] && AnsweringSide(cfg).Bearish?
    ensures Side(cfg, candles, swings, liquidity, 0, Bullish, {}).None?
  {
    hide EvaluateBreak;
  }

  /** So the first event of the feed is that warning with its verdict. */
  lemma FirstEvent(cfg: Config, candles: seq<Candle>, event: Event)
    requires candles != [] && Fresh(cfg, candles, [BrokenLevel(cfg)], [], 0, AnsweringSide(cfg), {}) == Some(event)
    requires event.swing.price == 1.0
    ensures var events := Detected(cfg, candles, [BrokenLevel(cfg)], []);
            events != []
            && events[0] == Judge(event, FailedAfterBreak(candles, 0, cfg.lookahead, 1.0, AnsweringSide(cfg)))
  {
    hide Fresh, Side, FailedAfterBreak, Judge, Key;
    var swings, direction := [BrokenLevel(cfg)], AnsweringSide(cfg);
    SideIsFreshJudged(cfg, candles, swings, [], 0, direction, {});
    if direction.Bearish? {
      OtherSideSilent(cfg, candles, swings, []);
    }
    var first := ScanFirst(cfg, candles, swings, [], 1);
    assert first == ScanCandle(cfg, candles, swings, [], 0, Scan([], {}));
    assert first.events[0] == Judge(event, FailedAfterBreak(candles, 0, cfg.lookahead, 1.0, direction));
    ScanAppends(cfg, candles, swings, [], 1, |candles|);
  }

  /** A slice that ends before the start of the feed is empty, and reaches the first return once enough candles
      follow. */
  lemma NegativeSliceGrows(cfg: Config)
    requires cfg.lookahead < -1
    ensures var direction := AnsweringSide(cfg);
            !FailedAfterBreak(BreakAndReturn(direction, 0), 0, cfg.lookahead, 1.0, direction)
            && FailedAfterBreak(BreakAndReturn(direction, -cfg.lookahead), 0, cfg.lookahead, 1.0, direction)
  {
    var direction := AnsweringSide(cfg);
    var longer := BreakAndReturn(direction, -cfg.lookahead);
    assert SliceEnd(1 + cfg.lookahead, |longer|) == 2;
    assert BackBeyond(longer[1], 1.0, direction);
  }

  lemma NegativeLookaheadRepaints(cfg: Config)
    requires cfg.lookahead < -1
    ensures !WarningsStand(cfg)
  {
    hide Fresh, FailedAfterBreak, Detected, Atr, BreakAndReturn, SweptBy;
    var direction, swings := AnsweringSide(cfg), [BrokenLevel(cfg)];
    var candles, longer := BreakAndReturn(direction, 0), BreakAndReturn(direction, -cfg.lookahead);
    assert candles == [longer[0]];
    assert Extends(candles, swings, longer, swings) && SweepsAgree(candles, [], []);
    BreakWarns(cfg, candles);
    FreshOfPrefix(cfg, candles, swings, [], longer, swings, [], 0, direction, {});
    var event := Fresh(cfg, candles, swings, [], 0, direction, {}).value;
    FirstEvent(cfg, candles, event);
    FirstEvent(cfg, longer, event);
    NegativeSliceGrows(cfg);
    assert |Fail(event).warnings| == |event.warnings| + 1;
    assert !OnlyJudged(cfg, candles, Detected(cfg, candles, swings, [])[0], Detected(cfg, longer, swings, [])[0]);
  }

  /** The settings do not refuse a negative look ahead, and a slice reads a negative stop from the end of the
      list.  Whatever the other settings, no reported warning ever changes after its look ahead if and only if the
      look ahead is -1 or more. */
  lemma WarningsStandExactly(cfg: Config)
    ensures WarningsStand(cfg) <==> cfg.lookahead >= -1
  {
    hide WarningsStand, Detected, OnlyJudged;
    if cfg.lookahead < -1 {
      NegativeLookaheadRepaints(cfg);
    } else {
      SettledWarningsStand(cfg);
    }
  }

  lemma SettledWarningsStand(cfg: Config)
    requires cfg.lookahead >= -1
    ensures WarningsStand(cfg)
  {
    hide Detected, OnlyJudged, Extends, SweepsAgree;
    forall candles: seq<Candle>, swings: seq<Swing>, liquidity: seq<LiquidityEvent>, longer: seq<Candle>,
           later: seq<Swing>, moreLiquidity: seq<LiquidityEvent>
      | Extends(candles, swings, longer, later) && SweepsAgree(candles, liquidity, moreLiquidity)
      ensures Stand(cfg, candles, Detected(cfg, candles, swings, liquidity), Detected(cfg, longer, later, moreLiquidity))
    {
      var was, now := Detected(cfg, candles, swings, liquidity), Detected(cfg, longer, later, moreLiquidity);
      forall i: nat | i < |was|
        ensures i < |now| && OnlyJudged(cfg, candles, was[i], now[i])
      {
        WarningsDoNotRepaint(cfg, candles, swings, liquidity, longer, later, moreLiquidity, i);
      }
      if |was| > |now| {
        WarningsDoNotRepaint(cfg, candles, swings, liquidity, longer, later, moreLiquidity, |now|);
      }
    }
  }

  // ---------- one warning per swing ----------

  ghost predicate Sourced(cfg: Config, candles: seq<Candle>, swings: seq<Swing>, e: Event, k: nat)
    requires k < |candles|
  {
    e.candle == candles[k]
    && (exists s :: s in swings && Recorded(s) == e.swing && Usable(cfg, s, e.candle.index, BrokenKind(e.direction)))
    && (e.status.Failed? <==> e.detected && !e.mssCandidate
                              && FailedAfterBreak(candles, k, cfg.lookahead, e.swing.price, e.direction))
    && (e.status.Upgraded? <==> e.mssCandidate) && (e.status.WickOnlyCandidate? <==> !e.detected)
  }

  ghost predicate HasSource(cfg: Config, candles: seq<Candle>, swings: seq<Swing>, e: Event, n: nat)
    requires n <= |candles|
  {
    exists k :: 0 <= k < n && Sourced(cfg, candles, swings, e, k)
  }

  lemma {:induction false} UsableSwingsAreUsable(cfg: Config, swings: seq<Swing>, index: int, kind: SwingKind, i: nat)
    requires i < |UsableSwings(cfg, swings, index, kind)|
    ensures var s := UsableSwings(cfg, swings, index, kind)[i];
            s in swings && Usable(cfg, s, index, kind)
    decreases |swings|
  {
    hide Usable;
    var earlier := swings[..|swings| - 1];
    if i < |UsableSwings(cfg, earlier, index, kind)| {
      UsableSwingsAreUsable(cfg, earlier, index, kind, i);
    }
  }

  lemma ChosenIsUsable(cfg: Config, swings: seq<Swing>, index: int, kind: SwingKind)
    requires LatestConfirmedSwing(cfg, swings, index, kind).Some?
    ensures var s := LatestConfirmedSwing(cfg, swings, index, kind).value;
            s in swings && Usable(cfg, s, index, kind)
  {
    hide Usable, Outranks;
    var usable := UsableSwings(cfg, swings, index, kind);
    var i := PickLatestExact(usable);
    UsableSwingsAreUsable(cfg, swings, index, kind, i);
  }

  lemma {:induction false} UsableSwingListed(cfg: Config, swings: seq<Swing>, index: int, kind: SwingKind, swing: Swing)
    requires swing in swings && Usable(cfg, swing, index, kind)
    ensures swing in UsableSwings(cfg, swings, index, kind)
    decreases |swings|
  {
    hide Usable;
    if swing != swings[|swings| - 1] {
      UsableSwingListed(cfg, swings[..|swings| - 1], index, kind, swing);
    }
  }

  /** When a candle warns: only the latest and then strongest usable swing is looked at, whether or not its level
      is spent, and it is reported exactly when its level is unspent, the previous movement is not already in
      the direction of the break, and the close, or the wick where wicks are allowed, is past it by more than
      the buffer. */
  lemma WarningReportedExactly(cfg: Config, candles: seq<Candle>, swings: seq<Swing>, liquidity: seq<LiquidityEvent>,
                               k: nat, direction: Direction, used: set<SwingKey>) returns (chosen: Option<Swing>)
    requires k < |candles|
    ensures var kind, c := BrokenKind(direction), candles[k];
            var event := Side(cfg, candles, swings, liquidity, k, direction, used);
            (chosen.None? ==> event.None? && forall t :: t in swings ==> !Usable(cfg, t, c.index, kind))
            && (chosen.Some? ==>
                  var s, buffer := chosen.value, Buffer(Atr(candles, k, cfg.atrPeriod, TrueRange), cfg.bufferMultiplier);
                  s in swings && Usable(cfg, s, c.index, kind)
                  && (forall t :: t in swings && Usable(cfg, t, c.index, kind) ==> !Outranks(t, s))
                  && (event.Some? <==>
                        Key(Recorded(s)) !in used && Answers(direction, PreviousMovement(cfg, candles, k))
                        && (Past(c.close, s.price, direction) > buffer
                            || (cfg.allowWicks && Past(Extreme(c, direction), s.price, direction) > buffer)))
                  && (event.Some? ==> (event.value.swing == Recorded(s) && event.value.direction == direction
                        && (event.value.detected <==> Past(c.close, s.price, direction) > buffer))))
  {
    hide Usable, Outranks, Atr, Buffer, LatestSweep, Gaps, PreviousMovement, Answers, FailedAfterBreak, Upgrades, Key;
    var kind, index := BrokenKind(direction), candles[k].index;
    var usable := UsableSwings(cfg, swings, index, kind);
    forall t | t in swings && Usable(cfg, t, index, kind)
      ensures t in usable
    {
      UsableSwingListed(cfg, swings, index, kind, t);
    }
    if usable == [] {
      chosen := None;
    } else {
      var i := PickLatestExact(usable);
      UsableSwingsAreUsable(cfg, swings, index, kind, i);
      chosen := Some(usable[i]);
    }
  }

  lemma SideIsSourced(cfg: Config, candles: seq<Candle>, swings: seq<Swing>, liquidity: seq<LiquidityEvent>, k: nat,
                      direction: Direction, used: set<SwingKey>)
    requires k < |candles|
    ensures var event := Side(cfg, candles, swings, liquidity, k, direction, used);
            event.Some? ==> Sourced(cfg, candles, swings, event.value, k) && Key(event.value.swing) !in used
  {
    hide Atr, LatestConfirmedSwing, FailedAfterBreak, LatestSweep, Gaps, PreviousMovement, Answers, Reports, Key,
         RequiredLevel, Usable;
    var chosen := LatestConfirmedSwing(cfg, swings, candles[k].index, BrokenKind(direction));
    if chosen.Some? {
      ChosenIsUsable(cfg, swings, candles[k].index, BrokenKind(direction));
    }
  }

  ghost predicate WellFounded(cfg: Config, candles: seq<Candle>, swings: seq<Swing>, s: Scan, n: nat)
    requires n <= |candles|
  {
    (forall i :: 0 <= i < |s.events| ==> HasSource(cfg, candles, swings, s.events[i], n))
    && (forall i :: 0 <= i < |s.events| ==> Key(s.events[i].swing) in s.used)
    && (forall i, j :: 0 <= i < j < |s.events| ==> Key(s.events[i].swing) != Key(s.events[j].swing))
  }

  lemma RecordKeeps(cfg: Config, candles: seq<Candle>, swings: seq<Swing>, s: Scan, event: Option<Event>, k: nat)
    requires k < |candles| && WellFounded(cfg, candles, swings, s, k + 1)
    requires event.Some? ==> Sourced(cfg, candles, swings, event.value, k) && Key(event.value.swing) !in s.used
    ensures WellFounded(cfg, candles, swings, Record(s, event), k + 1)
  {
    hide Sourced;
    if event.Some? {
      assert HasSource(cfg, candles, swings, event.value, k + 1);
    }
  }

  lemma ScanCandleKeeps(cfg: Config, candles: seq<Candle>, swings: seq<Swing>, liquidity: seq<LiquidityEvent>, s: Scan,
                        k: nat)
    requires k < |candles| && WellFounded(cfg, candles, swings, s, k + 1)
    ensures WellFounded(cfg, candles, swings, ScanCandle(cfg, candles, swings, liquidity, k, s), k + 1)
  {
    hide WellFounded, Side, Sourced;
    var bullish := Side(cfg, candles, swings, liquidity, k, Bullish, s.used);
    SideIsSourced(cfg, candles, swings, liquidity, k, Bullish, s.used);
    RecordKeeps(cfg, candles, swings, s, bullish, k);
    var t := Record(s, bullish);
    SideIsSourced(cfg, candles, swings, liquidity, k, Bearish, t.used);
    RecordKeeps(cfg, candles, swings, t, Side(cfg, candles, swings, liquidity, k, Bearish, t.used), k);
  }

  lemma MoreCandles(cfg: Config, candles: seq<Candle>, swings: seq<Swing>, s: Scan, n: nat)
    requires n < |candles| && WellFounded(cfg, candles, swings, s, n)
    ensures WellFounded(cfg, candles, swings, s, n + 1)
  {
    hide Sourced;
    forall i | 0 <= i < |s.events|
      ensures HasSource(cfg, candles, swings, s.events[i], n + 1)
    {
      assert HasSource(cfg, candles, swings, s.events[i], n);
    }
  }

  lemma {:induction false} ScanIsWellFounded(cfg: Config, candles: seq<Candle>, swings: seq<Swing>,
                                             liquidity: seq<LiquidityEvent>, n: nat)
    requires n <= |candles|
    ensures WellFounded(cfg, candles, swings, ScanFirst(cfg, candles, swings, liquidity, n), n)
    decreases n
  {
    hide ScanCandle, Sourced;
    if n > 0 {
      ScanIsWellFounded(cfg, candles, swings, liquidity, n - 1);
      var s := ScanFirst(cfg, candles, swings, liquidity, n - 1);
      MoreCandles(cfg, candles, swings, s, n - 1);
      ScanCandleKeeps(cfg, candles, swings, liquidity, s, n - 1);
    }
  }

  /** Every event uses a swing confirmed strictly before its candle, and its status says exactly how it went: a
      wick alone is a candidate, an upgrade hides a failure, and failed means a close came back in time. */
  lemma WarningsUseOnlyThePast(cfg: Config, candles: seq<Candle>, swings: seq<Swing>, liquidity: seq<LiquidityEvent>,
                               i: nat) returns (k: nat)
    requires i < |Detected(cfg, candles, swings, liquidity)|
    ensures k < |candles| && Sourced(cfg, candles, swings, Detected(cfg, candles, swings, liquidity)[i], k)
  {
    hide Sourced, ScanFirst;
    ScanIsWellFounded(cfg, candles, swings, liquidity, |candles|);
    assert HasSource(cfg, candles, swings, Detected(cfg, candles, swings, liquidity)[i], |candles|);
    k :| 0 <= k < |candles| && Sourced(cfg, candles, swings, Detected(cfg, candles, swings, liquidity)[i], k);
  }

  /** At most one event for each swing level; so a swing spent on a wick-only candidate is never confirmed. */
  lemma EachSwingWarnsOnce(cfg: Config, candles: seq<Candle>, swings: seq<Swing>, liquidity: seq<LiquidityEvent>,
                           i: nat, j: nat)
    requires i < j < |Detected(cfg, candles, swings, liquidity)|
    ensures Key(Detected(cfg, candles, swings, liquidity)[i].swing)
            != Key(Detected(cfg, candles, swings, liquidity)[j].swing)
  {
    hide Sourced, ScanFirst;
    ScanIsWellFounded(cfg, candles, swings, liquidity, |candles|);
  }
}
