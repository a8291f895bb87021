/** What marking swings afterwards does to the change-of-character warnings already reported: a swing counts while
    it is unswept or swept, and is forgotten under every other status. */
module WarningStatusProperties {
  import opened AverageRange
  import opened Common
  import opened Market
  import opened Swings
  import opened SwingMarks
  import opened ChangeOfCharacter
  import opened CharacterProperties

  predicate Counts(status: SwingStatus) {
    status.Unswept? || status.Swept?
  }

  /** All that a status can matter for to the warnings. */
  function CountsOrNot(status: SwingStatus): SwingStatus {
    if Counts(status) then Unswept else Broken
  }

  lemma {:induction false} UsableSwingsMarked(cfg: Config, swings: seq<Swing>, index: int, kind: SwingKind)
    ensures UsableSwings(cfg, MarkedAll(swings, CountsOrNot), index, kind)
            == MarkedAll(UsableSwings(cfg, swings, index, kind), CountsOrNot)
    decreases |swings|
  {
    if swings != [] {
      var earlier, last := swings[..|swings| - 1], swings[|swings| - 1];
      UsableSwingsMarked(cfg, earlier, index, kind);
      assert MarkedAll(swings, CountsOrNot)[..|swings| - 1] == MarkedAll(earlier, CountsOrNot);
      MarkedSnoc(UsableSwings(cfg, earlier, index, kind), last, CountsOrNot);
    }
  }

  lemma SideMarked(cfg: Config, candles: seq<Candle>, swings: seq<Swing>, liquidity: seq<LiquidityEvent>, k: nat,
                   direction: Direction, used: set<SwingKey>)
    requires k < |candles|
    ensures Side(cfg, candles, MarkedAll(swings, CountsOrNot), liquidity, k, direction, used)
            == Side(cfg, candles, swings, liquidity, k, direction, used)
  {
    hide Atr, MarkedAll, UsableSwings, PickLatest, Key, BuildEvent, FailedAfterBreak, PreviousMovement, RequiredLevel,
         Reports, Answers;
    var kind, index := BrokenKind(direction), candles[k].index;
    UsableSwingsMarked(cfg, swings, index, kind);
    PickMarked(UsableSwings(cfg, swings, index, kind), CountsOrNot);
  }

  lemma {:induction false} ScanMarked(cfg: Config, candles: seq<Candle>, swings: seq<Swing>,
                                      liquidity: seq<LiquidityEvent>, n: nat)
    requires n <= |candles|
    ensures ScanFirst(cfg, candles, MarkedAll(swings, CountsOrNot), liquidity, n)
            == ScanFirst(cfg, candles, swings, liquidity, n)
    decreases n
  {
    hide Side, Key, MarkedAll;
    if n > 0 {
      ScanMarked(cfg, candles, swings, liquidity, n - 1);
      var s := ScanFirst(cfg, candles, swings, liquidity, n - 1);
      SideMarked(cfg, candles, swings, liquidity, n - 1, Bullish, s.used);
      var bullish := Record(s, Side(cfg, candles, swings, liquidity, n - 1, Bullish, s.used));
      SideMarked(cfg, candles, swings, liquidity, n - 1, Bearish, bullish.used);
    }
  }

  lemma DetectedMarked(cfg: Config, candles: seq<Candle>, swings: seq<Swing>, liquidity: seq<LiquidityEvent>)
    ensures Detected(cfg, candles, MarkedAll(swings, CountsOrNot), liquidity) == Detected(cfg, candles, swings, liquidity)
  {
    hide ScanFirst, MarkedAll;
    ScanMarked(cfg, candles, swings, liquidity, |candles|);
  }

  /** Warnings do not repaint even when known swings are marked afterwards, so long as none starts or ceases to
      count. */
  lemma MarkedWarningsDoNotRepaint(cfg: Config, candles: seq<Candle>, swings: seq<Swing>, liquidity: seq<LiquidityEvent>,
                                   longer: seq<Candle>, later: seq<Swing>, moreLiquidity: seq<LiquidityEvent>, i: nat)
    requires ExtendsUpToMarks(candles, swings, longer, later, CountsOrNot)
    requires SweepsAgree(candles, liquidity, moreLiquidity)
    requires cfg.lookahead >= -1 && i < |Detected(cfg, candles, swings, liquidity)|
    ensures i < |Detected(cfg, longer, later, moreLiquidity)|
    ensures OnlyJudged(cfg, candles, Detected(cfg, candles, swings, liquidity)[i],
                       Detected(cfg, longer, later, moreLiquidity)[i])
  {
    hide Detected, MarkedAll, Extends, ExtendsUpToMarks, OnlyJudged, SweepsAgree;
    MarkedExtends(candles, swings, longer, later, CountsOrNot);
    DetectedMarked(cfg, candles, swings, liquidity);
    DetectedMarked(cfg, longer, later, moreLiquidity);
    WarningsDoNotRepaint(cfg, candles, MarkedAll(swings, CountsOrNot), liquidity, longer,
                         MarkedAll(later, CountsOrNot), moreLiquidity, i);
  }

  ghost predicate HasWarning(events: seq<Event>, key: SwingKey) {
    exists e :: e in events && Key(e.swing) == key
  }

  /** A swing that is alone under its key and does not count has no warning. */
  lemma WarnedSwingCounts(cfg: Config, candles: seq<Candle>, swings: seq<Swing>, liquidity: seq<LiquidityEvent>, i: nat)
    requires i < |swings| && OnlyUnderKey(swings, i, Key)
    requires HasWarning(Detected(cfg, candles, swings, liquidity), Key(Recorded(swings[i])))
    ensures Counts(swings[i].status)
  {
    hide Detected, Key, FailedAfterBreak;
    var events := Detected(cfg, candles, swings, liquidity);
    var e :| e in events && Key(e.swing) == Key(Recorded(swings[i]));
    var n :| 0 <= n < |events| && events[n] == e;
    var k := WarningsUseOnlyThePast(cfg, candles, swings, liquidity, n);
    var s :| s in swings && Recorded(s) == e.swing && Usable(cfg, s, e.candle.index, BrokenKind(e.direction));
    var j :| 0 <= j < |swings| && swings[j] == s;
  }

  /** Setting the status of one swing whose level has been reported: the warning under it remains exactly when it
      is left unswept or swept, and then every event of the run stays as it was. */
  lemma WarningsRemainExactly(cfg: Config, candles: seq<Candle>, swings: seq<Swing>, liquidity: seq<LiquidityEvent>,
                              i: nat, status: SwingStatus)
    requires i < |swings| && OnlyUnderKey(swings, i, Key)
    requires HasWarning(Detected(cfg, candles, swings, liquidity), Key(Recorded(swings[i])))
    ensures var marked := swings[i := swings[i].(status := status)];
            (HasWarning(Detected(cfg, candles, marked, liquidity), Key(Recorded(swings[i])))
             <==> status.Unswept? || status.Swept?)
            && (status.Unswept? || status.Swept? ==>
                  Detected(cfg, candles, marked, liquidity) == Detected(cfg, candles, swings, liquidity))
  {
    hide Detected, MarkedAll, Key, HasWarning;
    var marked := swings[i := swings[i].(status := status)];
    forall j | 0 <= j < |swings|
      ensures Recorded(marked[j]) == Recorded(swings[j])
    {
    }
    if Counts(status) {
      WarnedSwingCounts(cfg, candles, swings, liquidity, i);
      SameMarksMarked(marked, swings, CountsOrNot);
      DetectedMarked(cfg, candles, marked, liquidity);
      DetectedMarked(cfg, candles, swings, liquidity);
    } else if HasWarning(Detected(cfg, candles, marked, liquidity), Key(Recorded(swings[i]))) {
      WarnedSwingCounts(cfg, candles, marked, liquidity, i);
      assert false;
    }
  }
}
