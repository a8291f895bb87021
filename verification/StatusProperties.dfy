/** What marking swings afterwards does to the breaks already reported: only whether a swing is broken counts. */
module StatusProperties {
  import opened AverageRange
  import opened Common
  import opened Market
  import opened Swings
  import opened SwingMarks
  import opened BreakOfStructure
  import opened BreakProperties

  /** All that a status can matter for to the break detector. */
  function BrokenOrNot(status: SwingStatus): SwingStatus {
    if status.Broken? then Broken else Unswept
  }

  lemma {:induction false} ValidSwingsMarked(cfg: Config, swings: seq<Swing>, index: int, kind: SwingKind,
                                             broken: set<SwingKey>)
    ensures ValidSwings(cfg, MarkedAll(swings, BrokenOrNot), index, kind, broken)
            == MarkedAll(ValidSwings(cfg, swings, index, kind, broken), BrokenOrNot)
    decreases |swings|
  {
    hide Key;
    if swings != [] {
      var earlier, last := swings[..|swings| - 1], swings[|swings| - 1];
      ValidSwingsMarked(cfg, earlier, index, kind, broken);
      assert MarkedAll(swings, BrokenOrNot)[..|swings| - 1] == MarkedAll(earlier, BrokenOrNot);
      MarkedSnoc(ValidSwings(cfg, earlier, index, kind, broken), last, BrokenOrNot);
    }
  }

  lemma SideMarked(cfg: Config, candles: seq<Candle>, swings: seq<Swing>, k: nat, kind: SwingKind,
                   broken: set<SwingKey>, direction: Direction)
    requires k < |candles|
    ensures Side(cfg, candles, k,
                 LatestValidSwing(cfg, MarkedAll(swings, BrokenOrNot), candles[k].index, kind, broken), direction)
            == Side(cfg, candles, k, LatestValidSwing(cfg, swings, candles[k].index, kind, broken), direction)
  {
    hide EvaluateBreak, Atr, MarkedAll, ValidSwings, PickLatest;
    ValidSwingsMarked(cfg, swings, candles[k].index, kind, broken);
    PickMarked(ValidSwings(cfg, swings, candles[k].index, kind, broken), BrokenOrNot);
  }

  lemma {:induction false} ScanMarked(cfg: Config, candles: seq<Candle>, swings: seq<Swing>, n: nat)
    requires n <= |candles|
    ensures ScanFirst(cfg, candles, MarkedAll(swings, BrokenOrNot), n) == ScanFirst(cfg, candles, swings, n)
    decreases n
  {
    hide Side, LatestValidSwing, MarkedAll;
    if n > 0 {
      ScanMarked(cfg, candles, swings, n - 1);
      var broken := ScanFirst(cfg, candles, swings, n - 1).broken;
      SideMarked(cfg, candles, swings, n - 1, SwingHigh, broken, Bullish);
      SideMarked(cfg, candles, swings, n - 1, SwingLow, broken, Bearish);
    }
  }

  lemma DetectedMarked(cfg: Config, candles: seq<Candle>, swings: seq<Swing>)
    ensures Detected(cfg, candles, MarkedAll(swings, BrokenOrNot)) == Detected(cfg, candles, swings)
  {
    hide ScanFirst, MarkedAll, Settle;
    ScanMarked(cfg, candles, swings, |candles|);
  }

  /** Breaks do not repaint even when known swings are marked afterwards, so long as no swing changes whether it
      is broken. */
  lemma MarkedBreaksDoNotRepaint(cfg: Config, candles: seq<Candle>, swings: seq<Swing>, longer: seq<Candle>,
                                 later: seq<Swing>, i: nat)
    requires ExtendsUpToMarks(candles, swings, longer, later, BrokenOrNot) && i < |Detected(cfg, candles, swings)|
    ensures i < |Detected(cfg, longer, later)|
    ensures var was, now := Detected(cfg, candles, swings)[i], Detected(cfg, longer, later)[i];
            now == was
            || (now == FailEvent(was) && CloseConfirmed(was) && !was.status.Failed?
                && exists k :: 0 <= k < |candles| <= k + cfg.lookahead && candles[k] == was.candle)
  {
    hide Detected, MarkedAll, Extends, ExtendsUpToMarks, FailEvent;
    MarkedExtends(candles, swings, longer, later, BrokenOrNot);
    DetectedMarked(cfg, candles, swings);
    DetectedMarked(cfg, longer, later);
    BreaksDoNotRepaint(cfg, candles, MarkedAll(swings, BrokenOrNot), longer, MarkedAll(later, BrokenOrNot), i);
  }

  ghost predicate HasEvent(events: seq<Event>, key: SwingKey) {
    exists e :: e in events && Key(e.swing) == key
  }

  /** Setting the status of one swing whose level has been reported: the events under it remain exactly when it is
      not marked broken, and then every event of the run stays as it was. */
  lemma EventsRemainExactly(cfg: Config, candles: seq<Candle>, swings: seq<Swing>, i: nat, status: SwingStatus)
    requires i < |swings| && OnlyUnderKey(swings, i, Key)
    requires HasEvent(Detected(cfg, candles, swings), Key(Recorded(swings[i])))
    ensures var marked := swings[i := swings[i].(status := status)];
            (HasEvent(Detected(cfg, candles, marked), Key(Recorded(swings[i]))) <==> !status.Broken?)
            && (!status.Broken? ==> Detected(cfg, candles, marked) == Detected(cfg, candles, swings))
  {
    hide Detected, MarkedAll;
    var key, marked := Key(Recorded(swings[i])), swings[i := swings[i].(status := status)];
    if status.Broken? {
      BrokenStatusErasesEvents(cfg, candles, marked, key);
    } else {
      if swings[i].status.Broken? {
        BrokenStatusErasesEvents(cfg, candles, swings, key);
        assert false;
      }
      SameMarksMarked(marked, swings, BrokenOrNot);
      DetectedMarked(cfg, candles, marked);
      DetectedMarked(cfg, candles, swings);
    }
  }
}
