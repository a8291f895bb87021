/** Rewriting the statuses of swings, for detectors that look at a status only through some of its values. */
module SwingMarks {
  import opened Common
  import opened Swings

  type Reading = SwingStatus -> SwingStatus

  function Marked(swing: Swing, read: Reading): Swing {
    swing.(status := read(swing.status))
  }

  function MarkedAll(swings: seq<Swing>, read: Reading): (marked: seq<Swing>)
    ensures |marked| == |swings| && forall i :: 0 <= i < |swings| ==> marked[i] == Marked(swings[i], read)
  {
    if swings == [] then [] else MarkedAll(swings[..|swings| - 1], read) + [Marked(swings[|swings| - 1], read)]
  }

  function MarkedOption(swing: Option<Swing>, read: Reading): Option<Swing> {
    if swing.Some? then Some(Marked(swing.value, read)) else None
  }

  /** The same swings, whose statuses read the same. */
  ghost predicate SameMarks(a: seq<Swing>, b: seq<Swing>, read: Reading) {
    |a| == |b|
    && forall i :: 0 <= i < |a| ==> Recorded(a[i]) == Recorded(b[i]) && read(a[i].status) == read(b[i].status)
  }

  lemma SameMarksMarked(a: seq<Swing>, b: seq<Swing>, read: Reading)
    requires SameMarks(a, b, read)
    ensures MarkedAll(a, read) == MarkedAll(b, read)
  {
    hide MarkedAll;
    forall i | 0 <= i < |a|
      ensures MarkedAll(a, read)[i] == MarkedAll(b, read)[i]
    {
      assert Recorded(a[i]) == Recorded(b[i]);
    }
  }

  lemma MarkedSnoc(swings: seq<Swing>, last: Swing, read: Reading)
    ensures MarkedAll(swings + [last], read) == MarkedAll(swings, read) + [Marked(last, read)]
  {
    assert (swings + [last])[..|swings + [last]| - 1] == swings;
  }

  lemma {:induction false} PickMarked(swings: seq<Swing>, read: Reading)
    ensures PickLatest(MarkedAll(swings, read)) == MarkedOption(PickLatest(swings), read)
    decreases |swings|
  {
    if swings != [] {
      PickMarked(swings[..|swings| - 1], read);
      assert MarkedAll(swings, read)[..|swings| - 1] == MarkedAll(swings[..|swings| - 1], read);
    }
  }

  lemma {:induction false} KnownMarked(swings: seq<Swing>, index: int, read: Reading)
    ensures KnownBefore(MarkedAll(swings, read), index) == MarkedAll(KnownBefore(swings, index), read)
    decreases |swings|
  {
    if swings != [] {
      var earlier, last := swings[..|swings| - 1], swings[|swings| - 1];
      KnownMarked(earlier, index, read);
      assert MarkedAll(swings, read)[..|swings| - 1] == MarkedAll(earlier, read);
      MarkedSnoc(KnownBefore(earlier, index), last, read);
    }
  }

  /** A longer feed on which known swings may have been marked, but so that every status reads as before. */
  ghost predicate ExtendsUpToMarks(candles: seq<Candle>, swings: seq<Swing>, longer: seq<Candle>, later: seq<Swing>,
                                   read: Reading) {
    candles <= longer && Increasing(longer)
    && (candles != [] ==> SameMarks(KnownBefore(later, candles[|candles| - 1].index),
                                    KnownBefore(swings, candles[|candles| - 1].index), read))
  }

  /** Then the marked swings extend in the plain sense. */
  lemma MarkedExtends(candles: seq<Candle>, swings: seq<Swing>, longer: seq<Candle>, later: seq<Swing>, read: Reading)
    requires ExtendsUpToMarks(candles, swings, longer, later, read)
    ensures Extends(candles, MarkedAll(swings, read), longer, MarkedAll(later, read))
  {
    hide KnownBefore, MarkedAll, SameMarks, Increasing;
    if candles != [] {
      var bound := candles[|candles| - 1].index;
      KnownMarked(swings, bound, read);
      KnownMarked(later, bound, read);
      SameMarksMarked(KnownBefore(later, bound), KnownBefore(swings, bound), read);
    }
  }

  /** No other swing is reported under the key of the i-th. */
  ghost predicate OnlyUnderKey(swings: seq<Swing>, i: nat, key: BrokenSwing -> SwingKey)
    requires i < |swings|
  {
    forall j :: 0 <= j < |swings| && key(Recorded(swings[j])) == key(Recorded(swings[i])) ==> j == i
  }
}
