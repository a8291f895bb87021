/** The streaming engine agrees with the history it was fed: a break is reported exactly when the
    latest confirmed pivot is closed beyond for the first time. */
module StructureProperties {
  import opened Common
  import opened MarketStructure

  // ---------- declarative pivots ----------

  /** A pivot of the given side is confirmed by the candle at p; the pivot candle is the one before. */
  predicate PivotAt(h: seq<Candle>, p: nat, high: bool): (confirmed: bool)
    requires p < |h|
    ensures confirmed ==> p >= 2
  {
    p >= 2
    && (if high then Peak(h, p) else Floor(h, p) && !Peak(h, p))
  }

  /** The candle before p is higher than both its neighbours. */
  predicate Peak(h: seq<Candle>, p: nat)
    requires 2 <= p < |h|
  {
    h[p - 2].high < h[p - 1].high && h[p].high < h[p - 1].high
  }

  predicate Floor(h: seq<Candle>, p: nat)
    requires 2 <= p < |h|
  {
    h[p - 1].low < h[p - 2].low && h[p - 1].low < h[p].low
  }

  function Level(h: seq<Candle>, p: nat, high: bool): real
    requires 1 <= p <= |h|
  {
    if high then h[p - 1].high else h[p - 1].low
  }

  predicate Beyond(close: real, level: real, high: bool) {
    if high then close > level else close < level
  }

  /** The latest pivot of the side confirmed among the first n candles. */
  predicate Latest(h: seq<Candle>, n: nat, high: bool, p: nat)
    requires n <= |h|
  {
    p < n && PivotAt(h, p, high) && forall q :: p < q < n ==> !PivotAt(h, q, high)
  }

  /** No candle from the confirmation at p up to n has closed beyond the level. */
  predicate Unbroken(h: seq<Candle>, p: nat, n: nat, high: bool)
    requires 1 <= p && n <= |h| && p <= |h|
  {
    forall u :: p <= u < n ==> !Beyond(h[u].close, Level(h, p, high), high)
  }

  predicate Standing(h: seq<Candle>, n: nat, high: bool, p: nat)
    requires n <= |h|
  {
    Latest(h, n, high, p) && Unbroken(h, p, n, high)
  }

  /** The candle at t is the first to close beyond the latest pivot confirmed by it. */
  predicate FirstCloseBeyond(h: seq<Candle>, t: nat, high: bool, p: nat)
    requires t < |h|
  {
    Latest(h, t + 1, high, p) && Unbroken(h, p, t, high) && Beyond(h[t].close, Level(h, p, high), high)
  }

  function PivotRecord(h: seq<Candle>, p: nat, high: bool): Pivot
    requires 2 <= p < |h|
  {
    Pivot(p - 1, high, Level(h, p, high), h[p - 1].endTime)
  }

  // ---------- the engine's state in those terms ----------

  ghost predicate Tracks(current: Option<Pivot>, h: seq<Candle>, n: nat, high: bool)
    requires n <= |h|
  {
    match current
    case Some(record) => exists p :: Standing(h, n, high, p) && record == PivotRecord(h, p, high)
    case None => forall p :: !Standing(h, n, high, p)
  }

  predicate WindowHolds(candles: seq<Candle>, h: seq<Candle>, n: nat, lookback: int)
    requires n <= |h|
  {
    |candles| == (if n <= lookback then n else if lookback >= 0 then lookback else 0)
    && forall k :: 0 <= k < |candles| ==> candles[k] == h[n - |candles| + k]
  }

  ghost predicate Agrees(st: State, h: seq<Candle>, n: nat, lookback: int)
    requires n <= |h|
  {
    WindowHolds(st.candles, h, n, lookback) && st.counter == (if n >= 2 then n - 2 else 0)
    && Tracks(st.high, h, n, true) && Tracks(st.low, h, n, false)
  }

  lemma WindowKept(candles: seq<Candle>, h: seq<Candle>, n: nat, lookback: int)
    requires n < |h| && WindowHolds(candles, h, n, lookback)
    ensures WindowHolds(Window(candles, h[n], lookback), h, n + 1, lookback)
  {
  }

  /** What is current once the pivots of candle n are known, before its close is compared. */
  ghost predicate TracksBeforeBreak(current: Option<Pivot>, h: seq<Candle>, n: nat, high: bool)
    requires n < |h|
  {
    match current
    case Some(record) =>
      exists p :: Latest(h, n + 1, high, p) && Unbroken(h, p, n, high) && record == PivotRecord(h, p, high)
    case None => forall p :: Latest(h, n + 1, high, p) ==> !Unbroken(h, p, n, high)
  }

  lemma NewPivotTracked(h: seq<Candle>, n: nat, high: bool)
    requires n < |h| && PivotAt(h, n, high)
    ensures TracksBeforeBreak(Some(PivotRecord(h, n, high)), h, n, high)
  {
    assert Latest(h, n + 1, high, n) && Unbroken(h, n, n, high);
  }

  lemma OldPivotTracked(current: Option<Pivot>, h: seq<Candle>, n: nat, high: bool)
    requires n < |h| && !PivotAt(h, n, high) && Tracks(current, h, n, high)
    ensures TracksBeforeBreak(current, h, n, high)
  {
    hide PivotAt, Unbroken;
    match current
    case Some(record) =>
      var p :| Standing(h, n, high, p) && record == PivotRecord(h, p, high);
      assert Latest(h, n + 1, high, p);
    case None =>
      forall p | Latest(h, n + 1, high, p)
        ensures !Unbroken(h, p, n, high)
      {
        assert p != n;
        assert Latest(h, n, high, p);
        assert !Standing(h, n, high, p);
      }
  }

  lemma PivotsTracked(st: State, h: seq<Candle>, n: nat, lookback: int)
    requires n < |h| && lookback >= 3 && Agrees(st, h, n, lookback)
    ensures var w := WithPivots(st, h[n], lookback);
            WindowHolds(w.candles, h, n + 1, lookback) && w.counter == (if n >= 1 then n - 1 else 0)
            && TracksBeforeBreak(w.high, h, n, true) && TracksBeforeBreak(w.low, h, n, false)
  {
    hide Tracks, TracksBeforeBreak, WindowHolds;
    var w := WithPivots(st, h[n], lookback);
    WindowKept(st.candles, h, n, lookback);
    if PivotAt(h, n, true) {
      NewPivotTracked(h, n, true);
    } else {
      OldPivotTracked(st.high, h, n, true);
    }
    if PivotAt(h, n, false) {
      NewPivotTracked(h, n, false);
    } else {
      OldPivotTracked(st.low, h, n, false);
    }
  }

  /** The break check against a tracked pivot: reported exactly on the first close beyond it. */
  lemma BreakChecked(current: Option<Pivot>, h: seq<Candle>, n: nat, high: bool)
    requires n < |h| && TracksBeforeBreak(current, h, n, high)
    ensures var broken := current.Some? && Beyond(h[n].close, current.value.price, high);
            (broken <==> exists p :: FirstCloseBeyond(h, n, high, p))
            && (broken ==> exists p :: FirstCloseBeyond(h, n, high, p) && current.value.price == Level(h, p, high))
            && Tracks(if broken then None else current, h, n + 1, high)
  {
    hide PivotAt;
    var m := n + 1;
    if current.Some? {
      var p :| Latest(h, n + 1, high, p) && Unbroken(h, p, n, high) && current.value == PivotRecord(h, p, high);
      forall q | Latest(h, m, high, q)
        ensures q == p
      {
      }
      if Beyond(h[n].close, current.value.price, high) {
        assert FirstCloseBeyond(h, n, high, p);
        assert !Unbroken(h, p, n + 1, high);
      } else {
        assert Unbroken(h, p, n + 1, high);
        assert Standing(h, n + 1, high, p);
      }
    } else {
      forall p | Latest(h, m, high, p)
        ensures !Unbroken(h, p, m, high)
      {
        assert !Unbroken(h, p, n, high);
      }
    }
  }

  lemma {:induction false} EngineAgrees(h: seq<Candle>, lookback: int, n: nat)
    requires n <= |h| && lookback >= 3
    ensures Agrees(Run(h, lookback, n), h, n, lookback)
    decreases n
  {
    hide Tracks, TracksBeforeBreak, WindowHolds, WithPivots;
    if n == 0 {
      StartAgrees(h, lookback);
    } else {
      EngineAgrees(h, lookback, n - 1);
      var st := Run(h, lookback, n - 1);
      var w := WithPivots(st, h[n - 1], lookback);
      PivotsTracked(st, h, n - 1, lookback);
      BreakChecked(w.high, h, n - 1, true);
      BreakChecked(w.low, h, n - 1, false);
    }
  }

  lemma StartAgrees(h: seq<Candle>, lookback: int)
    requires lookback >= 3
    ensures Agrees(EMPTY, h, 0, lookback)
  {
  }

  /** The exact declarative meaning of every report.  A bullish break at a level is reported at candle t
      if and only if that level is the latest high pivot confirmed by t and t is the first candle since
      its confirmation to close above it; bearish breaks likewise. */
  lemma BreaksAreExact(h: seq<Candle>, lookback: int, t: nat)
    requires t < |h| && lookback >= 3
    ensures var st := Run(h, lookback, t);
            var bullish, bearish := BullishReport(st, h[t], lookback), BearishReport(st, h[t], lookback);
            (bullish.Some? <==> exists p :: FirstCloseBeyond(h, t, true, p))
            && (bearish.Some? <==> exists p :: FirstCloseBeyond(h, t, false, p))
            && (bullish.Some? ==> (bullish.value.time == h[t].endTime
                && exists p :: FirstCloseBeyond(h, t, true, p) && bullish.value.level == Level(h, p, true)))
            && (bearish.Some? ==> (bearish.value.time == h[t].endTime
                && exists p :: FirstCloseBeyond(h, t, false, p) && bearish.value.level == Level(h, p, false)))
  {
    hide Tracks, TracksBeforeBreak, WindowHolds, WithPivots, FirstCloseBeyond;
    EngineAgrees(h, lookback, t);
    var w := WithPivots(Run(h, lookback, t), h[t], lookback);
    PivotsTracked(Run(h, lookback, t), h, t, lookback);
    BreakChecked(w.high, h, t, true);
    BreakChecked(w.low, h, t, false);
  }

  /** A side still to be broken at t: it has a latest pivot no earlier candle closed beyond. */
  ghost predicate Pending(h: seq<Candle>, t: nat, high: bool)
    requires t < |h|
  {
    exists p :: Latest(h, t + 1, high, p) && Unbroken(h, p, t, high)
  }

  /** A break is one of structure when the other side is still standing, and a shift when it is not.  The
      bearish check comes after the bullish one, so a high broken by the same candle no longer stands. */
  lemma BreakKindsAreExact(h: seq<Candle>, lookback: int, t: nat)
    requires t < |h| && lookback >= 3
    ensures var st := Run(h, lookback, t);
            var bullish, bearish := BullishReport(st, h[t], lookback), BearishReport(st, h[t], lookback);
            (bullish.Some? ==> (bullish.value.kind.BreakOfStructure? <==> Pending(h, t, false)))
            && (bearish.Some? ==> (bearish.value.kind.BreakOfStructure? <==> Pending(h, t, true) && bullish.None?))
  {
    hide Tracks, WindowHolds, WithPivots, PivotAt, Unbroken;
    EngineAgrees(h, lookback, t);
    PivotsTracked(Run(h, lookback, t), h, t, lookback);
  }

  /** On well-formed candles the confirming candle itself never breaks the pivot it confirms. */
  lemma BreakComesAfterConfirmation(h: seq<Candle>, t: nat, high: bool, p: nat)
    requires t < |h| && FirstCloseBeyond(h, t, high, p)
    requires forall k :: 0 <= k < |h| ==> h[k].low <= h[k].close <= h[k].high
    ensures p < t
  {
    assert h[p].low <= h[p].close <= h[p].high;
  }

  // ---------- short windows ----------

  lemma {:induction false} ShortWindow(h: seq<Candle>, lookback: int, n: nat)
    requires n <= |h| && lookback < 3
    ensures var st := Run(h, lookback, n);
            |st.candles| <= (if lookback >= 0 then lookback else 0) && st.high.None? && st.low.None?
            && st.highPivots == [] && st.lowPivots == []
    decreases n
  {
    if n > 0 {
      ShortWindow(h, lookback, n - 1);
    }
  }

  ghost predicate Silent(h: seq<Candle>, lookback: int, t: nat)
    requires t < |h|
  {
    BullishReport(Run(h, lookback, t), h[t], lookback).None?
    && BearishReport(Run(h, lookback, t), h[t], lookback).None?
  }

  lemma ShortWindowSilent(h: seq<Candle>, lookback: int, t: nat)
    requires t < |h| && lookback < 3
    ensures Silent(h, lookback, t)
  {
    hide Run;
    ShortWindow(h, lookback, t);
  }

  lemma LongWindowReports(lookback: int) returns (h: seq<Candle>)
    requires lookback >= 3
    ensures |h| == 4 && !Silent(h, lookback, 3)
  {
    hide BullishReport, BearishReport, Run;
    h := [Candle(1.0, 0.0, 1.0, 0), Candle(2.0, 0.0, 1.0, 1), Candle(1.0, 0.0, 1.0, 2), Candle(3.0, 0.0, 3.0, 3)];
    PeakBroken(h);
    BreaksAreExact(h, lookback, 3);
  }

  lemma PeakBroken(h: seq<Candle>)
    requires |h| == 4 && h[0].high < h[1].high && h[2].high < h[1].high && h[2].high < h[3].high
    requires h[2].close <= h[1].high < h[3].close
    ensures FirstCloseBeyond(h, 3, true, 2)
  {
    assert PivotAt(h, 2, true) && !PivotAt(h, 3, true);
  }

  /** A lookback below three is the exact condition for an engine that reports nothing at all. */
  lemma SilentExactly(lookback: int)
    ensures (forall h: seq<Candle>, t: nat :: t < |h| ==> Silent(h, lookback, t)) <==> lookback < 3
  {
    hide Silent;
    if lookback < 3 {
      forall h: seq<Candle>, t: nat | t < |h|
        ensures Silent(h, lookback, t)
      {
        ShortWindowSilent(h, lookback, t);
      }
    } else {
      var h := LongWindowReports(lookback);
    }
  }

  // ---------- the pivots reported and kept ----------

  /** What candle n reports: the peak or else the floor it confirms, numbered and dated by the candle before. */
  function PivotBy(h: seq<Candle>, n: nat): Option<Pivot>
    requires n < |h|
  {
    if PivotAt(h, n, true) then Some(Pivot(n - 1, true, h[n - 1].high, h[n - 1].endTime))
    else if PivotAt(h, n, false) then Some(Pivot(n - 1, false, h[n - 1].low, h[n - 1].endTime))
    else None
  }

  /** The pivots of a side confirmed by the first n candles, in order. */
  function PivotsOf(h: seq<Candle>, n: nat, high: bool): seq<Pivot>
    requires n <= |h|
    decreases n
  {
    if n == 0 then []
    else if PivotAt(h, n - 1, high) then PivotsOf(h, n - 1, high) + [PivotBy(h, n - 1).value]
    else PivotsOf(h, n - 1, high)
  }

  lemma PivotReported(st: State, h: seq<Candle>, n: nat, lookback: int)
    requires n < |h| && lookback >= 3 && Agrees(st, h, n, lookback)
    ensures NewPivot(st.(candles := Window(st.candles, h[n], lookback))) == PivotBy(h, n)
  {
    hide Tracks;
    WindowKept(st.candles, h, n, lookback);
  }

  /** With a window of three or more, each candle reports exactly the pivot it confirms, and the engine keeps exactly
      the pivots confirmed so far. */
  lemma {:induction false} PivotsAreExact(h: seq<Candle>, lookback: int, n: nat)
    requires n <= |h| && lookback >= 3
    ensures var st := Run(h, lookback, n);
            st.highPivots == PivotsOf(h, n, true) && st.lowPivots == PivotsOf(h, n, false)
            && (n < |h| ==> NewPivot(st.(candles := Window(st.candles, h[n], lookback))) == PivotBy(h, n))
    decreases n
  {
    hide Agrees, PivotBy, PivotAt, Window;
    EngineAgrees(h, lookback, n);
    if n < |h| {
      PivotReported(Run(h, lookback, n), h, n, lookback);
    }
    if n > 0 {
      PivotsAreExact(h, lookback, n - 1);
      PivotKept(Run(h, lookback, n - 1), h, n - 1, lookback);
    }
  }

  lemma PivotKept(st: State, h: seq<Candle>, n: nat, lookback: int)
    requires n < |h| && NewPivot(st.(candles := Window(st.candles, h[n], lookback))) == PivotBy(h, n)
    ensures var next := Ingest(st, h[n], lookback);
            next.highPivots == (if PivotAt(h, n, true) then st.highPivots + [PivotBy(h, n).value] else st.highPivots)
            && next.lowPivots == (if PivotAt(h, n, false) then st.lowPivots + [PivotBy(h, n).value] else st.lowPivots)
  {
    hide NewPivot, Window;
  }
}
