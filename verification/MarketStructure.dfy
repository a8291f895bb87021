/** The streaming structure engine: three-candle pivots over a sliding window and breaks of the
    current structural high and low by a candle's close. */
module MarketStructure {
  import opened Common

  datatype Candle = Candle(high: real, low: real, close: real, endTime: int)

  datatype Pivot = Pivot(id: nat, high: bool, price: real, time: int)

  datatype BreakKind = BreakOfStructure | MarketStructureShift

  datatype Break = Break(kind: BreakKind, level: real, time: int)

  datatype State = State(candles: seq<Candle>, highPivots: seq<Pivot>, lowPivots: seq<Pivot>,
                         high: Option<Pivot>, low: Option<Pivot>, counter: nat)

  const EMPTY := State([], [], [], None, None, 0)

  // ---------- one candle ----------

  /** The window after a candle: one appended, the oldest dropped when it grows past the lookback. */
  function Window(candles: seq<Candle>, c: Candle, lookback: int): seq<Candle> {
    var longer := candles + [c];
    if |longer| > lookback then longer[1..] else longer
  }

  predicate IsHighPivot(a: Candle, b: Candle, c: Candle) {
    b.high > a.high && b.high > c.high
  }

  predicate IsLowPivot(a: Candle, b: Candle, c: Candle) {
    b.low < a.low && b.low < c.low
  }

  /** The pivot the last three candles of the window confirm.  A candle that is both a peak and a floor
      counts as a peak only. */
  function NewPivot(st: State): Option<Pivot> {
    var n := |st.candles|;
    if n < 3 then None
    else
      var a, b, c := st.candles[n - 3], st.candles[n - 2], st.candles[n - 1];
      if IsHighPivot(a, b, c) then Some(Pivot(st.counter + 1, true, b.high, b.endTime))
      else if IsLowPivot(a, b, c) then Some(Pivot(st.counter + 1, false, b.low, b.endTime))
      else None
  }

  function EvaluatePivots(st: State): State {
    var counted := if |st.candles| < 3 then st else st.(counter := st.counter + 1);
    match NewPivot(st)
    case None => counted
    case Some(p) =>
      if p.high then counted.(highPivots := st.highPivots + [p], high := Some(p))
      else counted.(lowPivots := st.lowPivots + [p], low := Some(p))
  }

  function BullishBreak(st: State, c: Candle): Option<Break> {
    if st.high.Some? && c.close > st.high.value.price then
      Some(Break(if st.low.Some? then BreakOfStructure else MarketStructureShift, st.high.value.price, c.endTime))
    else None
  }

  function BearishBreak(st: State, c: Candle): Option<Break> {
    if st.low.Some? && c.close < st.low.value.price then
      Some(Break(if st.high.Some? then BreakOfStructure else MarketStructureShift, st.low.value.price, c.endTime))
    else None
  }

  function FlushHigh(st: State, c: Candle): State {
    if BullishBreak(st, c).Some? then st.(high := None) else st
  }

  function FlushLow(st: State, c: Candle): State {
    if BearishBreak(st, c).Some? then st.(low := None) else st
  }

  /** The state once the pivots of this candle are known and before its breaks are looked at. */
  function WithPivots(st: State, c: Candle, lookback: int): State {
    EvaluatePivots(st.(candles := Window(st.candles, c, lookback)))
  }

  function Ingest(st: State, c: Candle, lookback: int): State {
    FlushLow(FlushHigh(WithPivots(st, c, lookback), c), c)
  }

  function BullishReport(st: State, c: Candle, lookback: int): Option<Break> {
    BullishBreak(WithPivots(st, c, lookback), c)
  }

  /** The bearish check comes second and sees the high already flushed. */
  function BearishReport(st: State, c: Candle, lookback: int): Option<Break> {
    BearishBreak(FlushHigh(WithPivots(st, c, lookback), c), c)
  }

  function Listed<T>(x: Option<T>): seq<T> {
    if x.Some? then [x.value] else []
  }

  function Run(history: seq<Candle>, lookback: int, n: nat): State
    requires n <= |history|
    decreases n
  {
    if n == 0 then EMPTY else Ingest(Run(history, lookback, n - 1), history[n - 1], lookback)
  }

  // ---------- the engine object ----------

  class StructureEngine {
    const lookback: int
    var candles: seq<Candle>
    var highPivots: seq<Pivot>
    var lowPivots: seq<Pivot>
    var currentHigh: Option<Pivot>
    var currentLow: Option<Pivot>
    var counter: nat

    function View(): State
      reads this
    {
      State(candles, highPivots, lowPivots, currentHigh, currentLow, counter)
    }

    constructor (lookback: int)
      ensures View() == EMPTY && this.lookback == lookback
    {
      this.lookback := lookback;
      candles, highPivots, lowPivots := [], [], [];
      currentHigh, currentLow, counter := None, None, 0;
    }

    method IngestCandleClose(c: Candle) returns (pivots: seq<Pivot>, breaks: seq<Break>)
      modifies this
      ensures View() == Ingest(old(View()), c, lookback)
      ensures breaks == Listed(BullishReport(old(View()), c, lookback)) + Listed(BearishReport(old(View()), c, lookback))
      ensures pivots == Listed(NewPivot(old(View()).(candles := Window(old(candles), c, lookback))))
    {
      candles := candles + [c];
      if |candles| > lookback {
        candles := candles[1..];
      }
      pivots, breaks := [], [];
      if |candles| >= 3 {
        var found := EvaluateLocalPivots(candles[|candles| - 3], candles[|candles| - 2], candles[|candles| - 1]);
        pivots := Listed(found);
      }
      breaks := CheckBreaks(c);
    }

    method CheckBreaks(c: Candle) returns (breaks: seq<Break>)
      modifies this`currentHigh, this`currentLow
      ensures View() == FlushLow(FlushHigh(old(View()), c), c)
      ensures breaks == Listed(BullishBreak(old(View()), c)) + Listed(BearishBreak(FlushHigh(old(View()), c), c))
    {
      breaks := [];
      if currentHigh.Some? && c.close > currentHigh.value.price {
        var kind := if currentLow.Some? then BreakOfStructure else MarketStructureShift;
        breaks := breaks + [Break(kind, currentHigh.value.price, c.endTime)];
        currentHigh := None;
      }
      if currentLow.Some? && c.close < currentLow.value.price {
        var kind := if currentHigh.Some? then BreakOfStructure else MarketStructureShift;
        breaks := breaks + [Break(kind, currentLow.value.price, c.endTime)];
        currentLow := None;
      }
    }

    method EvaluateLocalPivots(a: Candle, b: Candle, c: Candle) returns (found: Option<Pivot>)
      requires |candles| >= 3
      requires a == candles[|candles| - 3] && b == candles[|candles| - 2] && c == candles[|candles| - 1]
      modifies this`counter, this`highPivots, this`lowPivots, this`currentHigh, this`currentLow
      ensures View() == EvaluatePivots(old(View()))
      ensures found == NewPivot(old(View()))
    {
      counter := counter + 1;
      if IsHighPivot(a, b, c) {
        var p := Pivot(counter, true, b.high, b.endTime);
        highPivots, currentHigh := highPivots + [p], Some(p);
        return Some(p);
      }
      if IsLowPivot(a, b, c) {
        var p := Pivot(counter, false, b.low, b.endTime);
        lowPivots, currentLow := lowPivots + [p], Some(p);
        return Some(p);
      }
      return None;
    }
  }
}
