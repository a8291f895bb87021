/** The break-of-structure detector: one pass over closed candles that breaks confirmed swings, and a
    second pass that fails the breaks whose price comes straight back. */
module BreakOfStructure {
  import opened AverageRange
  import opened Common
  import opened Market
  import opened Rounding
  import opened Swings

  datatype Status = Confirmed | UnconfirmedWickBreak | PendingRetest | Failed | Invalidated

  datatype Grade = Invalid | Low | Moderate | Strong | HighQuality

  datatype BreakType = StructureBreak | WeakBreak | AggressiveCandidate | PossibleShift | WickBreakOnly

  datatype OrderBlock = OrderBlock(candle: Candle, validated: bool)

  /** The additive score and its warnings are any function of the candles up to the break. */
  datatype Config = Config(minimumStrength: real, externalStrength: real, bufferMultiplier: real, closeRequired: bool,
                           lookahead: nat, atrPeriod: Positive, trend: Option<TrendLabel>,
                           displaced: (seq<Candle>, Direction) -> bool,
                           score: (seq<Candle>, BrokenSwing, Direction, bool, bool) -> real,
                           warn: (seq<Candle>, BrokenSwing, Direction, bool, bool) -> seq<string>)

  datatype Event = Event(detected: bool, wickOnly: bool, direction: Direction, breakType: BreakType, external: bool,
                         swing: BrokenSwing, candle: Candle, buffer: real, required: real, continuation: bool,
                         gap: Option<Gap>, orderBlock: Option<OrderBlock>, oppositeSweep: bool,
                         status: Status, score: real, grade: Grade, warnings: seq<string>)

  // ---------- average true range ----------

  function TrueRange(c: Candle, previous: Option<Candle>): real {
    var range := Max(0.0, c.high - c.low);
    var moved := if previous.None? then range
                 else Max(range, Max(Abs(c.high - previous.value.close), Abs(c.low - previous.value.close)));
    Max(moved, 0.000000001)
  }

  // ---------- choosing and breaking a swing ----------

  function Key(swing: BrokenSwing): SwingKey {
    SwingKey(swing.kind, swing.index, swing.price)
  }

  predicate Valid(cfg: Config, swing: Swing, index: int, kind: SwingKind, broken: set<SwingKey>) {
    swing.kind == kind && swing.confirmationIndex < index && swing.index < index
    && swing.strength >= cfg.minimumStrength && !swing.status.Broken? && Key(Recorded(swing)) !in broken
  }

  function ValidSwings(cfg: Config, swings: seq<Swing>, index: int, kind: SwingKind, broken: set<SwingKey>): seq<Swing> {
    if swings == [] then []
    else
      var rest, last := ValidSwings(cfg, swings[..|swings| - 1], index, kind, broken), swings[|swings| - 1];
      if Valid(cfg, last, index, kind, broken) then rest + [last] else rest
  }

  function LatestValidSwing(cfg: Config, swings: seq<Swing>, index: int, kind: SwingKind, broken: set<SwingKey>)
    : Option<Swing>
  {
    PickLatest(ValidSwings(cfg, swings, index, kind, broken))
  }

  predicate Names(trend: Option<TrendLabel>, direction: Direction) {
    trend.Some? && (if direction.Bullish? then trend.value.bullish else trend.value.bearish)
  }

  function PreviousTrend(cfg: Config, c: Candle): Option<TrendLabel> {
    if cfg.trend.Some? then cfg.trend else c.trend
  }

  /** The closest opposite candle among those from a position up to k. */
  function LastOpposite(candles: seq<Candle>, from: nat, k: nat, direction: Direction): Option<Candle>
    requires from <= k <= |candles|
    decreases k
  {
    if from == k then None
    else
      var c := candles[k - 1];
      if (if direction.Bullish? then c.close < c.open else c.close > c.open) then Some(c)
      else LastOpposite(candles, from, k - 1, direction)
  }

  function SixBack(k: nat): nat {
    if k <= 6 then 0 else k - 6
  }

  function SourceBlock(cfg: Config, candles: seq<Candle>, k: nat, direction: Direction): Option<OrderBlock>
    requires k < |candles|
  {
    match LastOpposite(candles, SixBack(k), k, direction)
    case Some(c) => Some(OrderBlock(c, cfg.displaced(candles[..k + 1], direction)))
    case None => None
  }

  predicate OppositeSweep(candles: seq<Candle>, k: nat, price: real, direction: Direction)
    requires k < |candles|
  {
    exists j :: SixBack(k) <= j < k
      && (if direction.Bullish? then candles[j].low < price < candles[j].close
          else candles[j].high > price > candles[j].close)
  }

  function TypeOf(cfg: Config, detected: bool, wickOnly: bool, continuation: bool, score: real): BreakType {
    if wickOnly && !cfg.closeRequired then AggressiveCandidate
    else if wickOnly then WickBreakOnly
    else if !continuation && detected then PossibleShift
    else if score < 5.0 then WeakBreak
    else StructureBreak
  }

  function StatusOf(cfg: Config, detected: bool, wickOnly: bool): Status {
    if wickOnly then UnconfirmedWickBreak
    else if detected && cfg.closeRequired then Confirmed
    else if detected then PendingRetest
    else Invalidated
  }

  function GradeOf(score: real, detected: bool): Grade {
    if !detected || score <= 2.0 then Invalid
    else if score <= 4.5 then Low
    else if score <= 6.5 then Moderate
    else if score <= 8.5 then Strong
    else HighQuality
  }

  function BuildEvent(cfg: Config, candles: seq<Candle>, k: nat, swing: BrokenSwing, direction: Direction, atr: real,
                      detected: bool, wickOnly: bool): Event
    requires k < |candles|
  {
    var continuation := Names(PreviousTrend(cfg, candles[k]), direction);
    var score := cfg.score(candles[..k + 1], swing, direction, detected, wickOnly);
    Event(detected, wickOnly, direction, TypeOf(cfg, detected, wickOnly, continuation, score),
          swing.strength >= cfg.externalStrength, swing, candles[k], Round(Buffer(atr, cfg.bufferMultiplier), R_SCALE),
          Round(RequiredLevel(swing, direction, atr, cfg.bufferMultiplier), R_SCALE), continuation,
          Gaps(candles, k, direction), SourceBlock(cfg, candles, k, direction),
          OppositeSweep(candles, k, swing.price, direction),
          StatusOf(cfg, detected, wickOnly), score, GradeOf(score, detected),
          cfg.warn(candles[..k + 1], swing, direction, detected, wickOnly))
  }

  function EvaluateBreak(cfg: Config, candles: seq<Candle>, k: nat, swing: BrokenSwing, direction: Direction, atr: real)
    : (event: Option<Event>)
    requires k < |candles|
    ensures event.Some? ==> event.value.swing == swing && event.value.candle == candles[k]
                            && event.value.direction == direction
  {
    var level := RequiredLevel(swing, direction, atr, cfg.bufferMultiplier);
    var close, wick := CloseBreaks(candles[k], level, direction), WickBreaks(candles[k], level, direction);
    if !close && !wick then None
    else Some(BuildEvent(cfg, candles, k, swing, direction, atr, close || !cfg.closeRequired, !close))
  }

  predicate CloseConfirmed(e: Event) {
    e.detected && !e.wickOnly
  }

  // ---------- the first pass ----------

  datatype Scan = Scan(events: seq<Event>, broken: set<SwingKey>)

  function Record(s: Scan, event: Option<Event>): Scan {
    match event
    case None => s
    case Some(e) => Scan(s.events + [e], if CloseConfirmed(e) then s.broken + {Key(e.swing)} else s.broken)
  }

  function Side(cfg: Config, candles: seq<Candle>, k: nat, chosen: Option<Swing>, direction: Direction): Option<Event>
    requires k < |candles|
  {
    match chosen
    case None => None
    case Some(swing) =>
      EvaluateBreak(cfg, candles, k, Recorded(swing), direction, Atr(candles, k, cfg.atrPeriod, TrueRange))
  }

  /** Both swings are chosen before either break is recorded. */
  function ScanCandle(cfg: Config, candles: seq<Candle>, swings: seq<Swing>, k: nat, s: Scan): Scan
    requires k < |candles|
  {
    var high := LatestValidSwing(cfg, swings, candles[k].index, SwingHigh, s.broken);
    var low := LatestValidSwing(cfg, swings, candles[k].index, SwingLow, s.broken);
    Record(Record(s, Side(cfg, candles, k, high, Bullish)), Side(cfg, candles, k, low, Bearish))
  }

  function ScanFirst(cfg: Config, candles: seq<Candle>, swings: seq<Swing>, n: nat): Scan
    requires n <= |candles|
    decreases n
  {
    if n == 0 then Scan([], {})
    else ScanCandle(cfg, candles, swings, n - 1, ScanFirst(cfg, candles, swings, n - 1))
  }

  // ---------- the second pass ----------

  /** The last position carrying an index, as a dictionary filled in order would hold it. */
  function PositionOf(candles: seq<Candle>, index: int, n: nat): Option<nat>
    requires n <= |candles|
    decreases n
  {
    if n == 0 then None
    else if candles[n - 1].index == index then Some(n - 1)
    else PositionOf(candles, index, n - 1)
  }

  /** Duplicates dropped, first occurrences kept in order. */
  function Distinct(texts: seq<string>): seq<string> {
    if texts == [] then []
    else
      var rest, last := Distinct(texts[..|texts| - 1]), texts[|texts| - 1];
      if last in rest then rest else rest + [last]
  }

  const CLOSED_BACK := "Price closed back inside broken structure"
  const FAILED_RISK := "failed_bos_risk"

  function FailEvent(e: Event): Event {
    e.(status := Failed, score := Min(e.score, 5.0), grade := GradeOf(Min(e.score, 5.0), e.detected),
       warnings := Distinct(e.warnings + [CLOSED_BACK, FAILED_RISK]))
  }

  ghost predicate Fails(cfg: Config, candles: seq<Candle>, e: Event) {
    CloseConfirmed(e)
    && var p := PositionOf(candles, e.candle.index, |candles|);
       p.Some? && ClosesBack(candles, p.value + 1, p.value + cfg.lookahead + 1, e.swing.price, e.direction)
  }

  ghost function Settle(cfg: Config, candles: seq<Candle>, events: seq<Event>): (settled: seq<Event>)
    ensures |settled| == |events|
    ensures forall i :: 0 <= i < |events| ==>
              settled[i] == if Fails(cfg, candles, events[i]) then FailEvent(events[i]) else events[i]
  {
    if events == [] then []
    else
      var last := events[|events| - 1];
      Settle(cfg, candles, events[..|events| - 1]) + [if Fails(cfg, candles, last) then FailEvent(last) else last]
  }

  ghost function Detected(cfg: Config, candles: seq<Candle>, swings: seq<Swing>): seq<Event> {
    Settle(cfg, candles, ScanFirst(cfg, candles, swings, |candles|).events)
  }

  // ---------- the loops ----------

  method CalculateAtr(candles: seq<Candle>, period: Positive) returns (atr: seq<real>)
    ensures |atr| == |candles|
    ensures forall k :: 0 <= k < |candles| ==> atr[k] == Atr(candles, k, period, TrueRange)
  {
    hide Sum;
    var ranges: seq<real> := [];
    atr := [];
    var previousClose: Option<real> := None;
    for k := 0 to |candles|
      invariant |atr| == k && ranges == Ranges(candles, k, TrueRange)
      invariant previousClose == if k == 0 then None else Some(candles[k - 1].close)
      invariant forall i :: 0 <= i < k ==> atr[i] == Atr(candles, i, period, TrueRange)
    {
      var c := candles[k];
      var range := Max(0.0, c.high - c.low);
      if previousClose.Some? {
        range := Max(range, Max(Abs(c.high - previousClose.value), Abs(c.low - previousClose.value)));
      }
      ranges := ranges + [Max(range, 0.000000001)];
      assert ranges == Ranges(candles, k + 1, TrueRange);
      var window := ranges[WindowStart(|ranges|, period)..];
      atr := atr + [Sum(window) / |window| as real];
      previousClose := Some(c.close);
    }
  }

  method Detect(cfg: Config, candles: seq<Candle>, swings: seq<Swing>) returns (events: seq<Event>)
    ensures events == Detected(cfg, candles, swings)
  {
    hide LatestValidSwing, EvaluateBreak, Atr, Settle;
    if candles == [] || swings == [] {
      NothingToBreak(cfg, candles, |candles|);
      return [];
    }
    var atr := CalculateAtr(candles, cfg.atrPeriod);
    var found: seq<Event> := [];
    var broken: set<SwingKey> := {};
    for k := 0 to |candles|
      invariant Scan(found, broken) == ScanFirst(cfg, candles, swings, k)
    {
      var high := LatestValidSwing(cfg, swings, candles[k].index, SwingHigh, broken);
      var low := LatestValidSwing(cfg, swings, candles[k].index, SwingLow, broken);
      if high.Some? {
        var event := EvaluateBreak(cfg, candles, k, Recorded(high.value), Bullish, atr[k]);
        if event.Some? {
          found := found + [event.value];
          if event.value.detected && !event.value.wickOnly {
            broken := broken + {Key(event.value.swing)};
          }
        }
      }
      if low.Some? {
        var event := EvaluateBreak(cfg, candles, k, Recorded(low.value), Bearish, atr[k]);
        if event.Some? {
          found := found + [event.value];
          if event.value.detected && !event.value.wickOnly {
            broken := broken + {Key(event.value.swing)};
          }
        }
      }
    }
    events := ApplyFailedStatus(cfg, candles, found);
  }

  lemma {:induction false} NothingToBreak(cfg: Config, candles: seq<Candle>, n: nat)
    requires n <= |candles|
    ensures ScanFirst(cfg, candles, [], n) == Scan([], {})
    decreases n
  {
    if n > 0 {
      NothingToBreak(cfg, candles, n - 1);
    }
  }

  method IndexPositions(candles: seq<Candle>) returns (byIndex: map<int, nat>)
    ensures forall index :: PositionOf(candles, index, |candles|)
                            == if index in byIndex then Some(byIndex[index]) else None
  {
    byIndex := map[];
    for k := 0 to |candles|
      invariant forall index :: PositionOf(candles, index, k)
                                == if index in byIndex then Some(byIndex[index]) else None
    {
      byIndex := byIndex[candles[k].index := k];
    }
  }

  method ApplyFailedStatus(cfg: Config, candles: seq<Candle>, events: seq<Event>) returns (updated: seq<Event>)
    ensures updated == Settle(cfg, candles, events)
  {
    if cfg.lookahead <= 0 {
      return events;
    }
    var byIndex := IndexPositions(candles);
    updated := [];
    for i := 0 to |events|
      invariant |updated| == i
      invariant forall j :: 0 <= j < i ==> updated[j] == Settle(cfg, candles, events)[j]
    {
      var e := events[i];
      var settled := e;
      if e.detected && !e.wickOnly && e.candle.index in byIndex {
        var p := byIndex[e.candle.index];
        var failed := AnyClosesBack(candles, p + 1, p + cfg.lookahead + 1, e.swing.price, e.direction);
        if failed {
          settled := FailEvent(e);
        }
      }
      updated := updated + [settled];
    }
  }

  method AnyClosesBack(candles: seq<Candle>, from: nat, end: nat, level: real, direction: Direction)
    returns (found: bool)
    ensures found == ClosesBack(candles, from, end, level, direction)
  {
    var j := from;
    while j < end && j < |candles|
      invariant from <= j
      invariant forall i :: from <= i < j && i < |candles| ==> !BackBeyond(candles[i], level, direction)
    {
      if BackBeyond(candles[j], level, direction) {
        return true;
      }
      j := j + 1;
    }
    return false;
  }
}
