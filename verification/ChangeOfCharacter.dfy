/** The change-of-character detector: one pass that lets each confirmed swing warn once, with a look ahead
    that decides at once whether the break held. */
module ChangeOfCharacter {
  import opened AverageRange
  import opened Common
  import opened Market
  import opened Rounding
  import opened Swings

  datatype Movement = Up | Down | Unclear

  datatype Status = Confirmed | WickOnlyCandidate | Failed | Upgraded

  datatype Grade = Invalid | Weak | Moderate | StrongWarning | MssCandidate

  datatype Displacement = NoDisplacement | WeakMove | ModerateMove | StrongMove

  datatype SweepKind = SellSideSweep | BuySideSweep | OtherSweep

  datatype LiquidityEvent = LiquidityEvent(index: int, kind: SweepKind, valid: bool, level: real, strength: real)

  /** The displacement, the additive score and the base warnings are any functions of the candles up to the break. */
  datatype Config = Config(minimumStrength: real, upgradeStrength: real, bufferMultiplier: real, allowWicks: bool,
                           maxSweepBars: int, lookahead: int, atrPeriod: Positive, movement: Option<TrendLabel>,
                           displacement: (Candle, real, Direction) -> Displacement,
                           score: (seq<Candle>, BrokenSwing, bool, Option<LiquidityEvent>) -> real,
                           warn: (seq<Candle>, BrokenSwing, bool, Option<LiquidityEvent>) -> seq<string>)

  datatype Event = Event(detected: bool, direction: Direction, movement: Movement, status: Status, swing: BrokenSwing,
                         candle: Candle, buffer: real, required: real, wickOnly: bool, sweep: Option<LiquidityEvent>,
                         displacement: Displacement, gap: Option<Gap>, mssCandidate: bool, score: real, grade: Grade,
                         warnings: seq<string>)

  const LEVEL_SCALE := 1000000.0
  const KEY_SCALE := 100000000.0
  const RECLAIM_LOST := "choch_failed_after_reclaim_loss"

  // ---------- average true range and previous movement ----------

  function TrueRange(c: Candle, previous: Option<Candle>): real {
    if previous.None? then Max(0.0, c.high - c.low)
    else Max(c.high - c.low, Max(Abs(c.high - previous.value.close), Abs(c.low - previous.value.close)))
  }

  function Back(k: nat, n: nat): nat {
    if k <= n then 0 else k - n
  }

  /** A text that names both sides is read as bearish. */
  function MovementOf(text: TrendLabel): Movement {
    if text.bearish then Down else if text.bullish then Up else Unclear
  }

  function PreviousMovement(cfg: Config, candles: seq<Candle>, k: nat): Movement
    requires k < |candles|
  {
    var c, first := candles[k], Back(k, 4);
    if cfg.movement.Some? then MovementOf(cfg.movement.value)
    else if c.trend.Some? then MovementOf(c.trend.value)
    else if k - first < 2 then Unclear
    else if c.close > candles[first].close && exists j :: first <= j < k && c.low >= candles[j].low then Up
    else if c.close < candles[first].close && exists j :: first <= j < k && c.high <= candles[j].high then Down
    else Unclear
  }

  /** A bullish change of character answers a fall, a bearish one a rise; an unclear movement allows both. */
  predicate Answers(direction: Direction, movement: Movement) {
    movement.Unclear? || (if direction.Bullish? then movement.Down? else movement.Up?)
  }

  // ---------- the swing, the sweep and the look ahead ----------

  predicate Usable(cfg: Config, swing: Swing, index: int, kind: SwingKind) {
    swing.kind == kind && swing.confirmationIndex < index && swing.strength >= cfg.minimumStrength
    && (swing.status.Unswept? || swing.status.Swept?)
  }

  function UsableSwings(cfg: Config, swings: seq<Swing>, index: int, kind: SwingKind): seq<Swing> {
    if swings == [] then []
    else
      var rest, last := UsableSwings(cfg, swings[..|swings| - 1], index, kind), swings[|swings| - 1];
      if Usable(cfg, last, index, kind) then rest + [last] else rest
  }

  function LatestConfirmedSwing(cfg: Config, swings: seq<Swing>, index: int, kind: SwingKind): Option<Swing> {
    PickLatest(UsableSwings(cfg, swings, index, kind))
  }

  function Key(swing: BrokenSwing): SwingKey {
    SwingKey(swing.kind, swing.index, Round(swing.price, KEY_SCALE))
  }

  predicate Relevant(cfg: Config, event: LiquidityEvent, index: int, direction: Direction) {
    event.valid && event.kind == (if direction.Bullish? then SellSideSweep else BuySideSweep)
    && 0 <= index - event.index <= cfg.maxSweepBars
  }

  /** The first of the latest relevant sweeps. */
  function LatestSweep(cfg: Config, events: seq<LiquidityEvent>, index: int, direction: Direction)
    : Option<LiquidityEvent>
  {
    if events == [] then None
    else
      var earlier, last := LatestSweep(cfg, events[..|events| - 1], index, direction), events[|events| - 1];
      if Relevant(cfg, last, index, direction) && (earlier.None? || last.index > earlier.value.index) then Some(last)
      else earlier
  }

  /** Where a slice that stops at `stop` ends; a negative stop counts from the end of the list. */
  function SliceEnd(stop: int, length: nat): nat {
    if stop >= 0 then stop else if length + stop >= 0 then length + stop else 0
  }

  ghost predicate FailedAfterBreak(candles: seq<Candle>, k: nat, lookahead: int, level: real, direction: Direction) {
    ClosesBack(candles, k + 1, SliceEnd(k + 1 + lookahead, |candles|), level, direction)
  }

  // ---------- one event ----------

  predicate Reports(cfg: Config, c: Candle, level: real, direction: Direction) {
    CloseBreaks(c, level, direction) || (WickBreaks(c, level, direction) && cfg.allowWicks)
  }

  predicate Upgrades(cfg: Config, swing: BrokenSwing, confirmed: bool, sweep: Option<LiquidityEvent>, move: Displacement) {
    confirmed && sweep.Some? && (move.StrongMove? || move.ModerateMove?) && swing.strength >= cfg.upgradeStrength
  }

  function GradeOf(score: real, status: Status): Grade {
    match status
    case WickOnlyCandidate => Weak
    case Upgraded => MssCandidate
    case Failed => Invalid
    case Confirmed => if score >= 7.0 then StrongWarning else if score >= 5.0 then Moderate else Weak
  }

  /** The status is set to failed first and overwritten by the upgrade afterwards. */
  function StatusOf(confirmed: bool, failed: bool, upgraded: bool): Status {
    if upgraded then Upgraded
    else if confirmed && failed then Failed
    else if confirmed then Confirmed
    else WickOnlyCandidate
  }

  function BuildEvent(cfg: Config, candles: seq<Candle>, liquidity: seq<LiquidityEvent>, k: nat, swing: BrokenSwing,
                      direction: Direction, movement: Movement, atr: real, failed: bool): Event
    requires k < |candles|
  {
    var c, level := candles[k], RequiredLevel(swing, direction, atr, cfg.bufferMultiplier);
    var confirmed := CloseBreaks(c, level, direction);
    var sweep := LatestSweep(cfg, liquidity, c.index, direction);
    var move := cfg.displacement(c, atr, direction);
    var upgraded := Upgrades(cfg, swing, confirmed, sweep, move);
    var status := StatusOf(confirmed, failed, upgraded);
    var score := cfg.score(candles[..k + 1], swing, confirmed, sweep);
    var warnings := cfg.warn(candles[..k + 1], swing, confirmed, sweep);
    Event(confirmed, direction, movement, status, swing, c, Round(Buffer(atr, cfg.bufferMultiplier), LEVEL_SCALE),
          Round(level, LEVEL_SCALE), WickBreaks(c, level, direction) && !confirmed, sweep, move,
          Gaps(candles, k, direction), upgraded, Round(score, CENT_SCALE), GradeOf(score, status),
          if confirmed && failed then warnings + [RECLAIM_LOST] else warnings)
  }

  datatype Scan = Scan(events: seq<Event>, used: set<SwingKey>)

  ghost function EvaluateBreak(cfg: Config, candles: seq<Candle>, swings: seq<Swing>, liquidity: seq<LiquidityEvent>,
                               k: nat, direction: Direction, movement: Movement, used: set<SwingKey>): Option<Event>
    requires k < |candles|
  {
    var chosen := LatestConfirmedSwing(cfg, swings, candles[k].index, BrokenKind(direction));
    if chosen.None? || Key(Recorded(chosen.value)) in used then None
    else
      var swing, atr := Recorded(chosen.value), Atr(candles, k, cfg.atrPeriod, TrueRange);
      if Reports(cfg, candles[k], RequiredLevel(swing, direction, atr, cfg.bufferMultiplier), direction) then
        Some(BuildEvent(cfg, candles, liquidity, k, swing, direction, movement, atr,
                        FailedAfterBreak(candles, k, cfg.lookahead, swing.price, direction)))
      else None
  }

  ghost function Side(cfg: Config, candles: seq<Candle>, swings: seq<Swing>, liquidity: seq<LiquidityEvent>, k: nat,
                      direction: Direction, used: set<SwingKey>): Option<Event>
    requires k < |candles|
  {
    var movement := PreviousMovement(cfg, candles, k);
    if Answers(direction, movement) then
      EvaluateBreak(cfg, candles, swings, liquidity, k, direction, movement, used)
    else None
  }

  function Record(s: Scan, event: Option<Event>): Scan {
    match event
    case None => s
    case Some(e) => Scan(s.events + [e], s.used + {Key(e.swing)})
  }

  ghost function ScanCandle(cfg: Config, candles: seq<Candle>, swings: seq<Swing>, liquidity: seq<LiquidityEvent>,
                            k: nat, s: Scan): Scan
    requires k < |candles|
  {
    var bullish := Record(s, Side(cfg, candles, swings, liquidity, k, Bullish, s.used));
    Record(bullish, Side(cfg, candles, swings, liquidity, k, Bearish, bullish.used))
  }

  ghost function ScanFirst(cfg: Config, candles: seq<Candle>, swings: seq<Swing>, liquidity: seq<LiquidityEvent>,
                           n: nat): Scan
    requires n <= |candles|
    decreases n
  {
    if n == 0 then Scan([], {})
    else ScanCandle(cfg, candles, swings, liquidity, n - 1, ScanFirst(cfg, candles, swings, liquidity, n - 1))
  }

  ghost function Detected(cfg: Config, candles: seq<Candle>, swings: seq<Swing>, liquidity: seq<LiquidityEvent>)
    : seq<Event>
  {
    ScanFirst(cfg, candles, swings, liquidity, |candles|).events
  }

  // ---------- the loops ----------

  method CalculateAtr(candles: seq<Candle>, period: Positive) returns (atr: seq<real>)
    ensures |atr| == |candles|
    ensures forall k :: 0 <= k < |candles| ==> atr[k] == Atr(candles, k, period, TrueRange)
  {
    hide Sum;
    var ranges: seq<real> := [];
    atr := [];
    for k := 0 to |candles|
      invariant |atr| == k && ranges == Ranges(candles, k, TrueRange)
      invariant forall i :: 0 <= i < k ==> atr[i] == Atr(candles, i, period, TrueRange)
    {
      var c := candles[k];
      var range := Max(0.0, c.high - c.low);
      if k > 0 {
        var previousClose := candles[k - 1].close;
        range := Max(c.high - c.low, Max(Abs(c.high - previousClose), Abs(c.low - previousClose)));
      }
      ranges := ranges + [range];
      assert ranges == Ranges(candles, k + 1, TrueRange);
      var window := ranges[WindowStart(|ranges|, period)..];
      atr := atr + [Sum(window) / |window| as real];
    }
  }

  method LookAhead(candles: seq<Candle>, k: nat, lookahead: int, level: real, direction: Direction)
    returns (failed: bool)
    requires k < |candles|
    ensures failed == FailedAfterBreak(candles, k, lookahead, level, direction)
  {
    var j, end := k + 1, SliceEnd(k + 1 + lookahead, |candles|);
    while j < end && j < |candles|
      invariant k + 1 <= j
      invariant forall i :: k + 1 <= i < j && i < |candles| ==> !BackBeyond(candles[i], level, direction)
    {
      if BackBeyond(candles[j], level, direction) {
        return true;
      }
      j := j + 1;
    }
    return false;
  }

  /** Adds the key of the swing it reports to the used keys. */
  method Evaluate(cfg: Config, candles: seq<Candle>, swings: seq<Swing>, liquidity: seq<LiquidityEvent>,
                  atr: seq<real>, k: nat, direction: Direction, movement: Movement, used: set<SwingKey>)
    returns (event: Option<Event>, nowUsed: set<SwingKey>)
    requires k < |candles| == |atr| && atr[k] == Atr(candles, k, cfg.atrPeriod, TrueRange)
    ensures event == EvaluateBreak(cfg, candles, swings, liquidity, k, direction, movement, used)
    ensures nowUsed == Record(Scan([], used), event).used
  {
    hide Atr, LatestConfirmedSwing, FailedAfterBreak, LatestSweep, Gaps;
    event, nowUsed := None, used;
    var candidate := LatestConfirmedSwing(cfg, swings, candles[k].index, BrokenKind(direction));
    if candidate.None? {
      return;
    }
    var swing := Recorded(candidate.value);
    if Key(swing) in used {
      return;
    }
    if !Reports(cfg, candles[k], RequiredLevel(swing, direction, atr[k], cfg.bufferMultiplier), direction) {
      return;
    }
    nowUsed := used + {Key(swing)};
    var failed := LookAhead(candles, k, cfg.lookahead, swing.price, direction);
    event := Some(BuildEvent(cfg, candles, liquidity, k, swing, direction, movement, atr[k], failed));
  }

  method Detect(cfg: Config, candles: seq<Candle>, swings: seq<Swing>, liquidity: seq<LiquidityEvent>)
    returns (events: seq<Event>)
    ensures events == Detected(cfg, candles, swings, liquidity)
  {
    hide EvaluateBreak, Atr;
    events := [];
    if candles == [] || swings == [] {
      NothingToBreak(cfg, candles, liquidity, |candles|);
      return;
    }
    var atr := CalculateAtr(candles, cfg.atrPeriod);
    var used: set<SwingKey> := {};
    for k := 0 to |candles|
      invariant Scan(events, used) == ScanFirst(cfg, candles, swings, liquidity, k)
    {
      var movement := PreviousMovement(cfg, candles, k);
      if movement.Down? || movement.Unclear? {
        var event, nowUsed := Evaluate(cfg, candles, swings, liquidity, atr, k, Bullish, movement, used);
        used := nowUsed;
        if event.Some? {
          events := events + [event.value];
        }
      }
      if movement.Up? || movement.Unclear? {
        var event, nowUsed := Evaluate(cfg, candles, swings, liquidity, atr, k, Bearish, movement, used);
        used := nowUsed;
        if event.Some? {
          events := events + [event.value];
        }
      }
    }
  }

  lemma {:induction false} NothingToBreak(cfg: Config, candles: seq<Candle>, liquidity: seq<LiquidityEvent>, n: nat)
    requires n <= |candles|
    ensures ScanFirst(cfg, candles, [], liquidity, n) == Scan([], {})
    decreases n
  {
    if n > 0 {
      NothingToBreak(cfg, candles, liquidity, n - 1);
    }
  }
}
