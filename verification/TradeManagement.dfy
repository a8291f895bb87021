/** One open position managed candle by candle: time exits, the conservative stop-first rule,
    partial exits on a target ladder and the break-even stop. */
module TradeManagement {
  import opened Common
  import opened Rounding

  datatype Direction = Bullish | Bearish | NoDirection

  /** A cleaned execution candle.  Times are seconds since the epoch, UTC. */
  datatype Candle = Candle(openTime: int, closeTime: int, open: real, high: real, low: real, close: real,
                           isClosed: bool, session: string)

  /** A rung of the ladder.  `index` is the number in the rung's name, 999 for the final target. */
  datatype Target = Target(index: int, price: real, closePercent: real, rr: Option<real>, filled: bool)

  datatype OrderType = Limit | Market

  /** The order a position was opened by. */
  datatype OrderTag = OrderTag(orderType: OrderType, validFrom: int)

  datatype Partial = Partial(index: int, price: real, exitTime: int, closePercent: real, rMultiple: real)

  datatype Position = Position(
    tradeId: int, direction: Direction, entry: real, stop: real, currentStop: real, targets: seq<Target>,
    remaining: real, realizedR: real, partials: seq<Partial>, moveToBreakeven: bool, breakevenAfterIndex: int,
    breakevenAfterRr: Option<real>, breakevenBuffer: real, entryTime: int, session: string, order: OrderTag)

  datatype ExitReason =
    | StopLoss | FinalTarget | BreakevenStop | EndOfTest | AmbiguousStopFirst
    | MaxHoldTime | SessionClose | FridayCutoff | StaleTrade
  {
    predicate IsTimeExit() {
      MaxHoldTime? || SessionClose? || FridayCutoff? || StaleTrade?
    }
  }

  datatype Trade = Trade(tradeId: int, reason: ExitReason, realizedR: real, partials: seq<Partial>,
                         ambiguous: bool, exitPrice: Option<real>, entryTime: int, exitTime: int, order: OrderTag)

  datatype Config = Config(stopFirst: bool, fridayCutoff: Option<int>, maxHoldMinutes: Option<real>,
                           staleAfterMinutes: Option<real>, closeAtSessionEnd: bool)

  /** What managing a position on one candle returns. */
  datatype Outcome =
    | InvalidPosition
    | InvalidRisk
    | StillOpen(open: Position)
    | Closed(last: Position, trade: Trade)

  // ---------- pricing ----------

  function Risk(direction: Direction, entry: real, stop: real): real {
    match direction
    case Bullish => entry - stop
    case Bearish => stop - entry
    case NoDirection => 0.0
  }

  /** Profit of leaving at `price`, in price units, in the direction of the trade. */
  function Gain(direction: Direction, entry: real, price: real): real {
    match direction
    case Bullish => price - entry
    case Bearish => entry - price
    case NoDirection => 0.0
  }

  /** The unrounded R multiple of an exit: what the engine's figures are measured against. */
  function ExactR(direction: Direction, entry: real, stop: real, price: real): real {
    var risk := Risk(direction, entry, stop);
    if risk <= 0.0 then 0.0 else Gain(direction, entry, price) / risk
  }

  function RMultiple(direction: Direction, entry: real, stop: real, price: real): real {
    var risk := Risk(direction, entry, stop);
    if risk <= 0.0 || direction.NoDirection? then 0.0
    else Round(Gain(direction, entry, price) / risk, R_SCALE)
  }

  /** R credited for closing `size` of the position at `price`. */
  function Payoff(pos: Position, size: real, price: real): real {
    size * RMultiple(pos.direction, pos.entry, pos.stop, price)
  }

  predicate StopTouched(direction: Direction, stop: real, c: Candle) {
    match direction
    case Bullish => c.low <= stop
    case Bearish => c.high >= stop
    case NoDirection => false
  }

  predicate TargetTouched(direction: Direction, price: real, c: Candle) {
    match direction
    case Bullish => c.high >= price
    case Bearish => c.low <= price
    case NoDirection => false
  }

  // ---------- time exits ----------

  const SECONDS_PER_DAY := 86400
  const FRIDAY := 4

  /** Monday is 0; the epoch was a Thursday. */
  function Weekday(time: int): int {
    (time / SECONDS_PER_DAY + 3) % 7
  }

  predicate Elapsed(limitMinutes: Option<real>, ageMinutes: real) {
    limitMinutes.Some? && limitMinutes.value > 0.0 && ageMinutes >= limitMinutes.value
  }

  function TimeExit(pos: Position, c: Candle, cfg: Config): (reason: Option<ExitReason>)
    ensures reason.Some? ==> reason.value.IsTimeExit()
  {
    var age := (c.closeTime - pos.entryTime) as real / 60.0;
    if cfg.fridayCutoff.Some? && Weekday(c.closeTime) == FRIDAY
       && c.closeTime % SECONDS_PER_DAY >= cfg.fridayCutoff.value then Some(FridayCutoff)
    else if Elapsed(cfg.maxHoldMinutes, age) then Some(MaxHoldTime)
    else if Elapsed(cfg.staleAfterMinutes, age) && pos.partials == [] then Some(StaleTrade)
    else if cfg.closeAtSessionEnd && pos.session != "" && c.session != "" && c.session != pos.session then
      Some(SessionClose)
    else None
  }

  // ---------- one candle ----------

  predicate Hit(pos: Position, t: Target, c: Candle) {
    !t.filled && TargetTouched(pos.direction, t.price, c)
  }

  /** Positions in the ladder of the unfilled rungs the candle reaches, in ladder order. */
  function HitIndices(pos: Position, c: Candle, from: nat): (hits: seq<nat>)
    requires from <= |pos.targets|
    ensures forall k :: 0 <= k < |hits| ==> from <= hits[k] < |pos.targets| && Hit(pos, pos.targets[hits[k]], c)
    ensures forall j, k :: 0 <= j < k < |hits| ==> hits[j] < hits[k]
    ensures forall h :: from <= h < |pos.targets| && Hit(pos, pos.targets[h], c) ==> h in hits
    decreases |pos.targets| - from
  {
    if from == |pos.targets| then []
    else
      var rest := HitIndices(pos, c, from + 1);
      if Hit(pos, pos.targets[from], c) then [from] + rest else rest
  }

  function BreakevenLevel(pos: Position): real {
    if pos.direction.Bullish? then pos.entry + pos.breakevenBuffer else pos.entry - pos.breakevenBuffer
  }

  /** Whether filling this rung moves the stop; the rung's own rr counts when it is present and not zero. */
  predicate MovesToBreakeven(pos: Position, t: Target, rValue: real) {
    var targetRr := if t.rr.Some? && t.rr.value != 0.0 then t.rr.value else rValue;
    pos.moveToBreakeven
    && match pos.breakevenAfterRr
       case Some(after) => targetRr >= after
       case None => pos.breakevenAfterIndex > 0 && t.index >= pos.breakevenAfterIndex
  }

  function FillTarget(pos: Position, c: Candle, k: nat): Position
    requires k < |pos.targets|
  {
    var t := pos.targets[k];
    var size := Min(pos.remaining, t.closePercent);
    var r := RMultiple(pos.direction, pos.entry, pos.stop, t.price);
    pos.(realizedR := pos.realizedR + Payoff(pos, size, t.price),
         remaining := pos.remaining - size,
         partials := pos.partials + [Partial(t.index, t.price, c.closeTime, size, r)],
         targets := pos.targets[k := t.(filled := true)],
         currentStop := if MovesToBreakeven(pos, t, r) then BreakevenLevel(pos) else pos.currentStop)
  }

  function FillTargets(pos: Position, c: Candle, hits: seq<nat>): Position
    requires forall k :: 0 <= k < |hits| ==> hits[k] < |pos.targets|
    decreases |hits|
  {
    if hits == [] || pos.remaining <= 0.0 then pos
    else FillTargets(FillTarget(pos, c, hits[0]), c, hits[1..])
  }

  function LastTargetPrice(pos: Position): Option<real> {
    if pos.targets == [] then None else Some(pos.targets[|pos.targets| - 1].price)
  }

  function ExitPrice(pos: Position, reason: ExitReason): Option<real> {
    match reason
    case StopLoss => Some(pos.currentStop)
    case BreakevenStop => Some(pos.entry)
    case FinalTarget => LastTargetPrice(pos)
    case _ => None
  }

  function ClosedTrade(pos: Position, c: Candle, reason: ExitReason, r: real, ambiguous: bool,
                       exitPrice: Option<real>): Trade {
    Trade(pos.tradeId, reason, Round(r, R_SCALE), pos.partials, ambiguous,
          if exitPrice.Some? then exitPrice else ExitPrice(pos, reason), pos.entryTime, c.closeTime,
          pos.order)
  }

  /** The whole remaining size leaves at `price`. */
  function CloseAll(pos: Position, c: Candle, reason: ExitReason, price: real, ambiguous: bool,
                    exitPrice: Option<real>): Outcome {
    var r := pos.realizedR + Payoff(pos, pos.remaining, price);
    Closed(pos.(remaining := 0.0, realizedR := r), ClosedTrade(pos, c, reason, r, ambiguous, exitPrice))
  }

  function StopReason(pos: Position): ExitReason {
    if Abs(pos.currentStop - pos.entry) < 0.000000001 then BreakevenStop else StopLoss
  }

  /** A close price of zero counts as missing. */
  function ClosePrice(pos: Position, c: Candle): real {
    if c.close != 0.0 then c.close else pos.entry
  }

  /** After the hit rungs are filled: the size left over decides whether the trade is done. */
  function Settle(pos: Position, c: Candle): Outcome {
    var settled := pos.(remaining := Max(0.0, pos.remaining), realizedR := Round(pos.realizedR, R_SCALE));
    if pos.remaining <= 0.000000001 then
      Closed(settled, ClosedTrade(pos, c, FinalTarget, pos.realizedR, false, None))
    else StillOpen(settled)
  }

  function Manage(pos: Position, c: Candle, cfg: Config): Outcome {
    if pos.direction.NoDirection? then InvalidPosition
    else if Risk(pos.direction, pos.entry, pos.stop) <= 0.0 then InvalidRisk
    else
      var timeExit := TimeExit(pos, c, cfg);
      var hits := HitIndices(pos, c, 0);
      if timeExit.Some? then
        CloseAll(pos, c, timeExit.value, ClosePrice(pos, c), false, Some(ClosePrice(pos, c)))
      else if StopTouched(pos.direction, pos.currentStop, c) then
        if hits != [] && cfg.stopFirst then CloseAll(pos, c, AmbiguousStopFirst, pos.currentStop, true, None)
        else CloseAll(pos, c, StopReason(pos), pos.currentStop, false, None)
      else Settle(FillTargets(pos, c, hits), c)
  }

  /** The rungs a candle reaches, collected in one pass over the ladder. */
  method CollectHits(pos: Position, c: Candle) returns (hits: seq<nat>)
    ensures hits == HitIndices(pos, c, 0)
  {
    hits := [];
    for k := 0 to |pos.targets|
      invariant forall j :: 0 <= j < |hits| ==> hits[j] < |pos.targets|
      invariant hits + HitIndices(pos, c, k) == HitIndices(pos, c, 0)
    {
      if Hit(pos, pos.targets[k], c) {
        assert hits + ([k] + HitIndices(pos, c, k + 1)) == (hits + [k]) + HitIndices(pos, c, k + 1);
        hits := hits + [k];
      }
    }
  }

  /** The fill loop: stops as soon as nothing is left to close. */
  method FillHits(pos: Position, c: Candle, hits: seq<nat>) returns (current: Position)
    requires forall j :: 0 <= j < |hits| ==> hits[j] < |pos.targets|
    ensures current == FillTargets(pos, c, hits)
  {
    current := pos;
    for n := 0 to |hits|
      invariant |current.targets| == |pos.targets|
      invariant FillTargets(pos, c, hits) == FillTargets(current, c, hits[n..])
    {
      if current.remaining <= 0.0 {
        return;
      }
      current := FillTarget(current, c, hits[n]);
      assert hits[n..][1..] == hits[n + 1..];
    }
  }

  /** simulate_trade_management in its own order of tests. */
  method SimulateTradeManagement(pos: Position, c: Candle, cfg: Config) returns (out: Outcome)
    ensures out == Manage(pos, c, cfg)
  {
    if pos.direction.NoDirection? {
      return InvalidPosition;
    }
    if Risk(pos.direction, pos.entry, pos.stop) <= 0.0 {
      return InvalidRisk;
    }
    var timeExit := TimeExit(pos, c, cfg);
    if timeExit.Some? {
      return CloseAll(pos, c, timeExit.value, ClosePrice(pos, c), false, Some(ClosePrice(pos, c)));
    }
    var stopHit := StopTouched(pos.direction, pos.currentStop, c);
    var hits := CollectHits(pos, c);
    if stopHit && hits != [] && cfg.stopFirst {
      return CloseAll(pos, c, AmbiguousStopFirst, pos.currentStop, true, None);
    }
    if stopHit {
      return CloseAll(pos, c, StopReason(pos), pos.currentStop, false, None);
    }
    var filled := FillHits(pos, c, hits);
    out := Settle(filled, c);
  }

  /** Managing a position over a whole series; a rejected position is left as it was. */
  function Run(pos: Position, candles: seq<Candle>, cfg: Config): Outcome
    decreases |candles|
  {
    if candles == [] then StillOpen(pos)
    else match Manage(pos, candles[0], cfg)
      case StillOpen(next) => Run(next, candles[1..], cfg)
      case Closed(last, trade) => Closed(last, trade)
      case _ => Run(pos, candles[1..], cfg)
  }

  /** A position just filled: whole size open, nothing credited, stop where the order put it. */
  predicate Fresh(pos: Position) {
    pos.remaining == 1.0 && pos.realizedR == 0.0 && pos.partials == [] && pos.currentStop == pos.stop
  }

  predicate Tradable(pos: Position) {
    !pos.direction.NoDirection? && Risk(pos.direction, pos.entry, pos.stop) > 0.0
  }
}
