/** Breaker blocks: an order block that price closes through flips into a zone of the other side, and the
    first candle back in it is classified. */
module BreakerBlock {
  import opened AverageRange
  import opened Common
  import opened Market
  import opened Rounding
  import opened Zones

  datatype StructureKind = Bos | Mss | Choch | OtherKind

  datatype Structure = Structure(direction: Direction, index: int, kind: StructureKind)

  /** Which words the block's creating event and its price location contain. */
  datatype OrderBlock = OrderBlock(direction: Direction, zone: Zone, createdIndex: int, quality: real,
                                   sweep: bool, gap: bool, discount: bool, premium: bool)

  datatype Buffers = Buffers(breaking: real, invalidation: real)

  datatype Failure = Unbroken | Attempt(position: nat) | Accepted(position: nat)

  datatype Status = NotRetested | Touched | MeanRetest | DeepRetest | Confirmed | WickOnly | Failed

  datatype Reaction = NoReaction | StructureShift | CloseBeyondZone | CloseBeyondMean

  datatype Retest = Retest(status: Status, index: Option<int>, reaction: Reaction)

  datatype Strength = WeakMove | ModerateMove | StrongMove

  datatype Displacement = Displacement(present: bool, strength: Strength)

  datatype Grade = Invalid | Weak | Moderate | Strong | HighQuality

  datatype Breaker = Breaker(direction: Direction, zone: Zone, confirmed: bool, failedAt: Option<int>,
                             acceptanceClose: Option<real>, displacement: Displacement, structure: Option<Structure>,
                             retest: Retest, score: real, grade: Grade, entryAfterReaction: bool, invalidation: real)

  // ---------- the failure of the block ----------

  predicate ClosesThrough(c: Candle, ob: OrderBlock, direction: Direction, b: Buffers) {
    c.index > ob.createdIndex
    && (if direction.Bullish? then c.close > ob.zone.high + b.breaking else c.close < ob.zone.low - b.breaking)
  }

  /** The wick passes the buffer and the close is back at the edge of the zone. */
  predicate WicksThrough(c: Candle, ob: OrderBlock, direction: Direction, b: Buffers) {
    c.index > ob.createdIndex
    && (if direction.Bullish? then c.high > ob.zone.high + b.breaking && c.close <= ob.zone.high
        else c.low < ob.zone.low - b.breaking && c.close >= ob.zone.low)
  }

  function FirstClose(candles: seq<Candle>, ob: OrderBlock, direction: Direction, b: Buffers, n: nat): (p: Option<nat>)
    requires n <= |candles|
    ensures p.Some? ==> p.value < n
    decreases n
  {
    if n == 0 then None
    else
      var earlier := FirstClose(candles, ob, direction, b, n - 1);
      if earlier.Some? then earlier
      else if ClosesThrough(candles[n - 1], ob, direction, b) then Some(n - 1)
      else None
  }

  function FirstWick(candles: seq<Candle>, ob: OrderBlock, direction: Direction, b: Buffers, n: nat): (p: Option<nat>)
    requires n <= |candles|
    ensures p.Some? ==> p.value < n
    decreases n
  {
    if n == 0 then None
    else
      var earlier := FirstWick(candles, ob, direction, b, n - 1);
      if earlier.Some? then earlier
      else if WicksThrough(candles[n - 1], ob, direction, b) then Some(n - 1)
      else None
  }

  /** The first close through the block anywhere in the data; only without one, the first wick through it. */
  function FailureOf(candles: seq<Candle>, ob: OrderBlock, direction: Direction, b: Buffers): (f: Failure)
    ensures !f.Unbroken? ==> f.position < |candles|
  {
    var close := FirstClose(candles, ob, direction, b, |candles|);
    var wick := FirstWick(candles, ob, direction, b, |candles|);
    if close.Some? then Accepted(close.value) else if wick.Some? then Attempt(wick.value) else Unbroken
  }

  method FirstFailureOrWickAttempt(candles: seq<Candle>, ob: OrderBlock, direction: Direction, b: Buffers)
    returns (failure: Failure)
    ensures failure == FailureOf(candles, ob, direction, b)
  {
    failure := Unbroken;
    for i := 0 to |candles|
      invariant FirstClose(candles, ob, direction, b, i).None?
      invariant failure == match FirstWick(candles, ob, direction, b, i)
                           case Some(p) => Attempt(p)
                           case None => Unbroken
    {
      if ClosesThrough(candles[i], ob, direction, b) {
        CloseStaysFirst(candles, ob, direction, b, i + 1, |candles|);
        return Accepted(i);
      }
      if WicksThrough(candles[i], ob, direction, b) && failure.Unbroken? {
        failure := Attempt(i);
      }
    }
  }

  lemma {:induction false} CloseStaysFirst(candles: seq<Candle>, ob: OrderBlock, direction: Direction, b: Buffers,
                                           n: nat, m: nat)
    requires n <= m <= |candles| && FirstClose(candles, ob, direction, b, n).Some?
    ensures FirstClose(candles, ob, direction, b, m) == FirstClose(candles, ob, direction, b, n)
    decreases m
  {
    hide ClosesThrough;
    if n < m {
      CloseStaysFirst(candles, ob, direction, b, n, m - 1);
    }
  }

  // ---------- structure, reaction and retest ----------

  predicate Follows(s: Structure, direction: Direction, index: int) {
    s.direction == direction && s.index >= index && !s.kind.OtherKind?
  }

  /** The earliest structure event of the direction from an index on, the first in the list among equals. */
  function StructureAfter(structures: seq<Structure>, direction: Direction, index: int): Option<Structure> {
    if structures == [] then None
    else
      var earlier := StructureAfter(structures[..|structures| - 1], direction, index);
      var last := structures[|structures| - 1];
      if Follows(last, direction, index) && (earlier.None? || last.index < earlier.value.index) then Some(last)
      else earlier
  }

  function BreakerReaction(c: Candle, direction: Direction, zone: Zone, structures: seq<Structure>): Reaction {
    if StructureAfter(structures, direction, c.index).Some? then StructureShift
    else if direction.Bullish? then
      if c.close > zone.high && c.close > c.open then CloseBeyondZone
      else if c.close > zone.mean && c.close > c.open then CloseBeyondMean
      else NoReaction
    else
      if c.close < zone.low && c.close < c.open then CloseBeyondZone
      else if c.close < zone.mean && c.close < c.open then CloseBeyondMean
      else NoReaction
  }

  predicate ClosesBackThrough(c: Candle, zone: Zone, direction: Direction, b: Buffers) {
    if direction.Bullish? then c.close < zone.low - b.invalidation else c.close > zone.high + b.invalidation
  }

  predicate ComesBack(c: Candle, zone: Zone, direction: Direction) {
    if direction.Bullish? then c.low <= zone.high else c.high >= zone.low
  }

  function DepthOf(c: Candle, zone: Zone, direction: Direction): Status {
    if direction.Bullish? then
      if c.low <= zone.low < c.close then DeepRetest else if c.low <= zone.mean then MeanRetest else Touched
    else
      if c.high >= zone.high > c.close then DeepRetest else if c.high >= zone.mean then MeanRetest else Touched
  }

  const NO_RETEST := Retest(NotRetested, None, NoReaction)

  function RetestBy(c: Candle, zone: Zone, direction: Direction, b: Buffers, structures: seq<Structure>): Retest {
    if ClosesBackThrough(c, zone, direction, b) then Retest(Failed, Some(c.index), NoReaction)
    else if ComesBack(c, zone, direction) then
      var reaction := BreakerReaction(c, direction, zone, structures);
      Retest(if reaction.NoReaction? then DepthOf(c, zone, direction) else Confirmed, Some(c.index), reaction)
    else NO_RETEST
  }

  function ClassifiedFrom(candles: seq<Candle>, i: nat, zone: Zone, direction: Direction, b: Buffers,
                          structures: seq<Structure>): Retest
    requires i <= |candles|
    decreases |candles| - i
  {
    if i == |candles| then NO_RETEST
    else
      var retest := RetestBy(candles[i], zone, direction, b, structures);
      if !retest.status.NotRetested? then retest else ClassifiedFrom(candles, i + 1, zone, direction, b, structures)
  }

  method ClassifyRetest(candles: seq<Candle>, failedAt: nat, zone: Zone, direction: Direction, b: Buffers,
                        structures: seq<Structure>) returns (retest: Retest)
    requires failedAt < |candles|
    ensures retest == ClassifiedFrom(candles, failedAt + 1, zone, direction, b, structures)
  {
    hide RetestBy;
    var i := failedAt + 1;
    while i < |candles|
      invariant failedAt + 1 <= i <= |candles|
      invariant ClassifiedFrom(candles, i, zone, direction, b, structures)
                == ClassifiedFrom(candles, failedAt + 1, zone, direction, b, structures)
    {
      retest := RetestBy(candles[i], zone, direction, b, structures);
      if !retest.status.NotRetested? {
        return;
      }
      i := i + 1;
    }
    return NO_RETEST;
  }

  // ---------- displacement and confidence ----------

  function TrueRange(c: Candle, previous: Option<Candle>): real {
    var close := if previous.Some? then previous.value.close else c.close;
    Max(Max(c.high - c.low, Max(Abs(c.high - close), Abs(c.low - close))), 0.000000001)
  }

  function DisplacementOf(c: Candle, atr: real, direction: Direction): Displacement {
    var range := Max(c.high - c.low, 0.000000001);
    var body, reach := Abs(c.close - c.open) / range, range / Max(atr, 0.000000001);
    var directional := if direction.Bullish? then c.close > c.open else c.close < c.open;
    var closing := (if direction.Bullish? then c.close - c.low else c.high - c.close) / range;
    var present := directional && body >= 0.55 && reach >= 1.0 && closing >= 0.70;
    Displacement(present, if present && reach >= 1.25 then StrongMove
                          else if directional && body >= 0.45 then ModerateMove
                          else WeakMove)
  }

  function Points(condition: bool, points: real): real {
    if condition then points else 0.0
  }

  function QualityPoints(quality: real): real {
    if quality >= 8.0 then 2.0 else if quality >= 5.0 then 1.0 else 0.0
  }

  function Favourable(ob: OrderBlock, direction: Direction): bool {
    if direction.Bullish? then ob.discount else ob.premium
  }

  function Confidence(ob: OrderBlock, direction: Direction, accepted: bool, d: Displacement, structured: bool,
                      status: Status): real {
    if !accepted then Min(QualityPoints(ob.quality) + 0.5, 3.0)
    else
      var retested := match status
                      case Confirmed => 1.5
                      case NotRetested => 0.0
                      case Failed => 0.0
                      case _ => 0.75;
      var score := QualityPoints(ob.quality) + 1.5
                   + (if d.present then 1.5 else Points(d.strength.ModerateMove?, 0.75))
                   + Points(structured, 1.5) + retested + Points(ob.sweep, 0.75) + Points(ob.gap, 0.75)
                   + Points(Favourable(ob, direction), 0.75)
                   + Points(ob.zone.high - ob.zone.low <= Max(Abs(ob.zone.mean) * 0.01, 5.0), 0.5);
      var cap := Min(if structured then 10.0 else 5.0, if status.NotRetested? then 6.5 else 10.0);
      Max(0.0, Min(cap, Round(score, CENT_SCALE)))
  }

  function GradeOf(score: real): Grade {
    if score >= 9.0 then HighQuality
    else if score >= 7.0 then Strong
    else if score >= 5.0 then Moderate
    else if score >= 3.0 then Weak
    else Invalid
  }

  // ---------- the breaker ----------

  function Build(ob: OrderBlock, direction: Direction, c: Candle, accepted: bool, d: Displacement,
                 structure: Option<Structure>, retest: Retest): Breaker {
    var confidence := Confidence(ob, direction, accepted, d, structure.Some?, retest.status);
    var score := if !accepted || retest.status.Failed? then Min(confidence, 3.0) else confidence;
    Breaker(direction, ob.zone, accepted, if accepted then Some(c.index) else None,
            if accepted then Some(c.close) else None, d, structure, retest, score, GradeOf(score),
            accepted && !retest.reaction.NoReaction? && !retest.status.Failed?,
            if direction.Bullish? then ob.zone.low else ob.zone.high)
  }

  function BreakerOf(candles: seq<Candle>, structures: seq<Structure>, ob: OrderBlock, b: Buffers, period: Positive)
    : Option<Breaker>
  {
    var direction := Opposite(ob.direction);
    match FailureOf(candles, ob, direction, b)
    case Unbroken => None
    case Attempt(p) =>
      var d := DisplacementOf(candles[p], Atr(candles, p, period, TrueRange), direction);
      Some(Build(ob, direction, candles[p], false, d, StructureAfter(structures, direction, candles[p].index),
                 Retest(WickOnly, Some(candles[p].index), NoReaction)))
    case Accepted(p) =>
      var d := DisplacementOf(candles[p], Atr(candles, p, period, TrueRange), direction);
      Some(Build(ob, direction, candles[p], true, d, StructureAfter(structures, direction, candles[p].index),
                 ClassifiedFrom(candles, p + 1, ob.zone, direction, b, structures)))
  }

  method DetectBreaker(candles: seq<Candle>, structures: seq<Structure>, ob: OrderBlock, b: Buffers, period: Positive)
    returns (breaker: Option<Breaker>)
    ensures breaker == BreakerOf(candles, structures, ob, b, period)
  {
    hide FailureOf, ClassifiedFrom, Atr, DisplacementOf, StructureAfter, Build;
    var direction := Opposite(ob.direction);
    var failure := FirstFailureOrWickAttempt(candles, ob, direction, b);
    if failure.Unbroken? {
      return None;
    }
    var p := failure.position;
    var d := DisplacementOf(candles[p], Atr(candles, p, period, TrueRange), direction);
    var structure := StructureAfter(structures, direction, candles[p].index);
    var retest := Retest(WickOnly, Some(candles[p].index), NoReaction);
    if failure.Accepted? {
      retest := ClassifyRetest(candles, p, ob.zone, direction, b, structures);
    }
    breaker := Some(Build(ob, direction, candles[p], failure.Accepted?, d, structure, retest));
  }
}
