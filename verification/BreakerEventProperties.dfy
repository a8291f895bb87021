/** What the breaker detector says of one order block, in the fields of the candles, the block and the structure events:
    whether it broke, with what displacement and structure, how it was retested, and what it is worth. */
module BreakerEventProperties {
  import opened AverageRange
  import opened Common
  import opened Market
  import opened Rounding
  import opened Zones
  import opened BreakerBlock
  import opened BreakerProperties

  // ---------- the failure ----------

  /** The breaker's side is the other side of the block's. */
  function SideOf(ob: OrderBlock): Direction {
    match ob.direction
    case Bullish => Bearish
    case Bearish => Bullish
  }

  predicate GoesThrough(c: Candle, ob: OrderBlock, b: Buffers) {
    c.index > ob.createdIndex
    && match ob.direction
       case Bearish => c.close > ob.zone.high + b.breaking
       case Bullish => c.close < ob.zone.low - b.breaking
  }

  predicate OnlyWicksThrough(c: Candle, ob: OrderBlock, b: Buffers) {
    c.index > ob.createdIndex
    && match ob.direction
       case Bearish => c.high > ob.zone.high + b.breaking && c.close <= ob.zone.high
       case Bullish => c.low < ob.zone.low - b.breaking && c.close >= ob.zone.low
  }

  // ---------- the displacement ----------

  /** The largest of a billionth, the candle's own range, and its reach from the close before it. */
  lemma RangeExactly(c: Candle, previous: Option<Candle>)
    ensures var r := TrueRange(c, previous);
            r >= 0.000000001 && r >= c.high - c.low
            && (previous.Some? ==> r >= c.high - previous.value.close && r >= previous.value.close - c.high
                                   && r >= c.low - previous.value.close && r >= previous.value.close - c.low)
            && (previous.None? ==> r >= c.high - c.close && r >= c.close - c.high && r >= c.low - c.close
                                   && r >= c.close - c.low)
            && var close := if previous.Some? then previous.value.close else c.close;
               r == 0.000000001 || r == c.high - c.low || r == c.high - close || r == close - c.high
               || r == c.low - close || r == close - c.low
  {
  }

  function Spread(c: Candle): real {
    if c.high - c.low > 0.000000001 then c.high - c.low else 0.000000001
  }

  function Body(c: Candle): real {
    if c.close > c.open then c.close - c.open else c.open - c.close
  }

  predicate RightColour(c: Candle, direction: Direction) {
    match direction
    case Bullish => c.open < c.close
    case Bearish => c.close < c.open
  }

  /** More than half body, at least an average range, and closed in the outer third; strong from a quarter more than the
      average on, and moderate with less than that from a body of 0.45 on. */
  predicate DisplacementFits(c: Candle, atr: real, direction: Direction, d: Displacement) {
    var average := if atr > 0.000000001 then atr else 0.000000001;
    var travelled := if direction.Bullish? then c.close - c.low else c.high - c.close;
    (d.present <==> RightColour(c, direction) && Body(c) >= 0.55 * Spread(c) && Spread(c) >= average
                    && travelled >= 0.70 * Spread(c))
    && (d.strength.StrongMove? <==> d.present && Spread(c) >= 1.25 * average)
    && (d.strength.ModerateMove? <==>
          !d.strength.StrongMove? && RightColour(c, direction) && Body(c) >= 0.45 * Spread(c))
  }

  lemma DisplacementExactly(c: Candle, atr: real, direction: Direction)
    ensures DisplacementFits(c, atr, direction, DisplacementOf(c, atr, direction))
  {
    var average := Max(atr, 0.000000001);
    var travelled := if direction.Bullish? then c.close - c.low else c.high - c.close;
    QuotientOrder(Body(c), Spread(c), 0.55);
    QuotientOrder(Body(c), Spread(c), 0.45);
    QuotientOrder(travelled, Spread(c), 0.70);
    QuotientOrder(Spread(c), average, 1.0);
    QuotientOrder(Spread(c), average, 1.25);
  }

  // ---------- structure and retest ----------

  /** A break of structure, market shift or change of character to the breaker's side, from an index on. */
  predicate Supports(s: Structure, direction: Direction, index: int) {
    s.direction == direction && index <= s.index && (s.kind == Bos || s.kind == Mss || s.kind == Choch)
  }

  /** The earliest supporting event, the first of them in the list. */
  ghost predicate StructureFits(structures: seq<Structure>, direction: Direction, index: int, found: Option<Structure>) {
    if found.None? then forall q :: 0 <= q < |structures| ==> !Supports(structures[q], direction, index)
    else
      exists p :: 0 <= p < |structures| && structures[p] == found.value && Supports(structures[p], direction, index)
        && forall q :: 0 <= q < |structures| && Supports(structures[q], direction, index) ==>
             structures[p].index < structures[q].index || (structures[p].index == structures[q].index && p <= q)
  }

  lemma {:induction false} StructureExactly(structures: seq<Structure>, direction: Direction, index: int)
    returns (p: nat)
    ensures var found := StructureAfter(structures, direction, index);
            if found.None? then forall q :: 0 <= q < |structures| ==> !Supports(structures[q], direction, index)
            else p < |structures| && structures[p] == found.value && Supports(structures[p], direction, index)
                 && forall q :: 0 <= q < |structures| && Supports(structures[q], direction, index) ==>
                      structures[p].index < structures[q].index || (structures[p].index == structures[q].index && p <= q)
    decreases |structures|
  {
    p := 0;
    if structures != [] {
      var n := |structures| - 1;
      var earlier := StructureAfter(structures[..n], direction, index);
      p := StructureExactly(structures[..n], direction, index);
      if Supports(structures[n], direction, index) && (earlier.None? || structures[n].index < earlier.value.index) {
        p := n;
      }
    }
  }

  /** The candle closes back through the zone by more than the buffer. */
  predicate LosesZone(c: Candle, zone: Zone, direction: Direction, b: Buffers) {
    match direction
    case Bullish => c.close < zone.low - b.invalidation
    case Bearish => c.close > zone.high + b.invalidation
  }

  predicate ReachesZone(c: Candle, zone: Zone, direction: Direction) {
    match direction
    case Bullish => c.low <= zone.high
    case Bearish => c.high >= zone.low
  }

  /** Beyond the edge of the zone the breaker leaves by. */
  predicate ClosesOut(c: Candle, zone: Zone, direction: Direction) {
    match direction
    case Bullish => c.close > zone.high
    case Bearish => c.close < zone.low
  }

  predicate ClosesPastMean(c: Candle, zone: Zone, direction: Direction) {
    match direction
    case Bullish => c.close > zone.mean
    case Bearish => c.close < zone.mean
  }

  predicate ReachesMean(c: Candle, zone: Zone, direction: Direction) {
    match direction
    case Bullish => c.low <= zone.mean
    case Bearish => c.high >= zone.mean
  }

  /** The far edge is reached and the close is back inside of it. */
  predicate ReachesThrough(c: Candle, zone: Zone, direction: Direction) {
    match direction
    case Bullish => c.low <= zone.low && zone.low < c.close
    case Bearish => c.high >= zone.high && zone.high > c.close
  }

  /** What a candle that loses the zone or comes back to it makes of the breaker: the reaction is the first of a
      structure event from its index on, a close out of the zone and a close past its mean, closes only on a candle of
      the right colour; without one the depth is the status. */
  ghost predicate RetestFits(c: Candle, zone: Zone, direction: Direction, b: Buffers, structures: seq<Structure>,
                             r: Retest) {
    if LosesZone(c, zone, direction, b) then r == Retest(Failed, Some(c.index), NoReaction)
    else
      var shift := exists s :: s in structures && Supports(s, direction, c.index);
      var colour := RightColour(c, direction);
      r.index == Some(c.index)
      && (r.reaction.StructureShift? <==> shift)
      && (r.reaction.CloseBeyondZone? <==> !shift && colour && ClosesOut(c, zone, direction))
      && (r.reaction.CloseBeyondMean? <==> !shift && colour && !ClosesOut(c, zone, direction)
                                           && ClosesPastMean(c, zone, direction))
      && (r.status.Confirmed? <==> !r.reaction.NoReaction?)
      && (r.status.DeepRetest? <==> r.reaction.NoReaction? && ReachesThrough(c, zone, direction))
      && (r.status.MeanRetest? <==> r.reaction.NoReaction? && !ReachesThrough(c, zone, direction)
                                    && ReachesMean(c, zone, direction))
      && (r.status.Touched? <==> r.reaction.NoReaction? && !ReachesThrough(c, zone, direction)
                                 && !ReachesMean(c, zone, direction))
  }

  lemma RetestSaysAll(c: Candle, zone: Zone, direction: Direction, b: Buffers, structures: seq<Structure>)
    requires LosesZone(c, zone, direction, b) || ReachesZone(c, zone, direction)
    ensures RetestFits(c, zone, direction, b, structures, RetestBy(c, zone, direction, b, structures))
    ensures !RetestBy(c, zone, direction, b, structures).status.NotRetested?
  {
    hide StructureAfter, Supports;
    var p := StructureExactly(structures, direction, c.index);
  }

  /** The first candle after the failure that loses the zone or comes back to it decides. */
  lemma {:induction false} RetestsExactly(candles: seq<Candle>, i: nat, zone: Zone, direction: Direction, b: Buffers,
                                          structures: seq<Structure>) returns (q: nat)
    requires i <= |candles|
    ensures i <= q <= |candles|
    ensures forall j :: i <= j < q ==>
              !LosesZone(candles[j], zone, direction, b) && !ReachesZone(candles[j], zone, direction)
    ensures var r := ClassifiedFrom(candles, i, zone, direction, b, structures);
            if q == |candles| then r == Retest(NotRetested, None, NoReaction)
            else (LosesZone(candles[q], zone, direction, b) || ReachesZone(candles[q], zone, direction))
                 && RetestFits(candles[q], zone, direction, b, structures, r)
    decreases |candles| - i
  {
    hide RetestBy, RetestFits;
    q := i;
    if i < |candles| {
      if LosesZone(candles[i], zone, direction, b) || ReachesZone(candles[i], zone, direction) {
        RetestSaysAll(candles[i], zone, direction, b, structures);
      } else {
        NotBackYet(candles[i], zone, direction, b, structures);
        q := RetestsExactly(candles, i + 1, zone, direction, b, structures);
      }
    }
  }

  lemma NotBackYet(c: Candle, zone: Zone, direction: Direction, b: Buffers, structures: seq<Structure>)
    requires !LosesZone(c, zone, direction, b) && !ReachesZone(c, zone, direction)
    ensures RetestBy(c, zone, direction, b, structures) == Retest(NotRetested, None, NoReaction)
  {
  }

  // ---------- score, grade and entry ----------

  /** Points for the block's quality, the acceptance, the displacement, the structure, the retest, the sweep, the gap,
      the favourable half of the range, and a narrow zone. */
  function PointsOf(ob: OrderBlock, k: Breaker): real {
    (if ob.quality >= 8.0 then 2.0 else if ob.quality >= 5.0 then 1.0 else 0.0)
    + 1.5
    + (if k.displacement.present then 1.5 else if k.displacement.strength == ModerateMove then 0.75 else 0.0)
    + (if k.structure != None then 1.5 else 0.0)
    + (if k.retest.status == Confirmed then 1.5
       else if k.retest.status == NotRetested || k.retest.status == Failed then 0.0 else 0.75)
    + (if ob.sweep then 0.75 else 0.0) + (if ob.gap then 0.75 else 0.0)
    + (if (ob.direction == Bearish && ob.discount) || (ob.direction == Bullish && ob.premium) then 0.75 else 0.0)
    + (if NarrowZone(ob.zone) then 0.5 else 0.0)
  }

  /** At most one percent of its mean wide, or five points. */
  predicate NarrowZone(zone: Zone) {
    var width, one := zone.high - zone.low, (if zone.mean < 0.0 then -zone.mean else zone.mean) * 0.01;
    width <= one || width <= 5.0
  }

  /** Accepted: the rounded points, at most five without structure, six and a half while not retested, three once
      failed, and never negative.  Not accepted: at most three. */
  predicate WorthFits(ob: OrderBlock, k: Breaker) {
    var points := Round(PointsOf(ob, k), 100.0);
    var unstructured := if k.structure == None && points > 5.0 then 5.0 else points;
    var untested := if k.retest.status == NotRetested && unstructured > 6.5 then 6.5 else unstructured;
    var capped := if untested < 0.0 then 0.0 else if untested > 10.0 then 10.0 else untested;
    (k.confirmed ==> k.score == if k.retest.status == Failed && capped > 3.0 then 3.0 else capped)
    && (!k.confirmed ==> k.score == if ob.quality >= 8.0 then 2.5 else if ob.quality >= 5.0 then 1.5 else 0.5)
    && (k.grade.HighQuality? <==> 9.0 <= k.score) && (k.grade.Strong? <==> 7.0 <= k.score < 9.0)
    && (k.grade.Moderate? <==> 5.0 <= k.score < 7.0) && (k.grade.Weak? <==> 3.0 <= k.score < 5.0)
    && (k.grade.Invalid? <==> k.score < 3.0)
    && (k.entryAfterReaction <==> k.confirmed && !k.retest.reaction.NoReaction? && k.retest.status != Failed)
    && k.invalidation == (if ob.direction == Bearish then ob.zone.low else ob.zone.high)
  }

  lemma BuiltIsWorth(ob: OrderBlock, c: Candle, accepted: bool, d: Displacement, structure: Option<Structure>,
                     retest: Retest)
    ensures WorthFits(ob, Build(ob, SideOf(ob), c, accepted, d, structure, retest))
  {
    hide Round;
  }

  // ---------- the theorem ----------

  ghost predicate BreakerFits(candles: seq<Candle>, structures: seq<Structure>, ob: OrderBlock, b: Buffers,
                              period: Positive, p: nat, q: nat, k: Breaker)
    requires p < |candles| && p < q <= |candles|
  {
    var side, c := SideOf(ob), candles[p];
    k.direction == side && k.zone == ob.zone
    && DisplacementFits(c, Atr(candles, p, period, TrueRange), side, k.displacement)
    && StructureFits(structures, side, c.index, k.structure)
    && k.failedAt == (if k.confirmed then Some(c.index) else None)
    && k.acceptanceClose == (if k.confirmed then Some(c.close) else None)
    && (!k.confirmed ==> k.retest == Retest(WickOnly, Some(c.index), NoReaction))
    && (k.confirmed ==>
          if q == |candles| then k.retest == Retest(NotRetested, None, NoReaction)
          else RetestFits(candles[q], ob.zone, side, b, structures, k.retest))
    && WorthFits(ob, k)
  }

  /** The breaker of a block is of its first close through, or else of its first wick through, or there is none; the
      first candle after an accepted failure that loses the zone or comes back to it is its retest; and every field
      says exactly what happened. */
  lemma BreakersExactly(candles: seq<Candle>, structures: seq<Structure>, ob: OrderBlock, b: Buffers, period: Positive)
    returns (p: nat, q: nat)
    ensures var breaker := BreakerOf(candles, structures, ob, b, period);
            (breaker.None? <==>
               forall j :: 0 <= j < |candles| ==>
                 !GoesThrough(candles[j], ob, b) && !OnlyWicksThrough(candles[j], ob, b))
            && (breaker.Some? ==>
                  p < q <= |candles|
                  && (breaker.value.confirmed ==>
                        GoesThrough(candles[p], ob, b) && forall j :: 0 <= j < p ==> !GoesThrough(candles[j], ob, b))
                  && (!breaker.value.confirmed ==>
                        OnlyWicksThrough(candles[p], ob, b)
                        && (forall j :: 0 <= j < p ==> !OnlyWicksThrough(candles[j], ob, b))
                        && forall j :: 0 <= j < |candles| ==> !GoesThrough(candles[j], ob, b))
                  && (forall j :: p < j < q ==> !LosesZone(candles[j], ob.zone, SideOf(ob), b)
                                                && !ReachesZone(candles[j], ob.zone, SideOf(ob)))
                  && (q < |candles| ==> LosesZone(candles[q], ob.zone, SideOf(ob), b)
                                        || ReachesZone(candles[q], ob.zone, SideOf(ob)))
                  && BreakerFits(candles, structures, ob, b, period, p, q, breaker.value))
  {
    hide FailureOf, ClassifiedFrom, Atr, DisplacementOf, DisplacementFits, StructureAfter, Confidence, GradeOf, RetestFits,
         WorthFits, Supports, LosesZone, ReachesZone;
    var side, failure := SideOf(ob), FailureOf(candles, ob, SideOf(ob), b);
    FailureExactly(candles, ob, side, b);
    p, q := 0, 1;
    if !failure.Unbroken? {
      p := failure.position;
      var atr := Atr(candles, p, period, TrueRange);
      DisplacementExactly(candles[p], atr, side);
      var first := StructureExactly(structures, side, candles[p].index);
      q := RetestsExactly(candles, p + 1, ob.zone, side, b, structures);
      var retest := if failure.Accepted? then ClassifiedFrom(candles, p + 1, ob.zone, side, b, structures)
                    else Retest(WickOnly, Some(candles[p].index), NoReaction);
      BuiltIsWorth(ob, candles[p], failure.Accepted?, DisplacementOf(candles[p], atr, side),
                   StructureAfter(structures, side, candles[p].index), retest);
    }
  }
}
