/** Breakers: an accepted and retested one is final, a wick attempt is not, the two directions mirror each
    other, and structure events learned later can still confirm a retest. */
module BreakerProperties {
  import opened AverageRange
  import opened Common
  import opened Market
  import opened Rounding
  import opened Zones
  import opened BreakerBlock

  // ---------- what is first ----------

  lemma {:induction false} FirstCloseOfPrefix(candles: seq<Candle>, longer: seq<Candle>, ob: OrderBlock,
                                              direction: Direction, b: Buffers, n: nat)
    requires candles <= longer && n <= |candles|
    ensures FirstClose(longer, ob, direction, b, n) == FirstClose(candles, ob, direction, b, n)
    decreases n
  {
    if n > 0 {
      FirstCloseOfPrefix(candles, longer, ob, direction, b, n - 1);
    }
  }

  lemma {:induction false} FirstWickOfPrefix(candles: seq<Candle>, longer: seq<Candle>, ob: OrderBlock,
                                             direction: Direction, b: Buffers, n: nat)
    requires candles <= longer && n <= |candles|
    ensures FirstWick(longer, ob, direction, b, n) == FirstWick(candles, ob, direction, b, n)
    decreases n
  {
    if n > 0 {
      FirstWickOfPrefix(candles, longer, ob, direction, b, n - 1);
    }
  }

  lemma {:induction false} WickStaysFirst(candles: seq<Candle>, ob: OrderBlock, direction: Direction, b: Buffers,
                                          n: nat, m: nat)
    requires n <= m <= |candles| && FirstWick(candles, ob, direction, b, n).Some?
    ensures FirstWick(candles, ob, direction, b, m) == FirstWick(candles, ob, direction, b, n)
    decreases m
  {
    hide WicksThrough;
    if n < m {
      WickStaysFirst(candles, ob, direction, b, n, m - 1);
    }
  }

  lemma {:induction false} FirstCloseExact(candles: seq<Candle>, ob: OrderBlock, direction: Direction, b: Buffers,
                                           n: nat)
    requires n <= |candles|
    ensures match FirstClose(candles, ob, direction, b, n)
            case Some(p) => ClosesThrough(candles[p], ob, direction, b)
                            && forall j :: 0 <= j < p ==> !ClosesThrough(candles[j], ob, direction, b)
            case None => forall j :: 0 <= j < n ==> !ClosesThrough(candles[j], ob, direction, b)
    decreases n
  {
    hide ClosesThrough;
    if n > 0 {
      FirstCloseExact(candles, ob, direction, b, n - 1);
    }
  }

  lemma {:induction false} FirstWickExact(candles: seq<Candle>, ob: OrderBlock, direction: Direction, b: Buffers,
                                          n: nat)
    requires n <= |candles|
    ensures match FirstWick(candles, ob, direction, b, n)
            case Some(p) => WicksThrough(candles[p], ob, direction, b)
                            && forall j :: 0 <= j < p ==> !WicksThrough(candles[j], ob, direction, b)
            case None => forall j :: 0 <= j < n ==> !WicksThrough(candles[j], ob, direction, b)
    decreases n
  {
    hide WicksThrough;
    if n > 0 {
      FirstWickExact(candles, ob, direction, b, n - 1);
    }
  }

  /** What the one loop over the candles finds: an accepted failure is the first close through the block; an
      attempt is its first wick, and says that no close goes through it at all. */
  lemma FailureExactly(candles: seq<Candle>, ob: OrderBlock, direction: Direction, b: Buffers)
    ensures match FailureOf(candles, ob, direction, b)
            case Accepted(p) =>
              ClosesThrough(candles[p], ob, direction, b)
              && forall j :: 0 <= j < p ==> !ClosesThrough(candles[j], ob, direction, b)
            case Attempt(p) =>
              WicksThrough(candles[p], ob, direction, b)
              && (forall j :: 0 <= j < p ==> !WicksThrough(candles[j], ob, direction, b))
              && forall j :: 0 <= j < |candles| ==> !ClosesThrough(candles[j], ob, direction, b)
            case Unbroken =>
              forall j :: 0 <= j < |candles| ==>
                !ClosesThrough(candles[j], ob, direction, b) && !WicksThrough(candles[j], ob, direction, b)
  {
    hide ClosesThrough, WicksThrough, FirstClose, FirstWick;
    FirstCloseExact(candles, ob, direction, b, |candles|);
    FirstWickExact(candles, ob, direction, b, |candles|);
  }

  lemma AcceptedStays(candles: seq<Candle>, longer: seq<Candle>, ob: OrderBlock, direction: Direction, b: Buffers)
    requires candles <= longer && FailureOf(candles, ob, direction, b).Accepted?
    ensures FailureOf(longer, ob, direction, b) == FailureOf(candles, ob, direction, b)
  {
    hide FirstClose, FirstWick;
    FirstCloseOfPrefix(candles, longer, ob, direction, b, |candles|);
    CloseStaysFirst(longer, ob, direction, b, |candles|, |longer|);
  }

  /** A wick attempt is provisional: it stays the result exactly as long as no later candle closes through. */
  lemma AttemptStaysExactly(candles: seq<Candle>, longer: seq<Candle>, ob: OrderBlock, direction: Direction, b: Buffers)
    requires candles <= longer && FailureOf(candles, ob, direction, b).Attempt?
    ensures FailureOf(longer, ob, direction, b) == FailureOf(candles, ob, direction, b)
            <==> forall j :: |candles| <= j < |longer| ==> !ClosesThrough(longer[j], ob, direction, b)
  {
    hide FirstClose, FirstWick, ClosesThrough;
    FirstWickOfPrefix(candles, longer, ob, direction, b, |candles|);
    WickStaysFirst(longer, ob, direction, b, |candles|, |longer|);
    FirstCloseOfPrefix(candles, longer, ob, direction, b, |candles|);
    FirstCloseExact(longer, ob, direction, b, |candles|);
    FirstCloseExact(longer, ob, direction, b, |longer|);
  }

  // ---------- accepted and retested is final ----------

  lemma {:induction false} RetestStays(candles: seq<Candle>, longer: seq<Candle>, i: nat, zone: Zone,
                                       direction: Direction, b: Buffers, structures: seq<Structure>)
    requires candles <= longer && i <= |candles|
    requires ClassifiedFrom(candles, i, zone, direction, b, structures) != NO_RETEST
    ensures ClassifiedFrom(longer, i, zone, direction, b, structures)
            == ClassifiedFrom(candles, i, zone, direction, b, structures)
    decreases |candles| - i
  {
    hide RetestBy;
    if i < |candles| && RetestBy(candles[i], zone, direction, b, structures).status.NotRetested? {
      RetestStays(candles, longer, i + 1, zone, direction, b, structures);
    }
  }

  lemma {:induction false} RetestedOrNot(candles: seq<Candle>, i: nat, zone: Zone, direction: Direction, b: Buffers,
                                         structures: seq<Structure>)
    requires i <= |candles|
    ensures var r := ClassifiedFrom(candles, i, zone, direction, b, structures);
            r.status.NotRetested? <==> r == NO_RETEST
    ensures !ClassifiedFrom(candles, i, zone, direction, b, structures).status.WickOnly?
    decreases |candles| - i
  {
    if i < |candles| {
      RetestedOrNot(candles, i + 1, zone, direction, b, structures);
    }
  }

  /** Once a breaker is accepted and retested, no later candle changes anything about it; before the retest its
      failure, displacement and acceptance are already final. */
  lemma RetestedBreakerIsFinal(candles: seq<Candle>, longer: seq<Candle>, structures: seq<Structure>, ob: OrderBlock,
                               b: Buffers, period: Positive)
    requires candles <= longer
    ensures var was, now := BreakerOf(candles, structures, ob, b, period), BreakerOf(longer, structures, ob, b, period);
            was.Some? && was.value.confirmed ==>
              now.Some? && now.value.confirmed && now.value.failedAt == was.value.failedAt
              && now.value.acceptanceClose == was.value.acceptanceClose
              && now.value.displacement == was.value.displacement && now.value.structure == was.value.structure
              && (was.value.retest.status.NotRetested? || now == was)
  {
    hide FailureOf, ClassifiedFrom, Atr, DisplacementOf, StructureAfter, Confidence;
    var direction := Opposite(ob.direction);
    var failure := FailureOf(candles, ob, direction, b);
    if failure.Accepted? {
      var p := failure.position;
      AcceptedStays(candles, longer, ob, direction, b);
      AtrOfPrefix(candles, longer, p, period, TrueRange);
      assert longer[p] == candles[p];
      RetestedOrNot(candles, p + 1, ob.zone, direction, b, structures);
      if ClassifiedFrom(candles, p + 1, ob.zone, direction, b, structures) != NO_RETEST {
        RetestStays(candles, longer, p + 1, ob.zone, direction, b, structures);
      }
    }
  }

  // ---------- structure events learned later ----------

  lemma {:induction false} StructureFoundExactly(structures: seq<Structure>, direction: Direction, index: int)
    ensures StructureAfter(structures, direction, index).Some?
            <==> exists s :: s in structures && Follows(s, direction, index)
    decreases |structures|
  {
    hide Follows;
    if structures != [] {
      var earlier := structures[..|structures| - 1];
      StructureFoundExactly(earlier, direction, index);
      forall s
        ensures s in structures <==> s in earlier || s == structures[|structures| - 1]
      {
      }
    }
  }

  /** The reaction looks at structure events from the retest candle on, without an upper bound.  Events learned
      later leave a retest as it was exactly when it closed back through, was confirmed by structure already, or
      none of them is a matching event from its candle on; otherwise they confirm it, however late they come. */
  lemma StructureConfirmsInHindsight(c: Candle, zone: Zone, direction: Direction, b: Buffers,
                                     structures: seq<Structure>, more: seq<Structure>)
    requires RetestBy(c, zone, direction, b, structures) != NO_RETEST
    ensures var was, now := RetestBy(c, zone, direction, b, structures),
                            RetestBy(c, zone, direction, b, structures + more);
            (now == was <==> was.status.Failed? || was.reaction.StructureShift?
                             || forall s :: s in more ==> !Follows(s, direction, c.index))
            && (now != was ==> now == Retest(Confirmed, Some(c.index), StructureShift))
  {
    hide StructureAfter, Follows, ClosesBackThrough, ComesBack;
    StructureFoundExactly(structures, direction, c.index);
    StructureFoundExactly(structures + more, direction, c.index);
    forall s
      ensures s in structures + more <==> s in structures || s in more
    {
    }
  }

  /** A structure event that would come before the one recorded. */
  predicate ComesFirst(s: Structure, recorded: Option<Structure>, direction: Direction, index: int) {
    Follows(s, direction, index) && (recorded.None? || s.index < recorded.value.index)
  }

  lemma {:induction false} RecordedStructureStays(structures: seq<Structure>, more: seq<Structure>, direction: Direction,
                                                  index: int)
    ensures var was, now := StructureAfter(structures, direction, index),
                            StructureAfter(structures + more, direction, index);
            (now == was <==> forall s :: s in more ==> !ComesFirst(s, was, direction, index))
            && (now == was || (now.Some? && (was.None? || now.value.index < was.value.index)))
    decreases |more|
  {
    hide Follows;
    if more == [] {
      assert structures + more == structures;
    } else {
      var fewer, last := more[..|more| - 1], more[|more| - 1];
      assert (structures + more)[..|structures + more| - 1] == structures + fewer;
      RecordedStructureStays(structures, fewer, direction, index);
      var was := StructureAfter(structures, direction, index);
      assert more == fewer + [last];
      assert ComesFirst(last, was, direction, index) ==> last in more;
      assert forall s :: s in more ==> s in fewer || s == last;
      assert forall s :: s in fewer ==> s in more;
    }
  }

  /** The reaction of the retest is not yet settled by closing back through or by structure. */
  predicate OpenToStructure(r: Retest) {
    r.index.Some? && !r.status.Failed? && !r.reaction.StructureShift?
  }

  lemma {:induction false} RetestStaysExactly(candles: seq<Candle>, i: nat, zone: Zone, direction: Direction, b: Buffers,
                                              structures: seq<Structure>, more: seq<Structure>)
    requires i <= |candles|
    ensures var was := ClassifiedFrom(candles, i, zone, direction, b, structures);
            ClassifiedFrom(candles, i, zone, direction, b, structures + more) == was
            <==> (OpenToStructure(was) ==> forall s :: s in more ==> !Follows(s, direction, was.index.value))
    decreases |candles| - i
  {
    hide Follows, RetestBy;
    if i < |candles| {
      var c := candles[i];
      RetestKnown(c, zone, direction, b, structures);
      RetestKnown(c, zone, direction, b, structures + more);
      if RetestBy(c, zone, direction, b, structures) != NO_RETEST {
        StructureConfirmsInHindsight(c, zone, direction, b, structures, more);
      } else {
        RetestStaysExactly(candles, i + 1, zone, direction, b, structures, more);
      }
    }
  }

  /** Whether a candle retests does not depend on the structure events. */
  lemma RetestKnown(c: Candle, zone: Zone, direction: Direction, b: Buffers, structures: seq<Structure>)
    ensures var r := RetestBy(c, zone, direction, b, structures);
            (r.status.NotRetested? <==> r == NO_RETEST) && r.index == (if r == NO_RETEST then None else Some(c.index))
            && (r == NO_RETEST <==> !ClosesBackThrough(c, zone, direction, b) && !ComesBack(c, zone, direction))
  {
    hide BreakerReaction, ClosesBackThrough, ComesBack;
  }

  /** Structure events learned later leave the whole breaker as it was, score and grade included, if and only if
      none of them comes before the recorded one, and none confirms a retest that was still open to it. */
  lemma BreakerUnchangedExactly(candles: seq<Candle>, structures: seq<Structure>, more: seq<Structure>, ob: OrderBlock,
                                b: Buffers, period: Positive)
    ensures var was := BreakerOf(candles, structures, ob, b, period);
            BreakerOf(candles, structures + more, ob, b, period) == was
            <==> (was.Some? ==>
                    forall s :: s in more ==>
                      !ComesFirst(s, was.value.structure, was.value.direction, FailureIndex(candles, ob, b))
                      && (was.value.confirmed && OpenToStructure(was.value.retest) ==>
                            !Follows(s, was.value.direction, was.value.retest.index.value)))
  {
    hide FirstClose, FirstWick, ClassifiedFrom, Atr, DisplacementOf, StructureAfter, Confidence, Follows, ComesFirst,
         GradeOf;
    var direction := Opposite(ob.direction);
    var failure := FailureOf(candles, ob, direction, b);
    if !failure.Unbroken? {
      RecordedStructureStays(structures, more, direction, candles[failure.position].index);
      RetestStaysExactly(candles, failure.position + 1, ob.zone, direction, b, structures, more);
    }
  }

  /** The index of the candle that closed or wicked through the block. */
  function FailureIndex(candles: seq<Candle>, ob: OrderBlock, b: Buffers): int {
    var failure := FailureOf(candles, ob, Opposite(ob.direction), b);
    if failure.Unbroken? then 0 else candles[failure.position].index
  }

  // ---------- mirror images ----------

  function MirrorBlock(ob: OrderBlock): OrderBlock {
    ob.(direction := Opposite(ob.direction), zone := MirrorZone(ob.zone), discount := ob.premium,
        premium := ob.discount)
  }

  function MirrorStructure(s: Structure): Structure {
    s.(direction := Opposite(s.direction))
  }

  function MirrorStructures(structures: seq<Structure>): (mirrored: seq<Structure>)
    ensures |mirrored| == |structures|
    ensures forall i :: 0 <= i < |structures| ==> mirrored[i] == MirrorStructure(structures[i])
  {
    seq(|structures|, i requires 0 <= i < |structures| => MirrorStructure(structures[i]))
  }

  function MirrorBreaker(breaker: Option<Breaker>): Option<Breaker> {
    match breaker
    case None => None
    case Some(k) =>
      Some(k.(direction := Opposite(k.direction), zone := MirrorZone(k.zone), invalidation := -k.invalidation,
              acceptanceClose := Negated(k.acceptanceClose),
              structure := if k.structure.Some? then Some(MirrorStructure(k.structure.value)) else None))
  }

  lemma {:induction false} StructureMirrors(structures: seq<Structure>, direction: Direction, index: int)
    ensures var s := StructureAfter(structures, direction, index);
            StructureAfter(MirrorStructures(structures), Opposite(direction), index)
            == if s.Some? then Some(MirrorStructure(s.value)) else None
    decreases |structures|
  {
    hide MirrorStructures;
    if structures != [] {
      var earlier := structures[..|structures| - 1];
      StructureMirrors(earlier, direction, index);
      assert MirrorStructures(structures)[..|structures| - 1] == MirrorStructures(earlier);
    }
  }

  lemma FailureCandleMirrors(c: Candle, ob: OrderBlock, direction: Direction, b: Buffers)
    ensures ClosesThrough(MirrorCandle(c), MirrorBlock(ob), Opposite(direction), b) == ClosesThrough(c, ob, direction, b)
    ensures WicksThrough(MirrorCandle(c), MirrorBlock(ob), Opposite(direction), b) == WicksThrough(c, ob, direction, b)
  {
  }

  lemma {:induction false} FirstsMirror(candles: seq<Candle>, ob: OrderBlock, direction: Direction, b: Buffers, n: nat)
    requires n <= |candles|
    ensures FirstClose(MirrorCandles(candles), MirrorBlock(ob), Opposite(direction), b, n)
            == FirstClose(candles, ob, direction, b, n)
    ensures FirstWick(MirrorCandles(candles), MirrorBlock(ob), Opposite(direction), b, n)
            == FirstWick(candles, ob, direction, b, n)
    decreases n
  {
    hide MirrorCandles, ClosesThrough, WicksThrough, MirrorBlock, Opposite;
    if n > 0 {
      FirstsMirror(candles, ob, direction, b, n - 1);
      FailureCandleMirrors(candles[n - 1], ob, direction, b);
    }
  }

  lemma RetestMirrors(c: Candle, zone: Zone, direction: Direction, b: Buffers, structures: seq<Structure>)
    ensures RetestBy(MirrorCandle(c), MirrorZone(zone), Opposite(direction), b, MirrorStructures(structures))
            == RetestBy(c, zone, direction, b, structures)
  {
    hide StructureAfter, MirrorStructures;
    StructureMirrors(structures, direction, c.index);
  }

  lemma {:induction false} RetestsMirror(candles: seq<Candle>, i: nat, zone: Zone, direction: Direction, b: Buffers,
                                         structures: seq<Structure>)
    requires i <= |candles|
    ensures ClassifiedFrom(MirrorCandles(candles), i, MirrorZone(zone), Opposite(direction), b,
                           MirrorStructures(structures))
            == ClassifiedFrom(candles, i, zone, direction, b, structures)
    decreases |candles| - i
  {
    hide MirrorCandles, MirrorStructures, RetestBy, MirrorZone, Opposite;
    if i < |candles| {
      RetestMirrors(candles[i], zone, direction, b, structures);
      RetestsMirror(candles, i + 1, zone, direction, b, structures);
    }
  }

  lemma RangeMirrors(c: Candle, previous: Option<Candle>)
    ensures TrueRange(MirrorCandle(c), if previous.Some? then Some(MirrorCandle(previous.value)) else None)
            == TrueRange(c, previous)
  {
  }

  lemma AtrMirrors(candles: seq<Candle>, k: nat, period: Positive)
    requires k < |candles|
    ensures Atr(MirrorCandles(candles), k, period, TrueRange) == Atr(candles, k, period, TrueRange)
  {
    hide TrueRange, MirrorCandle, MirrorCandles;
    var ranges, mirrored := Ranges(candles, k + 1, TrueRange), Ranges(MirrorCandles(candles), k + 1, TrueRange);
    forall i | 0 <= i <= k
      ensures mirrored[i] == ranges[i]
    {
      RangeMirrors(candles[i], if i == 0 then None else Some(candles[i - 1]));
    }
    assert mirrored == ranges;
  }

  lemma DisplacementMirrors(c: Candle, atr: real, direction: Direction)
    ensures DisplacementOf(MirrorCandle(c), atr, Opposite(direction)) == DisplacementOf(c, atr, direction)
  {
    var d := MirrorCandle(c);
    assert d.high - d.low == c.high - c.low && Abs(d.close - d.open) == Abs(c.close - c.open);
    assert d.close - d.low == c.high - c.close && d.high - d.close == c.close - c.low;
  }

  lemma BuildMirrors(ob: OrderBlock, direction: Direction, c: Candle, accepted: bool, d: Displacement,
                     structure: Option<Structure>, retest: Retest)
    ensures Some(Build(MirrorBlock(ob), Opposite(direction), MirrorCandle(c), accepted, d,
                       if structure.Some? then Some(MirrorStructure(structure.value)) else None, retest))
            == MirrorBreaker(Some(Build(ob, direction, c, accepted, d, structure, retest)))
  {
    hide Round;
    assert MirrorZone(ob.zone).high - MirrorZone(ob.zone).low == ob.zone.high - ob.zone.low;
    assert Abs(-ob.zone.mean) == Abs(ob.zone.mean);
  }

  /** The detector treats the two sides alike on every input: the breaker of the mirrored market is the mirrored
      breaker, with the same statuses, retest, score and grade. */
  lemma BreakersMirror(candles: seq<Candle>, structures: seq<Structure>, ob: OrderBlock, b: Buffers, period: Positive)
    ensures BreakerOf(MirrorCandles(candles), MirrorStructures(structures), MirrorBlock(ob), b, period)
            == MirrorBreaker(BreakerOf(candles, structures, ob, b, period))
  {
    hide MirrorCandles, MirrorStructures, FirstClose, FirstWick, ClassifiedFrom, Atr, DisplacementOf, StructureAfter,
         Build, MirrorBreaker, MirrorCandle;
    var direction := Opposite(ob.direction);
    FirstsMirror(candles, ob, direction, b, |candles|);
    var failure := FailureOf(candles, ob, direction, b);
    if failure.Unbroken? {
      NoneMirrors();
    } else {
      var p := failure.position;
      var c := candles[p];
      StructureMirrors(structures, direction, c.index);
      MirrorIndex(c);
      AtrMirrors(candles, p, period);
      DisplacementMirrors(c, Atr(candles, p, period, TrueRange), direction);
      RetestsMirror(candles, p + 1, ob.zone, direction, b, structures);
      var d, structure := DisplacementOf(c, Atr(candles, p, period, TrueRange), direction),
                          StructureAfter(structures, direction, c.index);
      BuildMirrors(ob, direction, c, false, d, structure, Retest(WickOnly, Some(c.index), NoReaction));
      BuildMirrors(ob, direction, c, true, d, structure,
                   ClassifiedFrom(candles, p + 1, ob.zone, direction, b, structures));
    }
  }

  lemma NoneMirrors()
    ensures MirrorBreaker(None) == None
  {
  }

  lemma MirrorIndex(c: Candle)
    ensures MirrorCandle(c).index == c.index
  {
  }

  // ---------- entries ----------

  lemma {:induction false} ReactionNeedsRetest(candles: seq<Candle>, i: nat, zone: Zone, direction: Direction,
                                               b: Buffers, structures: seq<Structure>)
    requires i <= |candles|
    ensures var r := ClassifiedFrom(candles, i, zone, direction, b, structures);
            !r.reaction.NoReaction? <==> r.status.Confirmed?
    decreases |candles| - i
  {
    if i < |candles| {
      ReactionNeedsRetest(candles, i + 1, zone, direction, b, structures);
    }
  }

  /** Entry is allowed exactly on accepted breakers whose retest confirmed a reaction; a wick attempt or a retest
      that closed back through scores at most 3, and an accepted one without structure at most 5. */
  lemma EntryExactly(candles: seq<Candle>, structures: seq<Structure>, ob: OrderBlock, b: Buffers, period: Positive)
    ensures var breaker := BreakerOf(candles, structures, ob, b, period);
            breaker.Some? ==>
              var k := breaker.value;
              (k.entryAfterReaction <==> k.confirmed && k.retest.status.Confirmed?)
              && (!k.confirmed || k.retest.status.Failed? ==> k.score <= 3.0)
              && (k.structure.None? ==> k.score <= 5.0)
  {
    hide ClassifiedFrom, Atr, DisplacementOf, StructureAfter, Round;
    var direction := Opposite(ob.direction);
    var failure := FailureOf(candles, ob, direction, b);
    if failure.Accepted? {
      ReactionNeedsRetest(candles, failure.position + 1, ob.zone, direction, b, structures);
    }
  }
}
