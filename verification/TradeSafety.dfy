/** Bounded loss, the one-way stop, the irrelevance of the same-candle policy to R, and the
    symmetry between long and short trades. */
module TradeSafety {
  import opened Common
  import opened Rounding
  import opened TradeManagement

  // ---------- the stop only advances ----------

  /** `after` protects at least as much as `before`. */
  predicate AtLeastAsProtective(direction: Direction, after: real, before: real) {
    match direction
    case Bullish => after >= before
    case Bearish => after <= before
    case NoDirection => after == before
  }

  /** The stop is where the order put it or at break-even, and break-even does not lie behind the first. */
  predicate StopInPlace(pos: Position) {
    Tradable(pos)
    && (pos.currentStop == pos.stop || pos.currentStop == BreakevenLevel(pos))
    && pos.breakevenBuffer >= -Risk(pos.direction, pos.entry, pos.stop)
  }

  predicate SameFrame(p: Position, q: Position) {
    p.direction == q.direction && p.entry == q.entry && p.stop == q.stop && p.breakevenBuffer == q.breakevenBuffer
  }

  lemma {:induction false} FillsAdvanceStop(pos: Position, c: Candle, hits: seq<nat>)
    requires StopInPlace(pos)
    requires forall j :: 0 <= j < |hits| ==> hits[j] < |pos.targets|
    ensures var after := FillTargets(pos, c, hits);
            StopInPlace(after) && SameFrame(after, pos)
            && AtLeastAsProtective(pos.direction, after.currentStop, pos.currentStop)
    decreases |hits|
  {
    hide Payoff, MovesToBreakeven;
    if hits != [] && pos.remaining > 0.0 {
      FillsAdvanceStop(FillTarget(pos, c, hits[0]), c, hits[1..]);
    }
  }

  lemma ManageAdvancesStop(pos: Position, c: Candle, cfg: Config)
    requires StopInPlace(pos)
    ensures match Manage(pos, c, cfg)
            case StillOpen(next) =>
              StopInPlace(next) && SameFrame(next, pos)
              && AtLeastAsProtective(pos.direction, next.currentStop, pos.currentStop)
            case Closed(last, _) => AtLeastAsProtective(pos.direction, last.currentStop, pos.currentStop)
            case _ => false
  {
    hide Payoff, TimeExit, StopTouched, FillTargets, HitIndices, Round, ExitPrice, StopReason, ClosePrice;
    FillsAdvanceStop(pos, c, HitIndices(pos, c, 0));
  }

  /** Over every run the stop never moves backwards. */
  lemma {:induction false} RunAdvancesStop(pos: Position, candles: seq<Candle>, cfg: Config)
    requires StopInPlace(pos)
    ensures match Run(pos, candles, cfg)
            case StillOpen(last) => AtLeastAsProtective(pos.direction, last.currentStop, pos.currentStop)
            case Closed(last, _) => AtLeastAsProtective(pos.direction, last.currentStop, pos.currentStop)
            case _ => false
    decreases |candles|
  {
    hide Manage, StopInPlace;
    if candles != [] {
      ManageAdvancesStop(pos, candles[0], cfg);
      if Manage(pos, candles[0], cfg).StillOpen? {
        RunAdvancesStop(Manage(pos, candles[0], cfg).open, candles[1..], cfg);
      }
    }
  }

  // ---------- bounded loss ----------

  predicate LadderBeyondEntry(pos: Position) {
    forall k :: 0 <= k < |pos.targets| ==>
      Gain(pos.direction, pos.entry, pos.targets[k].price) >= 0.0 && pos.targets[k].closePercent >= 0.0
  }

  /** An open position that has lost nothing yet. */
  ghost predicate Sound(pos: Position) {
    StopInPlace(pos) && LadderBeyondEntry(pos)
    && 0.0 <= pos.remaining <= 1.0 && pos.realizedR >= 0.0 && OnGrid(pos.realizedR, R_SCALE)
  }

  lemma PayoffSign(pos: Position, size: real, price: real)
    requires size >= 0.0 && Gain(pos.direction, pos.entry, price) >= 0.0
    ensures Payoff(pos, size, price) >= 0.0
  {
    var risk := Risk(pos.direction, pos.entry, pos.stop);
    if risk > 0.0 && !pos.direction.NoDirection? {
      RoundRespectsGridPoint(Gain(pos.direction, pos.entry, price) / risk, 0.0, R_SCALE);
    }
    ProductNonNegative(size, RMultiple(pos.direction, pos.entry, pos.stop, price));
  }

  /** Stopped out at a stop in place, a full size loses at most one R. */
  lemma StopPayoff(pos: Position)
    requires StopInPlace(pos) && 0.0 <= pos.remaining <= 1.0
    ensures Payoff(pos, pos.remaining, pos.currentStop) >= -1.0
  {
    var risk, gain := Risk(pos.direction, pos.entry, pos.stop), Gain(pos.direction, pos.entry, pos.currentStop);
    assert gain >= -1.0 * risk;
    QuotientOrder(gain, risk, -1.0);
    RoundRespectsGridPoint(gain / risk, -1.0, R_SCALE);
    var r := RMultiple(pos.direction, pos.entry, pos.stop, pos.currentStop);
    assert r >= -1.0;
    ProductNonNegative(pos.remaining, r + 1.0);
    assert pos.remaining * (r + 1.0) == pos.remaining * r + pos.remaining;
  }

  /** What filling rungs keeps, on top of the stop: credited R only grows. */
  predicate Growing(before: Position, after: Position) {
    after.realizedR >= before.realizedR && LadderBeyondEntry(after) && 0.0 <= after.remaining <= before.remaining
    && (Gain(before.direction, before.entry, before.currentStop) >= 0.0 && before.breakevenBuffer >= 0.0
        ==> Gain(after.direction, after.entry, after.currentStop) >= 0.0)
  }

  lemma FillGrows(pos: Position, c: Candle, k: nat)
    requires k < |pos.targets| && LadderBeyondEntry(pos) && pos.remaining >= 0.0
    ensures Growing(pos, FillTarget(pos, c, k))
  {
    PayoffSign(pos, Min(pos.remaining, pos.targets[k].closePercent), pos.targets[k].price);
    hide Payoff, MovesToBreakeven;
  }

  lemma {:induction false} FillsGrow(pos: Position, c: Candle, hits: seq<nat>)
    requires LadderBeyondEntry(pos) && pos.remaining >= 0.0
    requires forall j :: 0 <= j < |hits| ==> hits[j] < |pos.targets|
    ensures Growing(pos, FillTargets(pos, c, hits)) && SameFrame(FillTargets(pos, c, hits), pos)
    decreases |hits|
  {
    hide Payoff, MovesToBreakeven, LadderBeyondEntry;
    if hits != [] && pos.remaining > 0.0 {
      FillGrows(pos, c, hits[0]);
      FillsGrow(FillTarget(pos, c, hits[0]), c, hits[1..]);
    }
  }

  /** Rounding the credited R at the end of a candle cannot take it below a grid value it had reached. */
  lemma SettleGrows(before: Position, after: Position, c: Candle)
    requires Sound(before) && StopInPlace(after) && SameFrame(after, before) && Growing(before, after)
    ensures match Settle(after, c)
            case StillOpen(next) => Sound(next) && SameFrame(next, before) && Growing(before, next)
            case Closed(_, trade) => trade.realizedR >= before.realizedR
            case _ => false
  {
    RoundLandsOnGrid(after.realizedR, R_SCALE);
    RoundRespectsGridPoint(after.realizedR, before.realizedR, R_SCALE);
  }

  lemma StopExitBounded(pos: Position, c: Candle, reason: ExitReason, ambiguous: bool)
    requires Sound(pos)
    ensures var trade := CloseAll(pos, c, reason, pos.currentStop, ambiguous, None).trade;
            trade.realizedR >= -1.0
            && (Gain(pos.direction, pos.entry, pos.currentStop) >= 0.0 ==> trade.realizedR >= pos.realizedR)
  {
    hide Payoff, Nearest, StopInPlace;
    var r := pos.realizedR + Payoff(pos, pos.remaining, pos.currentStop);
    StopPayoff(pos);
    RoundRespectsGridPoint(r, -1.0, R_SCALE);
    if Gain(pos.direction, pos.entry, pos.currentStop) >= 0.0 {
      PayoffSign(pos, pos.remaining, pos.currentStop);
      RoundRespectsGridPoint(r, pos.realizedR, R_SCALE);
    }
  }

  lemma ManageBoundsLoss(pos: Position, c: Candle, cfg: Config)
    requires Sound(pos)
    ensures match Manage(pos, c, cfg)
            case StillOpen(next) => Sound(next) && SameFrame(next, pos) && Growing(pos, next)
            case Closed(_, trade) =>
              !trade.reason.IsTimeExit() ==>
                trade.realizedR >= -1.0
                && (Gain(pos.direction, pos.entry, pos.currentStop) >= 0.0 && pos.breakevenBuffer >= 0.0
                    ==> trade.realizedR >= pos.realizedR)
            case _ => false
  {
    hide Payoff, TimeExit, StopTouched, FillTargets, HitIndices, Round, ExitPrice, ClosePrice;
    var hits := HitIndices(pos, c, 0);
    FillsAdvanceStop(pos, c, hits);
    FillsGrow(pos, c, hits);
    SettleGrows(pos, FillTargets(pos, c, hits), c);
    StopExitBounded(pos, c, AmbiguousStopFirst, true);
    StopExitBounded(pos, c, StopReason(pos), false);
  }

  /** Loss is bounded by one R on every run that does not end in a time exit; once the stop is at
      entry or better, what has been credited can no longer be lost. */
  lemma {:induction false} RunBoundsLoss(pos: Position, candles: seq<Candle>, cfg: Config)
    requires Sound(pos)
    ensures match Run(pos, candles, cfg)
            case StillOpen(last) => Sound(last) && last.realizedR >= pos.realizedR
            case Closed(_, trade) =>
              !trade.reason.IsTimeExit() ==>
                trade.realizedR >= -1.0
                && (Gain(pos.direction, pos.entry, pos.currentStop) >= 0.0 && pos.breakevenBuffer >= 0.0
                    ==> trade.realizedR >= pos.realizedR)
            case _ => false
    decreases |candles|
  {
    hide Manage, StopInPlace, LadderBeyondEntry, OnGrid;
    if candles != [] {
      ManageBoundsLoss(pos, candles[0], cfg);
      if Manage(pos, candles[0], cfg).StillOpen? {
        RunBoundsLoss(Manage(pos, candles[0], cfg).open, candles[1..], cfg);
      }
    }
  }

  /** A position just filled with its ladder beyond entry is sound, so the two bounds above apply to it. */
  lemma FreshIsSound(pos: Position)
    requires Fresh(pos) && Tradable(pos) && LadderBeyondEntry(pos) && pos.breakevenBuffer >= 0.0
    ensures Sound(pos)
  {
  }

  // ---------- the floor and the time exits ----------

  predicate LimitOff(minutes: Option<real>) {
    minutes.Some? ==> minutes.value <= 0.0
  }

  /** Settings under which no time exit can ever be taken. */
  predicate TimeExitsOff(cfg: Config) {
    (cfg.fridayCutoff.Some? ==> cfg.fridayCutoff.value >= SECONDS_PER_DAY)
    && LimitOff(cfg.maxHoldMinutes) && LimitOff(cfg.staleAfterMinutes) && !cfg.closeAtSessionEnd
  }

  /** Every sound position that is closed loses at most one R. */
  ghost predicate FloorHolds(cfg: Config) {
    forall pos: Position, candles: seq<Candle> ::
      Sound(pos) && Run(pos, candles, cfg).Closed? ==> Run(pos, candles, cfg).trade.realizedR >= -1.0
  }

  lemma {:induction false} NeverTimesOut(pos: Position, candles: seq<Candle>, cfg: Config)
    requires TimeExitsOff(cfg)
    ensures Run(pos, candles, cfg).Closed? ==> !Run(pos, candles, cfg).trade.reason.IsTimeExit()
    decreases |candles|
  {
    hide HitIndices, FillTargets, StopTouched, Payoff, Round, ExitPrice, Weekday;
    if candles != [] {
      assert TimeExit(pos, candles[0], cfg).None?;
      match Manage(pos, candles[0], cfg)
      case StillOpen(next) => NeverTimesOut(next, candles[1..], cfg);
      case Closed(_, _) =>
      case _ => NeverTimesOut(pos, candles[1..], cfg);
    }
  }

  /** A close time at which one of the settings takes a position entered at time zero out. */
  function ExitTime(cfg: Config): int {
    if cfg.fridayCutoff.Some? && cfg.fridayCutoff.value < SECONDS_PER_DAY then 2 * SECONDS_PER_DAY - 1
    else if !LimitOff(cfg.maxHoldMinutes) then (cfg.maxHoldMinutes.value * 60.0).Floor + 1
    else if !LimitOff(cfg.staleAfterMinutes) then (cfg.staleAfterMinutes.value * 60.0).Floor + 1
    else 0
  }

  lemma ExitTimeExits(pos: Position, c: Candle, cfg: Config)
    requires !TimeExitsOff(cfg) && c.closeTime == ExitTime(cfg)
    requires pos.entryTime == 0 && pos.partials == [] && pos.session == "a" && c.session == "b"
    ensures TimeExit(pos, c, cfg).Some?
  {
    if cfg.fridayCutoff.Some? && cfg.fridayCutoff.value < SECONDS_PER_DAY {
      assert Weekday(c.closeTime) == FRIDAY && c.closeTime % SECONDS_PER_DAY == SECONDS_PER_DAY - 1;
    }
  }

  /** A time exit is taken before the stop and at the close: whichever setting allows one, a sound fresh position
      can lose ten R. */
  lemma TimeExitCanLoseMore(cfg: Config) returns (pos: Position, c: Candle)
    requires !TimeExitsOff(cfg)
    ensures Sound(pos) && Fresh(pos) && Manage(pos, c, cfg).Closed? && Manage(pos, c, cfg).trade.realizedR == -10.0
  {
    hide TimeExit, TimeExitsOff, ExitTime;
    pos := Position(1, Bullish, 100.0, 99.0, 99.0, [], 1.0, 0.0, [], true, 1, None, 0.0, 0, "a", OrderTag(Market, 0));
    c := Candle(0, ExitTime(cfg), 97.0, 97.0, 89.0, 90.0, true, "b");
    ExitTimeExits(pos, c, cfg);
    FreshIsSound(pos);
    IntegersOnGrid(-10, R_SCALE, 100000);
    RoundFixesGrid(-10.0, R_SCALE);
    assert RMultiple(pos.direction, pos.entry, pos.stop, 90.0) == -10.0;
  }

  /** The floor of minus one R holds for every sound position on every run exactly when the settings rule every
      time exit out. */
  lemma FloorHoldsExactly(cfg: Config)
    ensures FloorHolds(cfg) <==> TimeExitsOff(cfg)
  {
    hide TimeExitsOff, Sound, Manage;
    if TimeExitsOff(cfg) {
      forall pos: Position, candles: seq<Candle> | Sound(pos) && Run(pos, candles, cfg).Closed?
        ensures Run(pos, candles, cfg).trade.realizedR >= -1.0
      {
        RunBoundsLoss(pos, candles, cfg);
        NeverTimesOut(pos, candles, cfg);
      }
    } else {
      var pos, c := TimeExitCanLoseMore(cfg);
      assert Run(pos, [c], cfg) == Manage(pos, c, cfg);
    }
  }

  // ---------- the same-candle policy ----------

  /** Same trade but for how the exit is labelled. */
  predicate SameButLabel(a: Outcome, b: Outcome) {
    a == b
    || (a.Closed? && b.Closed? && a.last == b.last
        && a.trade == b.trade.(reason := a.trade.reason, ambiguous := a.trade.ambiguous, exitPrice := a.trade.exitPrice))
  }

  /** Stop-first is not a choice: without the conservative policy the plain stop branch takes the same exit. */
  lemma {:induction false} PolicyOnlyRelabels(pos: Position, candles: seq<Candle>, cfg: Config)
    ensures SameButLabel(Run(pos, candles, cfg.(stopFirst := true)), Run(pos, candles, cfg.(stopFirst := false)))
    decreases |candles|
  {
    hide Manage;
    if candles != [] {
      PolicyOnlyRelabelsOnce(pos, candles[0], cfg);
      match Manage(pos, candles[0], cfg.(stopFirst := true))
      case StillOpen(next) => PolicyOnlyRelabels(next, candles[1..], cfg);
      case Closed(_, _) =>
      case _ => PolicyOnlyRelabels(pos, candles[1..], cfg);
    }
  }

  lemma PolicyOnlyRelabelsOnce(pos: Position, c: Candle, cfg: Config)
    ensures SameButLabel(Manage(pos, c, cfg.(stopFirst := true)), Manage(pos, c, cfg.(stopFirst := false)))
  {
    hide Payoff, FillTargets, HitIndices, Round, ExitPrice, ClosePrice, StopTouched, StopReason;
    assert TimeExit(pos, c, cfg.(stopFirst := true)) == TimeExit(pos, c, cfg.(stopFirst := false));
  }

  // ---------- long and short are mirror images ----------

  function MirrorDirection(d: Direction): Direction {
    match d
    case Bullish => Bearish
    case Bearish => Bullish
    case NoDirection => NoDirection
  }

  function MirrorTarget(t: Target): Target {
    t.(price := -t.price)
  }

  function MirrorTargets(ts: seq<Target>): (m: seq<Target>)
    ensures |m| == |ts| && forall k :: 0 <= k < |ts| ==> m[k] == MirrorTarget(ts[k])
  {
    seq(|ts|, k requires 0 <= k < |ts| => MirrorTarget(ts[k]))
  }

  function MirrorPartials(ps: seq<Partial>): (m: seq<Partial>)
    ensures |m| == |ps| && forall k :: 0 <= k < |ps| ==> m[k] == ps[k].(price := -ps[k].price)
  {
    seq(|ps|, k requires 0 <= k < |ps| => ps[k].(price := -ps[k].price))
  }

  function MirrorPosition(p: Position): Position {
    p.(direction := MirrorDirection(p.direction), entry := -p.entry, stop := -p.stop, currentStop := -p.currentStop,
       targets := MirrorTargets(p.targets), partials := MirrorPartials(p.partials))
  }

  function MirrorCandle(c: Candle): Candle {
    c.(open := -c.open, high := -c.low, low := -c.high, close := -c.close)
  }

  function MirrorPrice(p: Option<real>): Option<real> {
    if p.Some? then Some(-p.value) else None
  }

  function MirrorTrade(t: Trade): Trade {
    t.(partials := MirrorPartials(t.partials), exitPrice := MirrorPrice(t.exitPrice))
  }

  function MirrorOutcome(o: Outcome): Outcome {
    match o
    case StillOpen(p) => StillOpen(MirrorPosition(p))
    case Closed(p, t) => Closed(MirrorPosition(p), MirrorTrade(t))
    case _ => o
  }

  lemma PayoffMirror(pos: Position, size: real, price: real)
    ensures Payoff(MirrorPosition(pos), size, -price) == Payoff(pos, size, price)
  {
    var m := MirrorPosition(pos);
    assert Risk(m.direction, m.entry, m.stop) == Risk(pos.direction, pos.entry, pos.stop);
    assert Gain(m.direction, m.entry, -price) == Gain(pos.direction, pos.entry, price);
  }

  lemma {:induction false} HitIndicesMirror(pos: Position, c: Candle, from: nat)
    requires from <= |pos.targets|
    ensures HitIndices(MirrorPosition(pos), MirrorCandle(c), from) == HitIndices(pos, c, from)
    decreases |pos.targets| - from
  {
    if from < |pos.targets| {
      HitIndicesMirror(pos, c, from + 1);
      assert Hit(MirrorPosition(pos), MirrorTarget(pos.targets[from]), MirrorCandle(c)) == Hit(pos, pos.targets[from], c);
    }
  }

  lemma FillMirror(pos: Position, c: Candle, k: nat)
    requires k < |pos.targets| && !pos.direction.NoDirection?
    ensures FillTarget(MirrorPosition(pos), MirrorCandle(c), k) == MirrorPosition(FillTarget(pos, c, k))
  {
    var t, m, next := pos.targets[k], MirrorPosition(pos), FillTarget(pos, c, k);
    PayoffMirror(pos, Min(pos.remaining, t.closePercent), t.price);
    PayoffMirror(pos, 1.0, t.price);
    assert RMultiple(m.direction, m.entry, m.stop, -t.price) == RMultiple(pos.direction, pos.entry, pos.stop, t.price);
    hide Payoff, RMultiple;
    assert BreakevenLevel(m) == -BreakevenLevel(pos);
    var fm := FillTarget(m, MirrorCandle(c), k);
    assert fm.targets == MirrorTargets(next.targets);
    assert fm.partials == MirrorPartials(next.partials);
  }

  lemma {:induction false} FillsMirror(pos: Position, c: Candle, hits: seq<nat>)
    requires !pos.direction.NoDirection?
    requires forall j :: 0 <= j < |hits| ==> hits[j] < |pos.targets|
    ensures FillTargets(MirrorPosition(pos), MirrorCandle(c), hits) == MirrorPosition(FillTargets(pos, c, hits))
    decreases |hits|
  {
    if hits != [] && pos.remaining > 0.0 {
      FillMirror(pos, c, hits[0]);
      FillsMirror(FillTarget(pos, c, hits[0]), c, hits[1..]);
    }
  }

  lemma CloseAllMirror(pos: Position, c: Candle, reason: ExitReason, price: real, ambiguous: bool, exit: Option<real>)
    ensures CloseAll(MirrorPosition(pos), MirrorCandle(c), reason, -price, ambiguous, MirrorPrice(exit))
         == MirrorOutcome(CloseAll(pos, c, reason, price, ambiguous, exit))
  {
    PayoffMirror(pos, pos.remaining, price);
    hide Payoff, Round;
    assert LastTargetPrice(MirrorPosition(pos)) == MirrorPrice(LastTargetPrice(pos));
  }

  lemma SettleMirror(pos: Position, c: Candle)
    ensures Settle(MirrorPosition(pos), MirrorCandle(c)) == MirrorOutcome(Settle(pos, c))
  {
    hide Round;
    assert LastTargetPrice(MirrorPosition(pos)) == MirrorPrice(LastTargetPrice(pos));
  }

  /** Everything the branches of Manage look at is the same, or negated, in the mirror. */
  lemma ObservationsMirror(pos: Position, c: Candle, cfg: Config)
    requires Tradable(pos)
    ensures var m, d := MirrorPosition(pos), MirrorCandle(c);
            Tradable(m)
            && TimeExit(m, d, cfg) == TimeExit(pos, c, cfg)
            && HitIndices(m, d, 0) == HitIndices(pos, c, 0)
            && StopTouched(m.direction, m.currentStop, d) == StopTouched(pos.direction, pos.currentStop, c)
            && ClosePrice(m, d) == -ClosePrice(pos, c)
            && StopReason(m) == StopReason(pos)
  {
    HitIndicesMirror(pos, c, 0);
    hide TimeExit, HitIndices, MirrorTargets, MirrorPartials;
  }

  lemma ClosingMirror(pos: Position, c: Candle, cfg: Config)
    requires Tradable(pos)
    requires TimeExit(pos, c, cfg).Some? || StopTouched(pos.direction, pos.currentStop, c)
    ensures Manage(MirrorPosition(pos), MirrorCandle(c), cfg) == MirrorOutcome(Manage(pos, c, cfg))
  {
    hide CloseAll, HitIndices, TimeExit, MirrorTargets, MirrorPartials, StopTouched, ClosePrice, StopReason,
         MirrorOutcome, FillTargets, Settle;
    var exit, close := TimeExit(pos, c, cfg), ClosePrice(pos, c);
    ObservationsMirror(pos, c, cfg);
    if exit.Some? {
      CloseAllMirror(pos, c, exit.value, close, false, Some(close));
    } else {
      CloseAllMirror(pos, c, AmbiguousStopFirst, pos.currentStop, true, None);
      CloseAllMirror(pos, c, StopReason(pos), pos.currentStop, false, None);
    }
  }

  lemma FillingMirror(pos: Position, c: Candle, cfg: Config)
    requires Tradable(pos)
    requires TimeExit(pos, c, cfg).None? && !StopTouched(pos.direction, pos.currentStop, c)
    ensures Manage(MirrorPosition(pos), MirrorCandle(c), cfg) == MirrorOutcome(Manage(pos, c, cfg))
  {
    hide CloseAll, HitIndices, TimeExit, MirrorPosition, StopTouched, ClosePrice, StopReason, MirrorOutcome,
         FillTargets, Settle;
    var hits := HitIndices(pos, c, 0);
    ObservationsMirror(pos, c, cfg);
    FillsMirror(pos, c, hits);
    SettleMirror(FillTargets(pos, c, hits), c);
  }

  /** Negating every price and swapping highs with lows turns a long trade into a short one with the
      same exits, the same sizes and the same R. */
  lemma ManageMirror(pos: Position, c: Candle, cfg: Config)
    ensures Manage(MirrorPosition(pos), MirrorCandle(c), cfg) == MirrorOutcome(Manage(pos, c, cfg))
  {
    if !Tradable(pos) {
      RefusedMirror(pos, c, cfg);
    } else if TimeExit(pos, c, cfg).Some? || StopTouched(pos.direction, pos.currentStop, c) {
      ClosingMirror(pos, c, cfg);
    } else {
      FillingMirror(pos, c, cfg);
    }
  }

  lemma RefusedMirror(pos: Position, c: Candle, cfg: Config)
    requires !Tradable(pos)
    ensures Manage(MirrorPosition(pos), MirrorCandle(c), cfg) == MirrorOutcome(Manage(pos, c, cfg))
  {
    hide MirrorTargets, MirrorPartials, TimeExit, HitIndices, FillTargets;
  }
}
