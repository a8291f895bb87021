/** The target ladder: how its percentages are normalised, and exactly when a position whose
    rungs have all been reached is closed. */
module TargetLadder {
  import opened Common
  import opened Rounding
  import opened TradeManagement

  // ---------- building the ladder ----------

  datatype LadderConfig = LadderConfig(milestones: seq<real>, closePercents: seq<Option<real>>,
                                       finalRr: Option<real>, fixedRr: bool)

  const FINAL_INDEX := 999

  function FinalRr(cfg: LadderConfig, estimatedRr: real): real {
    var rr := if cfg.finalRr.None? && !cfg.fixedRr then Some(estimatedRr) else cfg.finalRr;
    if rr.None? || rr.value <= 0.0 then 3.0 else rr.value
  }

  function PositiveOnly(xs: seq<real>): seq<real> {
    if xs == [] then []
    else if xs[0] > 0.0 then [xs[0]] + PositiveOnly(xs[1..]) else PositiveOnly(xs[1..])
  }

  function Largest(xs: seq<real>): (m: real)
    requires xs != []
    ensures m in xs && forall x :: x in xs ==> x <= m
  {
    assert xs == [xs[0]] + xs[1..];
    if |xs| == 1 then xs[0] else Max(xs[0], Largest(xs[1..]))
  }

  /** The rungs in R: positive milestones, topped up with the final one when none reaches it. */
  function Milestones(cfg: LadderConfig, estimatedRr: real): (ms: seq<real>)
    ensures ms != []
  {
    var final := FinalRr(cfg, estimatedRr);
    var positive := PositiveOnly(if cfg.milestones == [] then [1.0, 2.0, 3.0] else cfg.milestones);
    var ms := if positive == [] then [1.0, 2.0, final] else positive;
    if Largest(ms) < final then ms + [final] else ms
  }

  function RungPercent(cfg: LadderConfig, n: nat, k: nat): real
    requires k < n
  {
    if k < |cfg.closePercents| && cfg.closePercents[k].Some? then cfg.closePercents[k].value
    else Round(1.0 / n as real, R_SCALE)
  }

  function RungPrice(entry: real, risk: real, isBuy: bool, milestone: real): real {
    Round(if isBuy then entry + risk * milestone else entry - risk * milestone, R_SCALE)
  }

  function Rung(entry: real, risk: real, isBuy: bool, cfg: LadderConfig, ms: seq<real>, k: nat): Target
    requires k < |ms|
  {
    Target(if k == |ms| - 1 then FINAL_INDEX else k + 1, RungPrice(entry, risk, isBuy, ms[k]),
           RungPercent(cfg, |ms|, k), Some(ms[k]), false)
  }

  function Rungs(entry: real, risk: real, isBuy: bool, cfg: LadderConfig, ms: seq<real>, n: nat): seq<Target>
    requires n <= |ms|
    decreases n
  {
    if n == 0 then [] else Rungs(entry, risk, isBuy, cfg, ms, n - 1) + [Rung(entry, risk, isBuy, cfg, ms, n - 1)]
  }

  function TotalPercent(ts: seq<Target>): real {
    if ts == [] then 0.0 else TotalPercent(ts[..|ts| - 1]) + ts[|ts| - 1].closePercent
  }

  function Scaled(ts: seq<Target>, total: real): (scaled: seq<Target>)
    requires total > 0.0
    ensures |scaled| == |ts|
  {
    if ts == [] then []
    else
      var last := ts[|ts| - 1];
      Scaled(ts[..|ts| - 1], total) + [last.(closePercent := Round(last.closePercent / total, R_SCALE))]
  }

  /** Percentages divided by their total and rounded; a ladder without a positive total is left alone. */
  function Normalize(ts: seq<Target>): seq<Target> {
    var total := TotalPercent(ts);
    if total <= 0.0 then ts else Scaled(ts, total)
  }

  function Ladder(entry: real, stop: real, isBuy: bool, cfg: LadderConfig, estimatedRr: real): seq<Target> {
    var risk, ms := Abs(entry - stop), Milestones(cfg, estimatedRr);
    if risk <= 0.0 then [] else Normalize(Rungs(entry, risk, isBuy, cfg, ms, |ms|))
  }

  method TargetLadder(entry: real, stop: real, isBuy: bool, cfg: LadderConfig, estimatedRr: real)
      returns (targets: seq<Target>)
    ensures targets == Ladder(entry, stop, isBuy, cfg, estimatedRr)
  {
    var risk := Abs(entry - stop);
    if risk <= 0.0 {
      return [];
    }
    var ms := Milestones(cfg, estimatedRr);
    targets := [];
    for k := 0 to |ms|
      invariant targets == Rungs(entry, risk, isBuy, cfg, ms, k)
    {
      targets := targets + [Rung(entry, risk, isBuy, cfg, ms, k)];
    }
    targets := NormalizeClosePercents(targets);
  }

  method NormalizeClosePercents(ts: seq<Target>) returns (normalized: seq<Target>)
    ensures normalized == Normalize(ts)
  {
    var total := 0.0;
    for k := 0 to |ts|
      invariant total == TotalPercent(ts[..k])
    {
      assert ts[..k + 1][..k] == ts[..k];
      total := total + ts[k].closePercent;
    }
    assert ts[..|ts|] == ts;
    if total <= 0.0 {
      return ts;
    }
    normalized := [];
    for k := 0 to |ts|
      invariant normalized == Scaled(ts[..k], total)
    {
      assert ts[..k + 1][..k] == ts[..k];
      normalized := normalized + [ts[k].(closePercent := Round(ts[k].closePercent / total, R_SCALE))];
    }
  }

  // ---------- the percentages of a normalised ladder ----------

  lemma {:induction false} ScaledTotal(ts: seq<Target>, total: real)
    requires total > 0.0
    ensures Abs(TotalPercent(Scaled(ts, total)) - TotalPercent(ts) / total) <= HalfUnits(|ts| as real)
  {
    hide Round, HalfUnits, Abs;
    if ts == [] {
      NoShares(total);
    } else {
      var n, scaled := |ts| - 1, Scaled(ts, total);
      var p := ts[n].closePercent;
      ScaledTotal(ts[..n], total);
      RoundRError(p / total);
      QuotientSum(TotalPercent(ts[..n]), p, total);
      assert scaled[..n] == Scaled(ts[..n], total);
      OneMoreShare(TotalPercent(scaled[..n]), TotalPercent(ts[..n]) / total, Round(p / total, R_SCALE), p / total, n);
    }
  }

  lemma NoShares(total: real)
    requires total > 0.0
    ensures Abs(0.0 - 0.0 / total) <= HalfUnits(0.0)
  {
    QuotientOrder(0.0, total, 0.0);
  }

  lemma OneMoreShare(a: real, b: real, share: real, exact: real, n: nat)
    requires Abs(a - b) <= HalfUnits(n as real) && Abs(share - exact) <= HalfUnits(1.0)
    ensures Abs((a + share) - (b + exact)) <= HalfUnits((n + 1) as real)
  {
  }

  /** Normalised percentages add up to one within half a unit in the fifth digit per rung. */
  lemma NormalizedTotal(ts: seq<Target>)
    requires TotalPercent(ts) > 0.0
    ensures |Normalize(ts)| == |ts|
    ensures Abs(TotalPercent(Normalize(ts)) - 1.0) <= HalfUnits(|ts| as real)
  {
    ScaledTotal(ts, TotalPercent(ts));
    var total := TotalPercent(ts);
    QuotientOrder(total, total, 1.0);
    hide TotalPercent, Scaled;
  }

  lemma {:induction false} ScaledAt(ts: seq<Target>, total: real, k: nat)
    requires total > 0.0 && k < |ts|
    ensures Scaled(ts, total)[k] == ts[k].(closePercent := Round(ts[k].closePercent / total, R_SCALE))
  {
    if k < |ts| - 1 {
      ScaledAt(ts[..|ts| - 1], total, k);
    }
  }

  lemma NormalizeKeepsNonNegative(ts: seq<Target>)
    requires NonNegative(ts)
    ensures NonNegative(Normalize(ts))
  {
    var total := TotalPercent(ts);
    if total > 0.0 {
      forall k | 0 <= k < |ts|
        ensures Scaled(ts, total)[k].closePercent >= 0.0
      {
        ScaledAt(ts, total, k);
        IntegersOnGrid(0, R_SCALE, 100000);
        QuotientOrder(ts[k].closePercent, total, 0.0);
        RoundRespectsGridPoint(ts[k].closePercent / total, 0.0, R_SCALE);
      }
    }
  }

  // ---------- filling the ladder ----------

  function FilledPercent(ts: seq<Target>): real {
    if ts == [] then 0.0
    else FilledPercent(ts[..|ts| - 1]) + (if ts[|ts| - 1].filled then ts[|ts| - 1].closePercent else 0.0)
  }

  predicate NonNegative(ts: seq<Target>) {
    forall k :: 0 <= k < |ts| ==> ts[k].closePercent >= 0.0
  }

  lemma {:induction false} FilledAtMostTotal(ts: seq<Target>)
    requires NonNegative(ts)
    ensures FilledPercent(ts) <= TotalPercent(ts)
    ensures (forall k :: 0 <= k < |ts| ==> ts[k].filled) ==> FilledPercent(ts) == TotalPercent(ts)
  {
    if ts != [] {
      FilledAtMostTotal(ts[..|ts| - 1]);
    }
  }

  lemma {:induction false} FilledAfterFill(ts: seq<Target>, k: nat)
    requires k < |ts| && !ts[k].filled
    ensures FilledPercent(ts[k := ts[k].(filled := true)]) == FilledPercent(ts) + ts[k].closePercent
    ensures TotalPercent(ts[k := ts[k].(filled := true)]) == TotalPercent(ts)
  {
    var after, n := ts[k := ts[k].(filled := true)], |ts| - 1;
    if k == n {
      assert after[..n] == ts[..n];
    } else {
      assert after[..n] == ts[..n][k := ts[..n][k].(filled := true)];
      FilledAfterFill(ts[..n], k);
    }
  }

  /** The size left is what the filled rungs leave, never below zero. */
  ghost predicate OnLadder(pos: Position) {
    Tradable(pos) && NonNegative(pos.targets) && pos.remaining == Max(0.0, 1.0 - FilledPercent(pos.targets))
  }

  /** The ladder only changes by being filled. */
  ghost predicate Climbed(after: Position, before: Position) {
    after.direction == before.direction && |after.targets| == |before.targets|
    && TotalPercent(after.targets) == TotalPercent(before.targets)
    && forall k :: 0 <= k < |after.targets| ==>
         after.targets[k].price == before.targets[k].price && (before.targets[k].filled ==> after.targets[k].filled)
  }

  lemma FillClimbs(pos: Position, c: Candle, k: nat)
    requires OnLadder(pos) && k < |pos.targets| && !pos.targets[k].filled && pos.remaining > 0.0
    ensures OnLadder(FillTarget(pos, c, k)) && Climbed(FillTarget(pos, c, k), pos)
  {
    hide Payoff, MovesToBreakeven, BreakevenLevel;
    FilledAfterFill(pos.targets, k);
  }

  lemma {:induction false} FillsClimb(pos: Position, c: Candle, hits: seq<nat>)
    requires OnLadder(pos)
    requires forall j :: 0 <= j < |hits| ==> hits[j] < |pos.targets| && !pos.targets[hits[j]].filled
    requires forall i, j :: 0 <= i < j < |hits| ==> hits[i] < hits[j]
    ensures var after := FillTargets(pos, c, hits);
            OnLadder(after) && Climbed(after, pos)
            && (after.remaining > 0.0 ==> forall j :: 0 <= j < |hits| ==> after.targets[hits[j]].filled)
    decreases |hits|
  {
    hide Payoff, MovesToBreakeven, BreakevenLevel, OnLadder, TotalPercent;
    if hits != [] && pos.remaining > 0.0 {
      var next := FillTarget(pos, c, hits[0]);
      FillClimbs(pos, c, hits[0]);
      FillsClimb(next, c, hits[1..]);
      var after := FillTargets(pos, c, hits);
      assert next.targets[hits[0]].filled;
      forall j | 0 <= j < |hits| && after.remaining > 0.0
        ensures after.targets[hits[j]].filled
      {
        if j > 0 {
          assert hits[1..][j - 1] == hits[j];
        }
      }
    }
  }

  /** No time exit and no stop on any candle the position lives through. */
  predicate Undisturbed(pos: Position, candles: seq<Candle>, cfg: Config)
    decreases |candles|
  {
    candles == []
    || (TimeExit(pos, candles[0], cfg).None? && !StopTouched(pos.direction, pos.currentStop, candles[0])
        && match Manage(pos, candles[0], cfg)
           case StillOpen(next) => Undisturbed(next, candles[1..], cfg)
           case _ => true)
  }

  lemma UndisturbedCandle(pos: Position, c: Candle, cfg: Config)
    requires OnLadder(pos)
    requires TimeExit(pos, c, cfg).None? && !StopTouched(pos.direction, pos.currentStop, c)
    ensures match Manage(pos, c, cfg)
            case StillOpen(next) =>
              OnLadder(next) && Climbed(next, pos) && next.remaining > 0.000000001
              && forall k :: 0 <= k < |pos.targets| && TargetTouched(pos.direction, pos.targets[k].price, c) ==>
                   next.targets[k].filled
            case Closed(last, trade) =>
              trade.reason.FinalTarget? && TotalPercent(pos.targets) >= 1.0 - 0.000000001
            case _ => false
  {
    hide Payoff, TimeExit, StopTouched, Round, ExitPrice, FillTargets, TotalPercent, FilledPercent, TargetTouched;
    var hits := HitIndices(pos, c, 0);
    var after := FillTargets(pos, c, hits);
    FillsClimb(pos, c, hits);
    FilledAtMostTotal(after.targets);
    if after.remaining > 0.000000001 {
      forall k | 0 <= k < |pos.targets| && TargetTouched(pos.direction, pos.targets[k].price, c)
        ensures after.targets[k].filled
      {
        if !pos.targets[k].filled {
          assert k in hits;
        }
      }
    }
  }

  ghost predicate Reached(pos: Position, candles: seq<Candle>, k: nat)
    requires k < |pos.targets|
  {
    pos.targets[k].filled
    || exists j :: 0 <= j < |candles| && TargetTouched(pos.direction, pos.targets[k].price, candles[j])
  }

  lemma {:induction false} UndisturbedRun(pos: Position, candles: seq<Candle>, cfg: Config)
    requires OnLadder(pos) && Undisturbed(pos, candles, cfg) && pos.remaining > 0.000000001
    ensures match Run(pos, candles, cfg)
            case StillOpen(last) =>
              OnLadder(last) && Climbed(last, pos) && last.remaining > 0.000000001
              && forall k :: 0 <= k < |pos.targets| && Reached(pos, candles, k) ==> last.targets[k].filled
            case Closed(_, trade) =>
              trade.reason.FinalTarget? && TotalPercent(pos.targets) >= 1.0 - 0.000000001
            case _ => false
    decreases |candles|
  {
    hide Manage, OnLadder, TotalPercent, TimeExit, StopTouched, TargetTouched;
    if candles != [] {
      UndisturbedCandle(pos, candles[0], cfg);
      if Manage(pos, candles[0], cfg).StillOpen? {
        var next := Manage(pos, candles[0], cfg).open;
        UndisturbedRun(next, candles[1..], cfg);
        forall k | 0 <= k < |pos.targets| && Reached(pos, candles, k)
          ensures Reached(next, candles[1..], k)
        {
        }
      }
    }
  }

  /** The exact condition under which reaching every rung closes the trade.  The rungs of a fresh
      position have all been reached and neither a stop nor a time exit interfered: it is closed,
      at its final target, if and only if the percentages add up to one within a billionth.
      Otherwise it is still open with exactly the missing percentage. */
  lemma AllRungsReached(pos: Position, candles: seq<Candle>, cfg: Config)
    requires Fresh(pos) && Tradable(pos) && NonNegative(pos.targets)
    requires forall k :: 0 <= k < |pos.targets| ==> !pos.targets[k].filled && Reached(pos, candles, k)
    requires Undisturbed(pos, candles, cfg)
    ensures Run(pos, candles, cfg).Closed? <==> TotalPercent(pos.targets) >= 1.0 - 0.000000001
    ensures Run(pos, candles, cfg).Closed? ==> Run(pos, candles, cfg).trade.reason.FinalTarget?
    ensures Run(pos, candles, cfg).StillOpen? ==>
              Run(pos, candles, cfg).open.remaining == 1.0 - TotalPercent(pos.targets)
  {
    NothingFilled(pos.targets);
    UndisturbedRun(pos, candles, cfg);
    hide Run, TotalPercent, FilledPercent, Undisturbed;
    if Run(pos, candles, cfg).StillOpen? {
      var last := Run(pos, candles, cfg).open;
      FilledAtMostTotal(last.targets);
    }
  }

  lemma {:induction false} NothingFilled(ts: seq<Target>)
    requires forall k :: 0 <= k < |ts| ==> !ts[k].filled
    ensures FilledPercent(ts) == 0.0
  {
    if ts != [] {
      NothingFilled(ts[..|ts| - 1]);
    }
  }

  /** For a normalised ladder the leftover of a trade with every rung reached is at most half a
      unit in the fifth digit per rung. */
  lemma NormalizedLadderLeftover(pos: Position, raw: seq<Target>, candles: seq<Candle>, cfg: Config)
    requires TotalPercent(raw) > 0.0 && pos.targets == Normalize(raw)
    requires Fresh(pos) && Tradable(pos) && NonNegative(raw)
    requires forall k :: 0 <= k < |pos.targets| ==> !pos.targets[k].filled && Reached(pos, candles, k)
    requires Undisturbed(pos, candles, cfg)
    ensures match Run(pos, candles, cfg)
            case StillOpen(last) => 0.000000001 < last.remaining <= HalfUnits(|raw| as real)
            case Closed(_, trade) => trade.reason.FinalTarget?
            case _ => false
  {
    hide Run, Normalize, TotalPercent, FilledPercent, Undisturbed, Reached, NonNegative;
    NormalizedTotal(raw);
    NormalizeKeepsNonNegative(raw);
    AllRungsReached(pos, candles, cfg);
    NothingFilled(pos.targets);
    assert OnLadder(pos);
    UndisturbedRun(pos, candles, cfg);
  }

  /** Three equal rungs come out as 0.33333 each, 0.99999 in all: no such trade is ever closed by its targets. */
  lemma ThreeEqualRungsStayOpen(pos: Position, raw: seq<Target>, candles: seq<Candle>, cfg: Config)
    requires |raw| == 3 && forall k :: 0 <= k < 3 ==> raw[k].closePercent == Round(1.0 / 3.0, R_SCALE) && !raw[k].filled
    requires pos.targets == Normalize(raw) && Fresh(pos) && Tradable(pos) && Undisturbed(pos, candles, cfg)
    ensures TotalPercent(pos.targets) == 0.99999
    ensures Run(pos, candles, cfg).StillOpen?
  {
    ThreeEqualRungs(raw);
    NothingFilled(pos.targets);
    UndisturbedRun(pos, candles, cfg);
    hide Run, Normalize, TotalPercent, FilledPercent, Undisturbed;
  }

  lemma ThreeEqualRungs(raw: seq<Target>)
    requires |raw| == 3 && forall k :: 0 <= k < 3 ==> raw[k].closePercent == Round(1.0 / 3.0, R_SCALE) && !raw[k].filled
    ensures |Normalize(raw)| == 3 && TotalPercent(Normalize(raw)) == 0.99999
    ensures forall k :: 0 <= k < 3 ==> Normalize(raw)[k].closePercent == 0.33333 && !Normalize(raw)[k].filled
  {
    assert Nearest(1.0 / 3.0 * R_SCALE) == 33333;
    var p, total, scaled := 0.33333, TotalPercent(raw), Normalize(raw);
    assert Round(1.0 / 3.0, R_SCALE) == p;
    TotalOfThree(raw);
    assert p / total == 1.0 / 3.0;
    ScaledAt(raw, total, 0);
    ScaledAt(raw, total, 1);
    ScaledAt(raw, total, 2);
    TotalOfThree(scaled);
  }

  lemma TotalOfThree(ts: seq<Target>)
    requires |ts| == 3
    ensures TotalPercent(ts) == ts[0].closePercent + ts[1].closePercent + ts[2].closePercent
  {
    assert ts[..2][..1] == ts[..1] && ts[..1][..0] == [];
    assert TotalPercent(ts[..1]) == ts[0].closePercent;
    assert TotalPercent(ts[..2]) == ts[0].closePercent + ts[1].closePercent;
  }
}
