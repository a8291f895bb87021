/** Stop hardening and lot sizing in prices: which recent ranges count, how far the stop has to be, when it is moved and
    where to, and which size that allows. */
module HardeningMoves {
  import opened Common
  import opened Market
  import opened Rounding
  import opened StopHardening
  import opened HardeningProperties
  import Sorting
  import PositionSizing

  // ---------- the recent ranges ----------

  /** The last `lookback` candles; none asked for means all, and a negative number skips that many from the front. */
  function FirstRecent(n: nat, lookback: int): nat {
    if lookback > 0 then (if lookback < n then n - lookback else 0) else if -lookback < n then -lookback else n
  }

  /** A closed candle that moved at all. */
  predicate Moved(c: Candle) {
    c.closed && c.low < c.high
  }

  lemma {:induction false} RangesOfMoved(candles: seq<Candle>) returns (places: seq<nat>)
    ensures var ranges := Ranges(candles);
            |places| == |ranges|
            && (forall i :: 0 <= i < |places| ==>
                  places[i] < |candles| && ranges[i] == candles[places[i]].high - candles[places[i]].low)
            && (forall i, j :: 0 <= i < j < |places| ==> places[i] < places[j])
            && (forall p :: p in places <==> 0 <= p < |candles| && Moved(candles[p]))
    decreases |candles|
  {
    places := [];
    if candles != [] {
      var n := |candles| - 1;
      places := RangesOfMoved(candles[..n]);
      if Moved(candles[n]) {
        places := places + [n];
      }
    }
  }

  /** The ranges looked at are those of the recent candles that moved, in order. */
  lemma RecentExactly(cfg: Config, candles: seq<Candle>) returns (places: seq<nat>)
    ensures var ranges, first := RecentRanges(cfg, candles), FirstRecent(|candles|, cfg.lookback);
            |places| == |ranges|
            && (forall i :: 0 <= i < |places| ==>
                  places[i] < |candles| && ranges[i] == candles[places[i]].high - candles[places[i]].low)
            && (forall i, j :: 0 <= i < j < |places| ==> places[i] < places[j])
            && (forall p :: p in places <==> first <= p < |candles| && Moved(candles[p]))
  {
    hide Ranges, Moved, FirstRecent;
    var first := FirstRecent(|candles|, cfg.lookback);
    FirstRecentIs(|candles|, cfg.lookback);
    var found := RangesOfMoved(candles[first..]);
    places := Shifted(found, first);
    forall p
      ensures p in places <==> first <= p < |candles| && Moved(candles[p])
    {
      ShiftedMembers(found, first, p);
    }
  }

  lemma FirstRecentIs(n: nat, lookback: int)
    ensures FirstRecent(n, lookback) == TailStart(n, lookback) <= n
  {
  }

  function Shifted(places: seq<nat>, first: nat): (shifted: seq<nat>)
    ensures |shifted| == |places| && forall i :: 0 <= i < |places| ==> shifted[i] == places[i] + first
  {
    seq(|places|, i requires 0 <= i < |places| => places[i] + first)
  }

  lemma ShiftedMembers(places: seq<nat>, first: nat, p: int)
    ensures p in Shifted(places, first) <==> p - first in places
  {
    hide Shifted;
    if p in Shifted(places, first) {
      var i :| 0 <= i < |places| && Shifted(places, first)[i] == p;
      assert places[i] == p - first;
    }
    if p - first in places {
      var i :| 0 <= i < |places| && places[i] == p - first;
      assert Shifted(places, first)[i] == p;
    }
  }

  // ---------- the median ----------

  /** The value of rank k: at most k are below it and at most the others above. */
  predicate HasRank(xs: seq<real>, x: real, k: nat) {
    x in xs && CountBelow(xs, x) <= k && CountAbove(xs, x) <= |xs| - 1 - k
  }

  lemma RankOfSorted(xs: seq<real>, k: nat)
    requires k < |xs|
    ensures HasRank(xs, SortValues(xs)[k], k)
  {
    hide CountBelow, CountAbove;
    var sorted := SortValues(xs);
    SortAscends(xs);
    SortCounts(xs, sorted[k]);
    BelowAtMost(sorted, k, sorted[k]);
    AboveAtMost(sorted, k + 1, sorted[k]);
    Sorting.SortMembers(xs, Above);
  }

  /** The middle value, or half the sum of the two in the middle. */
  lemma MedianExactly(xs: seq<real>) returns (low: real, high: real)
    requires xs != []
    ensures HasRank(xs, low, (|xs| - 1) / 2) && HasRank(xs, high, |xs| / 2)
    ensures Median(xs) == (low + high) / 2.0 && (|xs| % 2 == 1 ==> low == high == Median(xs))
  {
    hide SortValues;
    RankOfSorted(xs, (|xs| - 1) / 2);
    RankOfSorted(xs, |xs| / 2);
    low, high := SortValues(xs)[(|xs| - 1) / 2], SortValues(xs)[|xs| / 2];
  }

  // ---------- the required distance ----------

  /** The largest of the minimum, the spread's multiple if there is a spread, and the median range's if there is one. */
  predicate Wanted(cfg: Config, candles: seq<Candle>, spread: real, d: real) {
    var ranges := RecentRanges(cfg, candles);
    d >= cfg.minimum && (spread > 0.0 ==> d >= spread * cfg.spreadMultiplier)
    && (ranges != [] ==> d >= Median(ranges) * cfg.rangeMultiplier)
    && (d == cfg.minimum || (spread > 0.0 && d == spread * cfg.spreadMultiplier)
        || (ranges != [] && d == Median(ranges) * cfg.rangeMultiplier))
  }

  /** The required distance is the wanted one, at most the maximum, on the grid; and the reasons name what was asked. */
  lemma RequiredExactly(cfg: Config, candles: seq<Candle>, spread: real) returns (d: real)
    ensures Wanted(cfg, candles, spread, d)
    ensures RequiredDistance(cfg, candles, spread) == Round(if d > cfg.maximum then cfg.maximum else d, cfg.scale)
    ensures Reasons(cfg, candles, spread)
            == [MinimumDistance] + (if spread > 0.0 then [SpreadBuffer] else [])
               + (if RecentRanges(cfg, candles) != [] then [RecentRange] else [])
               + (if d > cfg.maximum then [DistanceCap] else [])
  {
    hide Median, RecentRanges, Round;
    d := Desired(cfg, candles, spread);
  }

  // ---------- the hardened setup ----------

  function Apart(x: real, y: real): real {
    if x > y then x - y else y - x
  }

  /** Reward over risk, nothing without risk. */
  function Ratio(entry: real, stop: real, target: real): real {
    if entry == stop then 0.0 else Apart(target, entry) / Apart(entry, stop)
  }

  /** A setup is adjusted exactly when its stop is nearer than the required distance; then the stop is that far on the
      losing side and the target as many times that far as the better of the old ratio and the minimum, both on the
      grid, and nothing else of the setup changes but the estimate. */
  lemma HardensExactly(cfg: Config, s: Setup, candles: seq<Candle>, spread: real)
    ensures var r, d := Harden(cfg, s, candles, spread), RequiredDistance(cfg, candles, spread);
            var rr := if Ratio(s.entry, s.stop, s.target) > cfg.minimumRr then Ratio(s.entry, s.stop, s.target)
                      else cfg.minimumRr;
            (r.adjusted <==> Apart(s.entry, s.stop) < d)
            && r.setup.direction == s.direction && r.setup.entry == s.entry
            && (r.adjusted ==>
                  r.setup.stop == Round(if s.direction.Buy? then s.entry - d else s.entry + d, cfg.scale)
                  && r.setup.target == Round(if s.direction.Buy? then s.entry + Times(d, rr) else s.entry - Times(d, rr), cfg.scale)
                  && r.setup.estimatedRr == Ratio(s.entry, r.setup.stop, r.setup.target)
                  && r.hardenedDistance == Round(d, 10000.0)
                  && r.reasons == Reasons(cfg, candles, spread) + [Hardened])
            && (!r.adjusted ==> r.setup == s && r.hardenedDistance == r.originalDistance
                                && r.reasons == Reasons(cfg, candles, spread))
            && r.originalDistance == Round(Apart(s.entry, s.stop), 10000.0)
            && r.originalRr == Round(Ratio(s.entry, s.stop, s.target), 10000.0)
            && r.hardenedRr == Round(Ratio(r.setup.entry, r.setup.stop, r.setup.target), 10000.0)
  {
    hide RequiredDistance, Reasons, Round, RiskReward, Ratio, Reach, Times;
    var hardened := Harden(cfg, s, candles, spread).setup;
    RatioIs(s.entry, s.stop, s.target);
    RatioIs(hardened.entry, hardened.stop, hardened.target);
    TimesIs(RequiredDistance(cfg, candles, spread), KeptRr(cfg, s));
  }

  lemma RatioIs(entry: real, stop: real, target: real)
    ensures RiskReward(entry, stop, target) == Ratio(entry, stop, target)
  {
  }

  function Times(d: real, rr: real): real {
    d * rr
  }

  lemma TimesIs(d: real, rr: real)
    ensures Reach(d, rr) == Times(d, rr)
  {
  }

  // ---------- the size ----------

  /** What may be lost: the multiplier, between nought and one, percent of equity. */
  function Budget(s: PositionSizing.Sizer, multiplier: real): real {
    s.equity * ((if multiplier < 0.0 then 0.0 else if multiplier > 1.0 then 1.0 else multiplier) / 100.0)
  }

  /** What one lot loses at the stop: the broker's figure, or the distance, at least a millionth, times the contract. */
  function LotLoss(s: PositionSizing.Sizer, entry: real, stop: real, quoted: Option<real>): real {
    match quoted
    case Some(loss) => loss
    case None => (if Apart(entry, stop) > 0.000001 then Apart(entry, stop) else 0.000001) * s.contractSize
  }

  /** A size refused only for a loss per lot that is not positive; otherwise the largest size the broker and the budget
      accept, none when there is none, with its own loss in money and in percent of equity. */
  lemma SizesExactly(s: PositionSizing.Sizer, entry: real, stop: real, quoted: Option<real>, multiplier: real)
    ensures var sizing, risk := PositionSizing.CalculateLotSize(s, entry, stop, quoted, multiplier), Budget(s, multiplier);
            var loss := LotLoss(s, entry, stop, quoted);
            (sizing.Sized? <==> loss > 0.0)
            && (sizing.Sized? ==>
                  var lots := sizing.payload.lots;
                  (lots == 0.0 || PositionSizing.Admissible(s, lots, risk, loss))
                  && (forall x :: PositionSizing.Admissible(s, x, risk, loss) ==> x <= lots)
                  && sizing.payload.currencyRisk == lots * loss
                  && sizing.payload.riskPercent == lots * loss / s.equity * 100.0)
  {
    hide PositionSizing.Admissible, PositionSizing.Lots, PositionSizing.TargetRisk, PositionSizing.LossPerLot, Budget,
         LotLoss;
    PositionSizing.BudgetNonNegative(s, multiplier);
    BudgetIs(s, multiplier);
    LossIs(s, entry, stop, quoted);
    if LotLoss(s, entry, stop, quoted) > 0.0 {
      PositionSizing.LargestAdmissible(s, Budget(s, multiplier), LotLoss(s, entry, stop, quoted));
    }
  }

  lemma BudgetIs(s: PositionSizing.Sizer, multiplier: real)
    ensures PositionSizing.TargetRisk(s, multiplier) == Budget(s, multiplier)
  {
  }

  lemma LossIs(s: PositionSizing.Sizer, entry: real, stop: real, quoted: Option<real>)
    ensures PositionSizing.LossPerLot(s, entry, stop, quoted) == LotLoss(s, entry, stop, quoted)
  {
  }
}
