/** Hardened stops: within their bounds, wider and on the losing side for entries on the price grid, with the
    reward kept, and stable when hardened again. */
module HardeningProperties {
  import opened Common
  import opened Market
  import opened Rounding
  import opened Sorting
  import opened StopHardening
  import PositionSizing

  // ---------- bounds ----------

  /** The required distance lies between the minimum and the maximum, each rounded to the grid; when the two are
      the wrong way round the maximum wins. */
  lemma RequiredWithinBounds(cfg: Config, candles: seq<Candle>, spread: real)
    ensures Round(Min(cfg.minimum, cfg.maximum), cfg.scale) <= RequiredDistance(cfg, candles, spread)
            <= Round(cfg.maximum, cfg.scale)
    ensures OnGrid(RequiredDistance(cfg, candles, spread), cfg.scale)
  {
    hide Round, OnGrid, Desired;
    var bounded := Bounded(cfg, Desired(cfg, candles, spread));
    RoundMonotone(Min(cfg.minimum, cfg.maximum), bounded, cfg.scale);
    RoundMonotone(bounded, cfg.maximum, cfg.scale);
    RoundLandsOnGrid(bounded, cfg.scale);
  }

  ghost predicate AlwaysWithin(cfg: Config) {
    forall candles: seq<Candle>, spread: real ::
      cfg.minimum <= RequiredDistance(cfg, candles, spread) <= cfg.maximum
  }

  /** The bounds themselves are kept on every input exactly when they are the right way round, the minimum does
      not round down and the maximum does not round up. */
  lemma BoundsKeptExactly(cfg: Config)
    requires cfg.spreadMultiplier > 0.0
    ensures AlwaysWithin(cfg) <==> cfg.minimum <= cfg.maximum && Round(cfg.minimum, cfg.scale) >= cfg.minimum
                                   && Round(cfg.maximum, cfg.scale) <= cfg.maximum
  {
    hide Round;
    if cfg.minimum <= cfg.maximum && Round(cfg.minimum, cfg.scale) >= cfg.minimum
       && Round(cfg.maximum, cfg.scale) <= cfg.maximum {
      forall candles: seq<Candle>, spread: real
        ensures cfg.minimum <= RequiredDistance(cfg, candles, spread) <= cfg.maximum
      {
        RequiredWithinBounds(cfg, candles, spread);
      }
    }
    if AlwaysWithin(cfg) {
      var spread := WideSpread(cfg);
      assert cfg.minimum <= RequiredDistance(cfg, [], 0.0) <= cfg.maximum;
      assert cfg.minimum <= RequiredDistance(cfg, [], spread) <= cfg.maximum;
    }
  }

  lemma WideSpread(cfg: Config) returns (spread: real)
    requires cfg.spreadMultiplier > 0.0
    ensures RequiredDistance(cfg, [], spread) == Round(cfg.maximum, cfg.scale)
  {
    hide Round;
    var wanted := Max(cfg.maximum, 1.0);
    spread := wanted / cfg.spreadMultiplier;
    QuotientOrder(wanted, cfg.spreadMultiplier, 0.0);
    assert spread * cfg.spreadMultiplier == wanted;
  }

  // ---------- the median ----------

  function CountBelow(xs: seq<real>, m: real): nat {
    if xs == [] then 0 else (if xs[0] < m then 1 else 0) + CountBelow(xs[1..], m)
  }

  function CountAbove(xs: seq<real>, m: real): nat {
    if xs == [] then 0 else (if xs[0] > m then 1 else 0) + CountAbove(xs[1..], m)
  }

  ghost predicate Ascending(xs: seq<real>) {
    forall i, j :: 0 <= i < j < |xs| ==> xs[i] <= xs[j]
  }

  lemma {:induction false} InsertCounts(x: real, sorted: seq<real>, m: real)
    ensures CountBelow(Insert(x, sorted, Above), m) == CountBelow(sorted, m) + if x < m then 1 else 0
    ensures CountAbove(Insert(x, sorted, Above), m) == CountAbove(sorted, m) + if x > m then 1 else 0
    decreases |sorted|
  {
    if sorted != [] {
      InsertCounts(x, sorted[1..], m);
      assert ([x] + sorted)[1..] == sorted;
      assert ([sorted[0]] + Insert(x, sorted[1..], Above))[1..] == Insert(x, sorted[1..], Above);
    }
  }

  lemma {:induction false} LastCounts(earlier: seq<real>, last: real, m: real)
    ensures CountBelow(earlier + [last], m) == CountBelow(earlier, m) + if last < m then 1 else 0
    ensures CountAbove(earlier + [last], m) == CountAbove(earlier, m) + if last > m then 1 else 0
    decreases |earlier|
  {
    if earlier != [] {
      LastCounts(earlier[1..], last, m);
      assert (earlier + [last])[1..] == earlier[1..] + [last];
    }
  }

  lemma {:induction false} SortCounts(xs: seq<real>, m: real)
    ensures CountBelow(SortValues(xs), m) == CountBelow(xs, m)
    ensures CountAbove(SortValues(xs), m) == CountAbove(xs, m)
    decreases |xs|
  {
    hide CountBelow, CountAbove, Insert;
    if xs != [] {
      var earlier, last := xs[..|xs| - 1], xs[|xs| - 1];
      SortCounts(earlier, m);
      InsertCounts(last, SortValues(earlier), m);
      LastCounts(earlier, last, m);
      assert xs == earlier + [last];
    }
  }

  lemma {:induction false} InsertAscends(x: real, sorted: seq<real>)
    requires Ascending(sorted)
    ensures Ascending(Insert(x, sorted, Above))
    ensures forall i :: 0 <= i < |Insert(x, sorted, Above)| ==>
              Insert(x, sorted, Above)[i] >= x || (sorted != [] && Insert(x, sorted, Above)[i] >= sorted[0])
    decreases |sorted|
  {
    if sorted != [] && sorted[0] <= x {
      InsertAscends(x, sorted[1..]);
    }
  }

  lemma {:induction false} SortAscends(xs: seq<real>)
    ensures Ascending(SortValues(xs))
    decreases |xs|
  {
    if xs != [] {
      SortAscends(xs[..|xs| - 1]);
      InsertAscends(xs[|xs| - 1], SortValues(xs[..|xs| - 1]));
    }
  }

  /** Among ascending values, those below a bound are at most as many as the position of one that is not. */
  lemma {:induction false} BelowAtMost(sorted: seq<real>, k: nat, m: real)
    requires Ascending(sorted) && k <= |sorted| && forall i :: k <= i < |sorted| ==> sorted[i] >= m
    ensures CountBelow(sorted, m) <= k
    decreases |sorted|
  {
    if sorted != [] {
      BelowAtMost(sorted[1..], if k > 0 then k - 1 else 0, m);
    }
  }

  lemma {:induction false} AboveAtMost(sorted: seq<real>, k: nat, m: real)
    requires Ascending(sorted) && k <= |sorted| && forall i :: 0 <= i < k ==> sorted[i] <= m
    ensures CountAbove(sorted, m) <= |sorted| - k
    decreases |sorted|
  {
    if sorted != [] {
      AboveAtMost(sorted[1..], if k > 0 then k - 1 else 0, m);
    }
  }

  /** The median splits the values: at most half are below it and at most half above. */
  lemma MedianSplits(xs: seq<real>)
    requires xs != []
    ensures 2 * CountBelow(xs, Median(xs)) <= |xs| && 2 * CountAbove(xs, Median(xs)) <= |xs|
  {
    hide CountBelow, CountAbove, SortValues;
    var sorted, half, m := SortValues(xs), |xs| / 2, Median(xs);
    SortAscends(xs);
    SortCounts(xs, m);
    BelowAtMost(sorted, half, m);
    AboveAtMost(sorted, |xs| - half, m);
  }

  // ---------- an adjusted stop ----------

  lemma GridShift(x: real, d: real, scale: real)
    requires scale > 0.0 && OnGrid(x, scale) && OnGrid(d, scale)
    ensures Round(x - d, scale) == x - d && Round(x + d, scale) == x + d
  {
    var n, k := (x * scale).Floor, (d * scale).Floor;
    assert (x - d) * scale == x * scale - d * scale;
    assert (x + d) * scale == x * scale + d * scale;
    WholeIsOnGrid(x - d, n - k, scale);
    WholeIsOnGrid(x + d, n + k, scale);
    RoundFixesGrid(x - d, scale);
    RoundFixesGrid(x + d, scale);
  }

  lemma WholeIsOnGrid(x: real, n: int, scale: real)
    requires x * scale == n as real
    ensures OnGrid(x, scale)
  {
  }

  /** Positive when the stop protects: below a buy, above a sell. */
  function Protection(s: Setup): real {
    if s.direction.Buy? then s.entry - s.stop else s.stop - s.entry
  }

  function Reward(s: Setup): real {
    if s.direction.Buy? then s.target - s.entry else s.entry - s.target
  }

  lemma StopOnGrid(cfg: Config, s: Setup, distance: real)
    requires OnGrid(s.entry, cfg.scale) && OnGrid(distance, cfg.scale)
    ensures Protection(Rebuild(cfg, s, distance)) == distance
  {
    hide Round, OnGrid, NewTarget;
    GridShift(s.entry, distance, cfg.scale);
  }

  lemma TargetError(cfg: Config, s: Setup, distance: real)
    ensures Abs(Reward(Rebuild(cfg, s, distance)) - Reach(distance, KeptRr(cfg, s))) <= 0.5 / cfg.scale
  {
    hide Round, NewStop, Reach, KeptRr;
    var reach := Reach(distance, KeptRr(cfg, s));
    RoundError(s.entry + reach, cfg.scale);
    RoundError(s.entry - reach, cfg.scale);
  }

  /** For an entry on the price grid an adjusted stop is strictly wider, on the losing side at exactly the
      required distance, and the reward to risk is the larger of the original and the minimum, but for half a
      grid step of rounding over the distance. */
  lemma AdjustedStopIsWider(cfg: Config, s: Setup, candles: seq<Candle>, spread: real)
    requires OnGrid(s.entry, cfg.scale) && Harden(cfg, s, candles, spread).adjusted
    ensures var hardened, d := Harden(cfg, s, candles, spread).setup, RequiredDistance(cfg, candles, spread);
            Protection(hardened) == Distance(hardened) == d > Distance(s)
            && hardened.entry == s.entry && hardened.direction == s.direction
            && Abs(SetupRr(hardened) - Max(SetupRr(s), cfg.minimumRr)) <= (0.5 / cfg.scale) / d
  {
    hide Round, OnGrid, Desired, Reasons, SetupRr, NewTarget, NewStop;
    var d := RequiredDistance(cfg, candles, spread);
    RequiredWithinBounds(cfg, candles, spread);
    StopOnGrid(cfg, s, d);
    RewardKept(cfg, s, d);
  }

  lemma RewardKept(cfg: Config, s: Setup, d: real)
    requires d > 0.0 && Protection(Rebuild(cfg, s, d)) == d
    ensures Abs(SetupRr(Rebuild(cfg, s, d)) - KeptRr(cfg, s)) <= (0.5 / cfg.scale) / d
  {
    hide NewStop, NewTarget, SetupRr;
    var hardened, rr, error := Rebuild(cfg, s, d), KeptRr(cfg, s), 0.5 / cfg.scale;
    TargetError(cfg, s, d);
    KeptNonNegative(cfg, s);
    ProductNonNegative(d, rr);
    QuotientOrder(0.5, cfg.scale, 0.0);
    RatioError(Reward(hardened), d, rr, error);
    SetupRrIs(hardened, d);
  }

  lemma KeptNonNegative(cfg: Config, s: Setup)
    ensures KeptRr(cfg, s) >= 0.0
  {
  }

  lemma SetupRrIs(s: Setup, d: real)
    requires d > 0.0 && Protection(s) == d
    ensures SetupRr(s) == Abs(Reward(s)) / d
  {
  }

  /** An error in the reward is the same error in the ratio, over the distance. */
  lemma RatioError(reward: real, d: real, rr: real, error: real)
    requires d > 0.0 && error >= 0.0 && Abs(reward - Reach(d, rr)) <= error && Reach(d, rr) >= 0.0
    ensures Abs(Abs(reward) / d - rr) <= error / d
  {
    hide Reach, Abs;
    var x, e := Abs(reward) / d, error / d;
    QuotientOrder(Abs(reward), d, 0.0);
    QuotientOrder(error, d, 0.0);
    Spread(x, rr, d);
    ReachIs(d, rr);
    SignsDrop(reward, Reach(d, rr), error);
    SmallMiss(x - rr, e, d, Abs(reward) - Reach(d, rr), error);
  }

  lemma ReachIs(d: real, rr: real)
    ensures Reach(d, rr) == rr * d
  {
  }

  lemma SignsDrop(reward: real, reach: real, error: real)
    requires reach >= 0.0 && Abs(reward - reach) <= error
    ensures -error <= Abs(reward) - reach <= error
  {
  }

  lemma SmallMiss(miss: real, e: real, d: real, missed: real, error: real)
    requires d > 0.0 && miss * d == missed && e * d == error && -error <= missed <= error
    ensures Abs(miss) <= e
  {
    ProductMonotone(e, miss, d);
    ProductMonotone(miss, -e, d);
    Spread(0.0, e, d);
  }

  lemma Spread(a: real, e: real, d: real)
    ensures (a - e) * d == a * d - e * d
  {
  }

  // ---------- hardening again ----------

  /** The stop that hardening chooses does not depend on the stop it replaces, so hardening an already hardened
      setup never moves the stop again. */
  lemma StopSettles(cfg: Config, s: Setup, candles: seq<Candle>, spread: real)
    ensures var once := Harden(cfg, s, candles, spread).setup;
            Harden(cfg, once, candles, spread).setup.stop == once.stop
  {
    hide Round, RequiredDistance, NewTarget, Reasons, SetupRr;
  }

  /** The number of the grid step just under a price, and how far the price is past it, in steps. */
  function StepUnder(x: real, scale: real): int {
    (x * scale).Floor
  }

  function PastStep(x: real, scale: real): real {
    x * scale - StepUnder(x, scale) as real
  }

  /** Rounding a price moved by whole steps goes up exactly past the middle of a step, or at the middle when the
      step under it is odd. */
  lemma RoundsUpExactly(x: real, scale: real)
    requires scale > 0.0
    ensures Round(x, scale) > x <==>
              PastStep(x, scale) > 0.5 || (PastStep(x, scale) == 0.5 && StepUnder(x, scale) % 2 == 1)
    ensures Round(x, scale) < x <==>
              (0.0 < PastStep(x, scale) < 0.5) || (PastStep(x, scale) == 0.5 && StepUnder(x, scale) % 2 == 0)
  {
    hide Round;
    RoundLandsOnGrid(x, scale);
    NearestUpExactly(x * scale);
    ProductMonotone(x, Round(x, scale), scale);
    ProductMonotone(Round(x, scale), x, scale);
  }

  lemma NearestUpExactly(y: real)
    ensures var past, odd := y - y.Floor as real, y.Floor % 2 == 1;
            (Nearest(y) as real > y <==> past > 0.5 || (past == 0.5 && odd))
            && ((Nearest(y) as real) < y <==> (0.0 < past < 0.5) || (past == 0.5 && !odd))
  {
  }

  /** The unrounded stop. */
  function RawStop(s: Setup, distance: real): real {
    if s.direction.Buy? then s.entry - distance else s.entry + distance
  }

  predicate RoundsTowardsEntry(s: Setup, distance: real, scale: real) {
    var raw := RawStop(s, distance);
    var past, odd := PastStep(raw, scale), StepUnder(raw, scale) % 2 == 1;
    if s.direction.Buy? then past > 0.5 || (past == 0.5 && odd)
    else 0.0 < past < 0.5 || (past == 0.5 && !odd)
  }

  lemma AtLeastOneStep(d: real, scale: real)
    requires d > 0.0 && scale > 0.0 && OnGrid(d, scale)
    ensures d >= 0.5 / scale
  {
    ProductMonotone(0.0, d, scale);
    assert d * scale >= 1.0;
    QuotientOrder(0.5, scale, d);
  }

  /** How far rounding moves the raw stop towards the entry, in price; negative when it moves away. */
  function Slip(s: Setup, distance: real, scale: real): real
    requires scale > 0.0
  {
    var raw := RawStop(s, distance);
    var past, odd := PastStep(raw, scale), StepUnder(raw, scale) % 2 == 1;
    var up := (if past > 0.5 || (past == 0.5 && odd) then 1.0 - past else -past) / scale;
    if s.direction.Buy? then up else -up
  }

  lemma RoundedBy(x: real, scale: real)
    requires scale > 0.0
    ensures var past, odd := PastStep(x, scale), StepUnder(x, scale) % 2 == 1;
            Round(x, scale) == x + (if past > 0.5 || (past == 0.5 && odd) then 1.0 - past else -past) / scale
  {
    var past, odd := PastStep(x, scale), StepUnder(x, scale) % 2 == 1;
    var up := if past > 0.5 || (past == 0.5 && odd) then 1.0 - past else -past;
    assert Nearest(x * scale) as real == x * scale + up;
    QuotientSum(x * scale, up, scale);
    assert (x * scale) / scale == x;
  }

  /** The distance of the new stop is the required one less the slip. */
  lemma NewDistance(cfg: Config, s: Setup, d: real)
    requires d > 0.0 && OnGrid(d, cfg.scale)
    ensures Distance(Rebuild(cfg, s, d)) == d - Slip(s, d, cfg.scale)
    ensures Slip(s, d, cfg.scale) > 0.0 <==> RoundsTowardsEntry(s, d, cfg.scale)
  {
    hide Round, NewTarget, PastStep, StepUnder, OnGrid;
    AtLeastOneStep(d, cfg.scale);
    RoundedBy(RawStop(s, d), cfg.scale);
    RoundsUpExactly(RawStop(s, d), cfg.scale);
    RoundError(RawStop(s, d), cfg.scale);
  }

  /** An adjusted stop is strictly wider than the one it replaces exactly when that one falls short of the required
      distance by more than the slip. */
  lemma WiderExactly(cfg: Config, s: Setup, candles: seq<Candle>, spread: real)
    requires Harden(cfg, s, candles, spread).adjusted
    ensures var d := RequiredDistance(cfg, candles, spread);
            Distance(Harden(cfg, s, candles, spread).setup) > Distance(s)
            <==> Distance(s) < d - Slip(s, d, cfg.scale)
  {
    hide RequiredDistance, Reasons, SetupRr, Rebuild, Round, OnGrid, Slip;
    RequiredWithinBounds(cfg, candles, spread);
    NewDistance(cfg, s, RequiredDistance(cfg, candles, spread));
  }

  /** A hardened setup is hardened once more exactly when its stop was rounded towards the entry; on the grid that
      never happens, and then hardening again changes nothing at all. */
  lemma HardenedAgainExactly(cfg: Config, s: Setup, candles: seq<Candle>, spread: real)
    requires Harden(cfg, s, candles, spread).adjusted
    ensures var d, once := RequiredDistance(cfg, candles, spread), Harden(cfg, s, candles, spread).setup;
            Harden(cfg, once, candles, spread).adjusted <==> RoundsTowardsEntry(s, d, cfg.scale)
  {
    hide RequiredDistance, Reasons, SetupRr, Rebuild, RoundsTowardsEntry, Round, OnGrid;
    var d := RequiredDistance(cfg, candles, spread);
    RequiredWithinBounds(cfg, candles, spread);
    NewDistance(cfg, s, d);
  }

  lemma HardeningIsIdempotent(cfg: Config, s: Setup, candles: seq<Candle>, spread: real)
    requires OnGrid(s.entry, cfg.scale)
    ensures var once := Harden(cfg, s, candles, spread).setup;
            Harden(cfg, once, candles, spread).setup == once && !Harden(cfg, once, candles, spread).adjusted
  {
    hide RequiredDistance, Reasons, SetupRr, Rebuild, Round, OnGrid;
    if Harden(cfg, s, candles, spread).adjusted {
      AdjustedStopIsWider(cfg, s, candles, spread);
    }
  }

  /** Off the grid the promise of a wider stop fails: this buy is adjusted and its stop comes closer. */
  lemma OffGridCanNarrow()
    ensures var cfg: Config := RawConfig(4.0, 7.5, 12.0, 1.25, 3.0, 20, 100.0);
            var s := Setup(Buy, 100.006, 96.0085, 112.0, 3.0);
            Harden(cfg, s, [], 0.0).adjusted && Distance(Harden(cfg, s, [], 0.0).setup) < Distance(s)
  {
    hide NewTarget, SetupRr, Reasons;
    var cfg: Config := RawConfig(4.0, 7.5, 12.0, 1.25, 3.0, 20, 100.0);
    var s := Setup(Buy, 100.006, 96.0085, 112.0, 3.0);
    assert 4.0 * 100.0 == 400.0;
    assert RequiredDistance(cfg, [], 0.0) == 4.0;
    assert (100.006 - 4.0) * 100.0 == 9600.6;
    assert NewStop(cfg, s, 4.0) == 96.01;
  }

  // ---------- hardening and sizing together ----------

  /** For an entry on the grid, sizing the hardened setup never gives more lots than sizing the original. */
  lemma HardeningNeverSizesUp(cfg: Config, s: Setup, candles: seq<Candle>, spread: real, sizer: PositionSizing.Sizer,
                              risk: real)
    requires OnGrid(s.entry, cfg.scale) && risk >= 0.0
    ensures var hardened := Harden(cfg, s, candles, spread).setup;
            var before, after := PositionSizing.LossPerLot(sizer, s.entry, s.stop, None),
                                 PositionSizing.LossPerLot(sizer, hardened.entry, hardened.stop, None);
            0.0 < before <= after && PositionSizing.Lots(sizer, risk, after) <= PositionSizing.Lots(sizer, risk, before)
  {
    hide RequiredDistance, Reasons, SetupRr, Rebuild, OnGrid, PositionSizing.Lots;
    var hardened := Harden(cfg, s, candles, spread).setup;
    if Harden(cfg, s, candles, spread).adjusted {
      AdjustedStopIsWider(cfg, s, candles, spread);
    }
    LossGrows(sizer, s, hardened);
    PositionSizing.LargerLossFewerLots(sizer, risk, PositionSizing.LossPerLot(sizer, s.entry, s.stop, None),
                                       PositionSizing.LossPerLot(sizer, hardened.entry, hardened.stop, None));
  }

  lemma LossGrows(sizer: PositionSizing.Sizer, s: Setup, wider: Setup)
    requires Distance(s) <= Distance(wider)
    ensures 0.0 < PositionSizing.LossPerLot(sizer, s.entry, s.stop, None)
            <= PositionSizing.LossPerLot(sizer, wider.entry, wider.stop, None)
  {
    var x, y := Max(Distance(s), 0.000001), Max(Distance(wider), 0.000001);
    ProductNonNegative(y - x, sizer.contractSize);
    assert (y - x) * sizer.contractSize == y * sizer.contractSize - x * sizer.contractSize;
    assert x * sizer.contractSize > 0.0;
  }
}
