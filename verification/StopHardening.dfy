/** Stop hardening before a demo order: a stop closer than the instrument's noise is moved out to a required
    distance, and the target with it. */
module StopHardening {
  import opened Common
  import opened Market
  import opened Rounding
  import opened Sorting

  datatype Candle = Candle(high: real, low: real, closed: bool)

  datatype Setup = Setup(direction: OrderSide, entry: real, stop: real, target: real, estimatedRr: real)

  datatype Reason = MinimumDistance | SpreadBuffer | RecentRange | DistanceCap | Hardened

  /** The price grid has 1 / scale as its step. */
  datatype RawConfig = RawConfig(minimum: real, maximum: real, spreadMultiplier: real, rangeMultiplier: real,
                                 minimumRr: real, lookback: int, scale: real)

  type Config = c: RawConfig | c.scale > 0.0 witness RawConfig(4.0, 7.5, 12.0, 1.25, 3.0, 20, 100.0)

  datatype Result = Result(setup: Setup, adjusted: bool, originalDistance: real, hardenedDistance: real,
                           originalRr: real, hardenedRr: real, reasons: seq<Reason>)

  const REPORT_SCALE := 10000.0

  // ---------- the required distance ----------

  predicate Above(x: real, y: real) {
    x > y
  }

  function SortValues(xs: seq<real>): (sorted: seq<real>)
    ensures |sorted| == |xs|
  {
    Sort(xs, Above)
  }

  /** The middle value, or the mean of the two in the middle. */
  function Median(xs: seq<real>): real
    requires xs != []
  {
    var sorted, half := SortValues(xs), |xs| / 2;
    if |xs| % 2 == 1 then sorted[half] else (sorted[half - 1] + sorted[half]) / 2.0
  }

  /** Where a slice of the last `lookback` elements starts; none means all, and a negative count skips that many. */
  function TailStart(length: nat, lookback: int): (start: nat)
    ensures start <= length
  {
    if lookback > 0 then (if length > lookback then length - lookback else 0)
    else if length + lookback > 0 then -lookback
    else length
  }

  function Ranges(candles: seq<Candle>): seq<real> {
    if candles == [] then []
    else
      var rest, c := Ranges(candles[..|candles| - 1]), candles[|candles| - 1];
      if c.closed && c.high > c.low then rest + [c.high - c.low] else rest
  }

  function RecentRanges(cfg: Config, candles: seq<Candle>): seq<real> {
    Ranges(candles[TailStart(|candles|, cfg.lookback)..])
  }

  /** The largest of the candidate distances. */
  function Desired(cfg: Config, candles: seq<Candle>, spread: real): real {
    var bySpread := if spread > 0.0 then Max(cfg.minimum, spread * cfg.spreadMultiplier) else cfg.minimum;
    var ranges := RecentRanges(cfg, candles);
    if ranges == [] then bySpread else Max(bySpread, Median(ranges) * cfg.rangeMultiplier)
  }

  function Bounded(cfg: Config, desired: real): real {
    Min(cfg.maximum, Max(cfg.minimum, desired))
  }

  function RequiredDistance(cfg: Config, candles: seq<Candle>, spread: real): real {
    Round(Bounded(cfg, Desired(cfg, candles, spread)), cfg.scale)
  }

  function When(condition: bool, r: Reason): seq<Reason> {
    if condition then [r] else []
  }

  function Reasons(cfg: Config, candles: seq<Candle>, spread: real): seq<Reason> {
    var desired := Desired(cfg, candles, spread);
    [MinimumDistance] + When(spread > 0.0, SpreadBuffer) + When(RecentRanges(cfg, candles) != [], RecentRange)
    + When(Bounded(cfg, desired) < desired, DistanceCap)
  }

  // ---------- the new setup ----------

  function Distance(s: Setup): real {
    Abs(s.entry - s.stop)
  }

  function RiskReward(entry: real, stop: real, target: real): real {
    var risk := Abs(entry - stop);
    if risk <= 0.0 then 0.0 else Abs(target - entry) / risk
  }

  function SetupRr(s: Setup): real {
    RiskReward(s.entry, s.stop, s.target)
  }

  function KeptRr(cfg: Config, s: Setup): real {
    Max(SetupRr(s), cfg.minimumRr)
  }

  function NewStop(cfg: Config, s: Setup, distance: real): real {
    Round(if s.direction.Buy? then s.entry - distance else s.entry + distance, cfg.scale)
  }

  function Reach(distance: real, rr: real): real {
    distance * rr
  }

  function NewTarget(cfg: Config, s: Setup, distance: real): real {
    var reach := Reach(distance, KeptRr(cfg, s));
    Round(if s.direction.Buy? then s.entry + reach else s.entry - reach, cfg.scale)
  }

  function Rebuild(cfg: Config, s: Setup, distance: real): Setup {
    var stop, target := NewStop(cfg, s, distance), NewTarget(cfg, s, distance);
    s.(stop := stop, target := target, estimatedRr := RiskReward(s.entry, stop, target))
  }

  function Harden(cfg: Config, s: Setup, candles: seq<Candle>, spread: real): Result {
    var required, reasons := RequiredDistance(cfg, candles, spread), Reasons(cfg, candles, spread);
    var distance, rr := Round(Distance(s), REPORT_SCALE), Round(SetupRr(s), REPORT_SCALE);
    if Distance(s) >= required then Result(s, false, distance, distance, rr, rr, reasons)
    else
      var hardened := Rebuild(cfg, s, required);
      Result(hardened, true, distance, Round(required, REPORT_SCALE), rr, Round(SetupRr(hardened), REPORT_SCALE),
             reasons + [Hardened])
  }
}
