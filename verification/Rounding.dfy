/** Decimal rounding to a fixed grid, as the engine's round(x, digits) does it: to the
    nearest grid point, ties to the even one.  The grid step is 1 / scale. */
module Rounding {
  import opened Common

  /** Five digits: R multiples and size fractions. */
  const R_SCALE := 100000.0

  /** `n` half units in the fifth digit: the most that `n` roundings can move an R multiple. */
  function HalfUnits(n: real): real {
    n * 0.000005
  }

  /** Two digits: prices sent to the broker, reward-to-risk ratios. */
  const CENT_SCALE := 100.0

  /** Ten digits: simulated fill prices. */
  const FILL_SCALE := 10000000000.0

  function Nearest(x: real): int {
    var below := x.Floor;
    var rest := x - below as real;
    if rest < 0.5 then below
    else if rest > 0.5 then below + 1
    else if below % 2 == 0 then below
    else below + 1
  }

  function Round(x: real, scale: real): real
    requires scale > 0.0
  {
    Nearest(x * scale) as real / scale
  }

  predicate OnGrid(x: real, scale: real) {
    x * scale == (x * scale).Floor as real
  }

  lemma NearestError(x: real)
    ensures Abs(Nearest(x) as real - x) <= 0.5
  {
  }

  lemma NearestMonotone(x: real, y: real)
    requires x <= y
    ensures Nearest(x) <= Nearest(y)
  {
    if x.Floor < y.Floor {
      assert Nearest(x) <= x.Floor + 1 <= y.Floor;
    }
  }

  lemma NearestInteger(n: int)
    ensures Nearest(n as real) == n
  {
  }

  lemma NearestOdd(x: real)
    ensures Nearest(-x) == -Nearest(x)
  {
    var below := x.Floor;
    if x == below as real {
      NearestInteger(below);
      NearestInteger(-below);
      assert -x == (-below) as real;
    } else {
      assert (-x).Floor == -below - 1;
    }
  }

  /** The rounded value scaled back up is an integer: rounding always lands on the grid. */
  lemma RoundLandsOnGrid(x: real, scale: real)
    requires scale > 0.0
    ensures Round(x, scale) * scale == Nearest(x * scale) as real
    ensures OnGrid(Round(x, scale), scale)
  {
    var n := Nearest(x * scale);
    assert (n as real / scale) * scale == n as real;
  }

  /** One rounding moves a value by at most half a grid step. */
  lemma RoundError(x: real, scale: real)
    requires scale > 0.0
    ensures Abs(Round(x, scale) - x) <= 0.5 / scale
  {
    var error := Round(x, scale) - x;
    RoundLandsOnGrid(x, scale);
    NearestError(x * scale);
    assert error * scale == Nearest(x * scale) as real - x * scale;
    QuotientOrder(0.5, scale, error);
    QuotientOrder(0.5, scale, -error);
    assert -error * scale == -(error * scale);
  }

  /** Grid points are fixed by rounding, so rounding twice is rounding once. */
  lemma RoundFixesGrid(x: real, scale: real)
    requires scale > 0.0 && OnGrid(x, scale)
    ensures Round(x, scale) == x
  {
    NearestInteger((x * scale).Floor);
    assert (x * scale) / scale == x;
  }

  lemma RoundMonotone(x: real, y: real, scale: real)
    requires scale > 0.0 && x <= y
    ensures Round(x, scale) <= Round(y, scale)
  {
    assert x * scale <= y * scale;
    NearestMonotone(x * scale, y * scale);
    var a, b := Nearest(x * scale) as real, Nearest(y * scale) as real;
    assert a <= b;
    assert (b - a) / scale >= 0.0;
    assert b / scale - a / scale == (b - a) / scale;
  }

  lemma RoundOdd(x: real, scale: real)
    requires scale > 0.0
    ensures Round(-x, scale) == -Round(x, scale)
  {
    assert -x * scale == -(x * scale);
    NearestOdd(x * scale);
    var n := Nearest(x * scale);
    assert (-n) as real / scale == -(n as real / scale);
  }

  /** A value on one side of a grid point stays on that side. */
  lemma RoundRespectsGridPoint(x: real, g: real, scale: real)
    requires scale > 0.0 && OnGrid(g, scale)
    ensures x >= g ==> Round(x, scale) >= g
    ensures x <= g ==> Round(x, scale) <= g
  {
    RoundFixesGrid(g, scale);
    if x >= g {
      RoundMonotone(g, x, scale);
    }
    if x <= g {
      RoundMonotone(x, g, scale);
    }
  }

  lemma IntegersOnGrid(n: int, scale: real, k: int)
    requires scale == k as real
    ensures OnGrid(n as real, scale)
  {
    assert n as real * scale == (n * k) as real;
  }

  /** The five-digit error bound in the form the R accounting uses. */
  lemma RoundRError(x: real)
    ensures Abs(Round(x, R_SCALE) - x) <= HalfUnits(1.0)
  {
    RoundError(x, R_SCALE);
    assert 0.5 / R_SCALE == 0.000005;
  }

  /** A rounded R multiple weighted by a size is off by at most the size in half units. */
  lemma WeightedRError(weight: real, rounded: real, exact: real)
    requires Abs(rounded - exact) <= HalfUnits(1.0)
    ensures Abs(weight * rounded - weight * exact) <= HalfUnits(Abs(weight))
  {
    ScaledError(weight, rounded, exact, 0.000005);
  }

  /** Rounding the sum afterwards adds one more. */
  lemma RoundSumR(credited: real, exactSum: real, budget: real)
    requires Abs(credited - exactSum) <= HalfUnits(budget)
    ensures Abs(Round(credited, R_SCALE) - exactSum) <= HalfUnits(budget + 1.0)
  {
    RoundRError(credited);
  }
}
