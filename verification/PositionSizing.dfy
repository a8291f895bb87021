/** Lot sizing from the account-currency loss at the protective stop, rounded down to the broker's step. */
module PositionSizing {
  import opened Common

  /** The settings as given; the constructor refuses those that are not acceptable. */
  datatype RawSizer = RawSizer(equity: real, contractSize: real, maximumLots: Option<real>, minimumLots: real,
                               step: real)

  predicate Acceptable(s: RawSizer) {
    s.equity > 0.0 && s.contractSize > 0.0 && s.minimumLots >= 0.0 && s.step >= 0.0
  }

  type Sizer = s: RawSizer | Acceptable(s) witness RawSizer(10000.0, 100.0, None, 0.0, 0.0)

  datatype Payload = Payload(lots: real, riskPercent: real, currencyRisk: real)

  datatype Sizing = Sized(payload: Payload) | NonPositiveLoss

  /** The share of equity at stake, in percent: the score multiplier kept between zero and one. */
  function TargetPercent(multiplier: real): real {
    Min(Max(multiplier, 0.0), 1.0)
  }

  function TargetRisk(s: Sizer, multiplier: real): real {
    s.equity * (TargetPercent(multiplier) / 100.0)
  }

  /** The loss of one lot: the broker's own figure when there is one. */
  function LossPerLot(s: Sizer, entry: real, stop: real, quoted: Option<real>): real {
    if quoted.Some? then quoted.value else Max(Abs(entry - stop), 0.000001) * s.contractSize
  }

  function Cap(s: Sizer, lots: real): real {
    if s.maximumLots.Some? then Min(lots, Max(s.maximumLots.value, 0.0)) else lots
  }

  function RoundDownToStep(s: Sizer, lots: real): real {
    if s.step <= 0.0 then lots else (lots / s.step).Floor as real * s.step
  }

  /** The size before the minimum is applied. */
  function Affordable(s: Sizer, risk: real, loss: real): real
    requires loss > 0.0
  {
    RoundDownToStep(s, Cap(s, Max(risk / loss, 0.0)))
  }

  function Lots(s: Sizer, risk: real, loss: real): real
    requires loss > 0.0
  {
    var lots := Affordable(s, risk, loss);
    if lots < s.minimumLots then 0.0 else lots
  }

  function CalculateLotSize(s: Sizer, entry: real, stop: real, quoted: Option<real>, multiplier: real): Sizing {
    var loss := LossPerLot(s, entry, stop, quoted);
    if loss <= 0.0 then NonPositiveLoss
    else
      var lots := Lots(s, TargetRisk(s, multiplier), loss);
      Sized(Payload(lots, lots * loss / s.equity * 100.0, lots * loss))
  }

  // ---------- what a position may be ----------

  ghost predicate WholeSteps(x: real, step: real) {
    step == 0.0 || exists n: nat :: x == StepsOf(n, step)
  }

  function StepsOf(n: int, step: real): real {
    n as real * step
  }

  /** A size the broker and the risk budget both accept: whole steps, within the cap, at least the minimum, and
      losing no more than the budget at the stop. */
  ghost predicate Admissible(s: Sizer, x: real, risk: real, loss: real) {
    x >= 0.0 && WholeSteps(x, s.step) && (s.maximumLots.Some? ==> x <= Max(s.maximumLots.value, 0.0))
    && x >= s.minimumLots && Worth(x, loss) <= risk
  }

  function Worth(lots: real, loss: real): real {
    lots * loss
  }

  lemma BudgetNonNegative(s: Sizer, multiplier: real)
    ensures 0.0 <= TargetRisk(s, multiplier) <= s.equity / 100.0
  {
    var p := TargetPercent(multiplier);
    assert s.equity * (p / 100.0) == (s.equity / 100.0) * p;
    ProductNonNegative(s.equity / 100.0, p);
    ProductNonNegative(s.equity / 100.0, 1.0 - p);
    assert (s.equity / 100.0) * (1.0 - p) == s.equity / 100.0 - (s.equity / 100.0) * p;
  }

  /** Rounding down gives the largest number of whole steps not above the size. */
  lemma RoundDownExactly(s: Sizer, lots: real)
    requires lots >= 0.0
    ensures var r := RoundDownToStep(s, lots);
            0.0 <= r <= lots && WholeSteps(r, s.step) && (s.step > 0.0 ==> lots < r + s.step)
  {
    if s.step > 0.0 {
      var n := (lots / s.step).Floor;
      QuotientOrder(lots, s.step, 0.0);
      QuotientOrder(lots, s.step, n as real);
      QuotientOrder(lots, s.step, (n + 1) as real);
      assert (n + 1) as real * s.step == n as real * s.step + s.step;
      ProductNonNegative(n as real, s.step);
      assert RoundDownToStep(s, lots) == StepsOf(n, s.step);
    }
  }

  lemma RoundDownLargest(s: Sizer, lots: real, x: real)
    requires lots >= 0.0 && WholeSteps(x, s.step) && x <= lots
    ensures x <= RoundDownToStep(s, lots)
  {
    if s.step > 0.0 {
      var m: nat :| x == StepsOf(m, s.step);
      var n := (lots / s.step).Floor;
      QuotientOrder(lots, s.step, m as real);
      assert m <= n;
      ProductNonNegative((n - m) as real, s.step);
      assert (n - m) as real * s.step == n as real * s.step - m as real * s.step;
    }
  }

  lemma WithinBudget(x: real, risk: real, loss: real)
    requires loss > 0.0
    ensures Worth(x, loss) <= risk <==> x <= risk / loss
  {
    QuotientOrder(risk, loss, x);
  }

  lemma AffordableExactly(s: Sizer, risk: real, loss: real)
    requires loss > 0.0 && risk >= 0.0
    ensures var a := Affordable(s, risk, loss);
            a >= 0.0 && WholeSteps(a, s.step) && Worth(a, loss) <= risk
            && (s.maximumLots.Some? ==> a <= Max(s.maximumLots.value, 0.0))
            && (s.step > 0.0 ==> Worth(a + s.step, loss) > risk
                                 || (s.maximumLots.Some? && a + s.step > Max(s.maximumLots.value, 0.0)))
            && (s.step == 0.0 ==> Worth(a, loss) == risk
                                  || (s.maximumLots.Some? && a == Max(s.maximumLots.value, 0.0)))
  {
    hide WholeSteps;
    QuotientOrder(risk, loss, 0.0);
    var capped := Cap(s, Max(risk / loss, 0.0));
    RoundDownExactly(s, capped);
    WithinBudget(Affordable(s, risk, loss), risk, loss);
    WithinBudget(Affordable(s, risk, loss) + s.step, risk, loss);
  }

  /** The lots are the largest admissible size, and zero exactly when no positive size is admissible. */
  lemma LargestAdmissible(s: Sizer, risk: real, loss: real)
    requires loss > 0.0 && risk >= 0.0
    ensures var lots := Lots(s, risk, loss);
            (lots == 0.0 || Admissible(s, lots, risk, loss))
            && (forall x :: Admissible(s, x, risk, loss) ==> x <= lots)
            && (lots == 0.0 <==> forall x :: x > 0.0 ==> !Admissible(s, x, risk, loss))
  {
    hide WholeSteps, RoundDownToStep, Worth;
    AffordableExactly(s, risk, loss);
    var a := Affordable(s, risk, loss);
    QuotientOrder(risk, loss, 0.0);
    forall x | Admissible(s, x, risk, loss)
      ensures x <= a
    {
      WithinBudget(x, risk, loss);
      RoundDownLargest(s, Cap(s, Max(risk / loss, 0.0)), x);
    }
  }

  /** Sizing is safe and tight.  The lots are whole steps, at most the maximum, zero or at least the minimum, and
      the loss at the stop is at most the chosen share, never above one percent, of equity; and unless the
      minimum set them to zero, one more step would break the risk or the lot cap. */
  lemma SizingIsSafeAndTight(s: Sizer, entry: real, stop: real, quoted: Option<real>, multiplier: real)
    ensures var sizing, loss := CalculateLotSize(s, entry, stop, quoted, multiplier), LossPerLot(s, entry, stop, quoted);
            (sizing.NonPositiveLoss? <==> loss <= 0.0)
            && (sizing.Sized? ==>
                  var lots, risk := sizing.payload.lots, TargetRisk(s, multiplier);
                  WholeSteps(lots, s.step) && (lots == 0.0 || lots >= s.minimumLots)
                  && (s.maximumLots.Some? ==> lots <= Max(s.maximumLots.value, 0.0))
                  && 0.0 <= sizing.payload.currencyRisk <= risk <= s.equity / 100.0
                  && sizing.payload.riskPercent <= TargetPercent(multiplier)
                  && (Affordable(s, risk, loss) >= s.minimumLots ==>
                        if s.step > 0.0 then
                          Worth(lots + s.step, loss) > risk
                          || (s.maximumLots.Some? && lots + s.step > Max(s.maximumLots.value, 0.0))
                        else
                          Worth(lots, loss) == risk
                          || (s.maximumLots.Some? && lots == Max(s.maximumLots.value, 0.0))))
  {
    hide WholeSteps, Affordable, TargetPercent, LossPerLot;
    BudgetNonNegative(s, multiplier);
    var loss, risk := LossPerLot(s, entry, stop, quoted), TargetRisk(s, multiplier);
    if loss > 0.0 {
      AffordableExactly(s, risk, loss);
      ZeroIsWhole(s.step);
      var lots := Lots(s, risk, loss);
      ProductNonNegative(lots, loss);
      PercentBound(lots * loss, s.equity, TargetPercent(multiplier));
    }
  }

  lemma PercentBound(x: real, equity: real, percent: real)
    requires equity > 0.0 && x <= equity * (percent / 100.0)
    ensures x / equity * 100.0 <= percent
  {
    QuotientOrder(x, equity, percent / 100.0);
  }

  lemma ZeroIsWhole(step: real)
    ensures WholeSteps(0.0, step)
  {
    assert StepsOf(0, step) == 0.0;
  }

  /** A larger loss per lot never makes a larger position. */
  lemma LargerLossFewerLots(s: Sizer, risk: real, loss: real, larger: real)
    requires 0.0 < loss <= larger && risk >= 0.0
    ensures Lots(s, risk, larger) <= Lots(s, risk, loss)
  {
    hide Lots, WholeSteps;
    LargestAdmissible(s, risk, loss);
    LargestAdmissible(s, risk, larger);
    LotsNonNegative(s, risk, loss);
    var x := Lots(s, risk, larger);
    if Admissible(s, x, risk, larger) {
      ProductNonNegative(x, larger - loss);
      assert x * (larger - loss) == x * larger - x * loss;
      assert Admissible(s, x, risk, loss);
    }
  }

  lemma LotsNonNegative(s: Sizer, risk: real, loss: real)
    requires loss > 0.0 && risk >= 0.0
    ensures Lots(s, risk, loss) >= 0.0
  {
    hide WholeSteps, RoundDownToStep;
    AffordableExactly(s, risk, loss);
  }
}
