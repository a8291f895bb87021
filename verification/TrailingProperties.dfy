/** The trailing stop has a closed form, does not depend on the path or on how the candles are split
    into batches, is applied a bounded number of times, and keeps the trade manageable. */
module TrailingProperties {
  import opened Common
  import opened Market
  import opened TrailingStop

  // ---------- levels ----------

  /** `a` protects at least as much as `b`. */
  predicate Protects(direction: OrderSide, a: real, b: real) {
    if direction.Buy? then a >= b else a <= b
  }

  function Better(direction: OrderSide, a: real, b: real): real {
    if direction.Buy? then Max(a, b) else Min(a, b)
  }

  lemma LevelsRise(s: Settings, plan: Plan, m: int, n: int)
    requires Risk(plan) > 0.0 && 1 <= m < n
    ensures Improves(plan.direction, Level(s, plan, n), Level(s, plan, m))
  {
    hide Risk;
    ProductMonotone((m - 1) as real - s.trailing, (n - 1) as real - s.trailing, Risk(plan));
  }

  /** A stop consistent with the plan protects at least the milestone the plan has recorded. */
  predicate Consistent(s: Settings, plan: Plan, stop: real) {
    plan.milestone >= 1 ==> Protects(plan.direction, stop, Level(s, plan, plan.milestone))
  }

  // ---------- the closed form ----------

  /** The best milestone any of the first k closes confirms, zero when none does. */
  function Peak(s: Settings, plan: Plan, closes: seq<real>, k: nat): (p: nat)
    requires k <= |closes| && Risk(plan) > 0.0
    decreases k
  {
    if k == 0 then 0
    else
      var before, now := Peak(s, plan, closes, k - 1), Confirmed(s, plan, closes[k - 1]);
      if now > before then now else before
  }

  function ClosedForm(s: Settings, plan: Plan, stop: real, peak: nat): real {
    if peak == 0 then stop else Better(plan.direction, stop, Level(s, plan, peak))
  }

  /** Only the recorded milestone of a plan ever changes. */
  predicate SamePlan(p: Plan, q: Plan) {
    p == q.(milestone := p.milestone)
  }

  lemma SamePlanSameLevels(s: Settings, p: Plan, q: Plan, m: int, close: real)
    requires SamePlan(p, q)
    ensures Risk(p) == Risk(q) && Level(s, p, m) == Level(s, q, m)
    ensures Risk(p) > 0.0 ==> Confirmed(s, p, close) == Confirmed(s, q, close)
  {
  }

  /** What one batch with every update applied looks like after k candles. */
  predicate OnCourse(s: Settings, plan: Plan, stop: real, peak: nat, t: Trailed) {
    SamePlan(t.plan, plan)
    && t.observed == (if peak > plan.milestone && peak >= 1 then peak else plan.milestone)
    && t.stop == ClosedForm(s, plan, stop, peak)
    && (t.observed >= 1 ==> Protects(plan.direction, t.stop, Level(s, plan, t.observed)))
    && t.plan.milestone <= t.observed
  }

  lemma AdvanceStaysOnCourse(s: Settings, plan: Plan, stop: real, peak: nat, t: Trailed, close: real)
    requires Risk(plan) > 0.0 && Consistent(s, plan, stop) && OnCourse(s, plan, stop, peak, t)
    ensures var confirmed := Confirmed(s, plan, close);
            OnCourse(s, plan, stop, if confirmed > peak then confirmed else peak, Advance(s, t, close, true, true))
  {
    hide Level, Confirmed, Risk;
    var confirmed := Confirmed(s, plan, close);
    SamePlanSameLevels(s, t.plan, plan, confirmed, close);
    if confirmed > peak && confirmed >= 1 {
      if 1 <= peak {
        LevelsRise(s, plan, peak, confirmed);
      }
      if confirmed < plan.milestone {
        LevelsRise(s, plan, confirmed, plan.milestone);
      }
    }
  }

  function AllAccepted(n: nat): (answers: seq<bool>)
    ensures |answers| == n && forall k :: 0 <= k < n ==> answers[k]
  {
    seq(n, k => true)
  }

  lemma {:induction false} BatchStaysOnCourse(s: Settings, plan: Plan, stop: real, closes: seq<real>, k: nat)
    requires k <= |closes| && Risk(plan) > 0.0 && Consistent(s, plan, stop)
    ensures OnCourse(s, plan, stop, Peak(s, plan, closes, k),
                     Follow(s, StartOf(plan, stop), closes, true, AllAccepted(|closes|), k))
    decreases k
  {
    hide Level, Confirmed, Advance, OnCourse, Risk;
    if k == 0 {
      StartsOnCourse(s, plan, stop);
    } else {
      BatchStaysOnCourse(s, plan, stop, closes, k - 1);
      AdvanceStaysOnCourse(s, plan, stop, Peak(s, plan, closes, k - 1),
                           Follow(s, StartOf(plan, stop), closes, true, AllAccepted(|closes|), k - 1), closes[k - 1]);
    }
  }

  lemma StartsOnCourse(s: Settings, plan: Plan, stop: real)
    requires Consistent(s, plan, stop)
    ensures OnCourse(s, plan, stop, 0, StartOf(plan, stop))
  {
  }

  /** The close that confirms milestone m and no more. */
  function CloseAt(s: Settings, plan: Plan, m: int): real {
    var distance := (m as real + s.confirmation) * Risk(plan);
    if plan.direction.Buy? then plan.entry + distance else plan.entry - distance
  }

  lemma CloseAtConfirms(s: Settings, plan: Plan, m: int)
    requires Risk(plan) > 0.0 && m <= Cap(s, plan)
    ensures Confirmed(s, plan, CloseAt(s, plan, m)) == m
  {
    hide Cap, Risk;
    var r := m as real + s.confirmation;
    assert Favour(plan, CloseAt(s, plan, m)) == r * Risk(plan);
    QuotientOrder(r * Risk(plan), Risk(plan), r);
    assert (r - s.confirmation).Floor == m;
  }

  /** Consistency is exactly what the closed form needs: from a stop that has fallen behind the recorded
      milestone, some candle confirms a level the loop then never proposes. */
  lemma ClosedFormNeedsConsistency(s: Settings, plan: Plan, stop: real)
    requires Risk(plan) > 0.0 && plan.milestone <= Cap(s, plan)
    ensures Consistent(s, plan, stop)
            <==> forall closes: seq<real> ::
                   Follow(s, StartOf(plan, stop), closes, true, AllAccepted(|closes|), |closes|).stop
                   == ClosedForm(s, plan, stop, Peak(s, plan, closes, |closes|))
  {
    hide Confirmed, Level, Risk, Cap;
    if Consistent(s, plan, stop) {
      forall closes: seq<real>
        ensures Follow(s, StartOf(plan, stop), closes, true, AllAccepted(|closes|), |closes|).stop
             == ClosedForm(s, plan, stop, Peak(s, plan, closes, |closes|))
      {
        BatchStaysOnCourse(s, plan, stop, closes, |closes|);
      }
    } else {
      var closes := [CloseAt(s, plan, plan.milestone)];
      CloseAtConfirms(s, plan, plan.milestone);
      assert Follow(s, StartOf(plan, stop), closes, true, AllAccepted(1), 0) == StartOf(plan, stop);
      assert Follow(s, StartOf(plan, stop), closes, true, AllAccepted(1), 1).stop == stop;
      assert Peak(s, plan, closes, 0) == 0 && Peak(s, plan, closes, 1) == plan.milestone;
      assert ClosedForm(s, plan, stop, plan.milestone) != stop;
      assert |closes| == 1;
    }
  }

  /** The peak is the milestone confirmed by the single most favourable close. */
  lemma {:induction false} PeakIsBestClose(s: Settings, plan: Plan, closes: seq<real>, k: nat, best: nat)
    requires best < k <= |closes| && Risk(plan) > 0.0
    requires forall j :: 0 <= j < k ==> Favour(plan, closes[j]) <= Favour(plan, closes[best])
    ensures var c := Confirmed(s, plan, closes[best]); Peak(s, plan, closes, k) == if c > 0 then c else 0
    decreases k
  {
    hide Cap, Favour, Risk;
    PeakBounds(s, plan, closes, k, best);
    PeakReached(s, plan, closes, k, best);
  }

  lemma ConfirmedMonotone(s: Settings, plan: Plan, a: real, b: real)
    requires Risk(plan) > 0.0 && Favour(plan, a) <= Favour(plan, b)
    ensures Confirmed(s, plan, a) <= Confirmed(s, plan, b)
  {
    hide Favour, Cap;
    var risk, fa, fb := Risk(plan), Favour(plan, a), Favour(plan, b);
    QuotientOrder(fa, risk, fb / risk);
    QuotientOrder(fb, risk, 0.0);
    assert fa / risk <= fb / risk;
    assert (fa / risk - s.confirmation).Floor <= (fb / risk - s.confirmation).Floor;
  }

  lemma {:induction false} PeakBounds(s: Settings, plan: Plan, closes: seq<real>, k: nat, best: nat)
    requires best < |closes| && k <= |closes| && Risk(plan) > 0.0
    requires forall j :: 0 <= j < k ==> Favour(plan, closes[j]) <= Favour(plan, closes[best])
    ensures var c := Confirmed(s, plan, closes[best]); Peak(s, plan, closes, k) <= if c > 0 then c else 0
    decreases k
  {
    hide Confirmed, Favour, Risk;
    if k > 0 {
      PeakBounds(s, plan, closes, k - 1, best);
      ConfirmedMonotone(s, plan, closes[k - 1], closes[best]);
    }
  }

  lemma {:induction false} PeakReached(s: Settings, plan: Plan, closes: seq<real>, k: nat, j: nat)
    requires j < k <= |closes| && Risk(plan) > 0.0
    ensures Peak(s, plan, closes, k) >= Confirmed(s, plan, closes[j])
    decreases k
  {
    hide Confirmed, Risk;
    if j < k - 1 {
      PeakReached(s, plan, closes, k - 1, j);
    }
  }

  // ---------- a lifetime of batches ----------

  datatype Life = Life(plan: Plan, stop: real, updates: nat)

  datatype Batch = Batch(closes: seq<real>, apply: bool, answers: seq<bool>)

  predicate Answered(b: Batch) {
    |b.answers| == |b.closes|
  }

  /** Each batch starts from the plan and the stop the one before it left. */
  function Live(s: Settings, life: Life, batches: seq<Batch>, k: nat): Life
    requires k <= |batches| && forall j :: 0 <= j < |batches| ==> Answered(batches[j])
    decreases k
  {
    if k == 0 then life
    else
      var before, b := Live(s, life, batches, k - 1), batches[k - 1];
      assert Answered(b);
      var t := Follow(s, StartOf(before.plan, before.stop), b.closes, b.apply, b.answers, |b.closes|);
      Life(t.plan, t.stop, before.updates + t.updates)
  }

  function LifePeak(s: Settings, plan: Plan, batches: seq<Batch>, k: nat): nat
    requires k <= |batches| && Risk(plan) > 0.0
    decreases k
  {
    if k == 0 then 0
    else
      var before, now := LifePeak(s, plan, batches, k - 1), Peak(s, plan, batches[k - 1].closes, |batches[k - 1].closes|);
      if now > before then now else before
  }

  lemma {:induction false} PeakSamePlan(s: Settings, p: Plan, q: Plan, closes: seq<real>, k: nat)
    requires k <= |closes| && Risk(q) > 0.0 && SamePlan(p, q)
    ensures Risk(p) > 0.0 && Peak(s, p, closes, k) == Peak(s, q, closes, k)
    decreases k
  {
    if k > 0 {
      PeakSamePlan(s, p, q, closes, k - 1);
      SamePlanSameLevels(s, p, q, 0, closes[k - 1]);
    }
  }

  /** A batch with every update applied, from a stop that is already a closed form. */
  lemma BatchExtendsClosedForm(s: Settings, plan: Plan, stop: real, before: Life, peak: nat, closes: seq<real>)
    requires Risk(plan) > 0.0 && SamePlan(before.plan, plan)
    requires before.stop == ClosedForm(s, plan, stop, peak) && Consistent(s, before.plan, before.stop)
    ensures var t := Follow(s, StartOf(before.plan, before.stop), closes, true, AllAccepted(|closes|), |closes|);
            var now := Peak(s, plan, closes, |closes|);
            SamePlan(t.plan, plan) && Consistent(s, t.plan, t.stop)
            && t.stop == ClosedForm(s, plan, stop, if now > peak then now else peak)
  {
    hide Level, Follow, Peak, Risk;
    var now := Peak(s, plan, closes, |closes|);
    var t := Follow(s, StartOf(before.plan, before.stop), closes, true, AllAccepted(|closes|), |closes|);
    SamePlanSameLevels(s, before.plan, plan, now, 0.0);
    SamePlanSameLevels(s, before.plan, plan, t.observed, 0.0);
    PeakSamePlan(s, before.plan, plan, closes, |closes|);
    BatchStaysOnCourse(s, before.plan, before.stop, closes, |closes|);
    SamePlanSameLevels(s, t.plan, plan, t.plan.milestone, 0.0);
    if 1 <= t.plan.milestone < t.observed {
      LevelsRise(s, plan, t.plan.milestone, t.observed);
    }
    if 1 <= now < peak {
      LevelsRise(s, plan, now, peak);
    }
    if 1 <= peak < now {
      LevelsRise(s, plan, peak, now);
    }
  }

  /** The closed form of a whole lifetime: however the candles come, and however they are split into
      batches, the stop ends as the better of where it started and one R behind the best confirmed milestone. */
  lemma {:induction false} LifeHasClosedForm(s: Settings, life: Life, batches: seq<Batch>, k: nat)
    requires k <= |batches| && Risk(life.plan) > 0.0 && Consistent(s, life.plan, life.stop)
    requires forall j :: 0 <= j < |batches| ==>
               Answered(batches[j]) && batches[j].apply && batches[j].answers == AllAccepted(|batches[j].closes|)
    ensures var last := Live(s, life, batches, k);
            SamePlan(last.plan, life.plan) && Consistent(s, last.plan, last.stop)
            && last.stop == ClosedForm(s, life.plan, life.stop, LifePeak(s, life.plan, batches, k))
    decreases k
  {
    hide Level, Follow, Peak, Risk, ClosedForm, Consistent;
    if k == 0 {
      NoPeakNoChange(s, life.plan, life.stop);
    } else {
      LifeHasClosedForm(s, life, batches, k - 1);
      assert Answered(batches[k - 1]);
      BatchExtendsClosedForm(s, life.plan, life.stop, Live(s, life, batches, k - 1), LifePeak(s, life.plan, batches, k - 1),
                             batches[k - 1].closes);
    }
  }

  lemma NoPeakNoChange(s: Settings, plan: Plan, stop: real)
    ensures ClosedForm(s, plan, stop, 0) == stop
  {
  }

  // ---------- any broker ----------

  /** What holds whatever the broker answers and wherever the stop was: the stop only improves, every applied
      update raises the recorded milestone, and a stop consistent with its milestone stays so. */
  predicate Sane(s: Settings, plan: Plan, stop: real, t: Trailed) {
    SamePlan(t.plan, plan) && Protects(plan.direction, t.stop, stop)
    && (Consistent(s, plan, stop) ==> Consistent(s, t.plan, t.stop))
    && t.observed >= t.plan.milestone >= plan.milestone
    && (t.updates == 0 ==> t.plan == plan)
    && (t.updates >= 1 ==> 1 <= t.plan.milestone <= s.maximum)
    && t.updates <= Reached(t.plan) - Reached(plan)
  }

  /** The recorded milestone, counted from zero. */
  function Reached(plan: Plan): nat {
    if plan.milestone > 0 then plan.milestone else 0
  }

  lemma ConfirmedWithinMaximum(s: Settings, plan: Plan, close: real)
    requires Risk(plan) > 0.0
    ensures Confirmed(s, plan, close) <= Cap(s, plan) <= s.maximum
  {
  }

  lemma AdvanceStaysSane(s: Settings, plan: Plan, stop: real, t: Trailed, close: real, apply: bool, accepted: bool)
    requires Risk(plan) > 0.0 && Sane(s, plan, stop, t)
    ensures Sane(s, plan, stop, Advance(s, t, close, apply, accepted))
  {
    hide Level, Risk, Confirmed;
    var confirmed := Confirmed(s, plan, close);
    SamePlanSameLevels(s, t.plan, plan, confirmed, close);
    SamePlanSameLevels(s, t.plan.(milestone := confirmed), plan, confirmed, close);
    ConfirmedWithinMaximum(s, plan, close);
  }

  lemma {:induction false} FollowStaysSane(s: Settings, plan: Plan, stop: real, closes: seq<real>, apply: bool,
                                           answers: seq<bool>, k: nat)
    requires k <= |closes| == |answers| && Risk(plan) > 0.0
    ensures Sane(s, plan, stop, Follow(s, StartOf(plan, stop), closes, apply, answers, k))
    decreases k
  {
    hide Advance, Level, Risk, Sane;
    if k == 0 {
      StartsSane(s, plan, stop);
    } else {
      FollowStaysSane(s, plan, stop, closes, apply, answers, k - 1);
      AdvanceStaysSane(s, plan, stop, Follow(s, StartOf(plan, stop), closes, apply, answers, k - 1), closes[k - 1], apply,
                       answers[k - 1]);
    }
  }

  lemma StartsSane(s: Settings, plan: Plan, stop: real)
    ensures Sane(s, plan, stop, StartOf(plan, stop))
  {
  }

  /** Over a whole lifetime, with any broker, the stop never moves backwards and at most as many
      updates are applied as there are milestones. */
  lemma {:induction false} LifetimeUpdatesBounded(s: Settings, life: Life, batches: seq<Batch>, k: nat)
    requires k <= |batches| && Risk(life.plan) > 0.0
    requires life.updates == 0
    requires forall j :: 0 <= j < |batches| ==> Answered(batches[j])
    ensures var last := Live(s, life, batches, k);
            SamePlan(last.plan, life.plan) && Protects(life.plan.direction, last.stop, life.stop)
            && (Consistent(s, life.plan, life.stop) ==> Consistent(s, last.plan, last.stop))
            && last.updates <= Reached(last.plan) - Reached(life.plan) && last.updates <= s.maximum
            && (last.updates == 0 ==> last.plan == life.plan)
            && (last.updates >= 1 ==> last.plan.milestone <= s.maximum)
    decreases k
  {
    hide Level, Follow, Risk, Consistent;
    if k > 0 {
      LifetimeUpdatesBounded(s, life, batches, k - 1);
      var before, b := Live(s, life, batches, k - 1), batches[k - 1];
      assert Answered(b);
      SamePlanSameLevels(s, before.plan, life.plan, 0, 0.0);
      FollowStaysSane(s, before.plan, before.stop, b.closes, b.apply, b.answers, |b.closes|);
    }
  }

  // ---------- the proposals themselves ----------

  /** A proposed stop lies at least one R, and both buffers, behind the close that confirmed it. */
  lemma ProposalBehindClose(s: Settings, plan: Plan, currentStop: real, close: real, last: int)
    requires Evaluate(s, plan, currentStop, close, last).stop.Some?
    ensures Favour(plan, close) - Favour(plan, Evaluate(s, plan, currentStop, close, last).stop.value)
            >= (1.0 + s.confirmation + s.trailing) * Risk(plan)
  {
    hide Cap, Favour, Risk, Level;
    var risk, m := Risk(plan), Confirmed(s, plan, close);
    var r := Favour(plan, close) / risk;
    QuotientOrder(Favour(plan, close), risk, 0.0);
    FavourOfLevel(s, plan, m);
  }

  lemma FavourOfLevel(s: Settings, plan: Plan, m: int)
    requires m >= 1
    ensures Favour(plan, Level(s, plan, m)) == ((m - 1) as real - s.trailing) * Risk(plan)
  {
  }

  /** A level within the cap lies strictly inside the final target. */
  lemma LevelInsideTarget(s: Settings, plan: Plan, m: int)
    requires Risk(plan) > 0.0 && 1 <= m <= Cap(s, plan) && Favour(plan, plan.finalTarget) > 0.0
    ensures Favour(plan, Level(s, plan, m)) < Favour(plan, plan.finalTarget)
  {
    var risk, reward := Risk(plan), Favour(plan, plan.finalTarget);
    var rr, level := reward / risk, (m - 1) as real - s.trailing;
    assert Abs(plan.finalTarget - plan.entry) == reward;
    QuotientOrder(reward, risk, 0.0);
    QuotientOrder(reward, risk, level);
    assert level < rr;
  }

  // ---------- management keeps the trade manageable ----------

  lemma AdvanceKeepsGeometry(s: Settings, t: Trailed, close: real, apply: bool, accepted: bool)
    requires ValidGeometry(t.plan, t.stop) && t.plan.finalTarget >= 0.0
    ensures ValidGeometry(Advance(s, t, close, apply, accepted).plan, Advance(s, t, close, apply, accepted).stop)
  {
    var d := Evaluate(s, t.plan, t.stop, close, t.observed);
    if d.stop.Some? {
      ConfirmedWithinMaximum(s, t.plan, close);
      LevelInsideTarget(s, t.plan, d.confirmed);
    }
    hide Confirmed, Level, Cap;
  }

  lemma {:induction false} FollowKeepsGeometry(s: Settings, plan: Plan, stop: real, closes: seq<real>, apply: bool,
                                               answers: seq<bool>, k: nat)
    requires k <= |closes| == |answers| && ValidGeometry(plan, stop) && plan.finalTarget >= 0.0
    ensures var t := Follow(s, StartOf(plan, stop), closes, apply, answers, k);
            SamePlan(t.plan, plan) && ValidGeometry(t.plan, t.stop)
    decreases k
  {
    hide Evaluate, ValidGeometry;
    if k > 0 {
      FollowKeepsGeometry(s, plan, stop, closes, apply, answers, k - 1);
      AdvanceKeepsGeometry(s, Follow(s, StartOf(plan, stop), closes, apply, answers, k - 1), closes[k - 1], apply,
                           answers[k - 1]);
    }
  }

  /** A trade that reconciles at start-up still reconciles after any batch, whatever the broker answers. */
  lemma ManagedTradeStaysReconciled(s: Settings, plan: Plan, position: Snapshot, closes: seq<real>, apply: bool,
                                    answers: seq<bool>, tolerance: real)
    requires |answers| == |closes| && plan.finalTarget >= 0.0
    requires Reconcile(Some(plan), [position], tolerance).AllowsManagement()
    ensures var t := Follow(s, StartOf(plan, position.stop), closes, apply, answers, |closes|);
            Reconcile(Some(t.plan), [position.(stop := t.stop)], tolerance) == Matched(t.plan)
  {
    hide Follow, ValidGeometry;
    FollowKeepsGeometry(s, plan, position.stop, closes, apply, answers, |closes|);
  }
}
