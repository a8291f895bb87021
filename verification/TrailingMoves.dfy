/** The trailing stop in prices: which milestone a close confirms, where the stop then goes, when it is moved, and what
    the start-up reconciliation answers. */
module TrailingMoves {
  import opened Common
  import opened Market
  import opened TrailingStop

  // ---------- one R, milestones and levels ----------

  function OneR(plan: Plan): real {
    if plan.entry > plan.initialStop then plan.entry - plan.initialStop else plan.initialStop - plan.entry
  }

  /** How far a price is beyond the entry in the direction of the trade. */
  function Beyond(plan: Plan, price: real): real {
    match plan.direction
    case Buy => price - plan.entry
    case Sell => plan.entry - price
  }

  function Planned(plan: Plan): real {
    if plan.finalTarget > plan.entry then plan.finalTarget - plan.entry else plan.entry - plan.finalTarget
  }

  /** So many R fit before the target, but for a billionth. */
  predicate Fits(plan: Plan, n: int) {
    n as real * OneR(plan) <= Planned(plan) + 0.000000001 * OneR(plan)
  }

  /** The last milestone that counts: as many R as fit before the target, at least one and at most the maximum. */
  predicate LastMilestone(s: Settings, plan: Plan, n: int) {
    1 <= n <= s.maximum && (n > 1 ==> Fits(plan, n)) && (n < s.maximum ==> !Fits(plan, n + 1))
  }

  /** A price is past a milestone by the confirmation buffer. */
  predicate PastBuffer(s: Settings, plan: Plan, price: real, m: int) {
    Beyond(plan, price) >= (m as real + s.confirmation) * OneR(plan)
  }

  /** A close confirms the highest milestone, up to the last, that it is past. */
  ghost predicate Confirms(s: Settings, plan: Plan, close: real, m: int) {
    exists last: int :: LastMilestone(s, plan, last) && m <= last
      && PastBuffer(s, plan, close, m) && (m < last ==> !PastBuffer(s, plan, close, m + 1))
  }

  lemma FitsExactly(plan: Plan, n: int)
    requires Risk(plan) > 0.0
    ensures Fits(plan, n) <==> n <= (PlannedRr(plan) + 0.000000001).Floor
  {
    var r, fits := OneR(plan), PlannedRr(plan) + 0.000000001;
    FitsTimes(Planned(plan), r);
    Times(n as real, fits, r);
  }

  lemma CapExactly(s: Settings, plan: Plan)
    requires Risk(plan) > 0.0
    ensures LastMilestone(s, plan, Cap(s, plan))
  {
    hide Fits, PlannedRr, Risk;
    FitsExactly(plan, Cap(s, plan));
    FitsExactly(plan, Cap(s, plan) + 1);
  }

  lemma OneLast(s: Settings, plan: Plan, m: int, n: int)
    requires Risk(plan) > 0.0 && LastMilestone(s, plan, m) && LastMilestone(s, plan, n)
    ensures m == n
  {
    hide Fits, PlannedRr, Risk;
    FitsExactly(plan, m);
    FitsExactly(plan, n);
    FitsExactly(plan, m + 1);
    FitsExactly(plan, n + 1);
  }

  lemma FitsTimes(planned: real, r: real)
    requires r > 0.0
    ensures (planned / r + 0.000000001) * r == planned + 0.000000001 * r
  {
    assert (planned / r) * r == planned;
  }

  lemma Times(x: real, y: real, r: real)
    requires r > 0.0
    ensures x * r <= y * r <==> x <= y
  {
    ProductMonotone(y, x, r);
  }

  lemma PastExactly(s: Settings, plan: Plan, price: real, m: int)
    requires Risk(plan) > 0.0
    ensures PastBuffer(s, plan, price, m) <==> m <= (Favour(plan, price) / Risk(plan) - s.confirmation).Floor
  {
    QuotientOrder(Beyond(plan, price), OneR(plan), m as real + s.confirmation);
  }

  lemma ConfirmedExactly(s: Settings, plan: Plan, close: real)
    requires Risk(plan) > 0.0
    ensures Confirms(s, plan, close, Confirmed(s, plan, close))
  {
    hide Cap, LastMilestone, PastBuffer, Risk, Favour;
    CapExactly(s, plan);
    PastExactly(s, plan, close, Confirmed(s, plan, close));
    PastExactly(s, plan, close, Confirmed(s, plan, close) + 1);
  }

  /** Only one milestone can be the one a close confirms. */
  lemma ConfirmsOne(s: Settings, plan: Plan, close: real, m: int, n: int)
    requires Risk(plan) > 0.0 && Confirms(s, plan, close, m) && Confirms(s, plan, close, n)
    ensures m == n
  {
    hide LastMilestone, PastBuffer, Risk, Favour;
    var last :| LastMilestone(s, plan, last) && m <= last && PastBuffer(s, plan, close, m)
             && (m < last ==> !PastBuffer(s, plan, close, m + 1));
    var end :| LastMilestone(s, plan, end) && n <= end && PastBuffer(s, plan, close, n)
            && (n < end ==> !PastBuffer(s, plan, close, n + 1));
    OneLast(s, plan, last, end);
    PastExactly(s, plan, close, m);
    PastExactly(s, plan, close, n);
    PastExactly(s, plan, close, m + 1);
    PastExactly(s, plan, close, n + 1);
  }

  /** The stop that protects a milestone of one or more: one R and the trailing buffer behind it. */
  function LevelOf(s: Settings, plan: Plan, m: int): real {
    match plan.direction
    case Buy => plan.entry + ((m - 1) as real - s.trailing) * OneR(plan)
    case Sell => plan.entry - ((m - 1) as real - s.trailing) * OneR(plan)
  }

  // ---------- one close ----------

  predicate MoreProtective(plan: Plan, proposed: real, current: real) {
    match plan.direction
    case Buy => proposed > current
    case Sell => proposed < current
  }

  /** A close that confirms a new milestone is observed; the stop goes to its level when that protects more, updates
      are on and the broker agrees, and only then does the plan record the milestone. */
  lemma AdvanceExactly(s: Settings, t: Trailed, close: real, apply: bool, accepted: bool) returns (m: int)
    ensures OneR(t.plan) > 0.0 ==> Confirms(s, t.plan, close, m)
    ensures var next, news := Advance(s, t, close, apply, accepted), OneR(t.plan) > 0.0 && m > t.observed && m >= 1;
            var moved := news && MoreProtective(t.plan, LevelOf(s, t.plan, m), t.stop) && apply && accepted;
            next.observed == (if news then m else t.observed)
            && next.stop == (if moved then LevelOf(s, t.plan, m) else t.stop)
            && next.plan == (if moved then t.plan.(milestone := m) else t.plan)
            && next.updates == (if moved then t.updates + 1 else t.updates)
  {
    hide Confirms, Confirmed;
    m := 0;
    if OneR(t.plan) > 0.0 {
      m := Confirmed(s, t.plan, close);
      ConfirmedExactly(s, t.plan, close);
    }
  }

  // ---------- the position and the reconciliation ----------

  /** The trade is managed on the first position with its ticket, and the plan is dropped without one. */
  lemma {:induction false} TicketExactly(positions: seq<Snapshot>, ticket: int) returns (k: nat)
    ensures k <= |positions| && (forall j :: 0 <= j < k ==> positions[j].ticket != ticket)
    ensures FindTicket(positions, ticket)
            == if k == |positions| then None else Some(positions[k])
    ensures k < |positions| ==> positions[k].ticket == ticket
    decreases |positions|
  {
    k := 0;
    if positions != [] && positions[0].ticket != ticket {
      k := TicketExactly(positions[1..], ticket);
      k := k + 1;
    }
  }

  predicate Near(x: real, y: real, tolerance: real) {
    x - y <= tolerance && y - x <= tolerance
  }

  /** A stop on the board, on the right side of the target, and a plan whose prices are in order. */
  predicate InOrder(plan: Plan, stop: real) {
    stop > 0.0
    && match plan.direction
       case Buy => plan.initialStop < plan.entry && plan.entry < plan.finalTarget && stop < plan.finalTarget
       case Sell => plan.initialStop > plan.entry && plan.entry > plan.finalTarget && stop > plan.finalTarget
  }

  /** Start-up answers: without positions a recorded plan is cleared; otherwise management goes on exactly for a single
      position that is the recorded trade with its prices in order, and everything else blocks new entries. */
  lemma ReconcilesExactly(plan: Option<Plan>, positions: seq<Snapshot>, tolerance: real)
    ensures var r := Reconcile(plan, positions, tolerance);
            var one := plan.Some? && |positions| == 1 && positions[0].ticket == plan.value.ticket;
            var named := one && positions[0].symbol == plan.value.symbol
                         && positions[0].direction == Some(plan.value.direction);
            var entered := named && Near(positions[0].entry, plan.value.entry, tolerance);
            var aimed := entered && Near(positions[0].takeProfit, plan.value.finalTarget, tolerance);
            (r.BlocksNewEntries() <==> positions != [])
            && (r.StalePlanCleared? <==> positions == [] && plan.Some?)
            && (r.NoOpenPosition? <==> positions == [] && plan.None?)
            && (r.MultiplePositions? <==> |positions| >= 2)
            && (r.NoLocalPlan? <==> |positions| == 1 && plan.None?)
            && (r.TicketMismatch? <==> |positions| == 1 && plan.Some? && !one)
            && (r.SymbolOrDirectionMismatch? <==> one && !named)
            && (r.EntryMismatch? <==> named && !entered)
            && (r.TakeProfitMismatch? <==> entered && !aimed)
            && (r.GeometryInvalid? <==> aimed && !InOrder(plan.value, positions[0].stop))
            && (r.AllowsManagement() <==> aimed && InOrder(plan.value, positions[0].stop))
            && (r.AllowsManagement() ==> r == Matched(plan.value))
  {
  }
}
