/** Candle-confirmed trailing of a protected position: one stop proposal per confirmed milestone, the
    loop that applies proposals through the broker, and the start-up reconciliation. */
module TrailingStop {
  import opened Common
  import opened Market

  /** Buffers are fractions of one R; the constructor refuses anything outside these bounds. */
  datatype RawSettings = RawSettings(confirmation: real, trailing: real, maximum: int)

  predicate Acceptable(s: RawSettings) {
    0.0 <= s.confirmation < 1.0 && 0.0 <= s.trailing < 1.0 && s.maximum >= 1
  }

  type Settings = s: RawSettings | Acceptable(s) witness RawSettings(0.2, 0.15, 6)

  datatype Plan = Plan(symbol: string, ticket: int, direction: OrderSide, entry: real, initialStop: real,
                       finalTarget: real, milestone: int)

  datatype Snapshot = Snapshot(symbol: string, ticket: int, direction: Option<OrderSide>, entry: real, stop: real,
                               takeProfit: real)

  datatype Reason = InvalidInitialRisk | NoNewMilestone | AlreadyMoreProtective | Trail

  datatype Decision = Decision(stop: Option<real>, confirmed: int, protected: int, reason: Reason)

  // ---------- one candle ----------

  function Risk(plan: Plan): real {
    Abs(plan.entry - plan.initialStop)
  }

  /** Distance travelled in the trade's favour. */
  function Favour(plan: Plan, price: real): real {
    if plan.direction.Buy? then price - plan.entry else plan.entry - price
  }

  function PlannedRr(plan: Plan): real
    requires Risk(plan) > 0.0
  {
    Abs(plan.finalTarget - plan.entry) / Risk(plan)
  }

  function Cap(s: Settings, plan: Plan): int
    requires Risk(plan) > 0.0
  {
    var reachable := (PlannedRr(plan) + 0.000000001).Floor;
    var planned := if reachable >= 1 then reachable else 1;
    if s.maximum <= planned then s.maximum else planned
  }

  /** The milestone a close confirms: how many R it is beyond entry, less the buffer, rounded down. */
  function Confirmed(s: Settings, plan: Plan, close: real): int
    requires Risk(plan) > 0.0
  {
    var milestone := (Favour(plan, close) / Risk(plan) - s.confirmation).Floor;
    if milestone <= Cap(s, plan) then milestone else Cap(s, plan)
  }

  /** The stop that protects a milestone: one R behind it, less the trailing buffer. */
  function Level(s: Settings, plan: Plan, milestone: int): real {
    var protected := if milestone >= 1 then milestone - 1 else 0;
    var r := protected as real - s.trailing;
    if plan.direction.Buy? then plan.entry + r * Risk(plan) else plan.entry - r * Risk(plan)
  }

  predicate Improves(direction: OrderSide, proposed: real, current: real) {
    if direction.Buy? then proposed > current else proposed < current
  }

  function Evaluate(s: Settings, plan: Plan, currentStop: real, close: real, last: int): Decision {
    if Risk(plan) <= 0.0 then Decision(None, last, 0, InvalidInitialRisk)
    else
      var confirmed := Confirmed(s, plan, close);
      var protected := if confirmed >= 1 then confirmed - 1 else 0;
      if confirmed <= last || confirmed < 1 then Decision(None, last, 0, NoNewMilestone)
      else if !Improves(plan.direction, Level(s, plan, confirmed), currentStop) then
        Decision(None, confirmed, protected, AlreadyMoreProtective)
      else Decision(Some(Level(s, plan, confirmed)), confirmed, protected, Trail)
  }

  // ---------- one batch of candles ----------

  datatype Trailed = Trailed(plan: Plan, stop: real, observed: int, updates: nat)

  /** `accepted` is the broker's answer, should it be asked. */
  function Advance(s: Settings, t: Trailed, close: real, apply: bool, accepted: bool): Trailed {
    var d := Evaluate(s, t.plan, t.stop, close, t.observed);
    var observed := if d.confirmed > t.observed then d.confirmed else t.observed;
    if d.stop.Some? && apply && accepted then
      Trailed(t.plan.(milestone := d.confirmed), d.stop.value, observed, t.updates + 1)
    else t.(observed := observed)
  }

  function Follow(s: Settings, start: Trailed, closes: seq<real>, apply: bool, answers: seq<bool>, k: nat): Trailed
    requires k <= |closes| == |answers|
    decreases k
  {
    if k == 0 then start
    else Advance(s, Follow(s, start, closes, apply, answers, k - 1), closes[k - 1], apply, answers[k - 1])
  }

  /** Every batch starts observing from the milestone the plan has recorded. */
  function StartOf(plan: Plan, stop: real): Trailed {
    Trailed(plan, stop, plan.milestone, 0)
  }

  function FindTicket(positions: seq<Snapshot>, ticket: int): Option<Snapshot> {
    if positions == [] then None
    else if positions[0].ticket == ticket then Some(positions[0])
    else FindTicket(positions[1..], ticket)
  }

  /** Manages the recorded trade over newly closed candles; without its position the plan is dropped. */
  method ManageProtectedPosition(s: Settings, plan: Plan, positions: seq<Snapshot>, closes: seq<real>, apply: bool,
                                 answers: seq<bool>)
      returns (kept: Option<Plan>, updates: nat, stop: Option<real>)
    requires |answers| == |closes|
    ensures FindTicket(positions, plan.ticket).None? ==> kept.None? && updates == 0 && stop.None?
    ensures FindTicket(positions, plan.ticket).Some? ==>
              var start := StartOf(plan, FindTicket(positions, plan.ticket).value.stop);
              var last := Follow(s, start, closes, apply, answers, |closes|);
              kept == Some(last.plan) && updates == last.updates && stop == Some(last.stop)
  {
    var position := FindTicket(positions, plan.ticket);
    if position.None? {
      return None, 0, None;
    }
    ghost var start := StartOf(plan, position.value.stop);
    var current, currentStop, observed := plan, position.value.stop, plan.milestone;
    updates := 0;
    for k := 0 to |closes|
      invariant Trailed(current, currentStop, observed, updates) == Follow(s, start, closes, apply, answers, k)
    {
      var decision := Evaluate(s, current, currentStop, closes[k], observed);
      observed := if decision.confirmed > observed then decision.confirmed else observed;
      if decision.stop.Some? && apply && answers[k] {
        updates := updates + 1;
        current := current.(milestone := decision.confirmed);
        currentStop := decision.stop.value;
      }
    }
    kept, stop := Some(current), Some(currentStop);
  }

  // ---------- start-up reconciliation ----------

  datatype Reconciliation =
    | StalePlanCleared | NoOpenPosition | MultiplePositions | NoLocalPlan | TicketMismatch
    | SymbolOrDirectionMismatch | EntryMismatch | TakeProfitMismatch | GeometryInvalid
    | Matched(plan: Plan)
  {
    predicate BlocksNewEntries() {
      !StalePlanCleared? && !NoOpenPosition?
    }

    predicate AllowsManagement() {
      Matched?
    }
  }

  predicate ValidGeometry(plan: Plan, brokerStop: real) {
    brokerStop > 0.0
    && match plan.direction
       case Buy => plan.initialStop < plan.entry < plan.finalTarget && brokerStop < plan.finalTarget
       case Sell => plan.finalTarget < plan.entry < plan.initialStop && brokerStop > plan.finalTarget
  }

  function Reconcile(plan: Option<Plan>, positions: seq<Snapshot>, tolerance: real): Reconciliation {
    if positions == [] then if plan.Some? then StalePlanCleared else NoOpenPosition
    else if |positions| != 1 then MultiplePositions
    else if plan.None? then NoLocalPlan
    else
      var p, position := plan.value, positions[0];
      if position.ticket != p.ticket then TicketMismatch
      else if position.symbol != p.symbol || position.direction != Some(p.direction) then SymbolOrDirectionMismatch
      else if Abs(position.entry - p.entry) > tolerance then EntryMismatch
      else if Abs(position.takeProfit - p.finalTarget) > tolerance then TakeProfitMismatch
      else if !ValidGeometry(p, position.stop) then GeometryInvalid
      else Matched(p)
  }
}
