/** What one managed candle does, told in its own prices and times: which time exit is due, when the stop closes the
    trade and at what R, and otherwise which rungs are filled, for what size, and where the stop is then. */
module ManagementProperties {
  import opened Common
  import opened Rounding
  import opened TradeManagement

  /** The stop is on the losing side of the entry. */
  predicate Protected(pos: Position) {
    (pos.direction.Bullish? && pos.stop < pos.entry) || (pos.direction.Bearish? && pos.entry < pos.stop)
  }

  /** The R of leaving at a price, on five digits. */
  function RAt(pos: Position, price: real): real
    requires Protected(pos)
  {
    Round(if pos.direction.Bullish? then (price - pos.entry) / (pos.entry - pos.stop)
          else (pos.entry - price) / (pos.stop - pos.entry), 100000.0)
  }

  /** The R credited for a size that leaves at a price. */
  function Paid(pos: Position, size: real, price: real): real
    requires Protected(pos)
  {
    size * RAt(pos, price)
  }

  lemma PaidExactly(pos: Position, size: real, price: real)
    requires Protected(pos)
    ensures Payoff(pos, size, price) == Paid(pos, size, price)
  {
    hide RAt, RMultiple;
    RSpelledOut(pos, price);
  }

  // ---------- time exits ----------

  /** The first day after the epoch was a Friday, and every seventh after it. */
  predicate OnFriday(time: int) {
    (time - 86400) % 604800 < 86400
  }

  predicate FridayDue(c: Candle, cfg: Config) {
    cfg.fridayCutoff.Some? && OnFriday(c.closeTime) && c.closeTime % 86400 >= cfg.fridayCutoff.value
  }

  predicate HeldFor(pos: Position, c: Candle, minutes: Option<real>) {
    minutes.Some? && 0.0 < minutes.value && minutes.value * 60.0 <= (c.closeTime - pos.entryTime) as real
  }

  predicate SessionOver(pos: Position, c: Candle, cfg: Config) {
    cfg.closeAtSessionEnd && pos.session != "" && c.session != "" && pos.session != c.session
  }

  /** The time exit due on a candle, the first of the four in this order. */
  predicate ExitDue(pos: Position, c: Candle, cfg: Config, reason: ExitReason) {
    match reason
    case FridayCutoff => FridayDue(c, cfg)
    case MaxHoldTime => HeldFor(pos, c, cfg.maxHoldMinutes) && !FridayDue(c, cfg)
    case StaleTrade =>
      HeldFor(pos, c, cfg.staleAfterMinutes) && pos.partials == []
      && !FridayDue(c, cfg) && !HeldFor(pos, c, cfg.maxHoldMinutes)
    case SessionClose =>
      SessionOver(pos, c, cfg) && !FridayDue(c, cfg) && !HeldFor(pos, c, cfg.maxHoldMinutes)
      && !(HeldFor(pos, c, cfg.staleAfterMinutes) && pos.partials == [])
    case _ => false
  }

  predicate NoneDue(pos: Position, c: Candle, cfg: Config) {
    !FridayDue(c, cfg) && !HeldFor(pos, c, cfg.maxHoldMinutes) && !SessionOver(pos, c, cfg)
    && !(HeldFor(pos, c, cfg.staleAfterMinutes) && pos.partials == [])
  }

  lemma FridaysExactly(time: int)
    ensures OnFriday(time) <==> Weekday(time) == FRIDAY
  {
    var day, second := time / 86400, time % 86400;
    var week, rest := (day - 1) / 7, (day - 1) % 7;
    assert time - 86400 == 604800 * week + (86400 * rest + second);
    assert (time - 86400) % 604800 == 86400 * rest + second;
  }

  lemma TimeExitExactly(pos: Position, c: Candle, cfg: Config)
    ensures match TimeExit(pos, c, cfg)
            case Some(reason) => ExitDue(pos, c, cfg, reason) && !NoneDue(pos, c, cfg)
            case None => NoneDue(pos, c, cfg)
    ensures forall reason :: ExitDue(pos, c, cfg, reason) ==> TimeExit(pos, c, cfg) == Some(reason)
  {
    hide OnFriday, Weekday;
    FridaysExactly(c.closeTime);
    AgesExactly(pos, c, cfg.maxHoldMinutes);
    AgesExactly(pos, c, cfg.staleAfterMinutes);
  }

  lemma AgesExactly(pos: Position, c: Candle, minutes: Option<real>)
    ensures HeldFor(pos, c, minutes) <==> Elapsed(minutes, (c.closeTime - pos.entryTime) as real / 60.0)
  {
    if minutes.Some? {
      QuotientOrder((c.closeTime - pos.entryTime) as real, 60.0, minutes.value);
    }
  }

  // ---------- the whole size leaves ----------

  predicate StopReached(pos: Position, c: Candle) {
    (pos.direction.Bullish? && c.low <= pos.currentStop) || (pos.direction.Bearish? && c.high >= pos.currentStop)
  }

  predicate RungReached(pos: Position, t: Target, c: Candle) {
    !t.filled && ((pos.direction.Bullish? && c.high >= t.price) || (pos.direction.Bearish? && c.low <= t.price))
  }

  /** Everything still open leaves at one price, for one reason, at the close of the candle. */
  predicate LeavesAt(pos: Position, c: Candle, out: Outcome, reason: ExitReason, price: real, shown: Option<real>)
    requires Protected(pos)
  {
    var r := pos.realizedR + Paid(pos, pos.remaining, price);
    out.Closed? && out.last == pos.(remaining := 0.0, realizedR := r)
    && out.trade == Trade(pos.tradeId, reason, Round(r, 100000.0), pos.partials, reason.AmbiguousStopFirst?, shown,
                          pos.entryTime, c.closeTime, pos.order)
  }

  /** How a trade stopped on a candle is labelled: by the conservative rule when a rung is reached too, and else by
      whether the stop had come to the entry. */
  function StopLabel(pos: Position, c: Candle, cfg: Config): ExitReason {
    if cfg.stopFirst && exists k :: 0 <= k < |pos.targets| && RungReached(pos, pos.targets[k], c) then AmbiguousStopFirst
    else if -0.000000001 < pos.currentStop - pos.entry < 0.000000001 then BreakevenStop
    else StopLoss
  }

  function ShownPrice(pos: Position, reason: ExitReason): Option<real> {
    match reason
    case StopLoss => Some(pos.currentStop)
    case BreakevenStop => Some(pos.entry)
    case _ => None
  }

  lemma RSpelledOut(pos: Position, price: real)
    requires Protected(pos)
    ensures RMultiple(pos.direction, pos.entry, pos.stop, price) == RAt(pos, price)
  {
    hide Round;
  }

  lemma HitsSpelledOut(pos: Position, c: Candle)
    ensures var hits := HitIndices(pos, c, 0);
            (forall i, j :: 0 <= i < j < |hits| ==> hits[i] < hits[j])
            && (forall k :: k in hits <==> 0 <= k < |pos.targets| && RungReached(pos, pos.targets[k], c))
            && (hits != [] <==> exists k :: 0 <= k < |pos.targets| && RungReached(pos, pos.targets[k], c))
  {
    hide HitIndices;
    var hits := HitIndices(pos, c, 0);
    assert hits != [] ==> hits[0] in hits;
  }

  function CloseOf(pos: Position, c: Candle): real {
    if c.close == 0.0 then pos.entry else c.close
  }

  lemma LeavesWhenDue(pos: Position, c: Candle, cfg: Config, reason: ExitReason)
    requires Protected(pos) && ExitDue(pos, c, cfg, reason)
    ensures LeavesAt(pos, c, Manage(pos, c, cfg), reason, CloseOf(pos, c), Some(CloseOf(pos, c)))
    ensures reason.IsTimeExit()
  {
    hide TimeExit, Round, Payoff, Paid, NoneDue;
    TimeExitExactly(pos, c, cfg);
    PaidExactly(pos, pos.remaining, CloseOf(pos, c));
  }

  lemma LeavesWhenStopped(pos: Position, c: Candle, cfg: Config)
    requires Protected(pos) && NoneDue(pos, c, cfg) && StopReached(pos, c)
    ensures var why := StopLabel(pos, c, cfg);
            LeavesAt(pos, c, Manage(pos, c, cfg), why, pos.currentStop, ShownPrice(pos, why))
    ensures var why := StopLabel(pos, c, cfg); !why.IsTimeExit() && !why.FinalTarget?
  {
    hide HitIndices, TimeExit, Round, Payoff, Paid, ExitDue, NoneDue, RungReached;
    TimeExitExactly(pos, c, cfg);
    HitsSpelledOut(pos, c);
    PaidExactly(pos, pos.remaining, pos.currentStop);
    if StopLabel(pos, c, cfg).AmbiguousStopFirst? {
      assert HitIndices(pos, c, 0) != [];
    }
  }

  /** A protected position leaves at its time exit, first of all; else at its stop when the low of a long, the high of
      a short, reaches it; and on no other candle for either reason. */
  lemma CloseExactly(pos: Position, c: Candle, cfg: Config)
    requires Protected(pos)
    ensures var out, why := Manage(pos, c, cfg), StopLabel(pos, c, cfg);
            (forall reason :: ExitDue(pos, c, cfg, reason) ==>
               LeavesAt(pos, c, out, reason, CloseOf(pos, c), Some(CloseOf(pos, c))))
            && (NoneDue(pos, c, cfg) && StopReached(pos, c) ==>
                  LeavesAt(pos, c, out, why, pos.currentStop, ShownPrice(pos, why)))
            && (NoneDue(pos, c, cfg) && !StopReached(pos, c) ==> out.Closed? ==> out.trade.reason.FinalTarget?)
  {
    hide Manage, LeavesAt, ExitDue, NoneDue, StopReached;
    forall reason | ExitDue(pos, c, cfg, reason)
      ensures LeavesAt(pos, c, Manage(pos, c, cfg), reason, CloseOf(pos, c), Some(CloseOf(pos, c)))
    {
      LeavesWhenDue(pos, c, cfg, reason);
    }
    if NoneDue(pos, c, cfg) {
      if StopReached(pos, c) {
        LeavesWhenStopped(pos, c, cfg);
      } else {
        var _, _ := RungsExactly(pos, c, cfg);
      }
    }
  }

  /** Only a protected position is managed at all. */
  lemma RefusedExactly(pos: Position, c: Candle, cfg: Config)
    ensures Manage(pos, c, cfg).InvalidPosition? <==> pos.direction.NoDirection?
    ensures Manage(pos, c, cfg).InvalidRisk? <==> !pos.direction.NoDirection? && !Protected(pos)
  {
    hide TimeExit, HitIndices, FillTargets;
  }

  // ---------- the rungs ----------

  /** The size open after the first j of the rungs reached: each takes its share, or what is left. */
  function Left(pos: Position, rungs: seq<nat>, j: nat): real
    requires j <= |rungs| && forall i :: 0 <= i < |rungs| ==> rungs[i] < |pos.targets|
    decreases j, 0
  {
    if j == 0 then pos.remaining else Left(pos, rungs, j - 1) - Taken(pos, rungs, j - 1)
  }

  function Taken(pos: Position, rungs: seq<nat>, j: nat): real
    requires j < |rungs| && forall i :: 0 <= i < |rungs| ==> rungs[i] < |pos.targets|
    decreases j, 1
  {
    var left, share := Left(pos, rungs, j), pos.targets[rungs[j]].closePercent;
    if left < share then left else share
  }

  function Earned(pos: Position, rungs: seq<nat>, j: nat): real
    requires Protected(pos) && j <= |rungs| && forall i :: 0 <= i < |rungs| ==> rungs[i] < |pos.targets|
    decreases j
  {
    if j == 0 then 0.0
    else Earned(pos, rungs, j - 1) + Paid(pos, Taken(pos, rungs, j - 1), pos.targets[rungs[j - 1]].price)
  }

  /** Whether filling a rung takes the stop to break-even: by its reward when a reward is asked for, or else by its
      number. */
  predicate BreaksEven(pos: Position, t: Target)
    requires Protected(pos)
  {
    var reward := if t.rr.None? || t.rr.value == 0.0 then RAt(pos, t.price) else t.rr.value;
    pos.moveToBreakeven
    && if pos.breakevenAfterRr.Some? then pos.breakevenAfterRr.value <= reward
       else 1 <= pos.breakevenAfterIndex <= t.index
  }

  predicate Listed(pos: Position, rungs: seq<nat>) {
    (forall i :: 0 <= i < |rungs| ==> rungs[i] < |pos.targets|)
    && (forall i, j :: 0 <= i < j < |rungs| ==> rungs[i] < rungs[j])
  }

  function BreakevenStopOf(pos: Position): real {
    if pos.direction.Bullish? then pos.entry + pos.breakevenBuffer else pos.entry - pos.breakevenBuffer
  }

  function ExitOf(pos: Position, c: Candle, rungs: seq<nat>, j: nat): Partial
    requires Protected(pos) && Listed(pos, rungs) && j < |rungs|
  {
    var t := pos.targets[rungs[j]];
    Partial(t.index, t.price, c.closeTime, Taken(pos, rungs, j), RAt(pos, t.price))
  }

  /** The first m of the rungs are reported, at their own prices and for what they took. */
  ghost predicate Reported(pos: Position, after: Position, c: Candle, rungs: seq<nat>, m: nat)
    requires Protected(pos) && m <= |rungs| && Listed(pos, rungs)
  {
    |after.partials| == |pos.partials| + m && after.partials[..|pos.partials|] == pos.partials
    && forall j :: 0 <= j < m ==> after.partials[|pos.partials| + j] == ExitOf(pos, c, rungs, j)
  }

  /** They are marked filled, and no other rung is. */
  ghost predicate MarkedFilled(pos: Position, after: Position, rungs: seq<nat>, m: nat)
    requires m <= |rungs|
  {
    |after.targets| == |pos.targets|
    && forall k :: 0 <= k < |pos.targets| ==>
         after.targets[k] == pos.targets[k].(filled := pos.targets[k].filled || k in rungs[..m])
  }

  ghost predicate SomeBreaksEven(pos: Position, rungs: seq<nat>, m: nat)
    requires Protected(pos) && m <= |rungs| && Listed(pos, rungs)
  {
    exists j :: 0 <= j < m && BreaksEven(pos, pos.targets[rungs[j]])
  }

  /** What filling the first m of the rungs makes of a position: the stop goes to break-even exactly when one of them
      takes it there. */
  ghost predicate Filled(pos: Position, after: Position, c: Candle, rungs: seq<nat>, m: nat)
    requires Protected(pos) && m <= |rungs| && Listed(pos, rungs)
  {
    Reported(pos, after, c, rungs, m) && MarkedFilled(pos, after, rungs, m)
    && after.currentStop == if SomeBreaksEven(pos, rungs, m) then BreakevenStopOf(pos) else pos.currentStop
  }

  /** Nothing but the running state differs. */
  predicate OnlyRunning(pos: Position, after: Position) {
    after == pos.(currentStop := after.currentStop, targets := after.targets, remaining := after.remaining,
                  realizedR := after.realizedR, partials := after.partials)
  }

  /** What the first rung leaves to the others. */
  lemma FirstFilled(pos: Position, c: Candle, rungs: seq<nat>)
    requires Protected(pos) && rungs != [] && Listed(pos, rungs)
    ensures var next, t := FillTarget(pos, c, rungs[0]), pos.targets[rungs[0]];
            Protected(next) && OnlyRunning(pos, next) && Listed(next, rungs[1..])
            && next.remaining == pos.remaining - Taken(pos, rungs, 0)
            && next.realizedR == pos.realizedR + Paid(pos, Taken(pos, rungs, 0), t.price)
            && next.partials == pos.partials + [ExitOf(pos, c, rungs, 0)]
            && next.targets == pos.targets[rungs[0] := t.(filled := true)]
            && next.currentStop == (if BreaksEven(pos, t) then BreakevenStopOf(pos) else pos.currentStop)
  {
    hide RMultiple, RAt, Payoff, Paid;
    RSpelledOut(pos, pos.targets[rungs[0]].price);
    PaidExactly(pos, Taken(pos, rungs, 0), pos.targets[rungs[0]].price);
  }

  lemma {:induction false} LeftAfterFirst(pos: Position, next: Position, rungs: seq<nat>, j: nat)
    requires Protected(pos) && Protected(next) && OnlyRunning(pos, next)
    requires rungs != [] && j < |rungs| && Listed(pos, rungs) && |next.targets| == |pos.targets|
    requires next.remaining == pos.remaining - Taken(pos, rungs, 0)
    requires forall i :: 0 < i < |rungs| ==> next.targets[rungs[i]] == pos.targets[rungs[i]]
    ensures Left(next, rungs[1..], j) == Left(pos, rungs, j + 1)
    ensures j + 1 < |rungs| ==> Taken(next, rungs[1..], j) == Taken(pos, rungs, j + 1)
    ensures Earned(pos, rungs, j + 1)
            == Paid(pos, Taken(pos, rungs, 0), pos.targets[rungs[0]].price) + Earned(next, rungs[1..], j)
    decreases j
  {
    hide RAt, Paid;
    RSame(pos, next, pos.targets[rungs[j]].price);
    if j > 0 {
      LeftAfterFirst(pos, next, rungs, j - 1);
    }
  }

  lemma RSame(pos: Position, next: Position, price: real)
    requires Protected(pos) && OnlyRunning(pos, next)
    ensures Protected(next) && RAt(next, price) == RAt(pos, price)
    ensures forall size :: Paid(next, size, price) == Paid(pos, size, price)
  {
    hide Round;
  }

  lemma BreaksEvenSame(pos: Position, next: Position, t: Target)
    requires Protected(pos) && Protected(next) && OnlyRunning(pos, next)
    ensures BreaksEven(next, t) == BreaksEven(pos, t)
  {
    hide RAt;
    RSame(pos, next, t.price);
  }

  /** What filling the rungs in turn comes to, the first m of them. */
  ghost predicate FilledTo(pos: Position, after: Position, c: Candle, rungs: seq<nat>, m: nat)
    requires Protected(pos) && Listed(pos, rungs)
  {
    m <= |rungs| && Filled(pos, after, c, rungs, m) && OnlyRunning(pos, after)
    && after.remaining == Left(pos, rungs, m) && after.realizedR == pos.realizedR + Earned(pos, rungs, m)
    && (forall j :: 0 <= j < m ==> Left(pos, rungs, j) > 0.0) && (m < |rungs| ==> Left(pos, rungs, m) <= 0.0)
  }

  lemma FilledToNext(pos: Position, after: Position, c: Candle, rungs: seq<nat>, n: nat)
    requires Protected(pos) && Listed(pos, rungs) && rungs != [] && pos.remaining > 0.0
    requires var next := FillTarget(pos, c, rungs[0]);
             Protected(next) && Listed(next, rungs[1..]) && FilledTo(next, after, c, rungs[1..], n)
    ensures FilledTo(pos, after, c, rungs, n + 1)
  {
    hide RAt, Paid, BreaksEven, FillTarget, Reported, MarkedFilled, SomeBreaksEven, Taken, ExitOf, OnlyRunning, Protected;
    var next, rest := FillTarget(pos, c, rungs[0]), rungs[1..];
    FirstFilled(pos, c, rungs);
    RestUnchanged(pos, next, c, rungs);
    ReportedAfterFirst(pos, next, after, c, rungs, n);
    MarkedAfterFirst(pos, next, after, rungs, n);
    StopAfterFirst(pos, next, rungs, n);
    RunningOn(pos, next, after);
    forall j | 0 <= j < n + 1
      ensures Left(pos, rungs, j) > 0.0
    {
      if j > 0 {
        assert Left(next, rest, j - 1) > 0.0;
      }
    }
  }

  /** The rungs reached are filled in ladder order while there is size left. */
  lemma {:induction false} FillsExactly(pos: Position, c: Candle, rungs: seq<nat>) returns (m: nat)
    requires Protected(pos) && Listed(pos, rungs)
    ensures FilledTo(pos, FillTargets(pos, c, rungs), c, rungs, m)
    decreases |rungs|
  {
    hide RAt, Paid, BreaksEven, FillTarget, Filled, Taken, ExitOf, OnlyRunning;
    if rungs == [] || pos.remaining <= 0.0 {
      m := 0;
      NothingFilled(pos, c, rungs);
    } else {
      FirstFilled(pos, c, rungs);
      var n := FillsExactly(FillTarget(pos, c, rungs[0]), c, rungs[1..]);
      m := n + 1;
      FilledToNext(pos, FillTargets(pos, c, rungs), c, rungs, n);
    }
  }

  lemma RunningOn(pos: Position, next: Position, after: Position)
    requires OnlyRunning(pos, next) && OnlyRunning(next, after)
    ensures OnlyRunning(pos, after) && BreakevenStopOf(next) == BreakevenStopOf(pos)
  {
  }

  lemma NothingFilled(pos: Position, c: Candle, rungs: seq<nat>)
    requires Protected(pos) && Listed(pos, rungs)
    ensures Filled(pos, pos, c, rungs, 0) && OnlyRunning(pos, pos)
  {
    assert rungs[..0] == [];
  }

  lemma RestUnchanged(pos: Position, next: Position, c: Candle, rungs: seq<nat>)
    requires Protected(pos) && Protected(next) && rungs != [] && Listed(pos, rungs) && OnlyRunning(pos, next)
    requires Listed(next, rungs[1..])
    requires next.remaining == pos.remaining - Taken(pos, rungs, 0)
    requires next.targets == pos.targets[rungs[0] := pos.targets[rungs[0]].(filled := true)]
    ensures forall i :: 0 < i < |rungs| ==> next.targets[rungs[i]] == pos.targets[rungs[i]]
    ensures forall j :: 0 <= j < |rungs| ==> Left(next, rungs[1..], j) == Left(pos, rungs, j + 1)
    ensures forall j :: 0 <= j < |rungs| - 1 ==> ExitOf(next, c, rungs[1..], j) == ExitOf(pos, c, rungs, j + 1)
    ensures forall j :: 0 <= j < |rungs| ==>
              Earned(pos, rungs, j + 1)
              == Paid(pos, Taken(pos, rungs, 0), pos.targets[rungs[0]].price) + Earned(next, rungs[1..], j)
  {
    hide RAt, Paid, Left, Earned, Taken, OnlyRunning, Protected;
    forall j | 0 <= j < |rungs|
      ensures Left(next, rungs[1..], j) == Left(pos, rungs, j + 1)
      ensures j < |rungs| - 1 ==> ExitOf(next, c, rungs[1..], j) == ExitOf(pos, c, rungs, j + 1)
      ensures Earned(pos, rungs, j + 1)
              == Paid(pos, Taken(pos, rungs, 0), pos.targets[rungs[0]].price) + Earned(next, rungs[1..], j)
    {
      LeftAfterFirst(pos, next, rungs, j);
      if j < |rungs| - 1 {
        RSame(pos, next, pos.targets[rungs[j + 1]].price);
      }
    }
  }

  lemma ReportedAfterFirst(pos: Position, next: Position, after: Position, c: Candle, rungs: seq<nat>, n: nat)
    requires Protected(pos) && rungs != [] && Listed(pos, rungs) && OnlyRunning(pos, next) && Listed(next, rungs[1..])
    requires next.partials == pos.partials + [ExitOf(pos, c, rungs, 0)] && n < |rungs|
    requires Reported(next, after, c, rungs[1..], n)
    requires forall j :: 0 <= j < n ==> ExitOf(next, c, rungs[1..], j) == ExitOf(pos, c, rungs, j + 1)
    ensures Reported(pos, after, c, rungs, n + 1)
  {
    hide ExitOf;
    var p := |pos.partials|;
    assert after.partials[..p] == after.partials[..p + 1][..p];
    forall j | 0 <= j < n + 1
      ensures after.partials[p + j] == ExitOf(pos, c, rungs, j)
    {
      if j == 0 {
        assert after.partials[p] == after.partials[..p + 1][p] == next.partials[p];
      } else {
        assert after.partials[|next.partials| + (j - 1)] == ExitOf(next, c, rungs[1..], j - 1);
      }
    }
  }

  lemma MarkedAfterFirst(pos: Position, next: Position, after: Position, rungs: seq<nat>, n: nat)
    requires rungs != [] && rungs[0] < |pos.targets| && n < |rungs|
    requires next.targets == pos.targets[rungs[0] := pos.targets[rungs[0]].(filled := true)]
    requires MarkedFilled(next, after, rungs[1..], n)
    ensures MarkedFilled(pos, after, rungs, n + 1)
  {
    assert rungs[..n + 1] == [rungs[0]] + rungs[1..][..n];
  }

  lemma StopAfterFirst(pos: Position, next: Position, rungs: seq<nat>, n: nat)
    requires Protected(pos) && rungs != [] && Listed(pos, rungs) && OnlyRunning(pos, next) && Listed(next, rungs[1..])
    requires n < |rungs| && forall i :: 0 < i < |rungs| ==> next.targets[rungs[i]] == pos.targets[rungs[i]]
    ensures Protected(next)
    ensures SomeBreaksEven(pos, rungs, n + 1)
            <==> BreaksEven(pos, pos.targets[rungs[0]]) || SomeBreaksEven(next, rungs[1..], n)
  {
    hide BreaksEven;
    forall j | 0 <= j < n
      ensures BreaksEven(next, next.targets[rungs[1..][j]]) == BreaksEven(pos, pos.targets[rungs[j + 1]])
    {
      BreaksEvenSame(pos, next, pos.targets[rungs[j + 1]]);
    }
    if SomeBreaksEven(next, rungs[1..], n) {
      var j :| 0 <= j < n && BreaksEven(next, next.targets[rungs[1..][j]]);
      assert BreaksEven(pos, pos.targets[rungs[j + 1]]);
    }
    if SomeBreaksEven(pos, rungs, n + 1) {
      var j :| 0 <= j < n + 1 && BreaksEven(pos, pos.targets[rungs[j]]);
      if j > 0 {
        assert BreaksEven(next, next.targets[rungs[1..][j - 1]]);
      }
    }
  }

  /** The position after the candle and, when no more than a billionth is left, the trade it closes as. */
  ghost predicate SettledAs(pos: Position, out: Outcome, c: Candle, rungs: seq<nat>, m: nat)
    requires Protected(pos) && Listed(pos, rungs) && m <= |rungs|
  {
    var left, r := Left(pos, rungs, m), Round(pos.realizedR + Earned(pos, rungs, m), 100000.0);
    (out.Closed? || out.StillOpen?) && (out.Closed? <==> left <= 0.000000001)
    && var after := if out.Closed? then out.last else out.open;
       Filled(pos, after, c, rungs, m) && OnlyRunning(pos, after) && after.realizedR == r
       && after.remaining == (if left < 0.0 then 0.0 else left)
       && (out.Closed? ==>
             out.trade == Trade(pos.tradeId, FinalTarget, r, after.partials, false,
                                if pos.targets == [] then None
                                else Some(pos.targets[|pos.targets| - 1].price),
                                pos.entryTime, c.closeTime, pos.order))
  }

  lemma SettlingExactly(pos: Position, filled: Position, c: Candle, rungs: seq<nat>, m: nat)
    requires Protected(pos) && Listed(pos, rungs) && FilledTo(pos, filled, c, rungs, m)
    ensures SettledAs(pos, Settle(filled, c), c, rungs, m)
  {
    hide Round, Left, Earned, BreaksEven, RAt;
  }

  /** A protected position with no exit due and its stop not reached fills exactly the rungs the high of a long, the
      low of a short, reaches, in ladder order while there is size left, and closes exactly when a billionth or less
      is left. */
  lemma RungsExactly(pos: Position, c: Candle, cfg: Config) returns (rungs: seq<nat>, m: nat)
    requires Protected(pos) && NoneDue(pos, c, cfg) && !StopReached(pos, c)
    ensures Listed(pos, rungs)
    ensures forall k :: k in rungs <==> 0 <= k < |pos.targets| && RungReached(pos, pos.targets[k], c)
    ensures m <= |rungs| && (forall j :: 0 <= j < m ==> Left(pos, rungs, j) > 0.0)
    ensures m < |rungs| ==> Left(pos, rungs, m) <= 0.0
    ensures SettledAs(pos, Manage(pos, c, cfg), c, rungs, m)
  {
    hide HitIndices, FillTargets, TimeExit, Left, Earned, RungReached, NoneDue, Filled, SettledAs, Settle;
    TimeExitExactly(pos, c, cfg);
    HitsSpelledOut(pos, c);
    rungs := HitIndices(pos, c, 0);
    m := FillsExactly(pos, c, rungs);
    SettlingExactly(pos, FillTargets(pos, c, rungs), c, rungs, m);
  }
}
