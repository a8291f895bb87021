/** What every interleaving of router steps keeps: a key reaches the broker at most once, a ledger
    status only moves along the lifecycle table, and a halt lets at most one more order through. */
module RouterProperties {
  import opened ExecutionRouter

  // ---------- idempotency ----------

  predicate DistinctKeys(rs: seq<Request>) {
    forall i, j :: 0 <= i < j < |rs| ==> rs[i].key != rs[j].key
  }

  predicate KeysIn(rs: seq<Request>, keys: set<string>) {
    forall k :: 0 <= k < |rs| ==> rs[k].key in keys
  }

  /** Requests sent and requests waiting all carry different keys, registered while submissions are possible. */
  predicate Idempotent(st: State) {
    DistinctKeys(st.dispatched + st.queue)
    && (!st.halted ==> KeysIn(st.dispatched + st.queue, st.registry))
    && (st.closing ==> st.halted && st.worker.Stopped?)
    && |st.queue| <= QUEUE_SIZE
  }

  lemma SubmitKeepsIdempotent(st: State, request: Request)
    requires Idempotent(st)
    ensures Idempotent(Submitted(st, request))
  {
    var after, all := Submitted(st, request), st.dispatched + st.queue;
    if |after.queue| > |st.queue| {
      assert after.dispatched + after.queue == all + [request];
    }
  }

  lemma TakeKeepsIdempotent(st: State, safe: bool)
    requires Idempotent(st)
    ensures Idempotent(Taken(st, safe))
  {
    var after, all := Taken(st, safe), st.dispatched + st.queue;
    var n := |st.dispatched|;
    if after.queue != st.queue {
      assert st.queue == [st.queue[0]] + st.queue[1..];
      if safe {
        assert after.dispatched + after.queue == all;
      } else {
        var rest := after.dispatched + after.queue;
        assert forall k :: 0 <= k < |rest| ==> rest[k] == all[if k < n then k else k + 1];
      }
    }
  }

  lemma StepKeepsIdempotent(st: State, e: Event)
    requires Idempotent(st)
    ensures Idempotent(Step(st, e))
  {
    match e
    case Submit(request) => SubmitKeepsIdempotent(st, request);
    case WorkerTakes(safe) => TakeKeepsIdempotent(st, safe);
    case _ =>
  }

  /** Over every interleaving of steps, shutdown and termination included, each idempotency key
      reaches the broker at most once. */
  lemma {:induction false} KeyReachesBrokerOnce(events: seq<Event>)
    ensures Idempotent(Run(BOOTSTRAPPED, events)) && DistinctKeys(Run(BOOTSTRAPPED, events).dispatched)
    decreases |events|
  {
    hide Step;
    if events != [] {
      KeyReachesBrokerOnce(events[..|events| - 1]);
      StepKeepsIdempotent(Run(BOOTSTRAPPED, events[..|events| - 1]), events[|events| - 1]);
    }
    var st := Run(BOOTSTRAPPED, events);
    assert forall k :: 0 <= k < |st.dispatched| ==> (st.dispatched + st.queue)[k] == st.dispatched[k];
  }

  // ---------- status histories ----------

  /** Every status recorded for one order, in order. */
  function History(writes: seq<Write>, clientId: string): seq<OrderStatus> {
    if writes == [] then []
    else
      var earlier, last := History(writes[..|writes| - 1], clientId), writes[|writes| - 1];
      if last.clientId == clientId then earlier + [last.status] else earlier
  }

  predicate IsPath(h: seq<OrderStatus>) {
    forall i :: 0 <= i < |h| - 1 ==> TransitionOk(h[i], h[i + 1])
  }

  function Changes(h: seq<OrderStatus>): nat {
    if |h| < 2 then 0 else Changes(h[..|h| - 1]) + if h[|h| - 1] != h[|h| - 2] then 1 else 0
  }

  function Rank(s: OrderStatus): nat {
    match s
    case PendingSubmit => 0
    case Acknowledged => 1
    case PartiallyFilled => 2
    case _ => 3
  }

  /** The only step that can break a path: taking a request whose id the ledger already knows. */
  predicate Overwrites(st: State, e: Event) {
    e.WorkerTakes? && e.safe && st.worker.Idle? && st.queue != []
    && st.queue[0].clientId in st.ledger && st.ledger[st.queue[0].clientId] != PendingSubmit
  }

  /** Each step moves the status of every order along the table, if and only if it does not overwrite
      a known order.  Ending termination is the other step that loses statuses: it clears the ledger. */
  lemma StepFollowsTableExactly(st: State, e: Event)
    requires !(e.TerminateEnds? && st.closing)
    ensures !Overwrites(st, e)
            <==> forall id :: id in st.ledger ==>
                   id in Step(st, e).ledger && TransitionOk(st.ledger[id], Step(st, e).ledger[id])
  {
    if Overwrites(st, e) {
      var id := st.queue[0].clientId;
      assert id in st.ledger && Step(st, e).ledger[id] == PendingSubmit;
      assert !TransitionOk(st.ledger[id], PendingSubmit);
    }
  }

  /** Histories agree with the ledger and are paths of the table. */
  ghost predicate PathsKept(st: State) {
    forall id :: IsPath(History(st.writes, id))
      && (id in st.ledger <==> History(st.writes, id) != [])
      && (id in st.ledger ==> History(st.writes, id)[|History(st.writes, id)| - 1] == st.ledger[id])
  }

  lemma RecordKeepsPaths(st: State, clientId: string, status: OrderStatus)
    requires PathsKept(st) && Accepts(st, clientId, status)
    ensures PathsKept(Record(st, clientId, status))
  {
    var after := Record(st, clientId, status);
    assert after.writes[..|st.writes|] == st.writes;
    forall id
      ensures var h := History(after.writes, id);
              IsPath(h) && (id in after.ledger <==> h != []) && (id in after.ledger ==> h[|h| - 1] == after.ledger[id])
    {
      var h := History(st.writes, id);
      if id == clientId {
        var longer := h + [status];
        assert History(after.writes, id) == longer;
        forall i | 0 <= i < |longer| - 1
          ensures TransitionOk(longer[i], longer[i + 1])
        {
          if i < |h| - 1 {
            assert longer[i] == h[i] && longer[i + 1] == h[i + 1];
          }
        }
      }
    }
  }

  /** A step other than the ones that overwrite or clear keeps every history a path. */
  predicate Regular(st: State, e: Event) {
    !Overwrites(st, e) && !e.TerminateEnds?
  }

  lemma StepKeepsPaths(st: State, e: Event)
    requires PathsKept(st) && Regular(st, e)
    ensures PathsKept(Step(st, e))
  {
    hide History, IsPath;
    match e
    case WorkerTakes(safe) =>
      if st.worker.Idle? && st.queue != [] && safe {
        RecordKeepsPaths(st, st.queue[0].clientId, PendingSubmit);
      }
    case BrokerReplies(clientId, status) => ReplyKeepsPaths(st, clientId, status);
    case BrokerFails => FailKeepsPaths(st);
    case StreamReports(clientId, status) =>
      if Accepts(st, clientId, status) {
        RecordKeepsPaths(st, clientId, status);
      }
    case _ =>
  }

  lemma FailKeepsPaths(st: State)
    requires PathsKept(st)
    ensures PathsKept(Failed(st))
  {
    hide History, IsPath;
    if st.worker.InFlight? && Accepts(st, st.worker.request.clientId, Rejected) {
      RecordKeepsPaths(st, st.worker.request.clientId, Rejected);
    }
  }

  lemma ReplyKeepsPaths(st: State, clientId: string, status: OrderStatus)
    requires PathsKept(st)
    ensures PathsKept(Replied(st, clientId, status))
  {
    hide History, IsPath;
    if st.worker.InFlight? && Accepts(st, clientId, status) {
      RecordKeepsPaths(st, clientId, status);
    } else {
      FailKeepsPaths(st);
    }
  }

  /** Every step of the run is regular in the state it is taken in. */
  predicate RegularRun(events: seq<Event>)
    decreases |events|
  {
    events == []
    || (RegularRun(events[..|events| - 1])
        && Regular(Run(BOOTSTRAPPED, events[..|events| - 1]), events[|events| - 1]))
  }

  lemma {:induction false} RunKeepsPaths(events: seq<Event>)
    requires RegularRun(events)
    ensures PathsKept(Run(BOOTSTRAPPED, events))
    decreases |events|
  {
    hide Step, PathsKept;
    if events == [] {
      NothingWritten();
    } else {
      RunKeepsPaths(events[..|events| - 1]);
      StepKeepsPaths(Run(BOOTSTRAPPED, events[..|events| - 1]), events[|events| - 1]);
    }
  }

  lemma NothingWritten()
    ensures PathsKept(BOOTSTRAPPED)
  {
  }

  /** Along a path the rank never falls and every change raises it. */
  lemma {:induction false} ChangesBounded(h: seq<OrderStatus>)
    requires IsPath(h) && h != []
    ensures Rank(h[0]) + Changes(h) <= Rank(h[|h| - 1])
    decreases |h|
  {
    if |h| > 1 {
      var n := |h| - 1;
      forall i | 0 <= i < n - 1
        ensures TransitionOk(h[..n][i], h[..n][i + 1])
      {
        assert TransitionOk(h[i], h[i + 1]);
      }
      ChangesBounded(h[..n]);
      assert TransitionOk(h[n - 1], h[n]);
    }
  }

  lemma {:induction false} TerminalAbsorbs(h: seq<OrderStatus>, i: nat, j: nat)
    requires IsPath(h) && i <= j < |h| && Terminal(h[i])
    ensures h[j] == h[i]
    decreases j - i
  {
    if i < j {
      TerminalAbsorbs(h, i, j - 1);
      assert TransitionOk(h[j - 1], h[j]);
    }
  }

  /** On every regular run each order's recorded statuses form a path of the lifecycle table: a
      terminal status is never left, and the status changes at most three times. */
  lemma LifecycleRespected(events: seq<Event>, clientId: string)
    requires RegularRun(events)
    ensures var h := History(Run(BOOTSTRAPPED, events).writes, clientId);
            IsPath(h) && Changes(h) <= 3
            && forall i, j :: 0 <= i <= j < |h| && Terminal(h[i]) ==> h[j] == h[i]
  {
    var h := History(Run(BOOTSTRAPPED, events).writes, clientId);
    RunKeepsPaths(events);
    assert IsPath(h);
    hide Run, History, IsPath, RegularRun;
    if h != [] {
      ChangesBounded(h);
    }
    forall i, j | 0 <= i <= j < |h| && Terminal(h[i])
      ensures h[j] == h[i]
    {
      TerminalAbsorbs(h, i, j);
    }
  }

  lemma WritesGrow(st: State, e: Event)
    ensures Step(st, e).writes == st.writes || exists w :: Step(st, e).writes == st.writes + [w]
  {
  }

  lemma BrokenStaysBroken(st: State, e: Event, id: string)
    requires !IsPath(History(st.writes, id))
    ensures !IsPath(History(Step(st, e).writes, id))
  {
    hide Step;
    WritesGrow(st, e);
    var after := Step(st, e).writes;
    if after != st.writes {
      assert after[..|after| - 1] == st.writes;
      var was, now := History(st.writes, id), History(after, id);
      var i :| 0 <= i < |was| - 1 && !TransitionOk(was[i], was[i + 1]);
      assert now[i] == was[i] && now[i + 1] == was[i + 1];
    }
  }

  lemma OverwriteBreaks(st: State, e: Event)
    requires PathsKept(st) && Overwrites(st, e)
    ensures !IsPath(History(Step(st, e).writes, st.queue[0].clientId))
  {
    var id, after := st.queue[0].clientId, Step(st, e).writes;
    var h := History(st.writes, id);
    assert after[..|st.writes|] == st.writes;
    var longer := h + [PendingSubmit];
    assert History(after, id) == longer;
    var i := |h| - 1;
    assert h != [] && longer[i] == st.ledger[id] && longer[i + 1] == PendingSubmit;
    assert !TransitionOk(longer[i], longer[i + 1]);
  }

  lemma {:induction false} IrregularRunBreaks(events: seq<Event>) returns (id: string)
    requires !RegularRun(events) && forall k :: 0 <= k < |events| ==> !events[k].TerminateEnds?
    ensures !IsPath(History(Run(BOOTSTRAPPED, events).writes, id))
    decreases |events|
  {
    hide Step, IsPath, History, PathsKept;
    var earlier, last := events[..|events| - 1], events[|events| - 1];
    var st := Run(BOOTSTRAPPED, earlier);
    if RegularRun(earlier) {
      RunKeepsPaths(earlier);
      OverwriteBreaks(st, last);
      id := st.queue[0].clientId;
    } else {
      id := IrregularRunBreaks(earlier);
      BrokenStaysBroken(st, last, id);
    }
  }

  /** Unless termination clears the ledger, every order's recorded statuses form a path of the lifecycle table if
      and only if the run never overwrites a known order. */
  lemma LifecycleExactly(events: seq<Event>)
    requires forall k :: 0 <= k < |events| ==> !events[k].TerminateEnds?
    ensures (forall id :: IsPath(History(Run(BOOTSTRAPPED, events).writes, id))) <==> RegularRun(events)
  {
    hide Run, History, IsPath, RegularRun;
    if RegularRun(events) {
      forall id
        ensures IsPath(History(Run(BOOTSTRAPPED, events).writes, id))
      {
        LifecycleRespected(events, id);
      }
    } else {
      var id := IrregularRunBreaks(events);
    }
  }

  // ---------- a caller's condition for regularity ----------

  predicate DistinctIds(rs: seq<Request>) {
    forall i, j :: 0 <= i < j < |rs| ==> rs[i].clientId != rs[j].clientId
  }

  predicate Sent(st: State, clientId: string) {
    exists k :: 0 <= k < |st.dispatched| && st.dispatched[k].clientId == clientId
  }

  /** A submission with an id not used before; answers and events only about orders already sent. */
  predicate WellBehaved(st: State, e: Event) {
    match e
    case Submit(request) =>
      forall k :: 0 <= k < |st.dispatched + st.queue| ==> (st.dispatched + st.queue)[k].clientId != request.clientId
    case BrokerReplies(clientId, _) => Sent(st, clientId)
    case StreamReports(clientId, _) => Sent(st, clientId)
    case TerminateEnds => false
    case _ => true
  }

  predicate OnlySentKnown(st: State) {
    DistinctIds(st.dispatched + st.queue)
    && (forall id :: id in st.ledger ==> Sent(st, id))
    && (st.worker.InFlight? ==> Sent(st, st.worker.request.clientId))
  }

  lemma WellBehavedIsRegular(st: State, e: Event)
    requires OnlySentKnown(st) && WellBehaved(st, e)
    ensures Regular(st, e)
  {
    if st.queue != [] {
      var all, n := st.dispatched + st.queue, |st.dispatched|;
      assert all[n] == st.queue[0];
      forall k | 0 <= k < n
        ensures st.dispatched[k].clientId != st.queue[0].clientId
      {
        assert all[k] == st.dispatched[k];
      }
      assert !Sent(st, st.queue[0].clientId);
    }
  }

  lemma TakeKeepsOnlySent(st: State, safe: bool)
    requires OnlySentKnown(st)
    ensures OnlySentKnown(Taken(st, safe))
  {
    var after, all := Taken(st, safe), st.dispatched + st.queue;
    if st.worker.Idle? && st.queue != [] {
      assert st.queue == [st.queue[0]] + st.queue[1..];
      var rest, n := after.dispatched + after.queue, |st.dispatched|;
      if safe {
        assert rest == all;
        assert after.dispatched[n] == st.queue[0];
        forall id | id in after.ledger
          ensures Sent(after, id)
        {
          if id != st.queue[0].clientId {
            var k :| 0 <= k < n && st.dispatched[k].clientId == id;
            assert after.dispatched[k] == st.dispatched[k];
          }
        }
      } else {
        assert forall k :: 0 <= k < |rest| ==> rest[k] == all[if k < n then k else k + 1];
        assert after.ledger == st.ledger && after.dispatched == st.dispatched;
        SameSent(st, after);
      }
    }
  }

  lemma SameSent(st: State, after: State)
    requires after.dispatched == st.dispatched
    ensures forall id :: Sent(after, id) <==> Sent(st, id)
  {
  }

  lemma StepKeepsOnlySent(st: State, e: Event)
    requires OnlySentKnown(st) && WellBehaved(st, e)
    ensures OnlySentKnown(Step(st, e))
  {
    hide Sent;
    match e
    case WorkerTakes(safe) => TakeKeepsOnlySent(st, safe);
    case Submit(request) =>
      SubmitAppends(st, request);
      SameSent(st, Submitted(st, request));
    case BrokerReplies(clientId, status) =>
      SameSent(st, Step(st, e));
    case BrokerFails =>
      SameSent(st, Step(st, e));
    case StreamReports(clientId, status) => SameSent(st, Step(st, e));
    case _ => SameSent(st, Step(st, e));
  }

  lemma SubmitAppends(st: State, request: Request)
    requires OnlySentKnown(st) && WellBehaved(st, Submit(request))
    ensures DistinctIds(Submitted(st, request).dispatched + Submitted(st, request).queue)
    ensures Submitted(st, request).ledger == st.ledger && Submitted(st, request).dispatched == st.dispatched
  {
    var after, all := Submitted(st, request), st.dispatched + st.queue;
    if |after.queue| > |st.queue| {
      assert after.dispatched + after.queue == all + [request];
    }
  }

  predicate WellBehavedRun(events: seq<Event>)
    decreases |events|
  {
    events == []
    || (WellBehavedRun(events[..|events| - 1])
        && WellBehaved(Run(BOOTSTRAPPED, events[..|events| - 1]), events[|events| - 1]))
  }

  /** Fresh ids and no event before dispatch are enough for every history to be a path. */
  lemma {:induction false} WellBehavedRunIsRegular(events: seq<Event>)
    requires WellBehavedRun(events)
    ensures RegularRun(events) && OnlySentKnown(Run(BOOTSTRAPPED, events))
    decreases |events|
  {
    hide Step, OnlySentKnown, WellBehaved, Regular;
    if events == [] {
      NothingSent();
    } else {
      var st, e := Run(BOOTSTRAPPED, events[..|events| - 1]), events[|events| - 1];
      WellBehavedRunIsRegular(events[..|events| - 1]);
      WellBehavedIsRegular(st, e);
      StepKeepsOnlySent(st, e);
    }
  }

  lemma NothingSent()
    ensures OnlySentKnown(BOOTSTRAPPED)
  {
  }

  // ---------- what an answer is recorded as ----------

  /** The order in flight, its answer, and the stream event that repeats the answer: the ledger shows the answer
      exactly when the table allows it from the status recorded so far, and exactly then the stream consumer gets
      past the event; refused, the event ends it, and no later step reads the stream again. */
  lemma {:induction false} AnswerStandsExactly(st: State, status: OrderStatus, later: seq<Event>)
    requires st.worker.InFlight? && st.streaming && st.worker.request.clientId in st.ledger
    ensures var id := st.worker.request.clientId;
            var replied := Step(st, BrokerReplies(id, status));
            var streamed := Step(replied, StreamReports(id, status));
            (replied.ledger[id] == status <==> TransitionOk(st.ledger[id], status))
            && (streamed.streaming <==> TransitionOk(st.ledger[id], status))
            && (!TransitionOk(st.ledger[id], status) ==> !Run(streamed, later).streaming)
  {
    var id := st.worker.request.clientId;
    var streamed := Step(Step(st, BrokerReplies(id, status)), StreamReports(id, status));
    if !streamed.streaming {
      DeadStreamStaysDead(streamed, later);
    }
  }

  /** So of the answers to a fresh order only FILLED and PARTIALLY_FILLED are refused: they are recorded as
      REJECTED, and the fill's own event ends the stream consumer. */
  lemma {:induction false} SynchronousFillIsRejected(st: State, status: OrderStatus, later: seq<Event>)
    requires st.worker.InFlight? && st.streaming
    requires st.worker.request.clientId in st.ledger && st.ledger[st.worker.request.clientId] == PendingSubmit
    ensures var id := st.worker.request.clientId;
            var replied := Step(st, BrokerReplies(id, status));
            var streamed := Step(replied, StreamReports(id, status));
            (replied.ledger[id] == status <==> !status.Filled? && !status.PartiallyFilled?)
            && (status.Filled? || status.PartiallyFilled? ==>
                  replied.ledger[id] == Rejected && streamed.ledger[id] == Rejected && !Run(streamed, later).streaming)
  {
    AnswerStandsExactly(st, status, later);
  }

  lemma {:induction false} DeadStreamStaysDead(st: State, later: seq<Event>)
    requires !st.streaming
    ensures !Run(st, later).streaming
    decreases |later|
  {
    hide Step;
    if later != [] {
      DeadStreamStaysDead(st, later[..|later| - 1]);
      StepNeverRevives(Run(st, later[..|later| - 1]), later[|later| - 1]);
    }
  }

  lemma StepNeverRevives(st: State, e: Event)
    requires !st.streaming
    ensures !Step(st, e).streaming
  {
  }

  // ---------- the emergency halt ----------

  /** Orders that can still go out once the halt is set: the one the blocked worker may already be given. */
  function StillPossible(st: State): nat {
    if st.worker.Idle? && st.queue != [] then 1 else 0
  }

  lemma HaltedStepDispatches(st: State, e: Event)
    requires st.halted
    ensures Step(st, e).halted
    ensures |st.dispatched| <= |Step(st, e).dispatched|
    ensures |Step(st, e).dispatched| + StillPossible(Step(st, e)) <= |st.dispatched| + StillPossible(st)
  {
  }

  lemma {:induction false} HaltedRunDispatches(st: State, later: seq<Event>)
    requires st.halted
    ensures Run(st, later).halted
    ensures |Run(st, later).dispatched| + StillPossible(Run(st, later)) <= |st.dispatched| + StillPossible(st)
    decreases |later|
  {
    hide Step, StillPossible;
    if later != [] {
      HaltedRunDispatches(st, later[..|later| - 1]);
      HaltedStepDispatches(Run(st, later[..|later| - 1]), later[|later| - 1]);
    }
  }

  /** A halt does not revoke everything: another order can reach the broker after it exactly when the
      worker is waiting and a request is queued, and then at most one. */
  lemma HaltLetsOneThroughExactly(st: State)
    requires st.halted
    ensures (exists later :: |Run(st, later).dispatched| > |st.dispatched|) <==> st.worker.Idle? && st.queue != []
    ensures forall later :: |Run(st, later).dispatched| <= |st.dispatched| + 1
  {
    forall later
      ensures |Run(st, later).dispatched| <= |st.dispatched| + StillPossible(st)
    {
      HaltedRunDispatches(st, later);
    }
    var take := [WorkerTakes(true)];
    assert take[..0] == [];
    assert Run(st, take) == Step(Run(st, []), WorkerTakes(true)) && Run(st, []) == st;
    if st.worker.Idle? && st.queue != [] {
      assert |Run(st, take).dispatched| > |st.dispatched|;
    }
  }
}
