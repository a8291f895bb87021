/** The router's state told by the history of its events: which keys are spent, what waits in the queue and what was
    sent, and what each step makes of the status of every order. */
module RouterHistory {
  import opened ExecutionRouter

  // ---------- the halt ----------

  predicate Halts(e: Event) {
    e.EmergencyShutdown? || e.TerminateStarts?
  }

  /** The router is halted once an emergency shutdown or a termination has begun, and for good. */
  lemma {:induction false} HaltedExactly(events: seq<Event>)
    ensures Run(BOOTSTRAPPED, events).halted <==> exists k :: 0 <= k < |events| && Halts(events[k])
    decreases |events|
  {
    hide Step;
    if events != [] {
      HaltedExactly(events[..|events| - 1]);
      StepHalts(Run(BOOTSTRAPPED, events[..|events| - 1]), events[|events| - 1]);
    }
  }

  lemma StepHalts(st: State, e: Event)
    ensures Step(st, e).halted <==> st.halted || Halts(e)
  {
  }

  // ---------- keys ----------

  /** A submission made before any halt. */
  predicate SubmittedAt(events: seq<Event>, k: nat, key: string)
    requires k < |events|
  {
    events[k].Submit? && events[k].request.key == key && forall j :: 0 <= j < k ==> !Halts(events[j])
  }

  /** A key is spent by the first submission that carries it before any halt, even when a full queue then loses the
      request; nothing but the end of a termination frees it. */
  lemma {:induction false} SpentExactly(events: seq<Event>, key: string)
    requires forall k :: 0 <= k < |events| ==> !events[k].TerminateEnds?
    ensures key in Run(BOOTSTRAPPED, events).registry <==> exists k :: 0 <= k < |events| && SubmittedAt(events, k, key)
    decreases |events|
  {
    hide Step, Halts;
    if events != [] {
      var earlier := events[..|events| - 1];
      SpentExactly(earlier, key);
      HaltedExactly(earlier);
      StepSpends(Run(BOOTSTRAPPED, earlier), events[|events| - 1], key);
      forall k | 0 <= k < |earlier|
        ensures SubmittedAt(events, k, key) == SubmittedAt(earlier, k, key)
      {
      }
      assert SubmittedAt(events, |earlier|, key)
             <==> events[|earlier|].Submit? && events[|earlier|].request.key == key
                  && !Run(BOOTSTRAPPED, earlier).halted;
    }
  }

  lemma StepSpends(st: State, e: Event, key: string)
    requires !e.TerminateEnds?
    ensures key in Step(st, e).registry
            <==> key in st.registry || (e.Submit? && e.request.key == key && !st.halted)
  {
  }

  // ---------- the queue ----------

  /** Whether the last event is a submission that gets into the queue: not halted, its key new, and at most 999 waiting. */
  predicate Queued(st: State, e: Event) {
    e.Submit? && !st.halted && e.request.key !in st.registry && |st.queue| < 1000
  }

  /** Whether it is the waiting worker taking a request. */
  predicate Takes(st: State, e: Event) {
    e.WorkerTakes? && st.worker.Idle? && st.queue != []
  }

  /** The requests that got into the queue, in order. */
  function Accepted(events: seq<Event>): seq<Request>
    decreases |events|
  {
    if events == [] then []
    else
      var earlier, last := events[..|events| - 1], events[|events| - 1];
      if Queued(Run(BOOTSTRAPPED, earlier), last) then Accepted(earlier) + [last.request] else Accepted(earlier)
  }

  /** For each request taken, in order, whether the safety gate let it through. */
  function Gates(events: seq<Event>): seq<bool>
    decreases |events|
  {
    if events == [] then []
    else
      var earlier, last := events[..|events| - 1], events[|events| - 1];
      if Takes(Run(BOOTSTRAPPED, earlier), last) then Gates(earlier) + [last.safe] else Gates(earlier)
  }

  /** The requests the gate let through. */
  function LetThrough(requests: seq<Request>, gates: seq<bool>): seq<Request>
    requires |gates| <= |requests|
    decreases |gates|
  {
    if gates == [] then []
    else
      var n := |gates| - 1;
      if gates[n] then LetThrough(requests, gates[..n]) + [requests[n]] else LetThrough(requests, gates[..n])
  }

  lemma {:induction false} MoreRequests(requests: seq<Request>, more: seq<Request>, gates: seq<bool>)
    requires |gates| <= |requests|
    ensures LetThrough(requests + more, gates) == LetThrough(requests, gates)
    decreases |gates|
  {
    if gates != [] {
      MoreRequests(requests, more, gates[..|gates| - 1]);
    }
  }

  /** First in, first out: the queue holds the accepted requests not taken yet, in order, and the broker was sent, in
      order, those of the others that the gate let through. */
  lemma {:induction false} QueueIsFifo(events: seq<Event>)
    ensures var st, accepted, gates := Run(BOOTSTRAPPED, events), Accepted(events), Gates(events);
            |gates| <= |accepted| && st.queue == accepted[|gates|..] && st.dispatched == LetThrough(accepted, gates)
    decreases |events|
  {
    hide Step;
    if events != [] {
      var earlier, e := events[..|events| - 1], events[|events| - 1];
      var st := Run(BOOTSTRAPPED, earlier);
      QueueIsFifo(earlier);
      QueueMoves(st, e);
      if Queued(st, e) {
        MoreRequests(Accepted(earlier), [e.request], Gates(earlier));
        assert Accepted(events)[|Gates(events)|..] == Accepted(earlier)[|Gates(earlier)|..] + [e.request];
      } else if Takes(st, e) {
        assert Gates(events)[..|Gates(earlier)|] == Gates(earlier);
        assert Accepted(earlier)[|Gates(earlier)|] == st.queue[0];
      }
    }
  }

  lemma QueueMoves(st: State, e: Event)
    ensures var next := Step(st, e);
            if Queued(st, e) then next.queue == st.queue + [e.request] && next.dispatched == st.dispatched
            else if Takes(st, e) then
              next.queue == st.queue[1..]
              && next.dispatched == (if e.safe then st.dispatched + [st.queue[0]] else st.dispatched)
            else next.queue == st.queue && next.dispatched == st.dispatched
  {
  }

  // ---------- statuses ----------

  /** The table of allowed moves, written out. */
  lemma TableExactly(from: OrderStatus, to: OrderStatus)
    ensures TransitionOk(from, to)
            <==> from == to
                 || (from == PendingSubmit && (to == Acknowledged || to == Rejected || to == Canceled))
                 || (from == Acknowledged && (to == PartiallyFilled || to == Filled || to == Rejected || to == Canceled))
                 || (from == PartiallyFilled && (to == Filled || to == Canceled))
  {
  }

  function StatusIn(st: State, id: string): Entry {
    if id in st.ledger then Known(st.ledger[id]) else Unknown
  }

  datatype Entry = Unknown | Known(status: OrderStatus)

  /** What a status becomes when another is reported and the table has its say. */
  function Reported(st: State, id: string, status: OrderStatus): Entry {
    if id !in st.ledger || TransitionOk(st.ledger[id], status) then Known(status) else StatusIn(st, id)
  }

  predicate Refused(st: State, id: string, status: OrderStatus) {
    id in st.ledger && !TransitionOk(st.ledger[id], status)
  }

  /** The status of an order after a step: pending once sent, then what answers and stream events report as far as the
      table allows; a refused answer and a failure reject the order in flight. */
  function StatusAfter(st: State, e: Event, id: string): Entry {
    match e
    case WorkerTakes(safe) =>
      if Takes(st, e) && safe && st.queue[0].clientId == id then Known(PendingSubmit) else StatusIn(st, id)
    case BrokerReplies(about, status) =>
      if !st.worker.InFlight? then StatusIn(st, id)
      else if !Refused(st, about, status) then (if about == id then Known(status) else StatusIn(st, id))
      else if st.worker.request.clientId == id then Reported(st, id, Rejected)
      else StatusIn(st, id)
    case BrokerFails =>
      if st.worker.InFlight? && st.worker.request.clientId == id then Reported(st, id, Rejected) else StatusIn(st, id)
    case StreamReports(about, status) =>
      if st.streaming && about == id then Reported(st, id, status) else StatusIn(st, id)
    case TerminateEnds => if st.closing then Unknown else StatusIn(st, id)
    case _ => StatusIn(st, id)
  }

  lemma StatusExactly(st: State, e: Event, id: string)
    ensures StatusIn(Step(st, e), id) == StatusAfter(st, e, id)
  {
    hide TransitionOk, Replied, Failed, Taken, Streamed;
    match e
    case WorkerTakes(safe) => TakenStatus(st, safe, id);
    case BrokerReplies(about, status) => RepliedStatus(st, about, status, id);
    case BrokerFails => FailedStatus(st, id);
    case StreamReports(about, status) => StreamedStatus(st, about, status, id);
    case _ => OtherStatus(st, e, id);
  }

  lemma TakenStatus(st: State, safe: bool, id: string)
    ensures StatusIn(Taken(st, safe), id) == StatusAfter(st, WorkerTakes(safe), id)
  {
  }

  lemma RepliedStatus(st: State, about: string, status: OrderStatus, id: string)
    ensures StatusIn(Replied(st, about, status), id) == StatusAfter(st, BrokerReplies(about, status), id)
  {
    hide TransitionOk, RejectedOrder, IterationDone;
    if st.worker.InFlight? {
      RejectedStatus(st, st.worker.request, id);
      DoneKeepsLedger(RejectedOrder(st, st.worker.request));
      DoneKeepsLedger(Record(st, about, status));
    }
  }

  lemma DoneKeepsLedger(st: State)
    ensures IterationDone(st).ledger == st.ledger
  {
  }

  lemma RejectedStatus(st: State, request: Request, id: string)
    ensures StatusIn(RejectedOrder(st, request), id)
            == if request.clientId == id then Reported(st, id, Rejected) else StatusIn(st, id)
  {
    hide TransitionOk;
  }

  lemma FailedStatus(st: State, id: string)
    ensures StatusIn(Failed(st), id) == StatusAfter(st, BrokerFails, id)
  {
    hide TransitionOk;
  }

  lemma StreamedStatus(st: State, about: string, status: OrderStatus, id: string)
    ensures StatusIn(Streamed(st, about, status), id) == StatusAfter(st, StreamReports(about, status), id)
  {
    hide TransitionOk;
  }

  lemma OtherStatus(st: State, e: Event, id: string)
    requires !e.WorkerTakes? && !e.BrokerReplies? && !e.BrokerFails? && !e.StreamReports?
    ensures StatusIn(Step(st, e), id) == StatusAfter(st, e, id)
  {
    hide TransitionOk;
  }

  /** The worker waits, is sending one request, or has stopped: it starts and ends each request by looking at the halt. */
  lemma WorkerExactly(st: State, e: Event)
    ensures var now := if st.halted then Stopped else Idle;
            Step(st, e).worker
            == match e
               case TerminateStarts => Stopped
               case WorkerStarts => if st.worker.Created? then now else st.worker
               case WorkerTakes(safe) =>
                 if !Takes(st, e) then st.worker else if safe then InFlight(st.queue[0]) else now
               case BrokerReplies(_, _) => if st.worker.InFlight? then now else st.worker
               case BrokerFails => if st.worker.InFlight? then now else st.worker
               case _ => st.worker
  {
    hide TransitionOk, RejectedOrder, Record;
    RecordsOnly(st);
  }

  /** Recording touches nothing but the ledger and its history. */
  lemma RecordsOnly(st: State)
    ensures forall id, status :: Record(st, id, status)
                                 == st.(ledger := st.ledger[id := status], writes := st.writes + [Write(id, status)])
    ensures forall request :: var next := RejectedOrder(st, request);
                              next == st.(ledger := next.ledger, writes := next.writes)
  {
    hide TransitionOk;
  }

  /** A refused stream event ends the consumer, and only the end of a termination frees the keys. */
  lemma FlagsExactly(st: State, e: Event)
    ensures Step(st, e).streaming
            <==> st.streaming && !(e.StreamReports? && Refused(st, e.clientId, e.status))
    ensures e.TerminateEnds? ==> Step(st, e).registry == if st.closing then {} else st.registry
    ensures Step(st, e).closing <==> e.TerminateStarts? || (st.closing && !e.TerminateEnds?)
  {
    hide TransitionOk;
  }
}
