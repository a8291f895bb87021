/** The execution orchestrator as an interleaving of atomic steps, one per stretch between awaits:
    submitting, the queue worker, the broker's answer, the event stream, shutdown and termination. */
module ExecutionRouter {

  // ---------- order lifecycle ----------

  datatype OrderStatus = PendingSubmit | Acknowledged | PartiallyFilled | Filled | Rejected | Canceled

  function Allowed(current: OrderStatus): set<OrderStatus> {
    match current
    case PendingSubmit => {Acknowledged, Rejected, Canceled}
    case Acknowledged => {PartiallyFilled, Filled, Rejected, Canceled}
    case PartiallyFilled => {Filled, Canceled}
    case _ => {}
  }

  /** Repeating a status is accepted; anything else must be in the table. */
  predicate TransitionOk(current: OrderStatus, incoming: OrderStatus) {
    incoming == current || incoming in Allowed(current)
  }

  predicate Terminal(s: OrderStatus) {
    Allowed(s) == {}
  }

  // ---------- state and steps ----------

  datatype Request = Request(clientId: string, key: string)

  /** Created: scheduled but not run yet.  Idle: blocked waiting for the queue.  The emergency flag is looked at when
      the worker first runs and between iterations. */
  datatype Worker = Created | Idle | InFlight(request: Request) | Stopped

  datatype Write = Write(clientId: string, status: OrderStatus)

  /** `dispatched` is what the broker was sent, `writes` every status recorded, both in order. */
  datatype State = State(queue: seq<Request>, ledger: map<string, OrderStatus>, registry: set<string>, worker: Worker,
                         halted: bool, streaming: bool, closing: bool, dispatched: seq<Request>, writes: seq<Write>)

  const QUEUE_SIZE := 1000

  const BOOTSTRAPPED := State([], map[], {}, Created, false, true, false, [], [])

  datatype Event =
    | Submit(request: Request)
    | WorkerStarts
    | WorkerTakes(safe: bool)
    | BrokerReplies(clientId: string, status: OrderStatus)
    | BrokerFails
    | StreamReports(clientId: string, status: OrderStatus)
    | EmergencyShutdown
    | TerminateStarts
    | TerminateEnds

  predicate Accepts(st: State, clientId: string, status: OrderStatus) {
    clientId in st.ledger ==> TransitionOk(st.ledger[clientId], status)
  }

  function Record(st: State, clientId: string, status: OrderStatus): State {
    st.(ledger := st.ledger[clientId := status], writes := st.writes + [Write(clientId, status)])
  }

  predicate Submittable(st: State, request: Request) {
    !st.halted && request.key !in st.registry
  }

  /** A full queue drops the request but keeps its key. */
  function Submitted(st: State, request: Request): State {
    if !Submittable(st, request) then st
    else
      var keyed := st.(registry := st.registry + {request.key});
      if |st.queue| < QUEUE_SIZE then keyed.(queue := st.queue + [request]) else keyed
  }

  function IterationDone(st: State): State {
    st.(worker := if st.halted then Stopped else Idle)
  }

  /** The new entry is written over whatever the ledger held, without a check. */
  function Taken(st: State, safe: bool): State {
    if !st.worker.Idle? || st.queue == [] then st
    else
      var request, popped := st.queue[0], st.(queue := st.queue[1..]);
      if !safe then IterationDone(popped)
      else Record(popped, request.clientId, PendingSubmit).(worker := InFlight(request),
                                                            dispatched := st.dispatched + [request])
  }

  /** Recording a rejection that the ledger refuses raises again and leaves it unchanged. */
  function RejectedOrder(st: State, request: Request): State {
    if Accepts(st, request.clientId, Rejected) then Record(st, request.clientId, Rejected) else st
  }

  /** An answer the ledger refuses is handled like a transport failure of the request. */
  function Replied(st: State, clientId: string, status: OrderStatus): State {
    if !st.worker.InFlight? then st
    else if Accepts(st, clientId, status) then IterationDone(Record(st, clientId, status))
    else IterationDone(RejectedOrder(st, st.worker.request))
  }

  function Failed(st: State): State {
    if !st.worker.InFlight? then st else IterationDone(RejectedOrder(st, st.worker.request))
  }

  /** A refused stream event ends the stream consumer for good. */
  function Streamed(st: State, clientId: string, status: OrderStatus): State {
    if !st.streaming then st
    else if Accepts(st, clientId, status) then Record(st, clientId, status)
    else st.(streaming := false)
  }

  function Step(st: State, e: Event): State {
    match e
    case Submit(request) => Submitted(st, request)
    case WorkerStarts => if st.worker.Created? then IterationDone(st) else st
    case WorkerTakes(safe) => Taken(st, safe)
    case BrokerReplies(clientId, status) => Replied(st, clientId, status)
    case BrokerFails => Failed(st)
    case StreamReports(clientId, status) => Streamed(st, clientId, status)
    case EmergencyShutdown => st.(halted := true)
    case TerminateStarts => st.(halted := true, worker := Stopped, closing := true)
    case TerminateEnds => if st.closing then st.(ledger := map[], registry := {}, closing := false) else st
  }

  function Run(st: State, events: seq<Event>): State
    decreases |events|
  {
    if events == [] then st else Step(Run(st, events[..|events| - 1]), events[|events| - 1])
  }

  // ---------- the orchestrator object ----------

  class Orchestrator {
    var queue: seq<Request>
    var ledger: map<string, OrderStatus>
    var registry: set<string>
    var worker: Worker
    var halted: bool
    var streaming: bool
    var closing: bool
    var dispatched: seq<Request>
    var writes: seq<Write>

    function View(): State
      reads this
    {
      State(queue, ledger, registry, worker, halted, streaming, closing, dispatched, writes)
    }

    constructor ()
      ensures View() == BOOTSTRAPPED
    {
      queue, ledger, registry, worker := [], map[], {}, Created;
      halted, streaming, closing := false, true, false;
      dispatched, writes := [], [];
    }

    method SubmitExecutionIntent(request: Request) returns (accepted: bool)
      modifies this
      ensures View() == Step(old(View()), Submit(request))
      ensures accepted <==> Submittable(old(View()), request) && |old(queue)| < QUEUE_SIZE
    {
      if halted {
        return false;
      }
      if request.key in registry {
        return false;
      }
      registry := registry + {request.key};
      if |queue| >= QUEUE_SIZE {
        return false;
      }
      queue := queue + [request];
      accepted := true;
    }

    /** validate_lifecycle_transition and the write it guards; false stands for the exception. */
    method UpdateLocalLedger(clientId: string, status: OrderStatus) returns (ok: bool)
      modifies this`ledger, this`writes
      ensures ok == Accepts(old(View()), clientId, status)
      ensures View() == if ok then Record(old(View()), clientId, status) else old(View())
    {
      if clientId in ledger && !TransitionOk(ledger[clientId], status) {
        return false;
      }
      ledger := ledger[clientId := status];
      writes := writes + [Write(clientId, status)];
      ok := true;
    }

    method FinishIteration()
      modifies this`worker
      ensures View() == IterationDone(old(View()))
    {
      worker := if halted then Stopped else Idle;
    }

    /** The worker runs for the first time, up to its wait for the queue. */
    method WorkerLoopStarts()
      modifies this`worker
      ensures View() == Step(old(View()), WorkerStarts)
    {
      if worker.Created? {
        FinishIteration();
      }
    }

    /** From the queue to the broker call, or to the next iteration when the safety gate refuses. */
    method WorkerTakesRequest(safe: bool)
      modifies this
      ensures View() == Step(old(View()), WorkerTakes(safe))
    {
      if !worker.Idle? || queue == [] {
        return;
      }
      var request := queue[0];
      queue := queue[1..];
      if !safe {
        FinishIteration();
        return;
      }
      ledger := ledger[request.clientId := PendingSubmit];
      writes := writes + [Write(request.clientId, PendingSubmit)];
      dispatched := dispatched + [request];
      worker := InFlight(request);
    }

    method BrokerAnswers(clientId: string, status: OrderStatus)
      modifies this
      ensures View() == Step(old(View()), BrokerReplies(clientId, status))
    {
      if !worker.InFlight? {
        return;
      }
      var request := worker.request;
      var ok := UpdateLocalLedger(clientId, status);
      if !ok {
        var _ := UpdateLocalLedger(request.clientId, Rejected);
      }
      FinishIteration();
    }

    method TransportFails()
      modifies this
      ensures View() == Step(old(View()), BrokerFails)
    {
      if !worker.InFlight? {
        return;
      }
      var _ := UpdateLocalLedger(worker.request.clientId, Rejected);
      FinishIteration();
    }

    method StreamEvent(clientId: string, status: OrderStatus)
      modifies this
      ensures View() == Step(old(View()), StreamReports(clientId, status))
    {
      if streaming {
        var ok := UpdateLocalLedger(clientId, status);
        streaming := ok;
      }
    }

    method TriggerEmergencyShutdown()
      modifies this`halted
      ensures View() == Step(old(View()), EmergencyShutdown)
    {
      halted := true;
    }

    method BeginTerminate()
      modifies this
      ensures View() == Step(old(View()), TerminateStarts)
    {
      halted, worker, closing := true, Stopped, true;
    }

    method EndTerminate()
      modifies this
      ensures View() == Step(old(View()), TerminateEnds)
    {
      if closing {
        ledger, registry, closing := map[], {}, false;
      }
    }
  }
}
