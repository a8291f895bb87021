/** Historical replay: a scheduler that picks the buffer with the earliest next row, and the engine loop that
    drains the buffers while pause, step, resume and terminate commands arrive between its steps. */
module ReplayMerge {
  import opened Common

  datatype Row = Row(time: int, payload: int)

  datatype Buffer = Buffer(key: string, rows: seq<Row>)

  datatype Dispatch = Dispatch(key: string, row: Row)

  datatype Command = Pause | Resume | Step | Terminate

  datatype Outcome = Exhausted | Stopped | Waiting

  // ---------- picking and popping ----------

  /** The first buffer with the earliest next row, among the first n. */
  function EarliestOf(buffers: seq<Buffer>, n: nat): (i: Option<nat>)
    requires n <= |buffers|
    ensures i.Some? ==> i.value < n && buffers[i.value].rows != []
    decreases n
  {
    if n == 0 then None
    else
      var earlier := EarliestOf(buffers, n - 1);
      if buffers[n - 1].rows == [] then earlier
      else if earlier.None? || buffers[n - 1].rows[0].time < buffers[earlier.value].rows[0].time then Some(n - 1)
      else earlier
  }

  /** The empty key reads as no key at all, so a buffer under it is never drained. */
  function NextTrack(buffers: seq<Buffer>): (i: Option<nat>)
    ensures i.Some? ==> i.value < |buffers| && buffers[i.value].rows != [] && buffers[i.value].key != ""
  {
    var i := EarliestOf(buffers, |buffers|);
    if i.Some? && buffers[i.value].key == "" then None else i
  }

  function Pop(buffers: seq<Buffer>, i: nat): seq<Buffer>
    requires i < |buffers| && buffers[i].rows != []
  {
    buffers[i := Buffer(buffers[i].key, buffers[i].rows[1..])]
  }

  function RowsLeft(buffers: seq<Buffer>): nat {
    if buffers == [] then 0 else RowsLeft(buffers[..|buffers| - 1]) + |buffers[|buffers| - 1].rows|
  }

  lemma {:induction false} PopTakesOne(buffers: seq<Buffer>, i: nat)
    requires i < |buffers| && buffers[i].rows != []
    ensures RowsLeft(Pop(buffers, i)) == RowsLeft(buffers) - 1
    decreases |buffers|
  {
    var last := |buffers| - 1;
    if i < last {
      PopTakesOne(buffers[..last], i);
      assert Pop(buffers, i)[..last] == Pop(buffers[..last], i);
    } else {
      assert Pop(buffers, i)[..last] == buffers[..last];
    }
  }

  /** All that the loop will dispatch from here on, if nothing stops it. */
  function Merged(buffers: seq<Buffer>): seq<Dispatch>
    decreases RowsLeft(buffers)
  {
    match NextTrack(buffers)
    case None => []
    case Some(i) =>
      PopTakesOne(buffers, i);
      [Dispatch(buffers[i].key, buffers[i].rows[0])] + Merged(Pop(buffers, i))
  }

  /** Position of a key, as a dictionary lookup would find it. */
  function IndexOf(buffers: seq<Buffer>, key: string): (i: Option<nat>)
    ensures i.Some? ==> i.value < |buffers| && buffers[i.value].key == key
    ensures i.None? ==> forall j :: 0 <= j < |buffers| ==> buffers[j].key != key
  {
    if buffers == [] then None
    else if buffers[|buffers| - 1].key == key then Some(|buffers| - 1)
    else IndexOf(buffers[..|buffers| - 1], key)
  }

  ghost predicate DistinctKeys(buffers: seq<Buffer>) {
    forall i, j :: 0 <= i < j < |buffers| ==> buffers[i].key != buffers[j].key
  }

  function Lookup(buffers: seq<Buffer>, key: string): Option<seq<Row>> {
    var i := IndexOf(buffers, key);
    if i.Some? then Some(buffers[i.value].rows) else None
  }

  lemma {:induction false} RefilledIndex(buffers: seq<Buffer>, i: nat, rows: seq<Row>, key: string)
    requires i < |buffers|
    ensures IndexOf(buffers[i := Buffer(buffers[i].key, rows)], key) == IndexOf(buffers, key)
    decreases |buffers|
  {
    var last, refilled := |buffers| - 1, buffers[i := Buffer(buffers[i].key, rows)];
    if i < last {
      RefilledIndex(buffers[..last], i, rows, key);
      assert refilled[..last] == buffers[..last][i := Buffer(buffers[i].key, rows)];
    } else {
      assert refilled[..last] == buffers[..last];
    }
  }

  lemma AppendedIndex(buffers: seq<Buffer>, b: Buffer, key: string)
    ensures IndexOf(buffers + [b], key) == if b.key == key then Some(|buffers|) else IndexOf(buffers, key)
  {
    assert (buffers + [b])[..|buffers|] == buffers;
  }

  lemma MergedUnfolds(buffers: seq<Buffer>)
    requires DistinctKeys(buffers) && NextTrack(buffers).Some?
    ensures var i := NextTrack(buffers).value;
            IndexOf(buffers, buffers[i].key) == Some(i)
            && RowsLeft(Pop(buffers, i)) == RowsLeft(buffers) - 1 && DistinctKeys(Pop(buffers, i))
            && Merged(buffers) == [Dispatch(buffers[i].key, buffers[i].rows[0])] + Merged(Pop(buffers, i))
  {
    var i := NextTrack(buffers).value;
    assert IndexOf(buffers, buffers[i].key).Some?;
    PopTakesOne(buffers, i);
  }

  class ReplayScheduler {
    var registry: seq<Buffer>

    constructor ()
      ensures registry == []
    {
      registry := [];
    }

    /** A key registered again keeps its place and gets the new buffer. */
    method RegisterStreamBuffer(key: string, rows: seq<Row>)
      requires DistinctKeys(registry)
      modifies this
      ensures DistinctKeys(registry)
      ensures forall k :: Lookup(registry, k) == if k == key then Some(rows) else Lookup(old(registry), k)
      ensures |old(registry)| <= |registry|
      ensures forall i :: 0 <= i < |old(registry)| ==> registry[i].key == old(registry)[i].key
    {
      var i := IndexOf(registry, key);
      if i.Some? {
        forall k: string
          ensures IndexOf(registry[i.value := Buffer(key, rows)], k) == IndexOf(registry, k)
        {
          RefilledIndex(registry, i.value, rows, k);
        }
        registry := registry[i.value := Buffer(key, rows)];
      } else {
        forall k: string
          ensures IndexOf(registry + [Buffer(key, rows)], k)
                  == if key == k then Some(|registry|) else IndexOf(registry, k)
        {
          AppendedIndex(registry, Buffer(key, rows), k);
        }
        registry := registry + [Buffer(key, rows)];
      }
    }

    method LocateNextChronologicalTrack() returns (key: Option<string>)
      ensures var i := EarliestOf(registry, |registry|);
              key == if i.Some? then Some(registry[i.value].key) else None
    {
      key := None;
      var best := 0;
      for n := 0 to |registry|
        invariant var i := EarliestOf(registry, n);
                  key == (if i.Some? then Some(registry[i.value].key) else None)
                  && (i.Some? ==> best == registry[i.value].rows[0].time)
      {
        if registry[n].rows != [] {
          if key.None? || registry[n].rows[0].time < best {
            key, best := Some(registry[n].key), registry[n].rows[0].time;
          }
        }
      }
    }

    method FetchNextNode(key: string) returns (row: Row)
      requires Lookup(registry, key).Some? && Lookup(registry, key).value != []
      modifies this
      ensures var i := IndexOf(old(registry), key).value;
              row == old(registry)[i].rows[0] && registry == Pop(old(registry), i)
    {
      var i := IndexOf(registry, key).value;
      row := registry[i].rows[0];
      registry := Pop(registry, i);
    }
  }

  predicate Quiet(arrivals: seq<seq<Command>>) {
    forall i :: 0 <= i < |arrivals| ==> arrivals[i] == []
  }

  class ReplayEngine {
    const scheduler: ReplayScheduler
    var clock: Option<int>
    var running: bool
    var paused: bool
    var stepMode: bool
    var published: seq<Dispatch>

    constructor (scheduler: ReplayScheduler)
      ensures this.scheduler == scheduler && running && !paused && !stepMode && published == [] && clock == None
    {
      this.scheduler := scheduler;
      clock, running, paused, stepMode, published := None, true, false, false, [];
    }

    ghost predicate ClockRight()
      reads this
    {
      published != [] ==> clock == Some(published[|published| - 1].row.time)
    }

    method Obey(commands: seq<Command>)
      modifies this`running, this`paused, this`stepMode
      ensures commands == [] ==> running == old(running) && paused == old(paused) && stepMode == old(stepMode)
      ensures !old(running) ==> !running
    {
      for i := 0 to |commands|
        invariant i == 0 ==> running == old(running) && paused == old(paused) && stepMode == old(stepMode)
        invariant !old(running) ==> !running
      {
        match commands[i]
        case Pause => paused, stepMode := true, false;
        case Resume => paused, stepMode := false, false;
        case Step => paused, stepMode := false, true;
        case Terminate => running := false;
      }
    }

    /** One suspension: the commands that arrived meanwhile take effect. */
    method Suspend(arrivals: seq<seq<Command>>, at: nat) returns (next: nat)
      requires at <= |arrivals|
      modifies this`running, this`paused, this`stepMode
      ensures at <= next <= |arrivals| && (at < |arrivals| ==> next == at + 1)
      ensures Quiet(arrivals) ==> running == old(running) && paused == old(paused) && stepMode == old(stepMode)
      ensures !old(running) ==> !running
    {
      next := at;
      if at < |arrivals| {
        Obey(arrivals[at]);
        next := at + 1;
      }
    }

    /** The loop's waiting room: left when resumed, stepped or terminated; stuck when nobody speaks any more. */
    method WaitWhilePaused(arrivals: seq<seq<Command>>, at: nat) returns (next: nat, stuck: bool)
      requires at <= |arrivals| && running
      modifies this`running, this`paused, this`stepMode
      ensures at <= next <= |arrivals|
      ensures stuck ==> running && paused && !stepMode
      ensures !stuck ==> !running || !paused || stepMode
      ensures !old(paused) || old(stepMode) ==>
                next == at && running == old(running) && paused == old(paused) && stepMode == old(stepMode)
      ensures Quiet(arrivals) ==>
                running && paused == old(paused) && stepMode == old(stepMode) && stuck == (paused && !stepMode)
    {
      next, stuck := at, false;
      while running && paused && !stepMode
        invariant at <= next <= |arrivals|
        invariant !old(paused) || old(stepMode) ==>
                    next == at && running == old(running) && paused == old(paused) && stepMode == old(stepMode)
        invariant Quiet(arrivals) ==> running && paused == old(paused) && stepMode == old(stepMode)
        decreases |arrivals| - next
      {
        if next == |arrivals| {
          stuck := true;
          return;
        }
        next := Suspend(arrivals, next);
      }
    }

    /** Fetches and publishes the next row, unless there is none. */
    method PublishNext() returns (done: bool)
      requires DistinctKeys(scheduler.registry)
      modifies this`clock, this`published, scheduler
      ensures DistinctKeys(scheduler.registry)
      ensures done <==> NextTrack(old(scheduler.registry)).None?
      ensures done ==> scheduler.registry == old(scheduler.registry) && published == old(published) && clock == old(clock)
      ensures !done ==>
                RowsLeft(scheduler.registry) < RowsLeft(old(scheduler.registry)) && ClockRight()
                && |published| == |old(published)| + 1
      ensures published + Merged(scheduler.registry) == old(published) + Merged(old(scheduler.registry))
    {
      hide Merged, EarliestOf, RowsLeft, IndexOf, DistinctKeys;
      ghost var before := scheduler.registry;
      var key := scheduler.LocateNextChronologicalTrack();
      if key.None? || key.value == "" {
        return true;
      }
      MergedUnfolds(before);
      var row := scheduler.FetchNextNode(key.value);
      clock := Some(row.time);
      published := published + [Dispatch(key.value, row)];
      done := false;
    }

    /** Each element of `arrivals` holds the commands that arrive while the loop is suspended once more; when
        they run out nobody speaks to the loop any more.  Whatever arrives, the rows published are the next
        rows of the merge, and those still to come are the rest of it. */
    method LaunchReplayLoop(arrivals: seq<seq<Command>>) returns (outcome: Outcome)
      requires DistinctKeys(scheduler.registry) && ClockRight()
      modifies this`clock, this`running, this`paused, this`stepMode, this`published, scheduler
      ensures DistinctKeys(scheduler.registry) && ClockRight()
      ensures published + Merged(scheduler.registry) == old(published) + Merged(old(scheduler.registry))
      ensures match outcome
              case Exhausted => Merged(scheduler.registry) == []
              case Stopped => !running
              case Waiting => running && paused && !stepMode
      ensures Quiet(arrivals) && old(running) && !old(paused) && !old(stepMode) ==> outcome.Exhausted?
      ensures Quiet(arrivals) && old(running) && old(stepMode) && NextTrack(old(scheduler.registry)).Some? ==>
                outcome.Waiting? && |published| == |old(published)| + 1
    {
      hide Merged, NextTrack, RowsLeft, Quiet, DistinctKeys;
      ghost var before, earlier := scheduler.registry, published;
      var at := 0;
      while running
        invariant at <= |arrivals| && DistinctKeys(scheduler.registry) && ClockRight()
        invariant published + Merged(scheduler.registry) == earlier + Merged(before)
        invariant Quiet(arrivals) && old(running) ==> running
        invariant Quiet(arrivals) && !old(paused) && !old(stepMode) ==> !paused && !stepMode
        invariant Quiet(arrivals) && old(stepMode) ==>
                    if stepMode then published == earlier && scheduler.registry == before
                    else paused && |published| == |earlier| + 1
        decreases RowsLeft(scheduler.registry)
      {
        var stuck;
        at, stuck := WaitWhilePaused(arrivals, at);
        if stuck {
          return Waiting;
        }
        if !running {
          return Stopped;
        }
        var done := PublishNext();
        if done {
          NothingNext(scheduler.registry);
          return Exhausted;
        }
        at := Suspend(arrivals, at);
        if stepMode {
          paused, stepMode := true, false;
        }
        at := Suspend(arrivals, at);
      }
      return Stopped;
    }
  }

  lemma NothingNext(buffers: seq<Buffer>)
    requires NextTrack(buffers).None?
    ensures Merged(buffers) == []
  {
  }
}
