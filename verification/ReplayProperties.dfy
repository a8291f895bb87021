/** The replay is a k-way merge: sorted output exactly for sorted buffers, every buffer in its own order, every
    row exactly once, and everything drained exactly when no rows hide under the empty key. */
module ReplayProperties {
  import opened ReplayMerge

  // ---------- the pick ----------

  /** The picked buffer's next row is the earliest, and strictly earlier than those registered before it. */
  lemma {:induction false} EarliestExactly(buffers: seq<Buffer>, n: nat)
    requires n <= |buffers|
    ensures match EarliestOf(buffers, n)
            case None => forall j :: 0 <= j < n ==> buffers[j].rows == []
            case Some(i) =>
              forall j :: 0 <= j < n && buffers[j].rows != [] ==>
                buffers[i].rows[0].time <= buffers[j].rows[0].time
                && (j < i ==> buffers[i].rows[0].time < buffers[j].rows[0].time)
    decreases n
  {
    if n > 0 {
      EarliestExactly(buffers, n - 1);
    }
  }

  // ---------- one buffer's rows in the merge ----------

  /** The rows dispatched under a key, in the order they are dispatched. */
  function Under(dispatched: seq<Dispatch>, key: string): seq<Row> {
    if dispatched == [] then []
    else
      var rest := Under(dispatched[1..], key);
      if dispatched[0].key == key then [dispatched[0].row] + rest else rest
  }

  lemma UnderCons(d: Dispatch, rest: seq<Dispatch>, key: string)
    ensures Under([d] + rest, key) == if d.key == key then [d.row] + Under(rest, key) else Under(rest, key)
  {
    assert ([d] + rest)[1..] == rest;
  }

  /** Rows that the merge can reach: none hide under the empty key. */
  ghost predicate NothingHidden(buffers: seq<Buffer>) {
    forall i :: 0 <= i < |buffers| && buffers[i].key == "" ==> buffers[i].rows == []
  }

  lemma NoTrackMeansEmpty(buffers: seq<Buffer>, i: nat)
    requires NothingHidden(buffers) && NextTrack(buffers).None? && i < |buffers|
    ensures buffers[i].rows == []
  {
    EarliestExactly(buffers, |buffers|);
  }

  lemma PopKeeps(buffers: seq<Buffer>, i: nat)
    requires NothingHidden(buffers) && DistinctKeys(buffers) && i < |buffers| && buffers[i].rows != []
    ensures NothingHidden(Pop(buffers, i)) && DistinctKeys(Pop(buffers, i))
  {
  }

  /** Each buffer comes out whole, in its own order. */
  lemma {:induction false} BufferComesOutInOrder(buffers: seq<Buffer>, i: nat)
    requires DistinctKeys(buffers) && NothingHidden(buffers) && i < |buffers|
    ensures Under(Merged(buffers), buffers[i].key) == buffers[i].rows
    decreases RowsLeft(buffers)
  {
    hide Merged, NextTrack, RowsLeft, Under, DistinctKeys, NothingHidden;
    var next := NextTrack(buffers);
    if next.None? {
      NothingNext(buffers);
      NoTrackMeansEmpty(buffers, i);
      UnderNothing(buffers[i].key);
    } else {
      var j := next.value;
      MergedUnfolds(buffers);
      PopKeeps(buffers, j);
      BufferComesOutInOrder(Pop(buffers, j), i);
      UnderCons(Dispatch(buffers[j].key, buffers[j].rows[0]), Merged(Pop(buffers, j)), buffers[i].key);
      KeysDiffer(buffers, i, j);
    }
  }

  lemma UnderNothing(key: string)
    ensures Under([], key) == []
  {
  }

  lemma KeysDiffer(buffers: seq<Buffer>, i: nat, j: nat)
    requires DistinctKeys(buffers) && i < |buffers| && j < |buffers|
    ensures buffers[i].key == buffers[j].key <==> i == j
  {
  }

  lemma {:induction false} OnlyRegisteredKeys(buffers: seq<Buffer>, k: nat)
    requires DistinctKeys(buffers) && k < |Merged(buffers)|
    ensures exists i :: 0 <= i < |buffers| && Merged(buffers)[k].key == buffers[i].key
    decreases RowsLeft(buffers)
  {
    hide Merged, NextTrack, RowsLeft, DistinctKeys;
    if NextTrack(buffers).None? {
      NothingNext(buffers);
    } else {
      MergedUnfolds(buffers);
      var j := NextTrack(buffers).value;
      if k > 0 {
        OnlyRegisteredKeys(Pop(buffers, j), k - 1);
        var i :| 0 <= i < |buffers| && Merged(Pop(buffers, j))[k - 1].key == Pop(buffers, j)[i].key;
        assert buffers[i].key == Pop(buffers, j)[i].key;
      }
    }
  }

  /** Every row is dispatched exactly once, and the loop ends having drained everything, exactly when no rows are
      registered under the empty key. */
  lemma {:induction false} DrainedExactly(buffers: seq<Buffer>)
    requires DistinctKeys(buffers)
    ensures |Merged(buffers)| <= RowsLeft(buffers)
    ensures |Merged(buffers)| == RowsLeft(buffers) <==> NothingHidden(buffers)
    decreases RowsLeft(buffers)
  {
    hide Merged, NextTrack, RowsLeft, DistinctKeys, NothingHidden;
    if NextTrack(buffers).None? {
      NothingNext(buffers);
      NothingReachable(buffers);
    } else {
      var j := NextTrack(buffers).value;
      MergedUnfolds(buffers);
      DrainedExactly(Pop(buffers, j));
      HiddenUnchanged(buffers, j);
    }
  }

  lemma HiddenUnchanged(buffers: seq<Buffer>, j: nat)
    requires j < |buffers| && buffers[j].key != "" && buffers[j].rows != []
    ensures NothingHidden(Pop(buffers, j)) <==> NothingHidden(buffers)
  {
    forall i | 0 <= i < |buffers|
      ensures Pop(buffers, j)[i].key == buffers[i].key
      ensures buffers[i].key == "" ==> Pop(buffers, j)[i].rows == buffers[i].rows
    {
    }
  }

  lemma NothingReachable(buffers: seq<Buffer>)
    requires NextTrack(buffers).None?
    ensures RowsLeft(buffers) == 0 <==> NothingHidden(buffers)
  {
    EarliestExactly(buffers, |buffers|);
    EmptyExactly(buffers);
  }

  lemma {:induction false} EmptyExactly(buffers: seq<Buffer>)
    ensures RowsLeft(buffers) == 0 <==> forall i :: 0 <= i < |buffers| ==> buffers[i].rows == []
    decreases |buffers|
  {
    if buffers != [] {
      var earlier := buffers[..|buffers| - 1];
      EmptyExactly(earlier);
      assert buffers == earlier + [buffers[|buffers| - 1]];
    }
  }

  // ---------- order in time ----------

  ghost predicate RowsOrdered(rows: seq<Row>) {
    forall i, j :: 0 <= i < j < |rows| ==> rows[i].time <= rows[j].time
  }

  ghost predicate BuffersOrdered(buffers: seq<Buffer>) {
    forall i :: 0 <= i < |buffers| ==> RowsOrdered(buffers[i].rows)
  }

  ghost predicate InOrder(dispatched: seq<Dispatch>) {
    forall i, j :: 0 <= i < j < |dispatched| ==> dispatched[i].row.time <= dispatched[j].row.time
  }

  ghost predicate AllFrom(dispatched: seq<Dispatch>, time: int) {
    forall k :: 0 <= k < |dispatched| ==> dispatched[k].row.time >= time
  }

  ghost predicate NoneBefore(buffers: seq<Buffer>, time: int) {
    forall i, k :: 0 <= i < |buffers| && 0 <= k < |buffers[i].rows| ==> buffers[i].rows[k].time >= time
  }

  lemma PopNoneBefore(buffers: seq<Buffer>, i: nat, time: int)
    requires i < |buffers| && buffers[i].rows != [] && NoneBefore(buffers, time)
    ensures NoneBefore(Pop(buffers, i), time)
  {
    var popped := Pop(buffers, i);
    forall j, k | 0 <= j < |popped| && 0 <= k < |popped[j].rows|
      ensures popped[j].rows[k].time >= time
    {
      assert popped[j].rows[k] == buffers[j].rows[if j == i then k + 1 else k];
    }
  }

  lemma PopOrdered(buffers: seq<Buffer>, i: nat)
    requires i < |buffers| && buffers[i].rows != [] && BuffersOrdered(buffers)
    ensures BuffersOrdered(Pop(buffers, i))
  {
    var popped := Pop(buffers, i);
    forall j | 0 <= j < |popped|
      ensures RowsOrdered(popped[j].rows)
    {
      assert RowsOrdered(buffers[j].rows);
    }
  }

  /** In sorted buffers nothing is earlier than the picked row. */
  lemma PickedIsEarliest(buffers: seq<Buffer>)
    requires BuffersOrdered(buffers) && NextTrack(buffers).Some?
    ensures NoneBefore(buffers, buffers[NextTrack(buffers).value].rows[0].time)
  {
    EarliestExactly(buffers, |buffers|);
    var time := buffers[NextTrack(buffers).value].rows[0].time;
    forall i, k | 0 <= i < |buffers| && 0 <= k < |buffers[i].rows|
      ensures buffers[i].rows[k].time >= time
    {
      assert RowsOrdered(buffers[i].rows);
    }
  }

  lemma {:induction false} MergedFrom(buffers: seq<Buffer>, time: int)
    requires DistinctKeys(buffers) && NoneBefore(buffers, time)
    ensures AllFrom(Merged(buffers), time)
    decreases RowsLeft(buffers)
  {
    hide Merged, NextTrack, RowsLeft, DistinctKeys;
    if NextTrack(buffers).None? {
      NothingNext(buffers);
    } else {
      var j := NextTrack(buffers).value;
      MergedUnfolds(buffers);
      PopNoneBefore(buffers, j, time);
      MergedFrom(Pop(buffers, j), time);
    }
  }

  lemma InOrderCons(d: Dispatch, rest: seq<Dispatch>)
    requires InOrder(rest) && AllFrom(rest, d.row.time)
    ensures InOrder([d] + rest)
  {
  }

  lemma {:induction false} MergedInOrder(buffers: seq<Buffer>)
    requires DistinctKeys(buffers) && BuffersOrdered(buffers)
    ensures InOrder(Merged(buffers))
    decreases RowsLeft(buffers)
  {
    hide Merged, NextTrack, RowsLeft, DistinctKeys, BuffersOrdered, NoneBefore, InOrder, AllFrom;
    if NextTrack(buffers).None? {
      NothingNext(buffers);
      NothingInOrder();
    } else {
      var j := NextTrack(buffers).value;
      MergedUnfolds(buffers);
      PickedIsEarliest(buffers);
      var d := Dispatch(buffers[j].key, buffers[j].rows[0]);
      PopNoneBefore(buffers, j, d.row.time);
      PopOrdered(buffers, j);
      MergedFrom(Pop(buffers, j), d.row.time);
      MergedInOrder(Pop(buffers, j));
      InOrderCons(d, Merged(Pop(buffers, j)));
    }
  }

  lemma NothingInOrder()
    ensures InOrder([])
  {
  }

  lemma {:induction false} UnderMembers(dispatched: seq<Dispatch>, key: string, time: int)
    requires AllFrom(dispatched, time)
    ensures forall k :: 0 <= k < |Under(dispatched, key)| ==> Under(dispatched, key)[k].time >= time
    decreases |dispatched|
  {
    if dispatched != [] {
      UnderMembers(dispatched[1..], key, time);
    }
  }

  lemma {:induction false} UnderInOrder(dispatched: seq<Dispatch>, key: string)
    requires InOrder(dispatched)
    ensures RowsOrdered(Under(dispatched, key))
    decreases |dispatched|
  {
    hide AllFrom;
    if dispatched != [] {
      UnderInOrder(dispatched[1..], key);
      UnderMembers(dispatched[1..], key, dispatched[0].row.time);
    }
  }

  /** What is dispatched is in time order exactly when every buffer is. */
  lemma ReplayInOrderExactly(buffers: seq<Buffer>)
    requires DistinctKeys(buffers) && NothingHidden(buffers)
    ensures InOrder(Merged(buffers)) <==> BuffersOrdered(buffers)
  {
    hide Merged, DistinctKeys, NothingHidden, InOrder, RowsOrdered, Under;
    if BuffersOrdered(buffers) {
      MergedInOrder(buffers);
    }
    if InOrder(Merged(buffers)) {
      forall i | 0 <= i < |buffers|
        ensures RowsOrdered(buffers[i].rows)
      {
        BufferComesOutInOrder(buffers, i);
        UnderInOrder(Merged(buffers), buffers[i].key);
      }
    }
  }
}
