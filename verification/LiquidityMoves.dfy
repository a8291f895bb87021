/** What one pivot and one tick do to the liquidity pools, in prices. */
module LiquidityMoves {
  import opened Common
  import opened LiquidityPools

  /** A pool the pivot equals: not swept, of its side, its ceiling within the tolerance of the price. */
  predicate EqualTo(p: Pool, high: bool, price: real, tolerance: real) {
    p.sweptAt == None && (p.buySide <==> high) && p.ceiling - price <= tolerance && price - p.ceiling <= tolerance
  }

  /** The first pool the pivot equals gets one touch more and counts as equal levels; without one a new pool comes
      last, a tenth wide on the far side of the pivot. */
  lemma RegistersExactly(st: State, high: bool, price: real, tolerance: real) returns (k: nat)
    ensures k <= |st.pools| && (forall j :: 0 <= j < k ==> !EqualTo(st.pools[j], high, price, tolerance))
    ensures k < |st.pools| ==> EqualTo(st.pools[k], high, price, tolerance)
    ensures var next := Register(st, high, price, tolerance);
            next.reported == st.reported
            && if k < |st.pools| then
                 next.counter == st.counter
                 && next.pools == st.pools[k := st.pools[k].(touches := st.pools[k].touches + 1, equal := true)]
               else
                 next.counter == st.counter + 1
                 && next.pools == st.pools + [Pool(st.counter + 1, high, false, if high then price + 0.1 else price,
                                                   if high then price else price - 0.1, 1, None)]
  {
    k := FirstMatch(st.pools, high, price, tolerance, 0);
  }

  /** A tick above the ceiling of a buy-side pool, below the floor of a sell-side one. */
  predicate Passed(p: Pool, mid: real) {
    (p.buySide && p.ceiling < mid) || (!p.buySide && mid < p.floor)
  }

  /** Where the unswept pools are that a tick passes, or those that it does not. */
  ghost predicate Places(pools: seq<Pool>, mid: real, passed: bool, k: nat, places: seq<nat>): (right: bool)
    requires k <= |pools|
    ensures right ==> forall i :: 0 <= i < |places| ==> places[i] < k
  {
    (forall i :: i in places <==> 0 <= i < k && pools[i].sweptAt == None && Passed(pools[i], mid) == passed)
    && (forall i, j :: 0 <= i < j < |places| ==> places[i] < places[j])
    && (forall i :: 0 <= i < |places| ==> places[i] < k)
  }

  ghost predicate Kept(pools: seq<Pool>, kept: seq<nat>, left: seq<Pool>)
    requires forall i :: 0 <= i < |kept| ==> kept[i] < |pools|
  {
    |left| == |kept| && forall i :: 0 <= i < |kept| ==> left[i] == pools[kept[i]]
  }

  function SweepOf(p: Pool, mid: real, time: int): Sweep {
    Sweep(p.(sweptAt := Some(time)), if p.buySide then mid - p.ceiling else p.floor - mid)
  }

  ghost predicate Reports(pools: seq<Pool>, mid: real, time: int, swept: seq<nat>, reported: seq<Sweep>)
    requires forall i :: 0 <= i < |swept| ==> swept[i] < |pools|
  {
    |reported| == |swept| && forall i :: 0 <= i < |swept| ==> reported[i] == SweepOf(pools[swept[i]], mid, time)
  }

  lemma MorePlaces(pools: seq<Pool>, mid: real, passed: bool, k: nat, places: seq<nat>)
    requires 0 < k <= |pools| && Places(pools, mid, passed, k - 1, places)
    ensures var here := pools[k - 1].sweptAt == None && Passed(pools[k - 1], mid) == passed;
            Places(pools, mid, passed, k, if here then places + [k - 1] else places)
  {
    hide Passed;
  }

  lemma {:induction false} KeptPlaces(pools: seq<Pool>, mid: real, time: int, k: nat) returns (kept: seq<nat>)
    requires k <= |pools|
    ensures Places(pools, mid, false, k, kept)
    ensures Kept(pools, kept, UnsweptFirst(MarkedFirst(pools, mid, time, |pools|), k))
    decreases k
  {
    hide Places, Kept, Passed, MarkedFirst, UnsweptFirst;
    kept := [];
    UnsweptUnfolds(MarkedFirst(pools, mid, time, |pools|), k);
    if k > 0 {
      kept := KeptPlaces(pools, mid, time, k - 1);
      MorePlaces(pools, mid, false, k, kept);
      MarkedAt(pools, mid, time, k - 1);
      if pools[k - 1].sweptAt == None && !Passed(pools[k - 1], mid) {
        KeepOne(pools, kept, UnsweptFirst(MarkedFirst(pools, mid, time, |pools|), k - 1), k - 1);
        kept := kept + [k - 1];
      }
    } else {
      NoPlaces(pools, mid, false);
      NothingYet(pools, mid, time);
    }
  }

  lemma PassedIs(p: Pool, mid: real)
    ensures Passed(p, mid) == Crosses(p, mid)
  {
  }

  lemma MarkedAt(pools: seq<Pool>, mid: real, time: int, i: nat)
    requires i < |pools|
    ensures var marked := MarkedFirst(pools, mid, time, |pools|)[i];
            if pools[i].sweptAt == None && !Passed(pools[i], mid) then marked == pools[i] else marked.sweptAt != None
  {
    hide MarkedFirst;
  }

  lemma UnsweptUnfolds(pools: seq<Pool>, k: nat)
    requires k <= |pools|
    ensures UnsweptFirst(pools, k)
            == if k == 0 then []
               else if pools[k - 1].sweptAt == None then UnsweptFirst(pools, k - 1) + [pools[k - 1]]
               else UnsweptFirst(pools, k - 1)
  {
  }

  lemma SweepIs(p: Pool, mid: real, time: int)
    ensures Sweep(SweptPool(p, time), Depth(p, mid)) == SweepOf(p, mid, time)
  {
  }

  lemma KeepOne(pools: seq<Pool>, kept: seq<nat>, left: seq<Pool>, i: nat)
    requires i < |pools| && (forall j :: 0 <= j < |kept| ==> kept[j] < |pools|) && Kept(pools, kept, left)
    ensures Kept(pools, kept + [i], left + [pools[i]])
  {
  }

  lemma ReportOne(pools: seq<Pool>, mid: real, time: int, swept: seq<nat>, reported: seq<Sweep>, i: nat)
    requires i < |pools| && (forall j :: 0 <= j < |swept| ==> swept[j] < |pools|)
    requires Reports(pools, mid, time, swept, reported)
    ensures Reports(pools, mid, time, swept + [i], reported + [SweepOf(pools[i], mid, time)])
  {
    hide SweepOf;
  }

  lemma NothingYet(pools: seq<Pool>, mid: real, time: int)
    ensures Kept(pools, [], []) && Reports(pools, mid, time, [], [])
  {
  }

  lemma NoPlaces(pools: seq<Pool>, mid: real, passed: bool)
    ensures Places(pools, mid, passed, 0, [])
  {
  }

  lemma {:induction false} SweptPlaces(pools: seq<Pool>, mid: real, time: int, k: nat) returns (swept: seq<nat>)
    requires k <= |pools|
    ensures Places(pools, mid, true, k, swept)
    ensures Reports(pools, mid, time, swept, SweepsFirst(pools, mid, time, k))
    decreases k
  {
    hide Places, Reports, Passed, Crosses, SweepOf;
    swept := [];
    if k > 0 {
      swept := SweptPlaces(pools, mid, time, k - 1);
      MorePlaces(pools, mid, true, k, swept);
      PassedIs(pools[k - 1], mid);
      if pools[k - 1].sweptAt == None && Passed(pools[k - 1], mid) {
        SweepIs(pools[k - 1], mid, time);
        ReportOne(pools, mid, time, swept, SweepsFirst(pools, mid, time, k - 1), k - 1);
        swept := swept + [k - 1];
      }
    } else {
      NoPlaces(pools, mid, true);
      NothingYet(pools, mid, time);
    }
  }

  /** A tick leaves exactly the unswept pools it does not pass, in order, and reports exactly those it does, in order
      and with how far it went past them. */
  lemma TicksExactly(st: State, mid: real, time: int) returns (kept: seq<nat>, swept: seq<nat>)
    ensures Places(st.pools, mid, false, |st.pools|, kept) && Places(st.pools, mid, true, |st.pools|, swept)
    ensures var next := EvaluateTick(st, mid, time);
            next.counter == st.counter && st.reported <= next.reported && Kept(st.pools, kept, next.pools)
            && Reports(st.pools, mid, time, swept, next.reported[|st.reported|..])
  {
    hide Places, UnsweptFirst, SweepsFirst;
    kept := KeptPlaces(st.pools, mid, time, |st.pools|);
    swept := SweptPlaces(st.pools, mid, time, |st.pools|);
  }
}
