/** Liquidity pools: pivots register or touch a pool, ticks sweep the pools whose level they cross. */
module LiquidityPools {
  import opened Common

  /** A buy-side pool rests above a swing high and is swept above its ceiling, a sell-side pool below
      a swing low and is swept below its floor. */
  datatype Pool = Pool(id: nat, buySide: bool, equal: bool, ceiling: real, floor: real, touches: nat,
                       sweptAt: Option<int>)

  datatype Event = Pivot(high: bool, price: real) | Tick(mid: real, time: int)

  datatype Sweep = Sweep(pool: Pool, depth: real)

  predicate Crosses(p: Pool, mid: real) {
    if p.buySide then mid > p.ceiling else mid < p.floor
  }

  function Depth(p: Pool, mid: real): real {
    if p.buySide then mid - p.ceiling else p.floor - mid
  }

  predicate Matches(p: Pool, high: bool, price: real, tolerance: real) {
    p.sweptAt.None? && p.buySide == high && price - tolerance <= p.ceiling <= price + tolerance
  }

  function NewPool(id: nat, high: bool, price: real): Pool {
    Pool(id, high, false, price + if high then 0.1 else 0.0, price - if high then 0.0 else 0.1, 1, None)
  }

  function Touched(p: Pool): Pool {
    p.(touches := p.touches + 1, equal := true)
  }

  function SweptPool(p: Pool, time: int): Pool {
    p.(sweptAt := Some(time))
  }

  // ---------- the two operations ----------

  /** The pools in memory, the id counter, and every sweep reported so far. */
  datatype State = State(pools: seq<Pool>, counter: nat, reported: seq<Sweep>)

  const EMPTY := State([], 0, [])

  /** Position of the first pool the pivot equals, or the number of pools. */
  function FirstMatch(pools: seq<Pool>, high: bool, price: real, tolerance: real, from: nat): (k: nat)
    requires from <= |pools|
    ensures from <= k <= |pools|
    ensures k < |pools| ==> Matches(pools[k], high, price, tolerance)
    ensures forall j :: from <= j < k ==> !Matches(pools[j], high, price, tolerance)
    decreases |pools| - from
  {
    if from == |pools| || Matches(pools[from], high, price, tolerance) then from
    else FirstMatch(pools, high, price, tolerance, from + 1)
  }

  function Register(st: State, high: bool, price: real, tolerance: real): State {
    var k := FirstMatch(st.pools, high, price, tolerance, 0);
    if k < |st.pools| then st.(pools := st.pools[k := Touched(st.pools[k])])
    else st.(pools := st.pools + [NewPool(st.counter + 1, high, price)], counter := st.counter + 1)
  }

  predicate SweptBy(p: Pool, mid: real) {
    p.sweptAt.None? && Crosses(p, mid)
  }

  /** The first k pools once the tick has been looked at. */
  function MarkedFirst(pools: seq<Pool>, mid: real, time: int, k: nat): (marked: seq<Pool>)
    requires k <= |pools|
    ensures |marked| == |pools|
    ensures forall j :: 0 <= j < |pools| ==>
              marked[j] == if j < k && SweptBy(pools[j], mid) then SweptPool(pools[j], time) else pools[j]
    decreases k
  {
    if k == 0 then pools
    else
      var before := MarkedFirst(pools, mid, time, k - 1);
      if SweptBy(pools[k - 1], mid) then before[k - 1 := SweptPool(pools[k - 1], time)] else before
  }

  function SweepsFirst(pools: seq<Pool>, mid: real, time: int, k: nat): seq<Sweep>
    requires k <= |pools|
    decreases k
  {
    if k == 0 then []
    else
      var before, p := SweepsFirst(pools, mid, time, k - 1), pools[k - 1];
      if SweptBy(p, mid) then before + [Sweep(SweptPool(p, time), Depth(p, mid))] else before
  }

  function UnsweptFirst(pools: seq<Pool>, k: nat): seq<Pool>
    requires k <= |pools|
    decreases k
  {
    if k == 0 then []
    else if pools[k - 1].sweptAt.None? then UnsweptFirst(pools, k - 1) + [pools[k - 1]]
    else UnsweptFirst(pools, k - 1)
  }

  function EvaluateTick(st: State, mid: real, time: int): State {
    var marked := MarkedFirst(st.pools, mid, time, |st.pools|);
    st.(pools := UnsweptFirst(marked, |marked|), reported := st.reported + SweepsFirst(st.pools, mid, time, |st.pools|))
  }

  function Step(st: State, e: Event, tolerance: real): State {
    match e
    case Pivot(high, price) => Register(st, high, price, tolerance)
    case Tick(mid, time) => EvaluateTick(st, mid, time)
  }

  function Run(events: seq<Event>, tolerance: real, n: nat): State
    requires n <= |events|
    decreases n
  {
    if n == 0 then EMPTY else Step(Run(events, tolerance, n - 1), events[n - 1], tolerance)
  }

  // ---------- queries ----------

  function PoolLevel(p: Pool): real {
    if p.buySide then p.ceiling else p.floor
  }

  // ---------- the engine object ----------

  class LiquidityEngine {
    const tolerance: real
    var pools: seq<Pool>
    var counter: nat
    ghost var reported: seq<Sweep>

    ghost function View(): State
      reads this
    {
      State(pools, counter, reported)
    }

    constructor (pipTolerance: real)
      ensures View() == EMPTY && tolerance == pipTolerance / 10.0
    {
      tolerance := pipTolerance / 10.0;
      pools, counter, reported := [], 0, [];
    }

    method RegisterStructuralPivotPool(high: bool, price: real) returns (pool: Pool)
      modifies this
      ensures View() == Step(old(View()), Pivot(high, price), tolerance)
      ensures var k := FirstMatch(old(pools), high, price, tolerance, 0); k < |pools| && pool == pools[k]
    {
      for k := 0 to |pools|
        invariant pools == old(pools) && counter == old(counter) && reported == old(reported)
        invariant FirstMatch(pools, high, price, tolerance, 0) == FirstMatch(pools, high, price, tolerance, k)
      {
        if Matches(pools[k], high, price, tolerance) {
          pool := Touched(pools[k]);
          pools := pools[k := pool];
          return;
        }
      }
      counter := counter + 1;
      pool := NewPool(counter, high, price);
      pools := pools + [pool];
    }

    method EvaluateTickSweeps(mid: real, time: int) returns (sweeps: seq<Sweep>)
      modifies this
      ensures View() == Step(old(View()), Tick(mid, time), tolerance)
      ensures sweeps == SweepsFirst(old(pools), mid, time, |old(pools)|)
    {
      sweeps := [];
      ghost var before := pools;
      for k := 0 to |pools|
        invariant |pools| == |before| && counter == old(counter) && reported == old(reported)
        invariant pools == MarkedFirst(before, mid, time, k)
        invariant sweeps == SweepsFirst(before, mid, time, k)
      {
        if SweptBy(pools[k], mid) {
          sweeps := sweeps + [Sweep(SweptPool(pools[k], time), Depth(pools[k], mid))];
          pools := pools[k := SweptPool(pools[k], time)];
        }
      }
      ghost var marked := pools;
      var kept: seq<Pool> := [];
      for k := 0 to |pools|
        invariant pools == marked && counter == old(counter) && reported == old(reported)
        invariant kept == UnsweptFirst(pools, k)
      {
        if pools[k].sweptAt.None? {
          kept := kept + [pools[k]];
        }
      }
      pools := kept;
      reported := reported + sweeps;
    }

    /** The unswept pool whose level is closest to the price; the earliest one among equals. */
    method NearestActivePool(price: real) returns (nearest: Option<Pool>)
      ensures nearest.None? <==> forall k :: 0 <= k < |pools| ==> pools[k].sweptAt.Some?
      ensures nearest.Some? ==>
                exists k :: 0 <= k < |pools| && pools[k] == nearest.value && pools[k].sweptAt.None?
                  && (forall j :: 0 <= j < |pools| && pools[j].sweptAt.None? ==>
                        Abs(PoolLevel(pools[k]) - price) <= Abs(PoolLevel(pools[j]) - price))
                  && (forall j :: 0 <= j < k && pools[j].sweptAt.None? ==>
                        Abs(PoolLevel(pools[k]) - price) < Abs(PoolLevel(pools[j]) - price))
    {
      nearest := None;
      ghost var at := 0;
      for k := 0 to |pools|
        invariant nearest.None? <==> forall j :: 0 <= j < k ==> pools[j].sweptAt.Some?
        invariant nearest.Some? ==>
                    at < k && pools[at] == nearest.value && pools[at].sweptAt.None?
                    && (forall j :: 0 <= j < k && pools[j].sweptAt.None? ==>
                          Abs(PoolLevel(pools[at]) - price) <= Abs(PoolLevel(pools[j]) - price))
                    && (forall j :: 0 <= j < at && pools[j].sweptAt.None? ==>
                          Abs(PoolLevel(pools[at]) - price) < Abs(PoolLevel(pools[j]) - price))
      {
        if pools[k].sweptAt.None?
           && (nearest.None? || Abs(PoolLevel(pools[k]) - price) < Abs(PoolLevel(nearest.value) - price)) {
          nearest, at := Some(pools[k]), k;
        }
      }
    }
  }
}
