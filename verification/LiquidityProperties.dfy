/** Over any interleaving of pivots and ticks: a pool is active exactly while no tick since its
    registration has crossed its level, it is reported swept at most once, touches add up to
    registrations, and active pools of one side keep their distance. */
module LiquidityProperties {
  import opened Common
  import opened LiquidityPools

  // ---------- what a tick does to pools that are all unswept ----------

  predicate AllUnswept(pools: seq<Pool>) {
    forall k :: 0 <= k < |pools| ==> pools[k].sweptAt.None?
  }

  function SurvivorsFirst(pools: seq<Pool>, mid: real, k: nat): seq<Pool>
    requires k <= |pools|
    decreases k
  {
    if k == 0 then []
    else if Crosses(pools[k - 1], mid) then SurvivorsFirst(pools, mid, k - 1)
    else SurvivorsFirst(pools, mid, k - 1) + [pools[k - 1]]
  }

  lemma {:induction false} UnsweptAreSurvivors(pools: seq<Pool>, mid: real, time: int, k: nat)
    requires AllUnswept(pools) && k <= |pools|
    ensures UnsweptFirst(MarkedFirst(pools, mid, time, |pools|), k) == SurvivorsFirst(pools, mid, k)
    decreases k
  {
    if k > 0 {
      UnsweptAreSurvivors(pools, mid, time, k - 1);
    }
  }

  lemma {:induction false} SurvivorsComeFrom(pools: seq<Pool>, mid: real, k: nat, i: nat) returns (m: nat)
    requires k <= |pools| && i < |SurvivorsFirst(pools, mid, k)|
    ensures m < k && SurvivorsFirst(pools, mid, k)[i] == pools[m]
    decreases k
  {
    if i < |SurvivorsFirst(pools, mid, k - 1)| {
      m := SurvivorsComeFrom(pools, mid, k - 1, i);
    } else {
      m := k - 1;
    }
  }

  lemma TickKeepsUnswept(st: State, mid: real, time: int)
    requires AllUnswept(st.pools)
    ensures EvaluateTick(st, mid, time).pools == SurvivorsFirst(st.pools, mid, |st.pools|)
    ensures AllUnswept(EvaluateTick(st, mid, time).pools)
  {
    UnsweptAreSurvivors(st.pools, mid, time, |st.pools|);
    var kept := SurvivorsFirst(st.pools, mid, |st.pools|);
    forall i | 0 <= i < |kept|
      ensures kept[i].sweptAt.None?
    {
      var m := SurvivorsComeFrom(st.pools, mid, |st.pools|, i);
    }
  }

  lemma {:induction false} PoolsStayUnswept(events: seq<Event>, tolerance: real, n: nat)
    requires n <= |events|
    ensures AllUnswept(Run(events, tolerance, n).pools)
    decreases n
  {
    if n > 0 {
      PoolsStayUnswept(events, tolerance, n - 1);
      if events[n - 1].Tick? {
        TickKeepsUnswept(Run(events, tolerance, n - 1), events[n - 1].mid, events[n - 1].time);
      }
    }
  }

  // ---------- one pool's life ----------

  /** When and at what levels the pool with a given id was registered. */
  datatype Birth = Birth(at: nat, pool: Pool)

  function BirthOf(events: seq<Event>, tolerance: real, n: nat, id: nat): Option<Birth>
    requires n <= |events|
    decreases n
  {
    if n == 0 then None
    else
      var earlier, e := BirthOf(events, tolerance, n - 1, id), events[n - 1];
      if earlier.Some? then earlier
      else if e.Pivot? && Run(events, tolerance, n - 1).counter + 1 == id == Run(events, tolerance, n).counter then
        Some(Birth(n - 1, NewPool(id, e.high, e.price)))
      else None
  }

  /** Some tick after the registration crossed the level. */
  predicate CrossedSince(b: Birth, events: seq<Event>, n: nat)
    requires n <= |events|
  {
    exists j :: b.at < j < n && events[j].Tick? && Crosses(b.pool, events[j].mid)
  }

  function Times(pools: seq<Pool>, id: nat): nat {
    if pools == [] then 0 else Times(pools[..|pools| - 1], id) + if pools[|pools| - 1].id == id then 1 else 0
  }

  function TimesReported(sweeps: seq<Sweep>, id: nat): nat {
    if sweeps == [] then 0
    else TimesReported(sweeps[..|sweeps| - 1], id) + if sweeps[|sweeps| - 1].pool.id == id then 1 else 0
  }

  predicate SameLevel(p: Pool, q: Pool) {
    p.buySide == q.buySide && p.ceiling == q.ceiling && p.floor == q.floor
  }

  predicate LevelsOf(pools: seq<Pool>, id: nat, q: Pool) {
    forall k :: 0 <= k < |pools| && pools[k].id == id ==> SameLevel(pools[k], q)
  }

  lemma TimesSnoc(pools: seq<Pool>, p: Pool, id: nat)
    ensures Times(pools + [p], id) == Times(pools, id) + if p.id == id then 1 else 0
  {
    assert (pools + [p])[..|pools|] == pools;
  }

  lemma {:induction false} TimesReportedAppend(a: seq<Sweep>, b: seq<Sweep>, id: nat)
    ensures TimesReported(a + b, id) == TimesReported(a, id) + TimesReported(b, id)
  {
    if b == [] {
      assert a + b == a;
    } else {
      assert (a + b)[..|a + b| - 1] == a + b[..|b| - 1];
      TimesReportedAppend(a, b[..|b| - 1], id);
    }
  }

  lemma {:induction false} TimesAfterTouch(pools: seq<Pool>, k: nat, id: nat)
    requires k < |pools|
    ensures Times(pools[k := Touched(pools[k])], id) == Times(pools, id)
    decreases |pools|
  {
    var after, n := pools[k := Touched(pools[k])], |pools| - 1;
    if k == n {
      assert after[..n] == pools[..n];
    } else {
      assert after[..n] == pools[..n][k := Touched(pools[..n][k])];
      TimesAfterTouch(pools[..n], k, id);
    }
  }

  /** A tick leaves or sweeps all pools with a given id together, as it leaves or crosses their level. */
  lemma {:induction false} TickSplitsTimes(pools: seq<Pool>, mid: real, time: int, k: nat, id: nat, q: Pool)
    requires AllUnswept(pools) && k <= |pools| && LevelsOf(pools, id, q)
    ensures Times(SurvivorsFirst(pools, mid, k), id) == if Crosses(q, mid) then 0 else Times(pools[..k], id)
    ensures TimesReported(SweepsFirst(pools, mid, time, k), id) == if Crosses(q, mid) then Times(pools[..k], id) else 0
    decreases k
  {
    hide Depth, Crosses, SweptPool, SameLevel;
    if k == 0 {
      assert pools[..0] == [];
    } else {
      var p, before := pools[k - 1], SweepsFirst(pools, mid, time, k - 1);
      TickSplitsTimes(pools, mid, time, k - 1, id, q);
      assert pools[..k] == pools[..k - 1] + [p];
      TimesSnoc(pools[..k - 1], p, id);
      TimesSnoc(SurvivorsFirst(pools, mid, k - 1), p, id);
      TimesReportedSnoc(before, Sweep(SweptPool(p, time), Depth(p, mid)), id);
      SweptKeepsId(p, time);
      if p.id == id {
        CrossesAlike(p, q, mid);
      }
    }
  }

  lemma TimesReportedSnoc(sweeps: seq<Sweep>, sweep: Sweep, id: nat)
    ensures TimesReported(sweeps + [sweep], id) == TimesReported(sweeps, id) + if sweep.pool.id == id then 1 else 0
  {
    assert (sweeps + [sweep])[..|sweeps|] == sweeps;
  }

  lemma SweptKeepsId(p: Pool, time: int)
    ensures SweptPool(p, time).id == p.id
  {
  }

  lemma CrossesAlike(p: Pool, q: Pool, mid: real)
    requires SameLevel(p, q)
    ensures Crosses(p, mid) == Crosses(q, mid)
  {
  }

  /** With the pool's birth known: how often it is held and how often it has been reported. */
  predicate LifeFollowsTicks(events: seq<Event>, tolerance: real, n: nat, id: nat)
    requires n <= |events|
  {
    var st, b := Run(events, tolerance, n), BirthOf(events, tolerance, n, id);
    match b
    case None => Times(st.pools, id) == 0 && TimesReported(st.reported, id) == 0 && !(1 <= id <= st.counter)
    case Some(birth) =>
      1 <= id <= st.counter && birth.at < n && LevelsOf(st.pools, id, birth.pool)
      && Times(st.pools, id) == (if CrossedSince(birth, events, n) then 0 else 1)
      && TimesReported(st.reported, id) == (if CrossedSince(birth, events, n) then 1 else 0)
  }

  lemma CrossedGrows(b: Birth, events: seq<Event>, n: nat)
    requires 0 < n <= |events| && b.at < n - 1
    ensures CrossedSince(b, events, n)
            <==> CrossedSince(b, events, n - 1) || (events[n - 1].Tick? && Crosses(b.pool, events[n - 1].mid))
  {
    if events[n - 1].Tick? && Crosses(b.pool, events[n - 1].mid) {
      assert b.at < n - 1 < n;
    }
  }

  lemma NoTimesAnyLevel(pools: seq<Pool>, id: nat, q: Pool)
    requires Times(pools, id) == 0
    ensures LevelsOf(pools, id, q)
  {
    forall k | 0 <= k < |pools| && pools[k].id == id
      ensures false
    {
      TimesAtLeastOne(pools, k, id);
    }
  }

  lemma {:induction false} TimesAtLeastOne(pools: seq<Pool>, k: nat, id: nat)
    requires k < |pools| && pools[k].id == id
    ensures Times(pools, id) >= 1
    decreases |pools|
  {
    if k < |pools| - 1 {
      TimesAtLeastOne(pools[..|pools| - 1], k, id);
    }
  }

  lemma TickKeepsLife(events: seq<Event>, tolerance: real, n: nat, id: nat)
    requires 0 < n <= |events| && events[n - 1].Tick? && LifeFollowsTicks(events, tolerance, n - 1, id)
    ensures LifeFollowsTicks(events, tolerance, n, id)
  {
    hide Times, TimesReported, SurvivorsFirst, SweepsFirst, UnsweptFirst, MarkedFirst, Crosses, CrossedSince, FirstMatch,
         AllUnswept;
    var st, e := Run(events, tolerance, n - 1), events[n - 1];
    PoolsStayUnswept(events, tolerance, n - 1);
    TickKeepsUnswept(st, e.mid, e.time);
    var after := EvaluateTick(st, e.mid, e.time);
    assert Run(events, tolerance, n) == after;
    assert st.pools[..|st.pools|] == st.pools;
    TimesReportedAppend(st.reported, SweepsFirst(st.pools, e.mid, e.time, |st.pools|), id);
    match BirthOf(events, tolerance, n - 1, id)
    case Some(b) =>
      TickSplitsTimes(st.pools, e.mid, e.time, |st.pools|, id, b.pool);
      SurvivorsKeepLevels(st.pools, e.mid, id, b.pool);
      BornBefore(events, tolerance, n, id, b);
      CrossedGrows(b, events, n);
    case None =>
      var q := NewPool(id, true, 0.0);
      NoTimesAnyLevel(st.pools, id, q);
      TickSplitsTimes(st.pools, e.mid, e.time, |st.pools|, id, q);
  }

  lemma SurvivorsKeepLevels(pools: seq<Pool>, mid: real, id: nat, q: Pool)
    requires LevelsOf(pools, id, q)
    ensures LevelsOf(SurvivorsFirst(pools, mid, |pools|), id, q)
  {
    var kept := SurvivorsFirst(pools, mid, |pools|);
    forall i | 0 <= i < |kept| && kept[i].id == id
      ensures SameLevel(kept[i], q)
    {
      var m := SurvivorsComeFrom(pools, mid, |pools|, i);
    }
  }

  /** A birth recorded by n - 1 candles is recorded by n. */
  lemma BornBefore(events: seq<Event>, tolerance: real, n: nat, id: nat, b: Birth)
    requires 0 < n <= |events| && BirthOf(events, tolerance, n - 1, id) == Some(b)
    ensures BirthOf(events, tolerance, n, id) == Some(b)
  {
  }

  lemma PivotKeepsLife(events: seq<Event>, tolerance: real, n: nat, id: nat)
    requires 0 < n <= |events| && events[n - 1].Pivot? && LifeFollowsTicks(events, tolerance, n - 1, id)
    ensures LifeFollowsTicks(events, tolerance, n, id)
  {
    hide Times, TimesReported, CrossedSince, FirstMatch;
    var st, e := Run(events, tolerance, n - 1), events[n - 1];
    var after := Register(st, e.high, e.price, tolerance);
    assert Run(events, tolerance, n) == after;
    var k := FirstMatch(st.pools, e.high, e.price, tolerance, 0);
    if k < |st.pools| {
      TimesAfterTouch(st.pools, k, id);
    } else {
      TimesSnoc(st.pools, NewPool(st.counter + 1, e.high, e.price), id);
    }
    match BirthOf(events, tolerance, n - 1, id)
    case Some(b) =>
      BornBefore(events, tolerance, n, id, b);
      CrossedGrows(b, events, n);
    case None =>
      if after.counter == id == st.counter + 1 {
        var b := Birth(n - 1, NewPool(id, e.high, e.price));
        NotYetCrossed(b, events, n);
        NoTimesAnyLevel(st.pools, id, b.pool);
      }
  }

  lemma NotYetCrossed(b: Birth, events: seq<Event>, n: nat)
    requires 0 < n <= |events| && b.at == n - 1
    ensures !CrossedSince(b, events, n)
  {
  }

  /** A registered pool is held exactly while no tick since has crossed its level, and has been
      reported swept exactly once if one has, never otherwise. */
  lemma {:induction false} PoolActiveExactly(events: seq<Event>, tolerance: real, n: nat, id: nat)
    requires n <= |events|
    ensures LifeFollowsTicks(events, tolerance, n, id)
    decreases n
  {
    hide LifeFollowsTicks;
    if n == 0 {
      NothingAlive(events, tolerance, id);
    } else {
      PoolActiveExactly(events, tolerance, n - 1, id);
      if events[n - 1].Tick? {
        TickKeepsLife(events, tolerance, n, id);
      } else {
        PivotKeepsLife(events, tolerance, n, id);
      }
    }
  }

  lemma NothingAlive(events: seq<Event>, tolerance: real, id: nat)
    ensures LifeFollowsTicks(events, tolerance, 0, id)
  {
  }

  // ---------- touches ----------

  function Touches(pools: seq<Pool>): nat {
    if pools == [] then 0 else Touches(pools[..|pools| - 1]) + pools[|pools| - 1].touches
  }

  function TouchesReported(sweeps: seq<Sweep>): nat {
    if sweeps == [] then 0 else TouchesReported(sweeps[..|sweeps| - 1]) + sweeps[|sweeps| - 1].pool.touches
  }

  function Registrations(events: seq<Event>, n: nat): nat
    requires n <= |events|
    decreases n
  {
    if n == 0 then 0 else Registrations(events, n - 1) + if events[n - 1].Pivot? then 1 else 0
  }

  lemma {:induction false} TouchesAfterTouch(pools: seq<Pool>, k: nat)
    requires k < |pools|
    ensures Touches(pools[k := Touched(pools[k])]) == Touches(pools) + 1
    decreases |pools|
  {
    var after, n := pools[k := Touched(pools[k])], |pools| - 1;
    if k == n {
      assert after[..n] == pools[..n];
    } else {
      assert after[..n] == pools[..n][k := Touched(pools[..n][k])];
      TouchesAfterTouch(pools[..n], k);
    }
  }

  lemma {:induction false} TouchesReportedAppend(a: seq<Sweep>, b: seq<Sweep>)
    ensures TouchesReported(a + b) == TouchesReported(a) + TouchesReported(b)
  {
    if b == [] {
      assert a + b == a;
    } else {
      assert (a + b)[..|a + b| - 1] == a + b[..|b| - 1];
      TouchesReportedAppend(a, b[..|b| - 1]);
    }
  }

  lemma {:induction false} TickMovesTouches(pools: seq<Pool>, mid: real, time: int, k: nat)
    requires AllUnswept(pools) && k <= |pools|
    ensures Touches(SurvivorsFirst(pools, mid, k)) + TouchesReported(SweepsFirst(pools, mid, time, k)) == Touches(pools[..k])
    decreases k
  {
    if k == 0 {
      assert pools[..0] == [];
    } else {
      TickMovesTouches(pools, mid, time, k - 1);
      assert pools[..k][..k - 1] == pools[..k - 1];
      var kept, before := SurvivorsFirst(pools, mid, k - 1), SweepsFirst(pools, mid, time, k - 1);
      var sweep := Sweep(SweptPool(pools[k - 1], time), Depth(pools[k - 1], mid));
      assert (kept + [pools[k - 1]])[..|kept|] == kept && (before + [sweep])[..|before|] == before;
    }
  }

  /** Every registration is one touch of a pool still active or already swept. */
  lemma {:induction false} TouchesAreConserved(events: seq<Event>, tolerance: real, n: nat)
    requires n <= |events|
    ensures var st := Run(events, tolerance, n);
            Touches(st.pools) + TouchesReported(st.reported) == Registrations(events, n)
    decreases n
  {
    if n > 0 {
      TouchesAreConserved(events, tolerance, n - 1);
      StepConservesTouches(events, tolerance, n);
    }
  }

  lemma StepConservesTouches(events: seq<Event>, tolerance: real, n: nat)
    requires 0 < n <= |events|
    ensures var before, after := Run(events, tolerance, n - 1), Run(events, tolerance, n);
            Touches(after.pools) + TouchesReported(after.reported)
            == Touches(before.pools) + TouchesReported(before.reported) + if events[n - 1].Pivot? then 1 else 0
  {
    hide Touches, TouchesReported, SurvivorsFirst, SweepsFirst, UnsweptFirst, MarkedFirst, FirstMatch;
    var st, e := Run(events, tolerance, n - 1), events[n - 1];
    match e
    case Pivot(high, price) =>
      var k := FirstMatch(st.pools, high, price, tolerance, 0);
      if k < |st.pools| {
        TouchesAfterTouch(st.pools, k);
      } else {
        TouchesSnoc(st.pools, NewPool(st.counter + 1, high, price));
      }
    case Tick(mid, time) =>
      PoolsStayUnswept(events, tolerance, n - 1);
      TickKeepsUnswept(st, mid, time);
      TickMovesTouches(st.pools, mid, time, |st.pools|);
      assert st.pools[..|st.pools|] == st.pools;
      TouchesReportedAppend(st.reported, SweepsFirst(st.pools, mid, time, |st.pools|));
  }

  lemma TouchesSnoc(pools: seq<Pool>, p: Pool)
    ensures Touches(pools + [p]) == Touches(pools) + p.touches
  {
    assert (pools + [p])[..|pools|] == pools;
  }

  // ---------- spacing ----------

  /** A buy-side ceiling is drawn a tenth above its pivot, so that much of the tolerance can be lost. */
  function Gap(buySide: bool, tolerance: real): real {
    if buySide then tolerance - 0.1 else tolerance
  }

  predicate Apart(p: Pool, q: Pool, tolerance: real) {
    p.buySide == q.buySide ==> Abs(p.ceiling - q.ceiling) > Gap(p.buySide, tolerance)
  }

  predicate Spread(pools: seq<Pool>, tolerance: real) {
    forall i, j :: 0 <= i < j < |pools| ==> Apart(pools[i], pools[j], tolerance)
  }

  lemma RegisterKeepsSpread(st: State, high: bool, price: real, tolerance: real)
    requires AllUnswept(st.pools) && Spread(st.pools, tolerance)
    ensures Spread(Register(st, high, price, tolerance).pools, tolerance)
  {
    var k, after := FirstMatch(st.pools, high, price, tolerance, 0), Register(st, high, price, tolerance).pools;
    if k < |st.pools| {
      forall i, j | 0 <= i < j < |after|
        ensures Apart(after[i], after[j], tolerance)
      {
        assert Apart(st.pools[i], st.pools[j], tolerance);
      }
    } else {
      forall i, j | 0 <= i < j < |after|
        ensures Apart(after[i], after[j], tolerance)
      {
        if j < |st.pools| {
          assert Apart(st.pools[i], st.pools[j], tolerance);
        } else {
          assert !Matches(st.pools[i], high, price, tolerance);
        }
      }
    }
  }

  lemma {:induction false} SurvivorsStaySpread(pools: seq<Pool>, mid: real, tolerance: real, k: nat)
    requires k <= |pools| && Spread(pools, tolerance)
    ensures Spread(SurvivorsFirst(pools, mid, k), tolerance)
    decreases k
  {
    hide Apart;
    if k > 0 {
      SurvivorsStaySpread(pools, mid, tolerance, k - 1);
      var kept, before := SurvivorsFirst(pools, mid, k), SurvivorsFirst(pools, mid, k - 1);
      forall i, j | 0 <= i < j < |kept|
        ensures Apart(kept[i], kept[j], tolerance)
      {
        if j < |before| {
          assert Apart(before[i], before[j], tolerance);
        } else {
          var m := SurvivorsComeFrom(pools, mid, k - 1, i);
          assert Apart(pools[m], pools[k - 1], tolerance);
        }
      }
    }
  }

  /** Active pools of one side always keep their distance. */
  lemma {:induction false} ActivePoolsStaySpread(events: seq<Event>, tolerance: real, n: nat)
    requires n <= |events|
    ensures Spread(Run(events, tolerance, n).pools, tolerance)
    decreases n
  {
    hide Spread, Register, EvaluateTick, AllUnswept;
    if n == 0 {
      NothingSpread(tolerance);
    } else {
      var st, e := Run(events, tolerance, n - 1), events[n - 1];
      ActivePoolsStaySpread(events, tolerance, n - 1);
      PoolsStayUnswept(events, tolerance, n - 1);
      match e
      case Pivot(high, price) => RegisterKeepsSpread(st, high, price, tolerance);
      case Tick(mid, time) =>
        TickKeepsUnswept(st, mid, time);
        SurvivorsStaySpread(st.pools, mid, tolerance, |st.pools|);
    }
  }

  lemma NothingSpread(tolerance: real)
    ensures Spread(EMPTY.pools, tolerance)
  {
  }
}
