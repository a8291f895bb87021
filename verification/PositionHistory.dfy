/** What a position, and the trade it ends as, still tells of the fill that opened it. */
module PositionHistory {
  import opened Common
  import opened Rounding
  import opened TradeManagement
  import opened PositionAccounting
  import opened TradeSafety
  import opened BacktestRun

  /** The stop is where the order put it, or at break-even once a rung has been filled. */
  predicate StopPlaced(pos: Position) {
    pos.currentStop == pos.stop
    || (pos.moveToBreakeven && pos.partials != [] && pos.currentStop == BreakevenLevel(pos))
  }

  /** What managing `start` over some candles can have made of it while it is open. */
  ghost predicate Follows(start: Position, pos: Position) {
    SameTrade(pos, start) && Accounted(pos) && StopPlaced(pos) && (Sound(start) ==> Sound(pos))
  }

  /** A stop exit shows the price it happened at. */
  predicate ShowsStop(last: Position, t: Trade) {
    match t.reason
    case StopLoss => t.exitPrice == Some(last.currentStop)
    case BreakevenStop => Abs(last.currentStop - last.entry) < 0.000000001
    case _ => true
  }

  /** A position that `start` can have been when the trade closed. */
  ghost predicate LastOf(start: Position, t: Trade, last: Position) {
    SameTrade(last, start) && last.partials == t.partials && StopPlaced(last) && ShowsStop(last, t)
    && ReportedFaithfully(last, t)
  }

  /** What the log says of a trade opened as `start`: its R is that of its partial exits and of the rest at the
      final price, up to the bound, and without time exits a sound fill loses at most one R. */
  ghost predicate Tells(start: Position, t: Trade, cfg: Config) {
    t.tradeId == start.tradeId && t.order == start.order && t.entryTime == start.entryTime
    && (exists last :: LastOf(start, t, last))
    && (Sound(start) && TimeExitsOff(cfg) ==> t.realizedR >= -1.0)
  }

  lemma FreshFollowsItself(pos: Position)
    requires Fresh(pos)
    ensures Follows(pos, pos)
  {
    hide Sound;
    FreshIsAccounted(pos);
  }

  // ---------- the stop ----------

  lemma FillPlacesStop(pos: Position, c: Candle, k: nat)
    requires k < |pos.targets| && StopPlaced(pos)
    ensures StopPlaced(FillTarget(pos, c, k))
  {
    hide Payoff, RMultiple;
    var next := FillTarget(pos, c, k);
    assert |next.partials| == |pos.partials| + 1;
    assert BreakevenLevel(next) == BreakevenLevel(pos);
  }

  lemma {:induction false} FillsPlaceStop(pos: Position, c: Candle, hits: seq<nat>)
    requires StopPlaced(pos)
    requires forall j :: 0 <= j < |hits| ==> hits[j] < |pos.targets|
    ensures StopPlaced(FillTargets(pos, c, hits))
    decreases |hits|
  {
    hide Payoff, RMultiple, MovesToBreakeven, StopPlaced;
    if hits != [] && pos.remaining > 0.0 {
      FillPlacesStop(pos, c, hits[0]);
      FillsPlaceStop(FillTarget(pos, c, hits[0]), c, hits[1..]);
    }
  }

  lemma CloseShowsStop(pos: Position, c: Candle, reason: ExitReason, price: real, ambiguous: bool)
    requires StopPlaced(pos) && (reason == StopReason(pos) || reason.AmbiguousStopFirst?)
    ensures var out := CloseAll(pos, c, reason, price, ambiguous, None);
            StopPlaced(out.last) && ShowsStop(out.last, out.trade) && out.last.partials == out.trade.partials
  {
    hide Payoff, Round;
  }

  lemma TimeExitKeepsStop(pos: Position, c: Candle, reason: ExitReason, price: real)
    requires StopPlaced(pos) && reason.IsTimeExit()
    ensures var out := CloseAll(pos, c, reason, price, false, Some(price));
            StopPlaced(out.last) && ShowsStop(out.last, out.trade) && out.last.partials == out.trade.partials
  {
    hide Payoff, Round;
  }

  lemma SettlePlacesStop(pos: Position, c: Candle)
    requires StopPlaced(pos)
    ensures match Settle(pos, c)
            case StillOpen(next) => StopPlaced(next)
            case Closed(last, trade) => StopPlaced(last) && ShowsStop(last, trade) && last.partials == trade.partials
            case _ => true
  {
    hide Round;
  }

  lemma ManagePlacesStop(pos: Position, c: Candle, cfg: Config)
    requires StopPlaced(pos)
    ensures match Manage(pos, c, cfg)
            case StillOpen(next) => StopPlaced(next)
            case Closed(last, trade) => StopPlaced(last) && ShowsStop(last, trade) && last.partials == trade.partials
            case _ => true
  {
    hide TimeExit, StopTouched, HitIndices, ClosePrice, ClosedTrade, Settle, FillTargets, StopPlaced, ShowsStop,
         StopReason, Risk;
    var timeExit, hits := TimeExit(pos, c, cfg), HitIndices(pos, c, 0);
    if timeExit.Some? {
      TimeExitKeepsStop(pos, c, timeExit.value, ClosePrice(pos, c));
    }
    CloseShowsStop(pos, c, AmbiguousStopFirst, pos.currentStop, true);
    CloseShowsStop(pos, c, StopReason(pos), pos.currentStop, false);
    FillsPlaceStop(pos, c, hits);
    SettlePlacesStop(FillTargets(pos, c, hits), c);
  }

  // ---------- identity and floor ----------

  lemma {:induction false} FillsKeepIdentity(pos: Position, c: Candle, hits: seq<nat>)
    requires forall j :: 0 <= j < |hits| ==> hits[j] < |pos.targets|
    ensures var after := FillTargets(pos, c, hits);
            after.tradeId == pos.tradeId && after.order == pos.order && after.entryTime == pos.entryTime
    decreases |hits|
  {
    hide Payoff, MovesToBreakeven, BreakevenLevel;
    if hits != [] && pos.remaining > 0.0 {
      FillsKeepIdentity(FillTarget(pos, c, hits[0]), c, hits[1..]);
    }
  }

  lemma ManageKeepsIdentity(pos: Position, c: Candle, cfg: Config)
    ensures match Manage(pos, c, cfg)
            case StillOpen(next) =>
              next.tradeId == pos.tradeId && next.order == pos.order && next.entryTime == pos.entryTime
            case Closed(_, trade) =>
              trade.tradeId == pos.tradeId && trade.order == pos.order && trade.entryTime == pos.entryTime
            case _ => true
  {
    hide Payoff, TimeExit, StopTouched, HitIndices, Round, ExitPrice, ClosePrice, StopReason, FillTargets, Risk;
    FillsKeepIdentity(pos, c, HitIndices(pos, c, 0));
  }

  lemma ManageFloor(pos: Position, c: Candle, cfg: Config)
    requires Sound(pos)
    ensures match Manage(pos, c, cfg)
            case StillOpen(next) => Sound(next)
            case Closed(_, trade) => TimeExitsOff(cfg) ==> trade.realizedR >= -1.0
            case _ => false
  {
    hide Manage, Sound, TimeExitsOff;
    ManageBoundsLoss(pos, c, cfg);
    if TimeExitsOff(cfg) {
      NeverTimesOut(pos, [c], cfg);
      RunOfOne(pos, c, cfg);
    }
  }

  lemma RunOfOne(pos: Position, c: Candle, cfg: Config)
    ensures Manage(pos, c, cfg).Closed? ==> Run(pos, [c], cfg) == Manage(pos, c, cfg)
  {
    hide Manage;
  }

  lemma SameTradeTransitive(a: Position, b: Position, c: Position)
    requires SameTrade(a, b) && SameTrade(b, c)
    ensures SameTrade(a, c)
  {
  }

  /** One candle: an open position goes on following its start, a closed one tells of it. */
  lemma ManageFollows(start: Position, pos: Position, c: Candle, cfg: Config)
    requires Follows(start, pos)
    ensures match Manage(pos, c, cfg)
            case StillOpen(next) => Follows(start, next)
            case Closed(_, trade) => Tells(start, trade, cfg)
            case _ => true
  {
    hide Manage, Accounted, SameTrade, StopPlaced, ShowsStop, Sound, ReportedFaithfully, TimeExitsOff;
    ManageKeepsAccount(pos, c, cfg);
    ManagePlacesStop(pos, c, cfg);
    ManageKeepsIdentity(pos, c, cfg);
    SameTradeIdentity(pos, start);
    if Sound(start) {
      ManageFloor(pos, c, cfg);
    }
    match Manage(pos, c, cfg)
    case StillOpen(next) => SameTradeTransitive(next, pos, start);
    case Closed(last, trade) =>
      SameTradeTransitive(last, pos, start);
      assert LastOf(start, trade, last);
    case _ =>
  }

  lemma SameTradeIdentity(p: Position, q: Position)
    requires SameTrade(p, q)
    ensures p.tradeId == q.tradeId && p.order == q.order && p.entryTime == q.entryTime
  {
  }

  // ---------- lists of positions and trades ----------

  /** Held since one of the given fills. */
  ghost predicate OpenFrom(starts: iset<Position>, pos: Position) {
    exists start :: start in starts && Follows(start, pos)
  }

  /** Logged for one of the given fills. */
  ghost predicate LoggedFrom(starts: iset<Position>, t: Trade, cfg: Config) {
    exists start :: start in starts && Tells(start, t, cfg)
  }

  ghost predicate AllOpenFrom(starts: iset<Position>, ps: seq<Position>) {
    forall k :: 0 <= k < |ps| ==> OpenFrom(starts, ps[k])
  }

  ghost predicate AllLoggedFrom(starts: iset<Position>, ts: seq<Trade>, cfg: Config) {
    forall k :: 0 <= k < |ts| ==> LoggedFrom(starts, ts[k], cfg)
  }

  lemma AllOpenAppend(starts: iset<Position>, a: seq<Position>, b: seq<Position>)
    requires AllOpenFrom(starts, a) && AllOpenFrom(starts, b)
    ensures AllOpenFrom(starts, a + b)
  {
    hide OpenFrom;
  }

  lemma AllLoggedAppend(starts: iset<Position>, a: seq<Trade>, b: seq<Trade>, cfg: Config)
    requires AllLoggedFrom(starts, a, cfg) && AllLoggedFrom(starts, b, cfg)
    ensures AllLoggedFrom(starts, a + b, cfg)
  {
    hide LoggedFrom;
  }

  lemma StartIsOpen(starts: iset<Position>, start: Position)
    requires start in starts && Fresh(start)
    ensures OpenFrom(starts, start)
  {
    FreshFollowsItself(start);
  }

  lemma ManageKeepsHistory(starts: iset<Position>, pos: Position, c: Candle, cfg: Config)
    requires OpenFrom(starts, pos)
    ensures match Manage(pos, c, cfg)
            case StillOpen(next) => OpenFrom(starts, next)
            case Closed(_, trade) => LoggedFrom(starts, trade, cfg)
            case _ => true
  {
    hide Manage, Follows, Tells;
    var start :| start in starts && Follows(start, pos);
    ManageFollows(start, pos, c, cfg);
  }

  lemma {:induction false} ManagingKeepsHistory(starts: iset<Position>, ps: seq<Position>, c: Candle, cfg: Config,
                                                k: nat)
    requires k <= |ps| && AllOpenFrom(starts, ps)
    ensures AllOpenFrom(starts, ManageFirst(ps, c, cfg, k).open)
    ensures AllLoggedFrom(starts, ManageFirst(ps, c, cfg, k).trades, cfg)
    decreases k
  {
    hide Manage, OpenFrom, LoggedFrom;
    if k > 0 {
      ManagingKeepsHistory(starts, ps, c, cfg, k - 1);
      ManageKeepsHistory(starts, ps[k - 1], c, cfg);
      var done := ManageFirst(ps, c, cfg, k - 1);
      match Manage(ps[k - 1], c, cfg)
      case Closed(_, trade) => AllLoggedAppend(starts, done.trades, [trade], cfg);
      case StillOpen(next) => AllOpenAppend(starts, done.open, [next]);
      case _ => AllOpenAppend(starts, done.open, [ps[k - 1]]);
    }
  }
}
