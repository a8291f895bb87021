/** What a position comes to over the candles after its entry: still held, or closed as a trade. */
module Fates {
  import opened TradeManagement
  import opened BacktestRun

  datatype Fate = Held(pos: Position) | Traded(trade: Trade)

  /** A position entered and then managed over the candles that follow. */
  function FateOf(start: Position, candles: seq<Candle>, cfg: Config): Fate {
    match Run(start, candles, cfg)
    case Closed(_, trade) => Traded(trade)
    case StillOpen(pos) => Held(pos)
    case _ => Held(start)
  }

  /** What one more candle makes of it. */
  function Later(fate: Fate, c: Candle, cfg: Config): Fate {
    match fate
    case Held(pos) =>
      (match Manage(pos, c, cfg)
       case StillOpen(next) => Held(next)
       case Closed(_, trade) => Traded(trade)
       case _ => fate)
    case Traded(_) => fate
  }

  lemma {:induction false} RunLonger(pos: Position, candles: seq<Candle>, c: Candle, cfg: Config)
    ensures Run(pos, candles, cfg).Closed? || Run(pos, candles, cfg).StillOpen?
    ensures Run(pos, candles + [c], cfg)
            == match Run(pos, candles, cfg)
               case StillOpen(last) =>
                 (match Manage(last, c, cfg)
                  case StillOpen(next) => StillOpen(next)
                  case Closed(last', trade) => Closed(last', trade)
                  case _ => StillOpen(last))
               case done => done
    decreases |candles|
  {
    hide Manage;
    if candles == [] {
      assert [c][1..] == [];
      assert candles + [c] == [c];
    } else {
      assert (candles + [c])[1..] == candles[1..] + [c];
      match Manage(pos, candles[0], cfg)
      case StillOpen(next) => RunLonger(next, candles[1..], c, cfg);
      case Closed(_, _) =>
      case _ => RunLonger(pos, candles[1..], c, cfg);
    }
  }

  lemma NothingRun(start: Position, cfg: Config)
    ensures Run(start, [], cfg) == StillOpen(start)
  {
  }

  lemma FateLater(start: Position, candles: seq<Candle>, c: Candle, cfg: Config)
    ensures FateOf(start, candles + [c], cfg) == Later(FateOf(start, candles, cfg), c, cfg)
    ensures FateOf(start, [], cfg) == Held(start)
  {
    hide Manage, Run;
    RunLonger(start, candles, c, cfg);
    NothingRun(start, cfg);
  }

  ghost predicate InManaged(open: seq<Position>, trades: seq<Trade>, fate: Fate) {
    match fate
    case Held(pos) => pos in open
    case Traded(trade) => trade in trades
  }

  ghost predicate LaterAmong(ps: seq<Position>, k: nat, c: Candle, cfg: Config, fate: Fate)
    requires k <= |ps|
  {
    exists i :: 0 <= i < k && Later(Held(ps[i]), c, cfg) == fate
  }

  lemma AddedOutcome(done: Managed, pos: Position, c: Candle, cfg: Config, fate: Fate)
    ensures var next := AddOutcome(done, pos, Manage(pos, c, cfg));
            InManaged(next.open, next.trades, fate)
            <==> InManaged(done.open, done.trades, fate) || fate == Later(Held(pos), c, cfg)
  {
    hide Manage;
  }

  /** Managing a list leaves exactly what one more candle makes of each position in it. */
  lemma {:induction false} ManagingIsLater(ps: seq<Position>, c: Candle, cfg: Config, k: nat, fate: Fate)
    requires k <= |ps|
    ensures var done := ManageFirst(ps, c, cfg, k);
            InManaged(done.open, done.trades, fate) <==> LaterAmong(ps, k, c, cfg, fate)
    decreases k
  {
    hide Manage, Later, InManaged, AddOutcome;
    if k > 0 {
      ManagingIsLater(ps, c, cfg, k - 1, fate);
      AddedOutcome(ManageFirst(ps, c, cfg, k - 1), ps[k - 1], c, cfg, fate);
      LaterAmongNext(ps, k, c, cfg, fate);
    } else {
      NothingManaged(fate);
    }
  }

  lemma NothingManaged(fate: Fate)
    ensures !InManaged([], [], fate)
  {
  }

  lemma LaterAmongNext(ps: seq<Position>, k: nat, c: Candle, cfg: Config, fate: Fate)
    requires 0 < k <= |ps|
    ensures LaterAmong(ps, k, c, cfg, fate) <==> LaterAmong(ps, k - 1, c, cfg, fate) || fate == Later(Held(ps[k - 1]), c, cfg)
  {
    hide Later;
  }
}
