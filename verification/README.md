# Verified model of the ICT/SMC trading engine

This project models the deterministic core of the trading engine in Dafny and proves what its runs keep.
It follows the program's own components, one model file and, where the results are many, one properties file each:

- **Backtest.** `TradeManagement`, `TargetLadder`, `BacktestRun`, `FullSystemRun` and `HigherTimeframes` model a position
  managed candle by candle, its target ladder, the prepared-signal backtest, the full-system replay and the feed of the
  higher timeframes. `ManagementProperties` and `EntryProperties` say in the fields of candle and order what one managed
  candle and one fill do; `Fates`, `BacktestLives` and `FullSystemLives` prove that both runs are nothing but the separate
  lives of their signals. `PositionAccounting`, `TradeSafety`, `PositionHistory`, `LadderProperties`,
  `BacktestProperties`, `SkipLogProperties`, `OrderTimeProperties`, `TradeLogProperties`, `FullSystemProperties` and
  `FullSystemLogProperties` hold the other results: conservation of size, R, signals and orders, bounded loss, causality.
- **Detectors.** `MarketStructure`, `LiquidityPools`, `Swings`, `BreakOfStructure`, `ChangeOfCharacter`,
  `OrderBlockRetest` and `BreakerBlock` are the streaming loops, on the shared vocabulary of `Market`, `Zones`,
  `SwingMarks` and `AverageRange`; the files beside them prove that they agree with declarative definitions over the history and do not
  repaint; `BreakEventProperties`, `CharacterEventProperties`, `ValidationProperties` and `BreakerEventProperties` say in
  the candles' own fields exactly what is reported on each candle.
- **Execution.** `ExecutionRouter` is the submit, worker, broker, stream and shutdown protocol as atomic steps;
  `TrailingStop` the candle-confirmed trailing loop and the start-up reconciliation; `RouterHistory` and `TrailingMoves`
  tell their states by the history of events and by prices.
- **Arithmetic and streams.** `Rounding`, `Sorting`, `StopHardening`, `PositionSizing` (with `HardeningMoves`),
  `TimeframeAggregation`, `ReplayMerge`.

Prices, sizes and R are exact reals, times are integers, and rounding is written out: to the nearest grid point, ties to
the even one. What the loops compute is stated by functions, each loop is a method proved to return exactly what its
function says, and the theorems are about those functions over every input and every run.

Some properties the program's documentation or its names suggest are false of the code. Each of these is kept as the
code has it, with the exact condition under which the property holds:

- a time exit is tested before the stop and can lose more than one R, so the floor of minus one R holds exactly when the
  settings rule time exits out (`FloorHoldsExactly`);
- the same-candle policy only relabels exits (`PolicyOnlyRelabels`);
- a ladder whose rounded percentages miss one by more than a billionth never closes by its targets (`AllRungsReached`);
- the skip log of the backtest looks one candle ahead, exactly when a market signal falls due on the last candle
  (`SkipLogCausalExactly`);
- a market order can be entered before it is valid, exactly when the candle after its signal fills it and straddles that
  moment (`EarlyEntryExactly`), and an order placed without an expiry still expires after twenty minutes, because it is
  read again with default settings whenever a fill is tried (`WaitingIsBounded`);
- at the end of a full-system test every long is marked with the short formula, because the direction text is compared
  with "BUY" while positions carry "BULLISH" (`EndMarkRightExactly`);
- a broker that answers FILLED at once is recorded as REJECTED and its fill event ends the stream consumer
  (`SynchronousFillIsRejected`, in general `AnswerStandsExactly`); order histories leave the lifecycle table exactly when
  an id is sent again (`LifecycleExactly`); a halt can still let one order through (`HaltLetsOneThroughExactly`);
- with a negative look ahead the change-of-character detector reads on through the whole feed and its reported warnings
  repaint; they stand exactly when it is -1 or more (`WarningsStandExactly`);
- a swing later marked as broken erases its earlier break events, and no other marking changes them
  (`EventsRemainExactly`), while a warning goes with every mark but swept (`WarningsRemainExactly`); structure events
  learned later can confirm a breaker's retest in hindsight (`StructureConfirmsInHindsight`, `BreakerUnchangedExactly`);
- the two order-block validators mirror each other only for a positive minimum reward (`MirrorExactly`);
- a replay buffer registered under the empty key is never drained (`DrainedExactly`);
- off the price grid, hardening can bring a stop closer (`WiderExactly`) and be repeated (`HardenedAgainExactly`).

## Model

| member | source | states |
|---|---|---|
| TradeManagement.CollectHits | src/backtest/ict_smc_backtest.py:217-218 | The rungs collected are exactly the unfilled rungs the candle reaches, in ladder order |
| TradeManagement.FillHits | src/backtest/ict_smc_backtest.py:232-259 | The fill loop with its early break computes the recursive filling of the hit rungs |
| TradeManagement.SimulateTradeManagement | src/backtest/ict_smc_backtest.py:183-273 | One managed candle, in the code's order of tests: time exit, conservative stop, plain stop, rungs, settlement |
| ManagementProperties.CloseExactly | src/backtest/ict_smc_backtest.py:209-230 | A protected position leaves at the first time exit due, else at its stop exactly when the low of a long or the high of a short reaches it, with the label, the R and every other field of the trade written out, and on no other candle for either reason |
| ManagementProperties.RungsExactly | src/backtest/ict_smc_backtest.py:217-273 | With neither, the rungs filled are in ladder order exactly those the high of a long or the low of a short reaches while size is left, each for its share or the rest; the stop goes to break-even exactly when a filled rung takes it there; the trade closes exactly when a billionth or less is left |
| ManagementProperties.RefusedExactly | src/backtest/ict_smc_backtest.py:196-207 | Only positions with a direction and a stop on the losing side are managed at all |
| PositionAccounting.ManageKeepsAccount | src/backtest/ict_smc_backtest.py:200-273 | One candle keeps open plus closed size at one and the credited R within its rounding bound, or reports the trade faithfully |
| PositionAccounting.RunKeepsAccount | src/backtest/ict_smc_backtest.py:200-273 | The same over every run of candles from any accounted position |
| PositionAccounting.ReportedRBound | src/backtest/ict_smc_backtest.py:657-699 | From a fresh fill with T rungs, reported R is within (T + 2) half units of the exact size-weighted R, however long the run |
| TradeSafety.ManageAdvancesStop | src/backtest/ict_smc_backtest.py:251-259 | On one candle the stop never moves backwards |
| TradeSafety.RunAdvancesStop | src/backtest/ict_smc_backtest.py:251-259 | Over every run the stop never moves backwards |
| TradeSafety.RunBoundsLoss | src/backtest/ict_smc_backtest.py:217-259 | Without a time exit a trade loses at most one R, and once the stop is at entry or better what was credited is kept |
| TradeSafety.FreshIsSound | src/backtest/ict_smc_backtest.py:580-599 | A fresh fill with targets beyond entry and a non-negative buffer is a position the loss bounds apply to |
| TradeSafety.FloorHoldsExactly | src/backtest/ict_smc_backtest.py:209-259 | Every sound position closed on any run keeps the minus-one-R floor if and only if the settings rule every time exit out: no Friday cutoff inside the day, no positive hold or stale limit, no session close |
| TradeSafety.TimeExitCanLoseMore | src/backtest/ict_smc_backtest.py:209-215 | Under any settings that allow a time exit, a sound fresh position that loses ten R in one candle |
| TradeSafety.PolicyOnlyRelabels | src/backtest/ict_smc_backtest.py:219-230 | For every run the two same-candle policies give the same outcome up to the label and the ambiguity flag |
| TradeSafety.ManageMirror | src/backtest/ict_smc_backtest.py:793-834 | Negating prices and swapping highs and lows turns a long trade into a short one with the same exits, sizes and R |
| TargetLadder.TargetLadder | scripts/run_ict_smc_backtest.py:850-887 | The loop builds the ladder the five results below are about: normalised rungs of the positive milestones, topped up by the final one |
| LadderProperties.MilestonesExactly | scripts/run_ict_smc_backtest.py:850-871 | The rewards of the rungs: the positive ones configured, the defaults without any, and the final one added when all are smaller |
| LadderProperties.RungExactly | scripts/run_ict_smc_backtest.py:876-899 | Every field of every rung: its milestone as reward, its price that many times the risk beyond the entry, and its share over the total of the shares |
| LadderProperties.LadderShape | scripts/run_ict_smc_backtest.py:859-886 | Rungs are numbered in order with the final target last, every reward is positive, prices follow from the rewards, one rung reaches the final reward, and there is no ladder exactly without risk |
| LadderProperties.LadderIsWhole | scripts/run_ict_smc_backtest.py:873-899 | With non-negative configured percentages no share is negative, and for a positive total the shares sum to one within half a unit per rung |
| LadderProperties.RungsBeyondExactly | scripts/run_ict_smc_backtest.py:872-886 | Every rung lies at or beyond a fill price if and only if the rounded price of the smallest milestone does |
| LadderProperties.GridEntryIsBeyond | scripts/run_ict_smc_backtest.py:872-886 | For an entry on the five-digit grid every rung is at or beyond the entry |
| LadderProperties.LadderedFillSoundExactly | scripts/run_ict_smc_backtest.py:850-887 | A fresh fill carrying the built ladder meets the hypotheses of the loss bound if and only if its nearest rung is at or beyond the fill price |
| TargetLadder.NormalizeClosePercents | scripts/run_ict_smc_backtest.py:890-899 | The in-order loop computes the scaled and rounded percentages, and leaves a ladder without positive total alone |
| TargetLadder.NormalizedTotal | scripts/run_ict_smc_backtest.py:890-899 | Normalised percentages sum to one within half a unit in the fifth digit per rung |
| TargetLadder.NormalizeKeepsNonNegative | scripts/run_ict_smc_backtest.py:890-899 | Non-negative percentages stay non-negative |
| TargetLadder.AllRungsReached | src/backtest/ict_smc_backtest.py:232-273 | With all rungs reached and no stop or time exit, the trade is closed if and only if the percentages sum to one less a billionth, and otherwise open with exactly the missing size |
| TargetLadder.NormalizedLadderLeftover | scripts/run_ict_smc_backtest.py:881-899 | For a normalised ladder that leftover is at most half a unit in the fifth digit per rung |
| TargetLadder.ThreeEqualRungsStayOpen | scripts/run_ict_smc_backtest.py:881-897 | Three equal rungs sum to 0.99999, so no run that reaches them all is closed by its targets |
| BacktestRun.ManageOpen | src/backtest/ict_smc_backtest.py:430-436 | Managing the open positions moves each closed one to the log and keeps the others in order |
| BacktestRun.WorkOrders | src/backtest/ict_smc_backtest.py:438-451 | Working the pending orders fills, drops or keeps each one, in order |
| BacktestRun.RunBacktest | src/backtest/ict_smc_backtest.py:409-500 | The whole run with its four lists and the signal index equals the replay state after all candles, then closed if asked |
| EntryProperties.FilledExactly | src/backtest/ict_smc_backtest.py:119-180 | An order is filled exactly on a closed candle between its validity and its expiry that, for a limit order, touches the entry; price, time and ambiguity of the fill and the reason of a refusal are written out |
| EntryProperties.OpensExactly | src/backtest/ict_smc_backtest.py:580-599 | Every field of the position a fill opens |
| BacktestLives.RunIsItsLives | src/backtest/ict_smc_backtest.py:425-480 | After any number of candles the lists hold exactly what the signals taken so far have come to, each by itself: its order waiting, the position that managing its own fill over the candles since leaves, the trade that management closes with, or the reason it was dropped |
| BacktestLives.EndsExactly | src/backtest/ict_smc_backtest.py:482-490 | The trade an open position becomes at the end of the test |
| BacktestProperties.SamePastSameState | src/backtest/ict_smc_backtest.py:425-480 | Two series that agree on the first k + 1 candles give the same full state after k candles |
| BacktestProperties.SamePastSameTrades | src/backtest/ict_smc_backtest.py:425-480 | The trade log after n candles depends on those n candles only |
| BacktestProperties.TradesOnlyAppended | src/backtest/ict_smc_backtest.py:425-480 | The trade log only grows at its end |
| BacktestProperties.ReplayOnCut | src/analytics/ict_smc/multitimeframe_engine.py:73-116 | Candles of any timeframe that end after every candle replayed make no difference to the run, the readiness check included |
| BacktestProperties.BacktestIsCausal | src/backtest/ict_smc_backtest.py:425-480 | With end-of-test closing off, the log on any prefix of the series, with every timeframe cut at its end, is a prefix of the log on the whole series |
| SkipLogProperties.SkipLogCausalExactly | src/backtest/ict_smc_backtest.py:453-480 | For distinct ids, the skip log of the first n candles is a prefix of the longer run's if and only if no admitted market signal falls due on the n-th candle |
| SkipLogProperties.SkipLogLooksAhead | src/backtest/ict_smc_backtest.py:469-475 | So the skip log is not causal in general: a series and a prefix whose skip log is not a prefix |
| BacktestProperties.SignalsAreConserved | src/backtest/ict_smc_backtest.py:430-480 | After every candle each consumed signal is in exactly one of pending, open, traded and skipped, counted for any family of ids |
| BacktestProperties.FinishedRunConserves | src/backtest/ict_smc_backtest.py:482-490 | The same of the returned result, with or without end-of-test closing |
| BacktestProperties.FillTimes | src/backtest/ict_smc_backtest.py:119-180 | No limit fill before its order is valid, no fill from the expiry on, and a market fill is early exactly on a straddling candle |
| OrderTimeProperties.EarlyEntryExactly | src/backtest/ict_smc_backtest.py:469-480 | After any number of candles some position or logged trade was entered before its order was valid if and only if some consumed admitted market signal is filled by its next candle, which straddles that moment |
| OrderTimeProperties.FinishedEarlyExactly | src/backtest/ict_smc_backtest.py:482-490 | The same of the returned result, with or without end-of-test closing |
| OrderTimeProperties.EarlyFillHappens | src/backtest/ict_smc_backtest.py:137-153 | A two-candle run, under any settings that admit a signal, that enters an order before it is valid |
| OrderTimeProperties.WaitingIsBounded | src/backtest/ict_smc_backtest.py:127-136 | After a closed candle an order waits only if just taken or if the candle opened before its expiry, twenty minutes after its signal when it has none |
| PositionHistory.ManageFollows | src/backtest/ict_smc_backtest.py:183-273 | Managing a position keeps what ties it to its fill: same trade, accounted for, stop as placed or at break-even after a rung; a closed trade is reported within the bound of its exits at that stop, and of a sound fill never below minus one R without time exits |
| TradeLogProperties.RunIsProper | src/backtest/ict_smc_backtest.py:425-480 | After every candle each position and logged trade started as a fill of a signal's order, early for no limit order; each trade is reported within the rounding bound of its partial exits and of the rest at the placed or break-even stop (or the time-exit price), and a trade whose own fill was sound lost at most one R without time exits |
| TradeLogProperties.FinishedLogIsProper | src/backtest/ict_smc_backtest.py:482-490 | The returned log adds one trade for each open position, reported within the bound of its exits and the size still open at the last close |
| FullSystemRun.FullSystemBacktester.WorkOrders | scripts/run_ict_smc_backtest.py:160-212 | Each filled order is refused, closed on its fill candle or opened; the others expire or wait |
| FullSystemRun.FullSystemBacktester.Run | scripts/run_ict_smc_backtest.py:111-275 | The run equals its replay over the candles, keeps the cooldown registry for the next run, and fails exactly on a series too short to warm up |
| EntryProperties.RefusedExactly | scripts/run_ict_smc_backtest.py:168-196 | A fill is refused exactly for too much drift, else for too little risk over its cost, else for too little reward after costs |
| EntryProperties.OpensWithTarget | scripts/run_ict_smc_backtest.py:841-847 | An order without a ladder leaves at its final target for 0.34 of the size, and otherwise the position is that of its order |
| FullSystemLives.FullRunIsItsLives | scripts/run_ict_smc_backtest.py:152-270 | After any number of candles the lists hold exactly what the selections looked at have come to: refused for the first of room, cooldown and trap, or waiting, then checked at the fill price and managed from the fill candle on, held or closed |
| FullSystemLives.StoppedOnFillCandle | scripts/run_ict_smc_backtest.py:197-204 | An accepted fill whose own candle reaches its stop is logged as stopped by the end of that candle, and with distinct order ids no position of that order is open |
| FullSystemLives.RegistryExactly | scripts/run_ict_smc_backtest.py:236-242 | A key is free again a cooldown after the last selection under it that found room and was not cooling down, placed or trapped alike |
| FullSystemLives.ClampsExactly | scripts/run_ict_smc_backtest.py:95-104 | What the constructor makes of its settings |
| FullSystemProperties.OrdersAreConserved | scripts/run_ict_smc_backtest.py:152-270 | After every candle placed orders are pending, open, traded or skipped after placement, and every considered selection was placed or refused once |
| FullSystemProperties.FinishedOrdersConserved | scripts/run_ict_smc_backtest.py:272-275 | The same of the returned result, with or without marking open positions at the end |
| FullSystemProperties.CapacityRespected | scripts/run_ict_smc_backtest.py:228-234 | Open positions plus pending orders never exceed the limit |
| FullSystemProperties.PlacementsAreSpaced | scripts/run_ict_smc_backtest.py:236-242 | Two placements of one strategy and direction are at least a cooldown apart |
| FullSystemProperties.EndMarkRightExactly | scripts/run_ict_smc_backtest.py:1060-1084 | The end-of-test mark is the true one if and only if the trade is short or there is nothing to mark; for a long the open part has the wrong sign |
| FullSystemProperties.LongMarkedBackwards | scripts/run_ict_smc_backtest.py:1060-1084 | A long with ten R of open profit is reported as a ten-R loss |
| FullSystemLogProperties.AcceptedIsChecked | scripts/run_ict_smc_backtest.py:168-200 | A fill is accepted only near its intended entry, with a risk worth the minimum multiple of its cost and, after costs, a reward worth the minimum multiple of the risk, up to one rounding |
| FullSystemLogProperties.FullRunIsProper | scripts/run_ict_smc_backtest.py:152-270 | After every candle each position and logged trade started as a fill of a selected order that passed those checks at its own price, and is accounted for, reported within its bound and, if the fill was sound and time exits are off, never below minus one R |
| FullSystemLogProperties.FinishedFullLog | scripts/run_ict_smc_backtest.py:272-275 | The returned log adds one mark for each open position, right up to one rounding for a short and with its open part reversed for a long |
| HigherTimeframes.ReplayState.AdvanceHigherTimeframe | scripts/run_ict_smc_backtest.py:340-352 | The cursor loop advances index and bounded window as its function says |
| HigherTimeframes.WindowIsPast | scripts/run_ict_smc_backtest.py:340-352 | The window is always the last 160 bars before the cursor, all ended by the latest time seen, and exactly the latest such bars when ends are in order |
| HigherTimeframes.WindowLength | scripts/run_ict_smc_backtest.py:340-352 | The window is never longer than 160 bars, and shorter only while fewer have ended |
| HigherTimeframes.DerivedBarVisibleExactly | scripts/run_ict_smc_backtest.py:522-556 | A derived bar has ended by a time if and only if every candle of its bucket has, so deriving bars beforehand shows nothing of the future |
| HigherTimeframes.DerivedEndsOrdered | scripts/run_ict_smc_backtest.py:522-556 | Derived bars come in order of their end |
| ExecutionRouter.Orchestrator.constructor | src/execution/execution_router.py:29-49 | The object starts in the bootstrapped state |
| ExecutionRouter.Orchestrator.SubmitExecutionIntent | src/execution/execution_router.py:83-102 | A submission is one protocol step, and is accepted exactly when not halted, its key is new and the queue has room |
| ExecutionRouter.Orchestrator.UpdateLocalLedger | src/execution/execution_router.py:158-168 | The ledger changes exactly when the lifecycle table accepts the status |
| ExecutionRouter.Orchestrator.WorkerLoopStarts | src/execution/execution_router.py:104-108 | The scheduled worker first runs: it waits for the queue, or ends when a halt came first |
| ExecutionRouter.Orchestrator.WorkerTakesRequest | src/execution/execution_router.py:104-145 | Taking a request is one step: dropped by the gate, or recorded as pending and sent |
| ExecutionRouter.Orchestrator.BrokerAnswers | src/execution/execution_router.py:143-156 | An answer is one step: recorded, or handled as a failure when the ledger refuses it |
| ExecutionRouter.Orchestrator.TransportFails | src/execution/execution_router.py:147-156 | A transport failure is one step that records a rejection where the ledger allows it |
| ExecutionRouter.Orchestrator.StreamEvent | src/execution/execution_router.py:170-184 | A stream event is one step; a refused one ends the consumer |
| ExecutionRouter.Orchestrator.TriggerEmergencyShutdown | src/execution/execution_router.py:78-81 | The halt flag is set and nothing else |
| ExecutionRouter.Orchestrator.BeginTerminate | src/execution/execution_router.py:64-72 | Termination up to its await: halted, worker cancelled |
| ExecutionRouter.Orchestrator.EndTerminate | src/execution/execution_router.py:73-76 | Termination after its await: ledger and keys cleared |
| RouterHistory.HaltedExactly | src/execution/execution_router.py:64-81 | The router is halted exactly once an emergency shutdown or a termination has begun |
| RouterHistory.SpentExactly | src/execution/execution_router.py:83-102 | Until a termination ends, a key is spent exactly when some submission before any halt carried it, even when a full queue lost the request |
| RouterHistory.QueueIsFifo | src/execution/execution_router.py:96-145 | The queue holds the accepted requests not taken yet, in order, and the broker was sent, in order, those of the others that the gate let through |
| RouterHistory.TableExactly | src/execution/order_lifecycle.py:8-21 | The table of allowed status moves, written out |
| RouterHistory.StatusExactly | src/execution/execution_router.py:104-184 | What each step makes of the status of every order: pending once sent, then what answers and events report as far as the table allows, rejected on a refused answer or a failure |
| RouterHistory.WorkerExactly | src/execution/execution_router.py:104-121 | What each step makes of the worker, which looks at the halt when it starts and after each request |
| RouterProperties.KeyReachesBrokerOnce | src/execution/execution_router.py:83-156 | Over every interleaving of steps each idempotency key reaches the broker at most once |
| RouterProperties.StepFollowsTableExactly | src/execution/execution_router.py:123-168 | A step moves every known order along the table if and only if it does not take a request whose id is already known |
| RouterProperties.LifecycleRespected | src/execution/order_lifecycle.py:8-21 | On every regular run each order's statuses form a path of the table, terminal ones are absorbing, and at most three changes happen |
| RouterProperties.LifecycleExactly | src/execution/execution_router.py:104-168 | On every run that does not clear the ledger, every history is a path of the table if and only if the run is regular: no known id that has moved on is taken again |
| RouterProperties.WellBehavedRunIsRegular | src/execution/execution_router.py:123-184 | Distinct client ids and no answer or event before dispatch make every run regular |
| RouterProperties.AnswerStandsExactly | src/execution/execution_router.py:143-184 | The ledger shows the answer to the order in flight if and only if the table allows it from the recorded status, and exactly then the stream consumer outlives an event that repeats it |
| RouterProperties.SynchronousFillIsRejected | src/execution/execution_router.py:143-184 | The answers to a fresh order that are not recorded are exactly FILLED and PARTIALLY_FILLED: they become REJECTED, stay so, and the order's own fill event ends the stream consumer for good |
| RouterProperties.HaltLetsOneThroughExactly | src/execution/execution_router.py:78-121 | After a halt another order can reach the broker if and only if the worker waits and a request is queued, and then at most one |
| TrailingStop.ManageProtectedPosition | scripts/mt5_intelligent_demo_runner.py:149-196 | The loop over closes, with arbitrary broker answers, computes the followed plan, stop and number of updates |
| TrailingMoves.AdvanceExactly | src/execution/position_tracker.py:190-217 | In prices: the milestone a close confirms is the highest up to the last that it is past by the buffer, and the stop goes one R and the trailing buffer behind it exactly when that is new, protects more, and is applied and accepted |
| TrailingMoves.ConfirmsOne | src/execution/position_tracker.py:190-200 | No other milestone is confirmed by that close |
| TrailingMoves.TicketExactly | scripts/mt5_intelligent_demo_runner.py:165-196 | The trade is managed on the first position with its ticket |
| TrailingMoves.ReconcilesExactly | src/execution/position_tracker.py:97-158 | Which of the start-up answers is given, exactly; management goes on only for a single position that is the recorded trade with its prices in order |
| TrailingProperties.LifeHasClosedForm | src/execution/position_tracker.py:190-217 | With every update applied, however candles are split into batches, the stop is the better of the start and the level of the best confirmed milestone |
| TrailingProperties.ClosedFormNeedsConsistency | src/execution/position_tracker.py:190-217 | The closed form holds for all closes if and only if the starting stop protects at least its recorded milestone |
| TrailingProperties.PeakIsBestClose | src/execution/position_tracker.py:190-217 | The best milestone is the one confirmed by the single most favourable close |
| TrailingProperties.LifetimeUpdatesBounded | scripts/mt5_intelligent_demo_runner.py:165-196 | Whatever the broker answers over a lifetime and wherever the stop started, it never moves back and at most the maximum number of milestones is applied; a consistent stop stays consistent |
| TrailingProperties.ProposalBehindClose | src/execution/position_tracker.py:190-217 | A proposed stop lies at least one R and both buffers behind the close that confirmed it |
| TrailingProperties.LevelInsideTarget | src/execution/position_tracker.py:190-217 | A level within the cap lies strictly inside the final target |
| TrailingProperties.ManagedTradeStaysReconciled | src/execution/position_tracker.py:97-158 | A trade that reconciles still reconciles, as matched, after any batch |
| LiquidityPools.LiquidityEngine.RegisterStructuralPivotPool | src/analytics/liquidity_engine.py:24-54 | Registering touches the first pool the pivot equals or adds a new one, and returns that pool |
| LiquidityPools.LiquidityEngine.EvaluateTickSweeps | src/analytics/liquidity_engine.py:56-85 | The two loops of a tick mark, report and drop the crossed pools |
| LiquidityPools.LiquidityEngine.NearestActivePool | src/analytics/liquidity_engine.py:87-106 | The nearest unswept pool, the earliest among equals, or none exactly when all are swept |
| LiquidityMoves.RegistersExactly | src/analytics/liquidity_engine.py:24-54 | Which pool a pivot equals, by its side and the distance of the ceiling, and what registering it makes of that pool or adds, in prices |
| LiquidityMoves.TicksExactly | src/analytics/liquidity_engine.py:56-85 | A tick leaves exactly the unswept pools it does not pass, in order, and reports exactly those it does, in order and with how far it went past them |
| LiquidityProperties.PoolActiveExactly | src/analytics/liquidity_engine.py:24-85 | A pool is active exactly while no tick since its registration crossed its level, and reported exactly once if one has |
| LiquidityProperties.TouchesAreConserved | src/analytics/liquidity_engine.py:24-85 | Touches of active and swept pools add up to the registrations |
| LiquidityProperties.ActivePoolsStaySpread | src/analytics/liquidity_engine.py:24-85 | Active pools of one side stay more than the tolerance apart, less the tenth a ceiling is drawn above its pivot |
| MarketStructure.StructureEngine.IngestCandleClose | src/analytics/structure_engine.py:31-60 | One candle updates window, pivots and breaks as specified, and returns the new pivot and the breaks |
| MarketStructure.StructureEngine.EvaluateLocalPivots | src/analytics/structure_engine.py:62-88 | The new pivot of the last three candles, a peak before a floor, and the state it leaves |
| MarketStructure.StructureEngine.CheckBreaks | src/analytics/structure_engine.py:43-60 | The bullish check first and the bearish one on what it leaves, with both reports |
| StructureProperties.EngineAgrees | src/analytics/structure_engine.py:31-88 | The engine's state is the declarative one: window, counter, and the latest pivot of each side not yet closed beyond |
| StructureProperties.PivotsAreExact | src/analytics/structure_engine.py:62-88 | With a window of three or more, each candle reports exactly the peak or else the floor among its three, numbered and dated, and the engine keeps exactly the pivots confirmed so far |
| StructureProperties.BreaksAreExact | src/analytics/structure_engine.py:31-60 | For a lookback of three or more, a break is reported at a candle if and only if it is the first to close beyond the latest pivot confirmed by then |
| StructureProperties.BreakKindsAreExact | src/analytics/structure_engine.py:43-60 | A break is one of structure if and only if the other side still stands when it is checked |
| StructureProperties.BreakComesAfterConfirmation | src/analytics/structure_engine.py:31-60 | On well-formed candles the confirming candle never breaks its own pivot |
| StructureProperties.SilentExactly | src/analytics/structure_engine.py:31-41 | The engine never reports anything if and only if the lookback is below three |
| Swings.PickLatestExact | src/analytics/ict_smc/break_of_structure.py:354-356 | The chosen swing is the first of those no other outranks by confirmation and then strength |
| Swings.AppendedSwingsUnknown | src/analytics/ict_smc/break_of_structure.py:349 | Appending swings confirmed no earlier than an index leaves unchanged what was known before it |
| BreakOfStructure.CalculateAtr | src/analytics/ict_smc/break_of_structure.py:678-690 | The running loop computes the mean true range of the last candles at every position |
| BreakOfStructure.Detect | src/analytics/ict_smc/break_of_structure.py:228-267 | The two passes compute the specified events |
| BreakOfStructure.IndexPositions | src/analytics/ict_smc/break_of_structure.py:595 | The dictionary holds the last position of each index |
| BreakOfStructure.ApplyFailedStatus | src/analytics/ict_smc/break_of_structure.py:590-615 | Exactly the close-confirmed events that come back within the look ahead are failed |
| AverageRange.AtrExactly | src/analytics/ict_smc/break_of_structure.py:678-690 | The average is over the last period candles, or over all of them while they are fewer |
| BreakEventProperties.BreaksExactly | src/analytics/ict_smc/break_of_structure.py:228-615 | For each candle and side: which swing is looked at, that an event is returned, and only one, exactly when close or extreme is past its price by more than the margin, and every field of the event, status, type, score, grade and warnings included |
| BreakEventProperties.EventsInOrder | src/analytics/ict_smc/break_of_structure.py:242-267 | Events come in the order of their candles, the bullish one of a candle first |
| BreakProperties.BreakReportedExactly | src/analytics/ict_smc/break_of_structure.py:337-414 | Only the highest-ranked valid swing is looked at; it is reported exactly when close or wick is past it by more than the buffer, and confirmed exactly by the close |
| BreakProperties.BreaksUseOnlyThePast | src/analytics/ict_smc/break_of_structure.py:345-356 | Every event breaks a listed, unbroken, strong enough swing confirmed and formed strictly before its candle |
| BreakProperties.EachSwingBrokenOnce | src/analytics/ict_smc/break_of_structure.py:242-267 | Each swing key has at most one close-confirmed event |
| BreakProperties.FailedExactly | src/analytics/ict_smc/break_of_structure.py:590-615 | An event is failed if and only if it was close-confirmed and a close within the look ahead comes back |
| BreakProperties.BreaksDoNotRepaint | src/analytics/ict_smc/break_of_structure.py:228-267 | On a longer feed every earlier event is unchanged, or a confirmed one is now failed while the old feed ended within its look ahead |
| BreakProperties.BrokenStatusErasesEvents | src/analytics/ict_smc/break_of_structure.py:351 | When every swing under a level is marked broken, no event under it remains |
| StatusProperties.MarkedBreaksDoNotRepaint | src/analytics/ict_smc/break_of_structure.py:345-356 | Breaks do not repaint even when known swings are marked afterwards, so long as none changes whether it is broken |
| StatusProperties.EventsRemainExactly | src/analytics/ict_smc/break_of_structure.py:345-356 | Setting the status of one swing with a reported level: its events remain if and only if it is not marked broken, and then all events of the run are unchanged |
| ChangeOfCharacter.CalculateAtr | src/analytics/ict_smc/change_of_character.py:686-702 | The loop computes the mean true range at every position |
| ChangeOfCharacter.LookAhead | src/analytics/ict_smc/change_of_character.py:621-627 | The loop decides whether a close within the slice comes back beyond the level |
| ChangeOfCharacter.Evaluate | src/analytics/ict_smc/change_of_character.py:288-404 | One side of one candle: the event reported and the key it spends |
| ChangeOfCharacter.Detect | src/analytics/ict_smc/change_of_character.py:239-286 | The loop with its used keys computes the specified events |
| CharacterEventProperties.MovementExactly | src/analytics/ict_smc/change_of_character.py:477-492 | The movement read: the configured text or else the candle's own decides, and without one a window of three to five candles that ends below its first close with its last high at or below an earlier high is a fall, the mirror a rise, anything else unclear |
| CharacterEventProperties.WarnsExactly | src/analytics/ict_smc/change_of_character.py:239-404 | For each candle and side: which swing is looked at, that an event is returned, and only one, exactly when the movement lets the side report, the level is unspent and the close, or an allowed wick, is past it by more than the margin, and every field of the event |
| CharacterEventProperties.EventsInOrder | src/analytics/ict_smc/change_of_character.py:239-286 | Events come in the order of their candles, the bullish one of a candle first |
| CharacterProperties.WarningReportedExactly | src/analytics/ict_smc/change_of_character.py:300-329 | Only the highest-ranked usable swing is looked at, even when its level is spent, and it is reported exactly when unspent, answering the movement, and passed by more than the buffer |
| CharacterProperties.WarningsUseOnlyThePast | src/analytics/ict_smc/change_of_character.py:331-348 | Swings are confirmed strictly before the candle, and each status says exactly what happened, an upgrade hiding a failure |
| CharacterProperties.EachSwingWarnsOnce | src/analytics/ict_smc/change_of_character.py:304-323 | At most one event per swing key, wick-only candidates included |
| CharacterProperties.WarningsDoNotRepaint | src/analytics/ict_smc/change_of_character.py:239-404 | On a longer feed an earlier event changes only in status, grade and warnings, only towards failed, and only within its look ahead |
| CharacterProperties.WarningsStandExactly | src/analytics/ict_smc/change_of_character.py:239-404 | Whatever the other settings, on every longer feed every reported event changes only by a verdict inside its look ahead, if and only if the look ahead is -1 or more |
| WarningStatusProperties.MarkedWarningsDoNotRepaint | src/analytics/ict_smc/change_of_character.py:300-329 | Warnings do not repaint even when known swings are marked afterwards, so long as none starts or ceases to be unswept or swept |
| WarningStatusProperties.WarningsRemainExactly | src/analytics/ict_smc/change_of_character.py:300-329 | Setting the status of one swing with a reported level: its warning remains if and only if the swing is left unswept or swept, and then all events of the run are unchanged |
| OrderBlockRetest.ValidateBullishRetest | src/analytics/ict_smc/bullish_order_block.py:109-222 | The loop with its break computes the bullish validation |
| OrderBlockRetest.ValidateBearishRetest | src/analytics/ict_smc/bearish_order_block.py:109-223 | The loop with its break computes the bearish validation |
| ValidationProperties.BullishExactly | src/analytics/ict_smc/bullish_order_block.py:109-222 | Which candle comes back, what depth, reaction and status it has, the stop, reward, permission, warnings and quality, all in its own fields |
| ValidationProperties.BearishExactly | src/analytics/ict_smc/bearish_order_block.py:109-223 | The same of the bearish validator, which also refuses a target that is not below the entry |
| RetestProperties.FirstRetestSettles | src/analytics/ict_smc/bullish_order_block.py:142-172 | The retest candle is the first after the confirmation to close through or reach the zone, and then no later candle changes the result |
| RetestProperties.BullishEntryIsOrdered | src/analytics/ict_smc/bullish_order_block.py:174-187 | For a positive minimum reward an allowed entry has stop, entry and target strictly in order and the exact reward at least the minimum less half a cent |
| RetestProperties.BearishEntryIsOrdered | src/analytics/ict_smc/bearish_order_block.py:175-188 | An allowed bearish entry has target, entry and stop strictly in order for every minimum reward |
| RetestProperties.BullishOrderedExactly | src/analytics/ict_smc/bullish_order_block.py:178-187 | Bullish entries are in order on all inputs if and only if the minimum reward is positive |
| RetestProperties.VerdictsMirror | src/analytics/ict_smc/bearish_order_block.py:131-223 | For a positive minimum reward the bearish verdict on the mirrored market is the mirrored bullish verdict |
| RetestProperties.MirrorExactly | src/analytics/ict_smc/bearish_order_block.py:179-180 | The validators mirror each other on all inputs if and only if the minimum reward is positive |
| BreakerBlock.FirstFailureOrWickAttempt | src/analytics/ict_smc/breaker_block.py:289-310 | One loop finds the first close through the block, and only without one the first wick through it |
| BreakerBlock.ClassifyRetest | src/analytics/ict_smc/breaker_block.py:313-348 | The loop returns what the first candle that fails or retests the breaker does |
| BreakerBlock.DetectBreaker | src/analytics/ict_smc/breaker_block.py:146-286 | The breaker of one order block, with its displacement, structure, retest, score and grade |
| BreakerEventProperties.DisplacementExactly | src/analytics/ict_smc/breaker_block.py:474-492 | The displacement and its strength in body, range and average range, without quotients |
| BreakerEventProperties.BreakersExactly | src/analytics/ict_smc/breaker_block.py:146-500 | The breaker of a block is of its first close through or else its first wick; the candle that decides the retest, its reaction and depth, the structure event, the points, caps and grade are all written out |
| BreakerProperties.FailureExactly | src/analytics/ict_smc/breaker_block.py:289-310 | An accepted failure is the first close through; an attempt is the first wick and says no close goes through at all |
| BreakerProperties.AttemptStaysExactly | src/analytics/ict_smc/breaker_block.py:289-310 | A wick attempt stays the result if and only if no later candle closes through |
| BreakerProperties.RetestedBreakerIsFinal | src/analytics/ict_smc/breaker_block.py:204-348 | An accepted and retested breaker is unchanged by any later candle, and its failure and displacement are final before that |
| BreakerProperties.StructureConfirmsInHindsight | src/analytics/ict_smc/breaker_block.py:367-386 | Later structure events leave a retest unchanged if and only if it closed back through, was confirmed by structure already, or none of them matches; otherwise they confirm it, however late they come |
| BreakerProperties.BreakerUnchangedExactly | src/analytics/ict_smc/breaker_block.py:146-286 | Later structure events leave the whole breaker unchanged, score and grade included, if and only if none comes before the recorded one and none matches from the candle of a retest that is still open to structure |
| BreakerProperties.BreakersMirror | src/analytics/ict_smc/breaker_block.py:146-500 | The breaker of the mirrored market is the mirrored breaker, on every input |
| BreakerProperties.EntryExactly | src/analytics/ict_smc/breaker_block.py:242-282 | Entry is allowed exactly for accepted breakers with a confirmed reaction, and the score caps hold |
| TimeframeAggregation.Group | scripts/run_ict_smc_backtest.py:528-532 | The dictionary of groups holds every candle under its bucket, in order |
| TimeframeAggregation.BuildBar | scripts/run_ict_smc_backtest.py:536-554 | The bar of a group of sorted rows |
| TimeframeAggregation.AggregateTimeframe | scripts/run_ict_smc_backtest.py:522-556 | Grouping, sorting keys and rows, and building bars equals one pass over the candles sorted by start |
| AggregationProperties.BucketExactly | scripts/run_ict_smc_backtest.py:528-531 | A candle is in the bucket whose span of whole minutes since the epoch its start lies in |
| AggregationProperties.AggregationComposes | scripts/run_ict_smc_backtest.py:501-556 | Aggregating through any finer timeframe that divides the coarser one equals aggregating directly, for candles in any order |
| AggregationProperties.HoursFromQuarters | scripts/run_ict_smc_backtest.py:501-519 | The same for 15 minutes, one hour and four hours |
| AggregationProperties.VolumeIsConserved | scripts/run_ict_smc_backtest.py:548-549 | Total volume and ticks are conserved |
| AggregationProperties.BarsAreEnvelopes | scripts/run_ict_smc_backtest.py:533-556 | Each bar is the exact envelope of its bucket's candles, every candle is in one bar's bucket, and buckets rise |
| ReplayMerge.ReplayScheduler.RegisterStreamBuffer | src/backtesting/replay_scheduler.py:8-9 | The key now finds the new buffer, every other key what it found before |
| ReplayMerge.ReplayScheduler.LocateNextChronologicalTrack | src/backtesting/replay_scheduler.py:11-23 | The loop returns the key of the first buffer with the earliest next row |
| ReplayMerge.ReplayEngine.PublishNext | src/backtest/replay_engine.py:67-86 | One row leaves its buffer, is published and sets the clock, or nothing is next |
| ReplayMerge.ReplayEngine.WaitWhilePaused | src/backtest/replay_engine.py:61-65 | The waiting room is left exactly when resumed, stepped or terminated |
| ReplayMerge.ReplayEngine.LaunchReplayLoop | src/backtest/replay_engine.py:56-92 | Whatever commands arrive, rows published and rows to come together stay the merge; undisturbed it ends drained, in step mode it publishes one row and pauses |
| ReplayProperties.EarliestExactly | src/backtesting/replay_scheduler.py:11-23 | The picked row is the earliest, and strictly earlier than those of buffers registered before |
| ReplayProperties.BufferComesOutInOrder | src/backtesting/replay_scheduler.py:11-23 | Each buffer's rows come out whole and in their own order |
| ReplayProperties.OnlyRegisteredKeys | src/backtesting/replay_scheduler.py:11-23 | Nothing is dispatched under a key that is not registered |
| ReplayProperties.DrainedExactly | src/backtest/replay_engine.py:68-71 | Every row is dispatched exactly once if and only if no rows are registered under the empty key |
| ReplayProperties.ReplayInOrderExactly | src/backtest/replay_engine.py:60-92 | What is dispatched is in time order if and only if every buffer is |
| HardeningMoves.RecentExactly | src/execution/stop_loss_engine.py:98-102 | The ranges looked at are those of the closed candles that moved among the last so many, in order |
| HardeningMoves.MedianExactly | src/execution/stop_loss_engine.py:103-105 | The median is the value of the middle rank, or half the sum of the two in the middle |
| HardeningMoves.RequiredExactly | src/execution/stop_loss_engine.py:89-112 | The required distance is the largest of the minimum, the spread's multiple and the median range's, at most the maximum, rounded; and the reasons name what was asked |
| HardeningMoves.HardensExactly | src/execution/stop_loss_engine.py:52-131 | A setup is adjusted exactly when its stop is nearer than required, and every field of the result |
| HardeningMoves.SizesExactly | src/execution/position_sizer.py:34-60 | A size is refused exactly for a loss per lot that is not positive; otherwise it is the largest admissible one at the budget and loss per lot written out, with its own loss in money and percent |
| HardeningProperties.RequiredWithinBounds | src/execution/stop_loss_engine.py:107-112 | The required distance is on the grid, between the rounded bounds |
| HardeningProperties.BoundsKeptExactly | src/execution/stop_loss_engine.py:107-112 | It stays within the configured bounds on all inputs if and only if they are the right way round and do not round outwards |
| HardeningProperties.MedianSplits | src/execution/stop_loss_engine.py:98-105 | At most half of the ranges lie below and at most half above the median used |
| HardeningProperties.AdjustedStopIsWider | src/execution/stop_loss_engine.py:52-131 | For an entry on the grid an adjusted stop is strictly wider, on the losing side at the required distance, and the reward to risk is the larger of original and minimum up to rounding |
| HardeningProperties.StopSettles | src/execution/stop_loss_engine.py:52-131 | Hardening an already hardened setup never moves its stop again |
| HardeningProperties.HardenedAgainExactly | src/execution/stop_loss_engine.py:63-74 | A hardened setup is adjusted again if and only if its stop was rounded towards the entry |
| HardeningProperties.HardeningIsIdempotent | src/execution/stop_loss_engine.py:52-131 | For an entry on the grid hardening again changes nothing |
| HardeningProperties.WiderExactly | src/execution/stop_loss_engine.py:63-74 | An adjusted stop is strictly wider if and only if the old distance falls short of the required one by more than the slip of the raw stop towards the entry |
| HardeningProperties.OffGridCanNarrow | src/execution/stop_loss_engine.py:114-131 | Off the grid an adjusted stop can come closer |
| HardeningProperties.HardeningNeverSizesUp | src/execution/position_sizer.py:34-51 | For an entry on the grid the hardened setup is never sized larger than the original |
| PositionSizing.LargestAdmissible | src/execution/position_sizer.py:46-53 | The lots are the largest size of whole steps within cap and budget and not below the minimum, and zero exactly when there is none |
| PositionSizing.SizingIsSafeAndTight | src/execution/position_sizer.py:34-67 | Whole steps, at most the maximum, zero or at least the minimum, loss at most the chosen share of equity; one more step would break risk or cap; an error exactly for a non-positive loss |
| PositionSizing.RoundDownExactly | src/execution/position_sizer.py:62-67 | Rounding down gives whole steps, not above the size and less than a step below it |
| PositionSizing.LargerLossFewerLots | src/execution/position_sizer.py:46-53 | A larger loss per lot never gives more lots |
| Rounding.RoundError | src/backtest/ict_smc_backtest.py:801-809 | One rounding moves a value by at most half a grid step |
| Rounding.RoundLandsOnGrid | src/backtest/ict_smc_backtest.py:801-809 | A rounded value is on the grid |

## Left out

- Removal from lists: the engine removes positions and orders by value equality; the model removes that very entry, which differs only when two equal entries are held at once.
- Signals are taken in the order the run reads them; sorting and parsing the prepared signals is not modelled.
- Trades carry the tag of the order that opened them, which the trade record of the program does not; it is there to state when limit orders were entered.
- A row's own spread and slippage, which a fill would prefer to the run's: the rows both runners work on, as cleaned or built from candles, carry none.
- Candles with missing prices or unreadable times: the model's candles are complete.
- The strategy selector, timeframe alignment and the trap filter are parameters: what they would answer on each candle is arbitrary.
- Swing points, order blocks, structure events and liquidity events are arbitrary inputs of the detectors; how they are found is not modelled.
- Scores of the break and change-of-character detectors are arbitrary functions of the candles up to the event and of the recorded swing, with the displacement of the first and of the second; the caps and grades that depend on them are modelled.
- Texts such as trend states and event names are modelled by the words the code looks for in them; word matching itself, the alias lookup of fields and the identifiers are left out.
- Only closed candles, after normalisation, enter the detectors.
- The retest depth texts, entry reasons and timestamps of the validators and of breakers are represented by enumerations or left out, and breakers are modelled one order block at a time, without the final sort by confidence.
- The router's per-symbol locks (one worker holds them one at a time), the reconciliation loop, the state manager and the logging are left out; a step is one stretch of code between awaits.
- Cancellation of the worker is modelled as immediate when termination starts.
- The plan store of the trailing stop and everything else in the live runner are left out; the broker's reply is an arbitrary boolean.
- Replay buffers are those that can be peeked; one buffer object registered under two keys, and the conversion of rows to ticks and candles, are left out.
- A bar's sequence number is its position; symbol, timeframe name and correlation id are left out.
- Floating-point arithmetic and wall-clock time: exact reals and integer times stand for them.
- Report metrics, deployment gates, output files, command line, gateways and user interfaces.
