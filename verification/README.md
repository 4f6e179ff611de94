# Verified model of the arbitrage bot's core

A Dafny model of the parts of the bot whose correctness spans several functions and whole runs, and proofs about it.
State that the program updates in place is modelled by classes whose methods are proved equal to functions on values;
the results over all runs are lemmas about those functions. Prices, sizes and money are `real`. Time, random choices and
the replies of exchanges, Redis and Kubernetes are arbitrary inputs.

| file | models |
|---|---|
| Prelude.dfy | sums, sums over dictionaries, lists without repetition |
| ArbitrageCore.dfy, ArbitrageRuns.dfy, ArbitragePrices.dfy | the two-exchange engine, what holds over its runs, and its rules in prices and fees |
| Backtest.dfy | the backtester's loop, drawdown and accounts |
| LiveLedger.dfy, LiveRunner.dfy, LiveSession.dfy | ledgers and risk guard, the live loop on values, and its objects with save and restore |
| Scheduler.dfy | the bounded-parallel submit and poll loop |
| Positions.dfy, LiveExecutor.dfy, PaperExecutor.dfy, ExecutorRules.dfy | positions and risk rules, two-leg orders with rollback, the paper executor, and when both enter and exit |
| Keyspace.dfy, RedisGlob.dfy, StateStore.dfy | Redis keys, Redis patterns, and the store built on them |
| PositionEngine.dfy, Rebalancer.dfy | position limits and greedy rebalancing |
| Cartesian.dfy, TuningPlanner.dfy, GridOptimizer.dfy | Cartesian products, job planning, grid search |
| JobName.dfy, ClusterNames.dfy | job names, and planned jobs meeting the scheduler's demand for distinct names |
| Watchdog.dfy | the watchdog as a function of its history |

Where the code and its comments differ, the model follows the code: the entry test is `net_edge < 0` and `min_spread_bps`
is not used; the state store's documented default environment is one the key builder rejects; a close books
`pnl` at exit spread zero whatever the current spread is; the rollback of a half-done exit repeats the exit's first leg.

## Model

| member | source | states |
|---|---|---|
| ArbitrageCore.OneDirectionPays | arbitrage/arbitrage_core.py:173-191 | on a valid book, for every non-zero rate (negative ones too), at most one of the two normalised spreads is non-negative |
| ArbitrageCore.ArbitrageTrade.Close | arbitrage/arbitrage_core.py:74-93 | closing sets timestamp, exit spread and flag, and books entry spread minus exit spread minus all three costs, in basis points and on the notional |
| ArbitrageCore.ArbitrageEngine.Reversals | arbitrage/arbitrage_core.py:245-266 | the first pass picks exactly the open trades whose own side has turned negative, or raises when one of their divisors is zero |
| ArbitrageCore.ArbitrageEngine.CloseOne | arbitrage/arbitrage_core.py:268-278 | removal by value equality takes out the very trade just closed and no other |
| ArbitrageCore.ArbitrageEngine.CloseReversed | arbitrage/arbitrage_core.py:268-278 | every picked trade object is closed at exit spread zero and leaves the list, the others keep value and order |
| ArbitrageCore.ArbitrageEngine.OnSnapshot | arbitrage/arbitrage_core.py:228-296 | the objects follow the value-level step: closes first, then at most one open; each old object is closed where its side reversed and untouched otherwise; the result lists the closed old objects and then the fresh one, also for invalid books and zero divisors |
| ArbitragePrices.OpensExactly | arbitrage/arbitrage_core.py:173-226 | in prices and fees: on a valid book and for every non-zero rate a trade is opened if and only if there is room and the edge of one direction is at least both fees and the slippage, without a division |
| ArbitragePrices.OpensNothing | arbitrage/arbitrage_core.py:169-172 | no trade is opened on an invalid book or at rate zero |
| ArbitragePrices.OpenedAsPriced | arbitrage/arbitrage_core.py:196-226 | every opened trade has the book's time, the full position, and an entry spread of at least both fees and the slippage |
| ArbitragePrices.OpenedAtThePrices | arbitrage/arbitrage_core.py:173-217 | its side is the one with the larger edge over its buying price, its entry spread that edge in basis points |
| ArbitragePrices.RaisesExactly | arbitrage/arbitrage_core.py:245-266 | a step raises if and only if the buying price of an open trade's own side is zero, with closing on, or the book is valid at rate zero |
| ArbitragePrices.ClosesExactly | arbitrage/arbitrage_core.py:240-280 | with positive asks exactly the open trades whose own side's prices have crossed are closed, in order, the others stay as they were |
| ArbitragePrices.SettledIs | arbitrage/arbitrage_core.py:74-93 | a close books the entry spread less both fees and the slippage, at exit spread zero, and that share of the notional |
| ArbitragePrices.RunPaysItsCosts | arbitrage/arbitrage_core.py:196-280 | over every run: no trade is entered below the three costs, and every close books exactly the entry spread less them |
| ArbitrageRuns.OneSidedExactly | arbitrage/arbitrage_core.py:146-296 | for a positive rate: no run ever holds both directions if and only if closing on reversal is on or at most one trade may be open |
| ArbitrageRuns.RunStaysOneSided | arbitrage/arbitrage_core.py:240-296 | with closing on reversal a one-sided list stays one-sided through every run, whatever the rate, crossed and invalid books included |
| ArbitrageRuns.BothDirectionsReachable | arbitrage/arbitrage_core.py:203-217 | without it, and with room for two, a run of two books that puts both directions on |
| ArbitrageRuns.NoneHeldUnderwater | arbitrage/arbitrage_core.py:245-291 | with closing on reversal and costs of at least zero, after any snapshot that did not raise every open trade has a non-negative spread for its side at that snapshot |
| ArbitrageRuns.OpenCountBounded | arbitrage/arbitrage_core.py:207-209 | no run holds more open trades than the limit |
| ArbitrageRuns.NoLosingClose | arbitrage/arbitrage_core.py:196-204 | in every run each closed trade realises exactly its entry spread minus costs, which is at least zero; so is its money for a non-negative notional |
| ArbitrageRuns.CloseRealisesNetEdge | arbitrage/arbitrage_core.py:196-226 | closing at exit spread zero realises exactly the net edge the signal reported |
| ArbitrageRuns.TradesConserved | arbitrage/arbitrage_core.py:268-291 | of every opening timestamp, and in total, trades created equal trades closed plus trades open |
| ArbitrageRuns.SameTimestampSameValue | arbitrage/arbitrage_core.py:57-72 | one snapshot fed twice creates two open trades of equal value, wherever two may be open at all |
| Backtest.PeakIsPrefixMaximum | arbitrage/arbitrage_backtest.py:104-107 | for any balance stream the running peak is the maximum of the start and all balances so far |
| Backtest.ExtendMaxDrawdown | arbitrage/arbitrage_backtest.py:104-107 | the running maximum of drawdowns is the maximum over all prefixes, measured against the prefix peak |
| Backtest.FallExactly | arbitrage/arbitrage_backtest.py:104-106 | a drawdown times the peak is what is missing of the peak, none for a peak that is not positive |
| Backtest.StopFiresExactly | arbitrage/arbitrage_backtest.py:109-113 | the stop fires if and only if the missing percentage of the prefix maximum has reached the threshold |
| Backtest.WinsExactly | arbitrage/arbitrage_backtest.py:127 | the wins are the closed trades with positive P&L |
| Backtest.CreatedAtMostOnce | arbitrage/arbitrage_backtest.py:89-98 | with distinct snapshot timestamps no opening timestamp is created twice |
| Backtest.OpenIsNotClosed | arbitrage/arbitrage_backtest.py:89-98 | ... so no open trade has a namesake among the closed ones |
| Backtest.ClosedStampsDiffer | arbitrage/arbitrage_backtest.py:95-98 | ... and no two closed trades are equal in value |
| Backtest.TrackValues | arbitrage/arbitrage_backtest.py:89-98 | the loop over objects with membership by value is a fold over their values |
| Backtest.ClosedTally | arbitrage/arbitrage_backtest.py:95-98 | in every replay the closed list is all closes with those equal in value listed once, and the money is the sum over that list |
| Backtest.TotalStep | arbitrage/arbitrage_backtest.py:89-92 | the list of all trades gains exactly the created trade, and not even that if an equal one is listed; every close is of a listed trade |
| Backtest.DistinctTimestampsExact | arbitrage/arbitrage_backtest.py:89-98 | with distinct timestamps every trade is counted once and every close booked once |
| Backtest.ExactAccounts | arbitrage/arbitrage_backtest.py:121-148 | for exact books the result says so: total is closed plus open, within the limit, and the money is the sum over exactly the closed trades |
| Backtest.Track | arbitrage/arbitrage_backtest.py:89-98 | the loop over the reports is that fold on objects |
| Backtest.ExactTimestamps | arbitrage/arbitrage_backtest.py:89-98 | for each configuration with a positive rate and room for two trades: the books are exact for all snapshots carrying given timestamps if and only if these are pairwise distinct |
| Backtest.ExactWhateverTheBooks | arbitrage/arbitrage_backtest.py:89-98 | the books are exact for all configurations and all snapshots carrying given timestamps if and only if these are pairwise distinct |
| Backtest.ClosesMerge | arbitrage/arbitrage_backtest.py:95-98 | open, close, open again at the first timestamp, close at the second: one closed trade is listed and one P&L lost, with room for a single trade too |
| Backtest.DedupKeepsAll | arbitrage/arbitrage_backtest.py:89-92 | appending by value membership keeps the whole list if and only if no two elements are equal |
| Backtest.ReplaySameBookTwice | arbitrage/arbitrage_backtest.py:57-148 | a whole replay of one snapshot twice ends with one trade counted and two open |
| Backtest.NeverUnderPeak | arbitrage/arbitrage_backtest.py:101-107 | along the replay's equity curve every drawdown is zero, for a non-negative notional and any timestamps |
| Backtest.ReplayNeverLoses | arbitrage/arbitrage_backtest.py:109-119 | the worst drawdown is zero and a positive drawdown stop never cuts a replay short of its steps |
| Backtest.ArbitrageBacktester.CountWins | arbitrage/arbitrage_backtest.py:127 | the winning count is the number of closed trades with positive P&L |
| Backtest.ArbitrageBacktester.Run | arbitrage/arbitrage_backtest.py:57-148 | for any engine and any timestamps: it raises exactly at the first snapshot at which the engine does, unless it stopped before; it stops exactly at the step limit, the first drawdown stop or the end; each balance is initial plus the P&L of the closes so far, those equal in value booked once; the reported drawdown is the maximal prefix drawdown; counts and money are those of the value-level lists |
| LiveLedger.LedgersAgree | arbitrage/live_runner.py:962-970 | after any closes from a fresh session every total and per-symbol ledger tells the history; total P&L is the sum of the symbols, equity is capital plus total, counts are their per-symbol sums, total is gains minus daily loss |
| LiveLedger.BookKeepsBalance | arbitrage/live_runner.py:1177-1199 | one booking keeps all those ledgers in agreement |
| LiveLedger.StopIsAbsorbing | arbitrage/live_runner.py:115-152 | after one stop decision no later check of any trade is answered OK, whatever is booked in between |
| LiveLedger.LossOnlyGrows | arbitrage/live_runner.py:141-152 | the daily loss never falls |
| LiveRunner.ClosesAreAllBooked | arbitrage/live_runner.py:936-970 | a list of closes is executed in full: each is booked, its key dropped, nothing halts |
| LiveRunner.HaltedStays | arbitrage/live_runner.py:945-949 | after the break the rest of the list changes nothing |
| LiveRunner.StopHalts | arbitrage/live_runner.py:945-949 | a stop request ends the list where it is made |
| LiveRunner.CycleBooksEveryClose | arbitrage/live_runner.py:936-970 | a cycle is: all closes of the step, then at most one gated open |
| LiveRunner.CycleStaysInSync | arbitrage/live_runner.py:936-970 | one cycle keeps each tracked key the opening timestamp of a trade the engine holds open |
| LiveRunner.TrackedOrdersAgree | arbitrage/live_runner.py:1038-1081 | in every run of a fresh session, for every rate, the tracked keys are opening timestamps of open engine trades, never more than the engine holds nor than its limit |
| LiveRunner.CycleOpensExactly | arbitrage/live_runner.py:936-970 | a cycle adds to the tracked orders exactly the created trade that is within the per-trade notional, the count and the loss limit after the step's closes and whose orders are accepted; it requests the stop exactly if only the loss is at its limit; a tracked open is counted twice, one not sent once |
| LiveRunner.OversizedNeverTracked | arbitrage/live_runner.py:116-121 | a position larger than the per-trade notional is never tracked, in any run |
| LiveRunner.CampaignPnl | arbitrage/live_runner.py:1106-1150 | what each campaign makes of a close: half of a win lost in C3, M1 and, for ETH, M2; four fifths for ETH and two fifths otherwise in M3; nothing outside loss cycles |
| LiveRunner.ZeroRateOpensNothing | arbitrage/arbitrage_core.py:173-217 | with rate zero no run of a fresh session ever opens or tracks anything |
| LiveRunner.NoCloseDropped | arbitrage/live_runner.py:945-970 | the break on a stop never drops a close: the cycle books every close of the step |
| LiveRunner.NoLostClose | arbitrage/arbitrage_core.py:240-296 | with a non-zero rate a step that raises has closed nothing |
| LiveRunner.SessionLedgersAgree | arbitrage/live_runner.py:1106-1208 | in every run of a fresh session, campaign-forced losses included, the ledgers tell the closes of the session and agree |
| LiveRunner.StopEndsTheRun | arbitrage/live_runner.py:1295-1299 | once requested, the stop ends the run where it is and no later check is OK |
| LiveRunner.StopUnreachable | arbitrage/live_runner.py:1106-1134 | for campaigns that force no loss, a positive loss limit and a non-negative notional, no run ever has a daily loss or a stop |
| LiveSession.RiskGuard.CheckTradeAllowed | arbitrage/live_runner.py:100-139 | OK if and only if notional, count and loss are all within their limits; stop if and only if only the loss is not |
| LiveSession.RiskGuard.CheckTradeAllowedForSymbol | arbitrage/live_runner.py:154-203 | the same decision, counted per symbol; a stop is not counted |
| LiveSession.RiskGuard.UpdateDailyLoss | arbitrage/live_runner.py:141-148 | only losses feed the daily loss |
| LiveSession.RiskGuard.UpdateSymbolLoss | arbitrage/live_runner.py:205-218 | symbol loss and daily loss grow together, so daily loss stays the symbols plus what was booked without one |
| LiveSession.ArbitrageLiveRunner.UpdatePortfolioMetrics | arbitrage/live_runner.py:1185-1199 | per-symbol maps and equity after one close, nothing else |
| LiveSession.ArbitrageLiveRunner.ForceLoss | arbitrage/live_runner.py:1106-1150 | the campaign, symbol and loss cycle decide the share of a winning close that becomes a loss; the basis points keep their ratio to the money, the rest of the trade stays |
| LiveSession.ArbitrageLiveRunner.ExecuteCloseTrade | arbitrage/live_runner.py:1083-1175 | a close writes the symbol ledgers and drops its key; without a P&L it raises before any change |
| LiveSession.ArbitrageLiveRunner.ExecuteOpenTrade | arbitrage/live_runner.py:1019-1081 | only a pair of accepted orders is tracked and counted |
| LiveSession.ArbitrageLiveRunner.ExecuteTrades | arbitrage/live_runner.py:936-973 | the loop over objects is the value-level execution, with its break and its caught exceptions |
| LiveSession.ArbitrageLiveRunner.RunOnce | arbitrage/live_runner.py:1222-1243 | engine and runner together make one cycle; tracked open trades keep their values |
| LiveSession.ArbitrageLiveRunner.RunForever | arbitrage/live_runner.py:1295-1312 | the loop is the run of cycles over which the session results are proved |
| LiveSession.ArbitrageLiveRunner.Collect | arbitrage/live_runner.py:1786-1840 | the saved state stands for the runner state, all but the stop flag |
| LiveSession.ArbitrageLiveRunner.Restore | arbitrage/live_runner.py:1733-1768 | restoring brings back every ledger, tracked key and guard field; the stop flag stays the restoring runner's own |
| LiveSession.Resume | arbitrage/live_runner.py:1750-1839 | collect then restore reproduces the state, and the part of the daily loss no symbol accounts for |
| LiveSession.StopSurvivesRestart | arbitrage/live_runner.py:367-376 | a session resumed after a stop still gets no OK, though the flag is not saved |
| LiveSession.ResumedLedgersAgree | arbitrage/live_runner.py:1750-1768 | the ledgers of a resumed session tell the closes before and after and agree |
| Scheduler.Session.SubmitWhileRoom | arbitrage/k8s_tuning_session_runner.py:266-286 | submission stops exactly at an empty queue or the parallel limit and settles nothing, keeping the loop invariant (handled prefix, counters are counts, in flight bounded, fates witnessed) |
| Scheduler.Session.PollOne | arbitrage/k8s_tuning_session_runner.py:289-324 | one poll takes one reading and one reply and settles the job by exactly what these say, success, failure or past the deadline, also when the reply raises; otherwise nothing but the clock changes |
| Scheduler.Session.PollAll | arbitrage/k8s_tuning_session_runner.py:289-324 | every job in flight is polled once and stays or is settled; those left are within their deadline |
| Scheduler.Session.Pass | arbitrage/k8s_tuning_session_runner.py:259-328 | a pass gives up if and only if the session timeout has passed at its reading, and then changes nothing but the clock; every other pass polls each job in flight, as many as may run while any are queued, and lowers the bound on the passes to come |
| Scheduler.Session.Loop | arbitrage/k8s_tuning_session_runner.py:257-328 | the passes are bounded by what is queued and in flight and the deadlines, whatever the session timeout; it ends late only if that has passed, else with an empty queue and, when waiting, nothing in flight; every pass in time but the last polls, at full load while jobs are queued |
| Scheduler.Session.RunAll | arbitrage/k8s_tuning_session_runner.py:240-360 | the session ends with an account of every handled job and of its clock: the returned names are those of the accepted jobs in file order, the logs those of the completed ones, the messages those of the others; the exit code is 2, 1 or 0 by the stated rules |
| Scheduler.Run | arbitrage/k8s_tuning_session_runner.py:219-360 | every job of the file has a fate earned by its validity, its submission or a poll that was made, or is still queued; names, logs and messages of the result are exactly those of these fates; passes and polls are bounded in number of jobs and deadline; it is cut short only if the elapsed clock is over the session timeout, with full load as long as jobs were queued; the exit code is 2, 1 or 0 by the stated rules, 2 taking precedence; a load failure gives 2 and zeros |
| Scheduler.ValidateExactly | arbitrage/k8s_tuning_session_runner.py:113-131 | a job is valid with an id and a dictionary for its configuration; otherwise the first thing missing is what is said |
| Scheduler.UnsubmittedExactly | arbitrage/k8s_tuning_session_runner.py:268-286 | exactly the malformed jobs are skipped, and exactly the well-formed ones the cluster gave no name or an empty one are rejected |
| Scheduler.SubmittedIsSound | arbitrage/k8s_tuning_session_runner.py:276-283 | submitting keeps prefix, counters, dictionary and bound |
| Scheduler.UnsubmittedIsSound | arbitrage/k8s_tuning_session_runner.py:268-286 | skipping or rejecting keeps them |
| Scheduler.SettledIsSound | arbitrage/k8s_tuning_session_runner.py:298-324 | settling keeps them |
| Scheduler.JobsConserved | arbitrage/k8s_tuning_session_runner.py:243-286 | total equals queued plus in flight plus succeeded plus errors plus skipped |
| Scheduler.AmpleTime | arbitrage/k8s_tuning_session_runner.py:257-264 | if no reading moves the clock by more than d and the session timeout is at least the stated bound in jobs, deadline, limit and d, the run is never cut short |
| Scheduler.EveryJobSettled | arbitrage/k8s_tuning_session_runner.py:257-328 | a waiting run with such a timeout, or whose clock stays within its timeout, leaves no job queued or in flight |
| Scheduler.CleanExit | arbitrage/k8s_tuning_session_runner.py:336-340 | such a run has no errors exactly when every job completed or was invalid, and each valid one was reported succeeded by a poll that was made |
| Scheduler.AttemptedExactly | arbitrage/k8s_tuning_session_runner.py:281-283 | attempted is zero exactly when no handled job was valid and accepted |
| ExecutorRules.CanOpenExactly | arbitrage/risk.py:42-79 | the rules allow an entry if and only if it is an opportunity at the symbol's net spread, with room among the open positions of the symbol and of all |
| ExecutorRules.ShouldCloseExactly | arbitrage/risk.py:97-115 | a position is due if and only if the net spread is back at the exit level or a positive holding limit is reached |
| ExecutorRules.SizeExactly | arbitrage/risk.py:29-39 | the size spends the notional at the middle of both prices, or at Upbit's where they cancel, and is zero where nothing can be sized |
| ExecutorRules.EntryEarnsTheGap | arbitrage/executor.py:744-748 | a position bought on the cheaper venue and closed where both agree earns the gap between the entry prices on its size, never a loss |
| ExecutorRules.ExitEarns | arbitrage/risk.py:166-187 | an exit pays the change of Upbit's price over Binance's in won on the size, for or against |
| ExecutorRules.ExitRecords | arbitrage/risk.py:166-187 | what a close records, the percentage being of the Upbit entry notional |
| ExecutorRules.LiveEntersExactly | arbitrage/executor.py:741-765 | the live executor enters if and only if the rules allow it, it can be sized and both legs are accepted, at the opportunity's prices, long on Upbit if and only if that is not the dearer venue |
| ExecutorRules.LiveEntryTrades | arbitrage/executor.py:610-631 | such an entry buys its size on the cheaper venue and sells it on the other, in the markets of the symbol |
| ExecutorRules.LiveExitsExactly | arbitrage/executor.py:717-739 | the closing loop closes exactly the open positions that are due and whose legs are both accepted |
| ExecutorRules.PaperEntersExactly | arbitrage/executor.py:418-485 | the paper executor enters if and only if the rules allow it or the debug entry is due, the symbol has no open position and the size is positive; same prices, direction and signal |
| ExecutorRules.PaperSizeExactly | arbitrage/executor.py:456-466 | the size of a paper entry, with the configured minimum or a thousandth for a forced one the rules give none |
| ExecutorRules.PaperExitsExactly | arbitrage/executor.py:398-412 | exactly the open positions of the asked symbol that are due are closed |
| LiveExecutor.FailedEntryRestores | arbitrage/executor.py:660-672 | a failed entry restores both venues in every market if and only if nothing was sent, or the rollback of a directed entry is accepted |
| LiveExecutor.RecordedAsMoved | arbitrage/executor.py:614-619 | what an accepted entry records agrees with what it moved on Upbit if and only if a direction is given |
| LiveExecutor.VenuesTrackPositions | arbitrage/executor.py:610-765 | in every single-symbol run, for all replies: Binance net is exactly minus the signed open sizes, Upbit net their sum plus the legs half-done entries and exits left behind |
| LiveExecutor.LedgersAgreeExactly | arbitrage/executor.py:660-715 | from flat venues both agree with the positions if and only if those leftovers cancel |
| LiveExecutor.CleanRunNoFault | arbitrage/executor.py:690-697 | without half-done exits and with every half-done entry rolled back there are none |
| LiveExecutor.CleanRunsAgree | arbitrage/executor.py:610-765 | after every tick of such a single-symbol run from flat venues Upbit holds the signed open sizes and Binance their negation |
| LiveExecutor.CleanRunExactly | arbitrage/executor.py:634-715 | these are exactly the runs in which no single entry or exit leaves anything: an entry does when its second leg and its rollback are rejected, an exit whenever its second leg is |
| LiveExecutor.EntryMoves | arbitrage/executor.py:660-685 | what an entry moves on each venue, success or fault |
| LiveExecutor.ExitMoves | arbitrage/executor.py:687-697 | what an exit moves; half done, its rollback repeats the first leg |
| LiveExecutor.ExitKeepsStep | arbitrage/executor.py:717-739 | exactly when a single exit keeps Upbit in step with the position, the foreign-symbol case included |
| LiveExecutor.RoundTripPays | arbitrage/risk.py:166-187 | the P&L reported for a closed position is the cash of its four fills |
| LiveExecutor.LiveExecutor.RollbackEntry | arbitrage/executor.py:634-658 | one opposite order per executed leg, failures only logged |
| LiveExecutor.LiveExecutor.ExecuteEntry | arbitrage/executor.py:660-685 | two legs with rollback, then one fresh position appended; None where the source raises |
| LiveExecutor.LiveExecutor.ExecuteExit | arbitrage/executor.py:687-715 | two legs, then the position object is closed in place |
| LiveExecutor.LiveExecutor.OnOpportunity | arbitrage/executor.py:717-765 | closing loop and single entry are the value-level tick, with the signals of what went through |
| LiveExecutor.SignalsAccount | arbitrage/executor.py:717-765 | the signals account for the open positions: closes first, each one less, then at most one open, one more |
| PaperExecutor.RunIsSafe | arbitrage/executor.py:394-485 | after every call of every run: only OPEN positions, at most one per symbol, at most max(1, portfolio limit), all of positive size |
| PaperExecutor.ForcedOnce | arbitrage/executor.py:421-437 | the forced entry fires at most once per run, only with nothing open and the rules refusing |
| PaperExecutor.SignalsAccount | arbitrage/executor.py:410-485 | signals account for the list: closes of the call's symbol out, at most one open in |
| PaperExecutor.RemoveFirstClosed | arbitrage/executor.py:415-416 | removing by value equality takes the first closed element and no open one |
| PaperExecutor.PaperExecutor.CloseMatching | arbitrage/executor.py:398-412 | exactly the matching positions are closed in place and collected |
| PaperExecutor.PaperExecutor.RemoveClosed | arbitrage/executor.py:414-416 | the open positions remain, in order |
| PaperExecutor.PaperExecutor.OnOpportunity | arbitrage/executor.py:386-485 | the whole call is the value-level step, signals included |
| Keyspace.Create | arbitrage/redis_keyspace.py:113-120 | a builder exists exactly for a known environment and a non-empty colon-free session id |
| Keyspace.BuildKey | arbitrage/redis_keyspace.py:144-158 | joining the parts gives the key spelled out |
| Keyspace.KeySpelled | arbitrage/redis_keyspace.py:122-158 | every key, spelled out with its fixed words |
| Keyspace.ParseIsMatch | arbitrage/redis_keyspace.py:101-103 | whatever is parsed is a match of the pattern; a final newline is left to the anchor only if no group can take it |
| Keyspace.MatchIsParsed | arbitrage/redis_keyspace.py:221-231 | every match is found, with its groups, with or without a final newline |
| Keyspace.ValidExactly | arbitrage/redis_keyspace.py:207 | a key is valid exactly when it spells a match, give or take one final newline |
| Keyspace.RoundTrip | arbitrage/redis_keyspace.py:122-158 | parse of build returns the parts, empty ones absent, if and only if the symbol is colon-free and the field newline-free |
| Keyspace.BuildInjective | arbitrage/redis_keyspace.py:144-158 | for colon-free symbols the key determines environment, session, domain, symbol and field, newlines included |
| Keyspace.RebuildExactly | arbitrage/redis_keyspace.py:196-231 | rebuilding a parsed key returns it if and only if it is not the trailing-colon form and ends in no newline outside the symbol |
| RedisGlob.PrefixPattern | arbitrage/redis_keyspace.py:237-239 | a prefix without glob characters and a star match exactly the strings with that prefix |
| RedisGlob.InsertAtStar | arbitrage/state_store.py:204-207 | whatever is put where the first star of a pattern starts to match is matched as well |
| RedisGlob.MarkMatches | arbitrage/state_store.py:204-207 | a question mark matches any one character |
| RedisGlob.EscapeMatches | arbitrage/state_store.py:204-207 | a backslash and a character match that character alone, also one with a meaning of its own |
| RedisGlob.ClassMatches | arbitrage/state_store.py:204-207 | for every list of members, a bracket class matches one character that a member covers, a negated one a character that none covers; ranges hold between their ends in either order |
| RedisGlob.ReplaceAtMark | arbitrage/state_store.py:204-207 | a character matched by a question mark can be any other |
| StateStore.KeysSpelled | arbitrage/state_store.py:86-102 | the keys of a session and its delete pattern, spelled out |
| StateStore.LoadsTheFour | arbitrage/state_store.py:158-166 | a load looks at session, positions, metrics and risk guard of the session and at nothing else |
| StateStore.CategoryKeysDiffer | arbitrage/state_store.py:86-102 | the four loaded categories have four different keys |
| StateStore.SessionsAreIsolated | arbitrage/state_store.py:124-179 | a fully saved session loads as saved, whatever is saved or deleted for other sessions, the deleted ones having ids without glob characters |
| StateStore.ForeignKeeps | arbitrage/state_store.py:203-207 | operations of other sessions change nothing under the session's keys |
| StateStore.DeletedIsGone | arbitrage/state_store.py:203-207 | after a delete nothing of the session loads |
| StateStore.DeleteExactly | arbitrage/state_store.py:203-207 | the delete pattern matches the own keys, all of them, and no other session's if and only if the id has none of star, question mark, bracket and backslash |
| StateStore.EmptyClassDeletesNothing | arbitrage/state_store.py:203-207 | the pattern of the session id s[] matches no key at all, its own included |
| StateStore.StateStore.GetKeyBuilder | arbitrage/state_store.py:80-84 | the memoised builder agrees with a fresh one, raising where that raises |
| StateStore.StateStore.SaveState | arbitrage/state_store.py:115-141 | succeeds if and only if Redis is available and not in fallback, the key builder accepts and no command raises; stores all entries then, else those before the command that raised; the failure count is the failure streak, at most three, and fallback holds exactly at three |
| StateStore.StateStore.LoadState | arbitrage/state_store.py:153-187 | returns the stored categories exactly when Redis can be read, nothing if there are none, otherwise the session's own latest snapshot if there is a database; the streak moves only on failure or a found state |
| StateStore.LoadsAlike | arbitrage/state_store.py:148-187 | two stores that agree on mode, the replies to a load, the session's part of Redis and its own snapshot load the same, whatever they hold for others |
| StateStore.StateStore.DeleteState | arbitrage/state_store.py:199-214 | succeeds if and only if the key builder accepts and neither the scan nor a needed delete raises; removes all keys under the pattern or none; the streak is left alone |
| StateStore.StateStore.CheckHealth | arbitrage/state_store.py:498-513 | answers exactly whether Redis does; the only way out of fallback, clearing the streak |
| StateStore.StateStore.SaveServeLoad | arbitrage/state_store.py:92-187 | on the object: save, requests of other sessions, load. After a successful save the load returns what was saved, or the database snapshot, and that only if a command in between raised or the key builder rejected an id; without Redis nothing, in fallback the snapshot |
| StateStore.SaveThrice | arbitrage/state_store.py:45-50 | three saves end in fallback, nothing stored, when the key builder rejects environment or id, as it does the default environment; otherwise only if a command raised |
| PositionEngine.RunKeepsLimits | arbitrage/position_engine.py:88-116 | for non-negative sizes every run stays within count and exposure limits, overwritten ids included |
| PositionEngine.ExposureBoundedExactly | arbitrage/position_engine.py:88-116 | for sizes of any sign: no run exceeds the exposure limit if and only if at most one position may be open |
| PositionEngine.NegativeSizeOverruns | arbitrage/position_engine.py:88-165 | with room for two, a run of two opens and a close that ends over the limit |
| PositionEngine.OpensExactly | arbitrage/position_engine.py:88-116 | a position is opened, as asked for, if and only if there is room for one more and for its price times quantity |
| PositionEngine.ClosePays | arbitrage/position_engine.py:145-165 | a close pays what was sold for less what was bought for, and moves the position to the closed ones |
| PositionEngine.PositionsConserved | arbitrage/position_engine.py:115-165 | every opened position is open, closed or overwritten; the daily profit is that of the closes since the last reset |
| PositionEngine.PositionEngine.GetTotalExposure | arbitrage/position_engine.py:206-214 | the loop computes the sum of entry price times quantity |
| PositionEngine.PositionEngine.OpenPosition | arbitrage/position_engine.py:88-123 | opens exactly when count and exposure allow |
| PositionEngine.PositionEngine.ClosePosition | arbitrage/position_engine.py:145-172 | moves the position object, with its signed P&L, from open to closed |
| PositionEngine.PositionEngine.ResetDailyPnl | arbitrage/position_engine.py:237-240 | only the daily profit is cleared |
| Rebalancer.RebalancerEngine.Rebalance | arbitrage/rebalancer.py:77-112 | the marked ids are a prefix of the size order, within the amount, stopping at the first that does not fit |
| Rebalancer.GreedyIsOptimal | arbitrage/rebalancer.py:81-97 | no other set of positions within the amount has more members, for a positive amount (any sizes) or positive sizes |
| Rebalancer.ClosingReduces | arbitrage/position_engine.py:145-165 | closing a list of positions lowers exposure by exactly its total, whatever the prices |
| Rebalancer.RebalancingReduces | arbitrage/rebalancer.py:81-112 | for a book within limits, a round lowers exposure by at most the amount, short of it by less than the next position |
| Cartesian.ProductDecodes | arbitrage/tuning_session.py:88-91 | the k-th tuple of the product is the mixed-radix decoding of k |
| Cartesian.ProductIsAllPicks | arbitrage/tuning_session.py:88-91 | the product holds exactly the tuples with one value per axis |
| Cartesian.LexicographicOrder | arbitrage/tuning_session.py:88-91 | positions are ordered lexicographically, last grid fastest |
| Cartesian.DecodeInjective | arbitrage/tuning_session.py:88-91 | with distinct values no tuple appears twice |
| TuningPlanner.GenerateJobs | arbitrage/tuning_session.py:79-118 | job k has the configuration decoding k, its id and path; the list is the product cut at max_jobs, negative limits counting from the end |
| TuningPlanner.ConfigPrecedence | arbitrage/tuning_session.py:120-149 | a tag prefix wins over grid values, these over fixed parameters |
| TuningPlanner.ConfigsDistinctExactly | arbitrage/tuning_session.py:120-149 | configurations are pairwise distinct if and only if no tag prefix hides a grid of several values named tag |
| TuningPlanner.JobIdsDistinct | arbitrage/tuning_session.py:113-118 | ids and output paths are distinct for all indices, beyond four digits too |
| TuningPlanner.JobSpelled | arbitrage/tuning_session.py:113-118 | the id is the tag or job, an underscore and the number from one, in four digits or as many as it takes; the path lies under the tag |
| TuningPlanner.FixedExactly | arbitrage/tuning_session.py:120-149 | which fixed parameters there are, by name and value |
| GridOptimizer.IntAxisShape | arbitrage/tuning_advanced.py:136-138 | for two or more points an integer axis has exactly min(points, width + 1) values, strictly increasing, evenly spaced, in bounds |
| GridOptimizer.IntAxisReaches | arbitrage/tuning_advanced.py:136-138 | it ends at the upper bound if and only if the gaps divide the width or points are to spare |
| GridOptimizer.IntAxisCutShort | arbitrage/tuning_advanced.py:136-138 | with zero points the axis is empty, with a negative number it has unit steps and that many values missing at the upper end |
| GridOptimizer.StepIs | arbitrage/tuning_advanced.py:136-138 | the step is how often the gaps go into the width, and at least one |
| GridOptimizer.AxisValues | arbitrage/tuning_advanced.py:130-139 | every value of an axis, from its bound |
| GridOptimizer.FloatAxisShape | arbitrage/tuning_advanced.py:133-135 | a float axis runs evenly and increasingly from bound to bound |
| GridOptimizer.GenerateGrid | arbitrage/tuning_advanced.py:126-149 | the grid is the decoded product of the axes; it raises exactly when an axis divides by zero |
| GridOptimizer.SearchCoversOnce | arbitrage/tuning_advanced.py:126-149 | with distinct names, bounds in order and two or more points per axis, no grid point repeats if and only if no float bound has equal ends |
| GridOptimizer.GridOptimizer.Ask | arbitrage/tuning_advanced.py:151-159 | the n-th request gets the n-th point, then always the last |
| GridOptimizer.GridOptimizer.Tell | arbitrage/tuning_advanced.py:161-163 | the history numbers its trials from one without gaps |
| JobName.Squeeze | arbitrage/k8s_job_spec_builder.py:155-157 | the loop terminates and collapses every run of hyphens |
| JobName.NormalizeJobName | arbitrage/k8s_job_spec_builder.py:149-174 | the steps compute the normalisation the next rows are about |
| JobName.NormalizeGivesLabel | arbitrage/k8s_job_spec_builder.py:134-174 | every ASCII id with a letter or digit becomes a lower-case label of section 2.3.1 of RFC 1035 of at most 63 characters without double hyphen; every other becomes empty |
| JobName.FixedExactly | arbitrage/k8s_job_spec_builder.py:149-174 | the ids left alone are exactly those labels and the empty one |
| JobName.NormalizeKeeps | arbitrage/k8s_job_spec_builder.py:149-174 | the letters and digits of a name are those of the id in order and in lower case, after the prefix if the first is a digit; the first of them where the limit cuts, all otherwise |
| JobName.NormalizeIdempotent | arbitrage/k8s_job_spec_builder.py:149-174 | normalising twice is normalising once |
| ClusterNames.PlannedName | arbitrage/k8s_job_spec_builder.py:134-174 | the name of a planned job is its normalised head and its number, cut to 63 characters |
| ClusterNames.NamesDistinctExactly | arbitrage/k8s_job_spec_builder.py:61-174 | the names of the first n planned jobs are pairwise distinct if and only if there is at most one or the last fits uncut, for every ASCII tag |
| ClusterNames.NoRoomForDigits | arbitrage/k8s_job_spec_builder.py:165-174 | a head of 60 or more characters gives the first two jobs the same name |
| ClusterNames.CutNumber | arbitrage/k8s_job_spec_builder.py:165-174 | a number that does not fit is cut to the name of an earlier job |
| ClusterNames.ValidTagFits | arbitrage/k8s_job_spec_builder.py:134-174 | for a tag that is a valid name, or none, the last name fits if and only if its job id has at most 63 characters |
| ClusterNames.PlanFeedsScheduler | arbitrage/k8s_tuning_session_runner.py:133-162 | a session over the first n planned jobs has the distinct names its loop needs if and only if they fit, all being accepted |
| Watchdog.Watchdog.Evaluate | arbitrage/watchdog.py:135-268 | alerts follow the thresholds; error count, shutdown request and cycle counters are functions of the history of evaluations; a shutdown request stays |
| Watchdog.VerdictExactly | arbitrage/watchdog.py:148-232 | an evaluation is bad exactly when a metric is over its maximum, else uneasy exactly when one is over its warning level or rejections are too many |
| Watchdog.AlertsExactly | arbitrage/watchdog.py:148-232 | which alerts there are, by component and level |
| Watchdog.ThreeErrorsGrow | arbitrage/watchdog.py:240-251 | shutdown is requested exactly when some stretch without a fine evaluation has held three errors |
| Watchdog.CycleStep | arbitrage/watchdog.py:236-260 | counting with reset at a size is the run length modulo that size, zero for sizes of zero or less |
| Watchdog.Watchdog.ResetNow | arbitrage/watchdog.py:294-307 | a reset clears the cycle counters and not the errors counted towards a shutdown |

## Left out

- Network clients, WebSockets, servers, notifications, SQL, logging and configuration loading: input and output only.
- Rounding of floats and the decimal formatting of order sizes: prices and quantities are exact reals.
- Backtest.ExactTimestamps: for room for two trades; with room for one, books can be exact for repeated timestamps, and Backtest.ClosesMerge is a case in which they are not.
- LiveRunner.SessionLedgersAgree: speaks of single-symbol sessions, the loop the model has; the parallel multi-symbol loop is not modelled.
- LiveSession.ArbitrageLiveRunner.Restore: engine trades are not restored by the program, so the agreement of tracked orders is for fresh sessions only.
- LiveSession.ArbitrageLiveRunner.RunForever: the runtime limit is the end of the input list; sleeping and metrics are not modelled.
- RiskGuard's symbol limits on capital and positions, and the modules it imports for several symbols.
- Injected paper prices and the wall-clock choice of the loss cycle: arbitrary inputs.
- Scheduler.Run: needs distinct submitted names and at least one parallel job; a reused name overwrites an entry, and with no parallel job the loop spins until the session timeout.
- Scheduler.Session.PollAll: jobs are polled in an arbitrary order, so the order of messages and logs is not stated.
- Scheduler.CleanExit: of runs cut short only the account of `Scheduler.Run` is stated; these can exit with 0 and jobs left over.
- LiveExecutor.VenuesTrackPositions: single-symbol runs with a non-zero quote, every accepted order filled in full at the quote (also reduce-only ones), a rejected order not filled.
- LiveExecutor.LiveExecutor.OnOpportunity: holding times use one wall-clock reading per call.
- The paper executor's order legs and slippage: they are recorded and used nowhere else.
- Keyspace.ParseIsMatch: the regular expression engine itself; the model is the pattern's meaning, with greedy groups and an end anchor that may precede one final newline.
- Keyspace's time-to-live policy and key audit: table look-ups and counting.
- RedisGlob.PrefixPattern: patterns are read character by character as the server reads bytes; ids outside ASCII are compared as characters.
- StateStore.SessionsAreIsolated: JSON serialisation is taken as the stored text; a failed Redis command has no effect.
- The SQL snapshots: the latest snapshot of a session is an arbitrary value.
- PositionEngine.RunKeepsLimits: for non-negative sizes; `PositionEngine.ExposureBoundedExactly` says what holds for others.
- Rebalancer.RebalancerEngine.Rebalance: ties in the size order are broken arbitrarily, which covers Python's stable sort.
- Random and Bayesian optimizers: they draw random values.
- ClusterNames.NamesDistinctExactly: ASCII tags only, as in JobName.
- JobName.NormalizeGivesLabel: ASCII ids only; Unicode letters, digits and lower-casing are not modelled.
- The watchdog's metric history, per-minute counters, time of the last critical alert and number of current warnings.
- Even iteration splitting, metric averages, threshold checks, live-mode gates and conversions to and from dictionaries: easy members.
