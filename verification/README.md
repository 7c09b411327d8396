# Gold engine verification

A Dafny model of the hand-written loops, ledgers and guards of the gold trading engine, with proofs that they agree
with short mathematical definitions. Prices, lots and R values are `real`, times are `int` seconds, database rows and
dictionaries are datatypes and maps. Loops and objects that the engine updates in place are methods and classes proved
against functions; the theorems are about those functions.

* **Trade replays** (`DualTp`, `Trailing`, `Management`, `WideStop`, over `Bars`, `Schedule`, `Revised`, `Reports`): four
  separate bar loops. The split policy is proved to be the weighted average of the two full policies on every path, the
  trailing stop the highest confirmed proposal, the profit lock a strictly positive floor, and the null policies one and the
  same replay. What policies, paths, managed exits and counts mean is said over prices and bars in `DualTpPolicies`,
  `DualTpPaths`, `ManagementExits` and `ReportFigures`.
* **Portfolio** (`Legs`, `Portfolio`, `PortfolioTheorems`, `PortfolioLedger`, `PortfolioRuns`, `PortfolioInputs`): one account
  over an event queue. Cash is conserved in every state and over every run, a stop-out happens at exactly the first bar that
  causes one, splitting a trade into legs undoes what the replay mixed, and two replay reports always load into groups that
  end the account flat. `PortfolioMarks` says what a stop-out is at the prices of a bar, `PortfolioAccounts` what ledger,
  costs and margin say in every state.
* **Causal replay** (`CausalReplay`, `PathResolution`): resumable, blind to the future; bars refine ticks conservatively
  under an exact condition on the bar running at the entry. A replay is a chain of runtime calls (`CausalCalls`), and an
  outcome is the first touch of a price (`PathOutcomes`).
* **Ledgers** (`TradeLedger`, `TradeComponents`, `ExecutionBridge`, `FillMatching`): grouping by aliases is a partition, and
  the right one for exactly the conflict-free inputs; every column of a row is read off its ledger (`TradeLedgerRows`, with
  `Present`). Pairing fills with positions is injective and maximal, and takes the strongest link (`FillRanks`,
  `FillGroups`).
* **Order protocol** (`OrderProtocol`): orders leave a cycle exactly when all gates are open, and the event log reads back
  as it was written (`OrderProtocolTheorems`); where every cycle ends and what it leaves (`OrderStages`); what the shipped
  decision engine can make a cycle send (`EngineDecisions`).
* **Guards and sizing** (`ExecutionGuard`, `RiskSizing`): the drift limit is the reward-to-risk test, the verdict is
  symmetric, and pressure on the account can only shrink a trade. `ExecutionChecks` and `RiskLimits` say what each check,
  figure and refusal means.
* **Statistics and parser** (`Stability`, `StabilityTrend`, `StabilityVerdict`, `KeyValueParser`, `KeyValueRoundTrip`,
  `DecisionContract`): rising series have nonnegative slope, steady climbs are always flagged, falling ones never, and a
  decision survives being written out and read back. The slope is the least-squares one (`StabilitySlope`), medians,
  percentiles and noise are order statistics (`StabilityFigures`).

Promises that do not hold of the code, with the exact condition under which they do:

* Bar resolution does not always refine tick resolution: a bar running at the entry may have touched the stop before it
  (`PathResolution.RunningBarBreaksRefinement`), or may close after the entry without a tick of its own after it
  (`QuietBarBreaksRefinement`). It does exactly when every running bar that touches a level holds a tick that decides after
  the entry, and a bar that closes after the entry comes with a tick after it (`BarsRefineTicksIff`).
* Alias grouping splits one connected group whenever an event's known aliases name two trades: three rows with two tickets
  are enough (`TradeComponents.TwoTicketsSplitATrade`, condition in `TradesAreComponentsIffNoConflict`).
* A position whose recorded close is not after its opening is never closed by the portfolio run
  (`PortfolioRuns.UnsettledStaysOpen`). A run in which no entry is refused ends flat exactly when every recorded position
  closes after it opens (`EndsFlatIffAllSettle`); reports of the dual replay always do
  (`PortfolioInputs.TwoReplaysEarnInFull`).
* FULL_TP2 on the BUY side is plain stop-first replay for exactly the signals whose stop lies below the entry; the script
  also accepts a stop above it (`NullPolicies.FullTp2IsStopFirstIff`).
* Attempts whose preflight raises or is rejected, and sends whose result is partial or unknown, have no terminal event
  (`OrderProtocolTheorems.AttemptIsSettledIff`).
* A volume in the decision payload replaces the sized volume of an opening order
  (`OrderProtocolTheorems.PayloadVolumeOverridesTheRiskEngine`, condition in `OpeningVolumeIsTheSizedOneIff`). The
  decision-engine interface allows it; the only shipped engine puts nothing but the response text into the payload
  (src/bot_ea/codex_cli_engine.py:167-174), so its openings always carry the sized volume - and a response that asks to close
  or reduce is always refused, because no volume reaches that order (`EngineDecisions`).
* The recommended minimum allocation earns a warning of its own for swing trading an index: its least practical risk is 18
  of 350, more than the tolerated 5% (`RiskLimits.RecommendedMinimumIsFineIff`).
* A value that hides a key pattern, or has whitespace at an end, does not survive extraction
  (`KeyValueRoundTrip.ValueSurvivesIff`).

## Model

| member | source | states |
|---|---|---|
| `DualTp.ReplayTrade` | scripts/replay-goldm-dual-tp.py:332-411 | the bar loop of one dual-target trade, with its moving stop, partial exits, ambiguous bar and end of test, against the bar-by-bar path |
| `DualTp.ReplayPolicy` | scripts/replay-goldm-dual-tp.py:255-478 | a whole report: ordered signals, no overlap, skip and result counts, total and expectancy in R, and the maximum drawdown over the trades in closing order |
| `DualTp.ProfitLockRunnerStopR` | scripts/replay-goldm-dual-tp.py:192-212 | the locked runner stop exists exactly for proper fractions and lies between -1R and the entry |
| `DualTp.PoliciesAreExecutable` | scripts/replay-goldm-dual-tp.py:111-233 | every policy allocates a fraction that a lot split can carry, and profit lock only comes with a half |
| `DualTpTheorems.RunnerFollowsFullTp2` | scripts/replay-goldm-dual-tp.py:332-411 | after TP1 the split runner and the full TP2 position end on the same bar in the same way |
| `DualTpTheorems.BarIsConvex` | scripts/replay-goldm-dual-tp.py:332-399 | one bar ends the split, TP1 and TP2 trades together, or none, or fills TP1 and ends only the TP1 trade |
| `DualTpTheorems.SplitPathIsConvex` | scripts/replay-goldm-dual-tp.py:332-411 | on every bar path the keep-stop split earns the weighted average of FULL_TP1 and FULL_TP2, ambiguous bars and end of test included |
| `DualTpTheorems.FilledSplitIsMixed` | scripts/replay-goldm-dual-tp.py:358-411 | a split that filled TP1 earns the TP1 share plus the runner share of what FULL_TP2 earned |
| `DualTpTheorems.KeepStopPolicyIsTheAverage` | scripts/replay-goldm-dual-tp.py:111-144 | the same average for every keep-stop policy and every recorded signal of a report |
| `DualTpTheorems.ResolvedTradesAreBounded` | scripts/replay-goldm-dual-tp.py:313-399 | every resolved trade under any policy ends between -1R and the TP2 distance |
| `DualTpTheorems.LockKeepsTheShare` | scripts/replay-goldm-dual-tp.py:192-212 | the runner stop leaves at least the retained share of the realized profit, also when it is clamped at -1R |
| `DualTpTheorems.ProfitLockKeepsTheFloor` | scripts/replay-goldm-dual-tp.py:192-223 | a profit-locked trade that filled TP1 resolves at or above a strictly positive floor, whatever follows |
| `DualTpTheorems.ExitIsCausal` | scripts/replay-goldm-dual-tp.py:332-411 | a resolved trade closes one minute after a bar it lived through, and TP1 is filled on such a bar |
| `DualTpTheorems.ExcursionsCoverThePath` | scripts/replay-goldm-dual-tp.py:335-345 | the reported excursions bracket every price of every bar the trade lived through |
| `DualTpTheorems.ReportIsOneAtATime` | scripts/replay-goldm-dual-tp.py:268-276 | executed trades never overlap and every signal is executed, overlapping or invalid |
| `DualTpTheorems.TradesCloseAfterOpening` | scripts/replay-goldm-dual-tp.py:313-411 | a trade opened before the end of the report closes, and fills TP1, strictly after it opened |
| `DualTpTheorems.ReportClosesInOrder` | scripts/replay-goldm-dual-tp.py:451-456 | sorting the trades by closing time changes nothing, so the drawdown is that of the order of execution, and opening times strictly ascend |
| `DualTpTheorems.EveryTradeHasOneAllocation` | scripts/replay-goldm-dual-tp.py:458-468 | the TP1-only, split and TP2-only counts of a report add up to its trades |
| `DualTpPaths.TradeIsTwoFirstTouches` | scripts/replay-goldm-dual-tp.py:332-411 | a trade is first touch between the stop and TP1, and its runner first touch between the price its policy names - locked price, entry or original stop - and TP2; outcome, result and closing time over prices alone, the final mark included |
| `DualTpPaths.ReplayedTradesEnd` | scripts/replay-goldm-dual-tp.py:279-411 | every trade of a report ends this way, on either side and under every policy |
| `DualTpPaths.BreakEvenKeepsTheShare` | scripts/replay-goldm-dual-tp.py:379-399 | with the stop moved to the entry, a trade that filled TP1 and was resolved earns at least the TP1 share of TP1, and a stop earns exactly that |
| `DualTpPaths.ExcursionsAreReached` | scripts/replay-goldm-dual-tp.py:335-345 | the reported excursions are prices of bars the trade lived through, or the start |
| `DualTpPolicies.PlansTakeTheRecordedPrices` | scripts/replay-goldm-dual-tp.py:279-331 | a plan takes side, entry, stop and targets as recorded, and is missing exactly when they are unusable |
| `DualTpPolicies.PoliciesDoWhatTheySay` | scripts/replay-goldm-dual-tp.py:34-223 | the runner share, break-even move and profit lock of every policy, over the distances and the evidence of the signal, the adaptive scores sign by sign |
| `ReportFigures.DualCountsAre` | scripts/replay-goldm-dual-tp.py:451-478 | each of the ten counts of a dual report is the number of trades with that exit, allocation or option |
| `Schedule.EverySignalIsCountedOnce` | scripts/replay-goldm-revised-trailing.py:71-92 | no signal is lost and none is counted twice |
| `Schedule.ExecutedComeFromSignals` | scripts/replay-goldm-revised-trailing.py:71-92 | every executed trade is what the replay made of one of the signals |
| `Schedule.NeverOverlaps` | scripts/replay-goldm-revised-trailing.py:71-92 | the admission loop holds one trade at a time, in order |
| `Schedule.SkippedExactlyWhenBusy` | scripts/replay-goldm-revised-trailing.py:71-92 | a signal is skipped as overlapping exactly when an executed trade is still running |
| `Schedule.SameBook` | scripts/replay-goldm-revised-wide-stop.py:58-75 | attempts that agree signal by signal give books that agree trade by trade and counter by counter |
| `Drawdown.MaximumDrawdown` | scripts/replay-goldm-dual-tp.py:451-456 | the running-peak loop finds the peak and the deepest fall of the equity curve between any two of its points |
| `Drawdown.DrawdownIgnoresStart` | src/bot_ea/validation.py:247-254 | the figure does not depend on the starting equity |
| `Reports.Summarize` | scripts/replay-goldm-revised-trailing.py:142-160 | counts, total, expectancy and the maximum drawdown of the trades sorted by closing time |
| `Reports.CurveEndsAtTheTotal` | scripts/replay-goldm-revised-trailing.py:142-149 | the equity curve behind the drawdown starts at zero and ends at the reported total, whatever the sort moved |
| `Reports.LossIsWithinTheDrawdown` | scripts/replay-goldm-revised-trailing.py:142-149 | no report loses more than its maximum drawdown |
| `Trailing.LockedRForClose` | scripts/replay-goldm-revised-trailing.py:46-51 | the highest locked level whose trigger the close has reached, and none when no trigger is reached |
| `Trailing.ReplayTrade` | scripts/replay-goldm-revised-trailing.py:93-123 | the trailing-stop loop of one trade |
| `Trailing.ReplayPolicy` | scripts/replay-goldm-revised-trailing.py:65-166 | a whole trailing-stop report with its counts, total and drawdown |
| `Trailing.StopIsHighestProposal` | scripts/replay-goldm-revised-trailing.py:93-120 | the stop never falls, and at the end is the highest of the initial stop and the proposals confirmed while the trade was open |
| `Trailing.TrailedStopKeepsItsDistance` | scripts/replay-goldm-revised-trailing.py:112-120 | a moved stop lies at least the spread, and at least 0.20, below a close that confirmed it |
| `Trailing.StopExitsEarnALevel` | scripts/replay-goldm-revised-trailing.py:99-111 | every stop-type exit has outcome -1R or a locked level of the policy |
| `Trailing.TrailStopsNeverLose` | scripts/replay-goldm-revised-trailing.py:17-43 | under every shipped policy a trailed stop never ends in a loss |
| `ReportFigures.TrailedCountsAre` | scripts/replay-goldm-revised-trailing.py:142-160 | each count of a trailing-stop report is the number of trades with that result |
| `Management.ReplayTrade` | scripts/replay-goldm-revised-management.py:175-221 | the managed loop: evidence, reasons, clamped final mark |
| `Management.ReplayPolicy` | scripts/replay-goldm-revised-management.py:140-262 | a whole managed report with its counts, total and drawdown |
| `Management.OutcomesAreBounded` | scripts/replay-goldm-revised-management.py:175-221 | every managed or unmanaged exit lies between -1R and the target |
| `Management.EagerPolicyClosesNoLater` | scripts/replay-goldm-revised-management.py:90-137 | a policy that leaves whenever another would never holds the same trade longer, and they part only by a managed exit |
| `ManagementExits.ReplayedTradeEnds` | scripts/replay-goldm-revised-management.py:175-221 | a trade ends at its first bar that touches a level or shows a reason, the stop first, with the outcome, peak and excursions of the bars until then, and otherwise with the test at the last close |
| `ManagementExits.EvidenceIsInTheBars` | scripts/replay-goldm-revised-management.py:49-87 | micro break, momentum, acceptance and five-minute persistence are what the last bars show in opens, lows and closes |
| `ManagementExits.ReasonsAreWarranted` | scripts/replay-goldm-revised-management.py:90-137 | which peak and evidence each reason stands for, under which policies, and which stronger reason goes before it, at least two bars after the peak |
| `ManagementExits.PeakIsTheFirstHighest` | scripts/replay-goldm-revised-management.py:183-188 | the peak is the highest R so far, and its bar the first that reached it |
| `ManagementExits.AtrIsTheMeanRange` | scripts/replay-goldm-revised-management.py:34-46 | fourteen times the ATR is the total of the last fourteen true ranges |
| `ManagementExits.TradeOfASignal` | scripts/replay-goldm-revised-management.py:160-167 | the obstacle of a trade is in units of its widened risk, and its ATR is that of the twenty bars before it |
| `ReportFigures.ManagedCountsAre` | scripts/replay-goldm-revised-management.py:242-262 | each count of a managed report is the number of trades with that result |
| `WideStop.ReplayTrade` | scripts/replay-goldm-revised-wide-stop.py:82-104 | the fixed-stop loop of one trade |
| `WideStop.Replay` | scripts/replay-goldm-revised-wide-stop.py:29-161 | the whole wide-stop report with its two argument errors, its counts including the obstacle violations, its total and drawdown |
| `WideStop.PathIsFirstTouch` | scripts/replay-goldm-revised-wide-stop.py:82-104 | the loop is exactly first touch with the stop winning, or the final close when nothing is touched |
| `Revised.LevelIsItsR` | scripts/replay-goldm-revised-trailing.py:112-118 | a stop at `entry + level * risk` is worth exactly `level` in R |
| `NullPolicies.NoTrailIsWideStop` | scripts/replay-goldm-revised-trailing.py:65-141 | NO_TRAIL and the wide-stop replay agree on executed trades, closes, outcomes and counters over any report |
| `NullPolicies.NoManagementIsWideStop` | scripts/replay-goldm-revised-management.py:140-241 | NO_MANAGEMENT agrees with the wide-stop replay except for the clamp of its end-of-test mark |
| `NullPolicies.FullTp2IsStopFirstIff` | scripts/replay-goldm-dual-tp.py:279-411 | on the BUY side FULL_TP2 closes every trade as plain stop-first, target-TP2 replay does, on every bar path, iff the stop lies below the entry |
| `NullPolicies.StopAboveEntry` | scripts/replay-goldm-dual-tp.py:279-411 | a concrete bar on which a stop above the entry parts the two |
| `Legs.SplitLots` | scripts/simulate-goldm-combined-portfolio.py:148-182 | the legs of an executable split are within 1e-9 of their shares |
| `Legs.SplitIsExecutableIff` | scripts/simulate-goldm-combined-portfolio.py:156-166 | a split is executable exactly when both shares reach the minimum and lie within 1e-9 of some whole number of steps |
| `Legs.LegsAreDistinct` | scripts/simulate-goldm-combined-portfolio.py:118-249 | legs never share an id, and each profits its close profit less its entry cost |
| `Legs.LotIsKept` | scripts/simulate-goldm-combined-portfolio.py:148-182 | an executable split keeps the volume up to the alignment tolerance |
| `Legs.LegsSumToTheFullPosition` | scripts/simulate-goldm-combined-portfolio.py:74-249 | aligned legs add up to one full position at the mixed outcome: volume, gross profit and both costs |
| `Legs.LegsAreTheTwoFullTrades` | scripts/simulate-goldm-combined-portfolio.py:191-249 | for a split that filled TP1 the two legs are the FULL_TP1 and FULL_TP2 trades: splitting undoes what the replay mixed |
| `Legs.SplitPositionsAre` | scripts/simulate-goldm-combined-portfolio.py:191-249 | the legs of a split: volumes near their shares, TP1 at its own price and time once it was filled, the runner with the rest of the mixed result at the close |
| `Legs.WholePositionsAre` | scripts/simulate-goldm-combined-portfolio.py:132-181 | without a split one position of the whole lot; a split that cannot be executed gives it the runner's result |
| `Legs.CostsWorsenThePrices` | scripts/simulate-goldm-combined-portfolio.py:74-110 | a position nets what the broker pays at an entry worse by spread and slippage and an exit worse by slippage, less two commissions |
| `Portfolio.SelectTierLot` | scripts/simulate-goldm-combined-portfolio.py:262-279 | the loop picks the last tier that the balance has reached |
| `Portfolio.TierIsUnique` | scripts/simulate-goldm-combined-portfolio.py:303-315 | for ascending tiers that is the highest reached one |
| `Portfolio.EventTimesAreComplete` | scripts/simulate-goldm-combined-portfolio.py:400-406 | the event queue ascends and holds every opening time and every possible closing time |
| `Portfolio.Simulator.Close` | scripts/simulate-goldm-combined-portfolio.py:431-461 | closing one position: balance, peak, minimum, drawdown, side totals, active set and ledger |
| `Portfolio.Simulator.ClosePositions` | scripts/simulate-goldm-combined-portfolio.py:431-461 | everything due at a time is closed in the order it was registered |
| `Portfolio.Simulator.OpenPositions` | scripts/simulate-goldm-combined-portfolio.py:463-562 | the signals of one time open together after margin admission, or not at all |
| `Portfolio.Simulator.HandleEvent` | scripts/simulate-goldm-combined-portfolio.py:567-572 | one event time: closes before opens |
| `Portfolio.Simulator.HandleDue` | scripts/simulate-goldm-combined-portfolio.py:567-574 | the events up to a bar are handled, exactly those not after its time, and a refused entry is the last one |
| `Portfolio.Simulator.HandleRest` | scripts/simulate-goldm-combined-portfolio.py:625-630 | after the last bar every remaining event is handled, failures or not |
| `Portfolio.Simulator.CheckBar` | scripts/simulate-goldm-combined-portfolio.py:577-613 | the stop-out check of one bar, and the balance, minimum and failure it leaves |
| `Portfolio.BarsAreCheckedOnTime` | scripts/simulate-goldm-combined-portfolio.py:564-616 | bars a minute apart are checked after exactly the events that are not after their time |
| `Portfolio.Simulator.Simulate` | scripts/simulate-goldm-combined-portfolio.py:564-630 | the run is stopped out at exactly the first bar that stops the account made by the events handled until then, and is left as written there; otherwise no bar does, and it ends right after the first refused entry when the bars reach one, or with every event handled |
| `Portfolio.Simulator.StatesAreHandled` | scripts/simulate-goldm-combined-portfolio.py:564-630 | the states that the run passes through are those of handling the event queue one event after the other |
| `PortfolioMarks.MarkIsTheWorst` | scripts/simulate-goldm-combined-portfolio.py:578-596 | the equity a bar is judged by is the least equity at any price between low and high, and one of its prices attains it |
| `PortfolioMarks.StopOutIff` | scripts/simulate-goldm-combined-portfolio.py:596-606 | a bar stops the account out exactly when some price of it leaves no equity, or no more than the stop-out level of the margin |
| `PortfolioMarks.StopOutLeavesTheLevel` | scripts/simulate-goldm-combined-portfolio.py:598-613 | a stop-out leaves that level of the margin in use and reports time and worst equity of the bar |
| `PortfolioMarks.MarkAtTheExitIsTheGross` | scripts/simulate-goldm-combined-portfolio.py:252-260 | marked at its exit price a position is worth its gross profit |
| `PortfolioMarks.UnstoppedRunsStaySolvent` | scripts/simulate-goldm-combined-portfolio.py:577-616 | in a run without a stop-out no price of any checked bar ruined an account with open positions |
| `PortfolioMarks.StoppedRunsWereRuined` | scripts/simulate-goldm-combined-portfolio.py:577-616 | a stopped run was ruined at a price of its last bar, and at no bar before |
| `PortfolioTheorems.CandidatesAreFresh` | scripts/simulate-goldm-combined-portfolio.py:463-500 | the positions chosen for one time have distinct ids, that opening time, and come from the recorded groups |
| `PortfolioTheorems.CloseOneSettles` | scripts/simulate-goldm-combined-portfolio.py:431-461 | closing moves the close profit of exactly one open position to its side |
| `PortfolioTheorems.EveryStateIsBalanced` | scripts/simulate-goldm-combined-portfolio.py:431-600 | after any number of events balance = start + realized buy + realized sell, and what is open is what is not yet due |
| `PortfolioTheorems.RunConserves` | scripts/simulate-goldm-combined-portfolio.py:431-640 | over a whole run the profit of all selected positions is in the balance, up to positions whose close does not follow their opening |
| `PortfolioTheorems.RunEndsFlat` | scripts/simulate-goldm-combined-portfolio.py:431-640 | the account ends flat exactly when every selected position closes after it opens, and then earns exactly the requested net of both sides |
| `PortfolioAccounts.EveryStateIsBooked` | scripts/simulate-goldm-combined-portfolio.py:431-562 | in every state the ledger opens the selected positions in order, closes each once unless it is open, at its recorded times, and both cost totals are those of what was selected |
| `PortfolioAccounts.RefusedIffUncovered` | scripts/simulate-goldm-combined-portfolio.py:493-507 | the entries of one time are refused exactly when margin in use, new margin and entry costs exceed the balance after the closes |
| `PortfolioAccounts.MarginIsCovered` | scripts/simulate-goldm-combined-portfolio.py:493-562 | as long as nothing was refused the balance covers the margin of everything open after every event |
| `PortfolioAccounts.EquityIsWhatClosingLeaves` | scripts/simulate-goldm-combined-portfolio.py:252-260 | the equity at a price is the balance that closing everything there, before exit costs, would leave |
| `PortfolioLedger.ReportedExtremesAreTheLedgers` | scripts/simulate-goldm-combined-portfolio.py:431-562 | reported peak, minimum and realized drawdown are those of the balance column of the ledger |
| `PortfolioRuns.EveryGroupIsAdmitted` | scripts/simulate-goldm-combined-portfolio.py:463-562 | without a refusal every signal whose time has come is selected at one of its volumes |
| `PortfolioRuns.SettledInputsEndFlat` | scripts/simulate-goldm-combined-portfolio.py:431-640 | when every recorded position closes after it opens the account ends flat with the requested net, whatever was refused |
| `PortfolioRuns.EndsFlatIffAllSettle` | scripts/simulate-goldm-combined-portfolio.py:431-640 | a run without a refusal ends flat exactly when every recorded position closes after it opens |
| `PortfolioRuns.StaticEndsFlatIffAllSettle` | scripts/simulate-goldm-combined-portfolio.py:431-640 | with static lots the same for every recorded input, as a signal then has a single volume |
| `PortfolioRuns.UnsettledStaysOpen` | scripts/simulate-goldm-combined-portfolio.py:431-461 | one recorded position that closes at its opening time is still open at the end |
| `PortfolioRuns.RunAccount` | scripts/simulate-goldm-combined-portfolio.py:400-640 | the simulator from the starting balance on: balanced before however it ends, accounted for when nothing fails, earned in full when all recorded positions settle as well |
| `PortfolioInputs.LoadGroups` | scripts/simulate-goldm-combined-portfolio.py:335-376 | the loader: both reports, every volume of the lot plan, and its two errors |
| `PortfolioInputs.SignalsTradeTheChosenLot` | scripts/simulate-goldm-combined-portfolio.py:262-376 | every position taken comes from its recorded outcome at the volume that the lot plan chooses for the balance |
| `PortfolioInputs.LoadedGroupsAreSound` | scripts/simulate-goldm-combined-portfolio.py:335-376 | reports whose trades open in turn, with costs that are not negative, load into groups without a shared id: those the account theorems are about |
| `PortfolioInputs.LoadedGroupsSettle` | scripts/simulate-goldm-combined-portfolio.py:118-249 | reports of trades that close after they open load without error, and every position settles at every volume |
| `PortfolioInputs.CombinedReplaysEarnInFull` | scripts/simulate-goldm-combined-portfolio.py:335-640 | two reports of trades that close after they open, one after the other, through the loader and the whole event queue: no error, a flat account, and the profit of every position taken |
| `PortfolioInputs.TwoReplaysEarnInFull` | scripts/simulate-goldm-combined-portfolio.py:335-640 | the same for the results of any two dual replays of recorded signals over ordered bars |
| `CausalReplay.Run` | src/gold_engine_core/causal_replay.py:106-180 | the replay loop over an abstract runtime, with its errors, counters and bar requests |
| `CausalReplay.FeedIsResumable` | src/gold_engine_core/causal_replay.py:126-160 | ticks A then B from where A stopped is the same as A+B |
| `CausalReplay.RestartIsSeamless` | src/gold_engine_core/causal_replay.py:126-170 | a replay restarted from the saved state gives the same final state, concatenated events and summed bars |
| `CausalReplay.CountsAdd` | src/gold_engine_core/causal_replay.py:160-180 | decision and warm-up counts of the two parts add up |
| `CausalReplay.FeedSeesNoFuture` | src/gold_engine_core/causal_replay.py:126-160 | bars that close after the last tick cannot influence a replay |
| `CausalReplay.ReportIgnoresTheFuture` | src/gold_engine_core/causal_replay.py:106-180 | ticks and bars after the end of the replay never change the report, nor whether it fails |
| `CausalReplay.ReportDependsOnThePastOnly` | src/gold_engine_core/causal_replay.py:39-180 | data sets with the same past give the same report |
| `CausalCalls.ReplayIsAChainOfCalls` | src/gold_engine_core/causal_replay.py:126-160 | a successful replay is a chain of runtime calls: each tick in turn, then each bar it asked for, every bar one of the data set's and closed by its tick; final state, events and bar count are those of the chain |
| `CausalCalls.ServingFailsAtTheFirstBadBar` | src/gold_engine_core/causal_replay.py:137-152 | the requests of a tick succeed exactly when every bar is there and closed, and else fail at the first that is not, with its error |
| `CausalCalls.ReportCounts` | src/gold_engine_core/causal_replay.py:118-180 | times, ticks, decisions and warm-up decisions of a report over the ticks until the end and the events |
| `PathResolution.ResolveSignalPath` | src/gold_engine_core/causal_replay.py:183-255 | first touch over ticks, then the conservative bar version, then open or no path |
| `PathOutcomes.TicksDecide` | src/gold_engine_core/causal_replay.py:189-221 | the first tick from the entry on whose bid or ask reaches a level decides, at that price, the stop first |
| `PathOutcomes.BarsDecide` | src/gold_engine_core/causal_replay.py:222-245 | without one the first bar that closes after the entry and touches a level decides, at the level, a bar that touches both as a stop |
| `PathOutcomes.NothingDecides` | src/gold_engine_core/causal_replay.py:246-255 | with neither the signal is open exactly when anything came after its entry |
| `PathResolution.BarsDecideWithTicks` | src/gold_engine_core/causal_replay.py:183-255 | ticks and bars decide in the same bar exactly when every bar running at the entry that touches a level holds a tick that decides after it |
| `PathResolution.BarsRefineTicksIff` | src/gold_engine_core/causal_replay.py:183-255 | STOP, TARGET, open, no path and the resolving bar all carry over exactly when running bars touch late and a later bar comes with a later tick |
| `PathResolution.BarsRefineTicks` | src/gold_engine_core/causal_replay.py:183-255 | with the entry on a bar boundary a tick STOP is a bar STOP in the same bar, a bar TARGET a tick TARGET, and both stay open together |
| `PathResolution.RunningBarBreaksRefinement` | src/gold_engine_core/causal_replay.py:222-245 | a concrete history that the ticks leave open and the bar running at the entry reports as a stop: the refinement fails |
| `PathResolution.QuietBarBreaksRefinement` | src/gold_engine_core/causal_replay.py:222-255 | a concrete history without a path by tick that the bar running at the entry reports as open |
| `TradeLedger.LifecycleBuilder.FindKey` | src/bot_ea/runtime_store.py:1157-1162 | the first known alias names the trade |
| `TradeLedger.LifecycleBuilder.Register` | src/bot_ea/runtime_store.py:1165-1167 | aliases are registered under the trade |
| `TradeLedger.LifecycleBuilder.Add` | src/bot_ea/runtime_store.py:943-966 | one row: find or open its trade, register its aliases, merge it |
| `TradeLedger.BuildTradeLifecycleRows` | src/bot_ea/runtime_store.py:934-973 | all executions, then all position rows, then both sorts |
| `TradeLedgerTheorems.LedgersPartitionTheEvents` | src/bot_ea/runtime_store.py:943-966 | every row lands in exactly one ledger, in order, and every alias names an existing trade |
| `TradeLedgerTheorems.CashIsConserved` | src/bot_ea/runtime_store.py:1035-1092 | commission and swap of all trades add up to those of all position rows |
| `TradeLedgerTheorems.RowsSummarizeTheirLedgers` | src/bot_ea/runtime_store.py:1012-1092 | profit, exit and volume of a trade are the last present ones of its ledger, its costs the totals |
| `TradeLedgerTheorems.ReportedStatusIsTheLedgers` | src/bot_ea/runtime_store.py:966-973 | with closing times present a reported row is CLOSED exactly when its ledger holds a closing event |
| `TradeLedgerRows.RowsTellTheirLedgers` | src/bot_ea/runtime_store.py:1012-1074 | prices, tickets, event ids, times and status of every trade as first or last present values of its ledger; the first fill stands in for a missing entry price |
| `TradeLedgerRows.OpeningIsTheEarliest` | src/bot_ea/runtime_store.py:1025-1065 | fills come first in a ledger; a fill time gives way to the position events, of which the earliest opening counts, and of two different fill times the first stays in the comparison |
| `TradeLedgerRows.ReportedRowsTell` | src/bot_ea/runtime_store.py:966-973 | a reported row has the columns of its trade, and is CLOSED by a closing time or by its last status |
| `TradeLedgerRows.TheFirstKnownAliasDecides` | src/bot_ea/runtime_store.py:1157-1162 | a row joins the trade of its first known alias, and opens one when none of them is known |
| `TradeLedgerRows.FillAliasesAreItsTickets` | src/bot_ea/runtime_store.py:1137-1144 | a fill is known by exactly its order, deal and attempt ids that are neither missing nor empty |
| `TradeLedgerRows.PositionAliasesAreItsTickets` | src/bot_ea/runtime_store.py:1146-1155 | a position event is known by exactly its broker id and the three tickets of its payload |
| `TradeLedgerRows.RowsRunBackwards` | src/bot_ea/runtime_store.py:972 | reported rows run from the latest last event to the earliest, and at one time by id |
| `TradeLedgerRows.LedgersRunForward` | src/bot_ea/runtime_store.py:970 | the events of a row run forward in time, at one time fills before position events, each by id |
| `TradeComponents.KeysHaveOrigins` | src/bot_ea/runtime_store.py:1116-1167 | a trade key is a known alias or the fallback of the event that opened the trade |
| `TradeComponents.OneTradeIsConnected` | src/bot_ea/runtime_store.py:943-966 | two events of one trade are connected by shared aliases |
| `TradeComponents.BuilderFollowsTheAliases` | src/bot_ea/runtime_store.py:1116-1167 | the alias map alone decides where each event lands |
| `TradeComponents.ConflictSplitsAComponent` | src/bot_ea/runtime_store.py:1157-1167 | an event whose known aliases name two trades connects trades that stay apart |
| `TradeComponents.TwoTicketsSplitATrade` | src/bot_ea/runtime_store.py:1157-1167 | three concrete rows over two tickets that are connected and yet reported as two trades |
| `TradeComponents.TradesAreComponentsIffNoConflict` | src/bot_ea/runtime_store.py:934-973 | two events share a trade iff shared aliases connect them, for exactly the inputs without such an event |
| `TradeComponents.ReportedRows` | src/bot_ea/runtime_store.py:966-973 | reported rows are the trades, newest first, each with its own events in ledger order |
| `ExecutionBridge.LatestTerminalEventWins` | src/bot_ea/validation.py:877-893 | each settled attempt is represented once, by its terminal event with the highest token |
| `ExecutionBridge.FilledPlusRejectedIsAtMostTotal` | src/bot_ea/validation.py:905-921 | filled and rejected attempts are at most all attempts |
| `ExecutionBridge.FillsHaveDistinctTokens` | src/bot_ea/validation.py:894-912 | no two fill candidates share a token |
| `ExecutionBridge.BuildExecutionBridge` | src/bot_ea/validation.py:877-921 | both loops: attempts, fills, rejections and the four lookup tables, each the filtered list of fills |
| `FillGroups.TheLatestHasTheHighestId` | src/bot_ea/validation.py:877-893 | the event that represents an attempt has the highest execution id among those that settle it, then the last row |
| `FillGroups.NamelessEventsStandAlone` | src/bot_ea/validation.py:885-887 | settling events without an attempt id never share an attempt |
| `FillGroups.RejectionsAreTheTurnedDown` | src/bot_ea/validation.py:905-908 | rejected orders are the attempts whose latest settling event has one of the four rejected statuses |
| `FillMatching.GroupsShowTheirExits` | src/bot_ea/validation.py:739-874 | a position group counts as closed exactly when one of its events shows an exit |
| `FillMatching.AggregatePositionEvents` | src/bot_ea/validation.py:739-874 | position events folded into one aggregate per key, in order of first appearance |
| `FillGroups.GroupsTellTheirEvents` | src/bot_ea/validation.py:739-874 | a group says the first ids, symbol and side, the earliest opening, the latest closing, the last profit and the total costs of its events |
| `FillGroups.KeysFollowTheIds` | src/bot_ea/validation.py:986-996 | broker ids decide which events form a group, then deal tickets |
| `FillGroups.RecordsAreTheEndedGroups` | src/bot_ea/validation.py:617-623 | the records are the groups that show an end, in order, and the others are skipped |
| `FillMatching.BestIsOptimal` | src/bot_ea/validation.py:953-974 | the chosen fill is unused and none is strictly better; none is chosen only when all are used |
| `FillMatching.TakeFillCandidate` | src/bot_ea/validation.py:953-974 | the choice among candidates, and the token marked used |
| `FillMatching.MatchFillEvent` | src/bot_ea/validation.py:924-950 | order ticket, deal ticket, attempt id, then symbol and side |
| `FillMatching.MatchFindsALinkedFill` | src/bot_ea/validation.py:924-950 | a position goes without a fill exactly when every fill linked to it is taken |
| `FillRanks.MatchTakesTheStrongestLink` | src/bot_ea/validation.py:924-974 | ranking links as order ticket, deal ticket, attempt id, symbol and side, the chosen fill has the strongest link among the free fills and is the preferred one at it: nearest to the opening, then latest |
| `FillRanks.TheMatchIsTheChoice` | src/bot_ea/validation.py:924-974 | that choice is unique, so a fill is the match exactly when it is such a choice |
| `FillMatching.NoFillIsUsedTwice` | src/bot_ea/validation.py:624-636 | records hold pairwise different fills, and the used tokens are exactly theirs |
| `FillMatching.PairingIsMaximal` | src/bot_ea/validation.py:624-636 | an unmatched record and an unused fill are never linked |
| `FillRanks.EveryRecordTakesTheBestLeft` | src/bot_ea/validation.py:617-636 | every record of a pairing holds the preferred fill of the strongest link among those no earlier record holds, and none exactly when all its linked fills are held |
| `FillMatching.CountsBalance` | src/bot_ea/validation.py:617-721 | records + skipped = aggregates, and records - missing = fills - unmatched |
| `FillMatching.BridgeRuntimeRecords` | src/bot_ea/validation.py:611-736 | the whole bridge with all its counts |
| `OrderProtocol.ExecutionRuntime.RunPreflight` | src/bot_ea/mt5_execution_runtime.py:127-190 | side check, guards and validation, in that order, by action |
| `OrderProtocol.ExecutionRuntime.Execute` | src/bot_ea/mt5_execution_runtime.py:31-125 | dry run, live refresh, revalidation and the one send |
| `OrderProtocol.PollingRuntime.RunCycle` | src/bot_ea/polling_runtime.py:186-316 | from the stop policy to the risk guard, with the early exits |
| `OrderProtocol.PollingRuntime.Trade` | src/bot_ea/polling_runtime.py:318-499 | the intent, preflight and result events, and the position event |
| `OrderStages.PolicyHaltsAtTheFirstReached` | src/bot_ea/stop_policy.py:52-112 | a cycle halts by policy exactly when one of the seven configured limits is reached, records the first such reason and leaves no execution row, position or order |
| `OrderStages.CyclesEndEarly` | src/bot_ea/polling_runtime.py:186-316 | when a cycle ends by account change, halt, no trade or refused risk, over the fields of policy, account, decision and size, and that otherwise it attempts a trade |
| `OrderStages.AttemptsEndInPreflight` | src/bot_ea/polling_runtime.py:318-385 | the rows that an attempt leaves up to preflight, their phases and statuses, and when it ends there |
| `OrderStages.AttemptsEndInTheirResult` | src/bot_ea/polling_runtime.py:387-440 | status, phase and tickets of the result row from the answers of live price, recheck and broker, and the outcome of the cycle |
| `OrderStages.PositionEventIs` | src/bot_ea/polling_runtime.py:441-492 | every field of the position event, from the action and the broker's answer |
| `OrderStages.RunsRememberEveryCycle` | src/bot_ea/polling_runtime.py:186-499 | what a cycle leaves stays in the store, in place, and a halt stays a halt |
| `OrderProtocolTheorems.SendsExactlyWhenAllowed` | src/bot_ea/polling_runtime.py:190-385 | an order leaves a cycle exactly when every gate is open, at most one does, and it is the revalidated request |
| `OrderStages.OrdersLeaveIff` | src/bot_ea/polling_runtime.py:190-385 | the same over raw fields: no limit reached, the same login, server and broker, an action that trades, an accepted size, a side and a volume, guards, precheck and recheck passed, live trading allowed |
| `OrderStages.SentOrdersKeepEveryLimit` | src/bot_ea/stop_policy.py:52-112 | an order that leaves a cycle means that every configured limit is still open |
| `OrderStages.SentOrderIs` | src/bot_ea/mt5_execution_runtime.py:192-246 | every field of the order that leaves, with the fallbacks of volume, price and tickets |
| `OrderStages.SizedVolumeIs` | src/bot_ea/polling_runtime.py:534-541 | the sized volume by action: the risk engine's to open, a fixed 0.01 to add without one, nothing to cancel |
| `OrderProtocolTheorems.SentOrderIsTheIntent` | src/bot_ea/mt5_execution_runtime.py:192-246 | what goes out has the action and side of the intent, turned around for closing, at the live price when that is positive |
| `OrderProtocolTheorems.OpeningVolumeIsTheSizedOneIff` | src/bot_ea/mt5_execution_runtime.py:208-213 | an opening order carries the sized volume exactly when the payload names no other |
| `OrderProtocolTheorems.PayloadVolumeOverridesTheRiskEngine` | src/bot_ea/mt5_execution_runtime.py:208-213 | a concrete cycle sized at 0.01 lots that sends 5 |
| `OrderProtocolTheorems.AnyRuntimeLogsOneAttempt` | src/bot_ea/polling_runtime.py:318-409 | under any execution runtime the log of one attempt starts with its intent, and only its last event may settle it |
| `OrderProtocolTheorems.AttemptIsSettledIff` | src/bot_ea/polling_runtime.py:337-392 | which preflight and result statuses settle an attempt for the reader, exactly |
| `OrderProtocolTheorems.RunSettlesOnce` | src/bot_ea/polling_runtime.py:186-499 | over any run with fresh attempt ids a settling event is the last event of its attempt |
| `OrderProtocolTheorems.CyclePositionsAreFilled` | src/bot_ea/polling_runtime.py:441-492 | a cycle records a position exactly when its last row is FILLED, names an order and is no cancellation |
| `OrderProtocolTheorems.RunCounts` | src/bot_ea/polling_runtime.py:318-492 | settled attempts are at most the intents, and position events at most the FILLED rows; dry runs leave no position event |
| `OrderProtocolTheorems.BridgeCountsSettledAttempts` | src/bot_ea/validation.py:998-1005 | the reader counts each settled attempt exactly once |
| `OrderProtocolTheorems.BridgeFillsAreTheWritersFills` | src/bot_ea/validation.py:877-912 | the fills the reader matches are exactly the rows the writer recorded as filled, each once |
| `OrderProtocolTheorems.ReaderAgreesWithWriter` | src/bot_ea/polling_runtime.py:186-499 | bridge attempts are at most the intents, and position events at most the FILLED rows, which are at most the fills of the bridge, on every run |
| `EngineDecisions.ResponsesOpenAddOrCancel` | src/bot_ea/codex_cli_engine.py:167-174 | an order caused by a model response opens at the sized volume, adds 0.01 or cancels without naming an order |
| `EngineDecisions.ClosingResponsesAreRefused` | src/bot_ea/polling_runtime.py:534-541 | a response that asks to close or reduce sends nothing and fills nothing, whatever the broker answers |
| `ExecutionGuard.ValidateExecution` | src/gold_engine_core/execution.py:211-358 | all eighteen checks in order, the figures and the order |
| `ExecutionGuard.ReasonIffRejected` | src/gold_engine_core/execution.py:202-208 | a reason is given iff its check fails, and an order is issued iff there is none |
| `ExecutionChecks.OrderIsIssuedIffAllHold` | src/gold_engine_core/execution.py:211-358 | over the fields of plan, profile, policy, quote, account, symbol and exposure: each of the eighteen reasons is given exactly when its condition fails, and an order is issued exactly when all hold |
| `ExecutionChecks.ReasonsRunInOrder` | src/gold_engine_core/execution.py:241-331 | reasons come in the order of the checks, each at most once |
| `ExecutionChecks.VerdictFiguresAre` | src/gold_engine_core/execution.py:217-240 | price, risk, reward, ratio and drift of a verdict, and every field of its order |
| `ExecutionChecks.MaximumDriftEndsAtTheEdge` | src/gold_engine_core/execution.py:231-240 | the maximum drift is the one to the price at which reward is exactly the minimum multiple of risk |
| `ExecutionGuard.DriftLimitIsTheRrTest` | src/gold_engine_core/execution.py:228-276 | between stop and target: no DRIFT iff R:R is at least the minimum iff the adverse drift is within its maximum |
| `ExecutionGuard.AllowedOrdersKeepTheRatio` | src/gold_engine_core/execution.py:217-358 | an allowed order lies between stop and target and keeps the planned ratio at the price it pays, within the planned spread |
| `ExecutionGuard.ReflectedPlanIsValid` | src/gold_engine_core/contracts.py:408-421 | reflecting a plan about a tick-aligned axis gives a valid plan of the other side |
| `ExecutionGuard.VerdictReflects` | src/gold_engine_core/execution.py:217-358 | reflecting plan and quote keeps the verdict, its reasons and every R figure |
| `ExecutionGuard.AcceptedOrdersKeepTheLimits` | src/gold_engine_core/execution.py:290-297 | for a caller that books each accepted order into the exposure, position count, total volume and one order per signal stay within the profile |
| `RiskSizing.MoreCapitalIsNeverWorse` | src/bot_ea/risk_engine.py:476-535 | a larger allocation never gets a worse allocation status |
| `RiskSizing.ModeIsMonotone` | src/bot_ea/risk_engine.py:109-200 | more realized loss or open risk never loosens the mode |
| `RiskSizing.BudgetIsMonotone` | src/bot_ea/risk_engine.py:400-434 | nor does it raise the risk budget |
| `RiskSizing.NormalizeIsMonotone` | src/bot_ea/risk_engine.py:389-398 | normalization to steps is monotone in the raw volume |
| `RiskSizing.PressureNeverEnlargesATrade` | src/bot_ea/risk_engine.py:202-387 | more pressure never loosens the mode, turns a refusal around or enlarges the volume |
| `RiskSizing.RefusedVolumeIsZeroAndMonotone` | src/bot_ea/risk_engine.py:202-387 | with a refusal counted as zero the volume is monotone as a whole |
| `RiskSizing.AcceptedIffAStepFits` | src/bot_ea/risk_engine.py:337-358 | with a sufficient budget a trade is accepted exactly when a whole number of steps fits between minimum and limit |
| `RiskSizing.AcceptedVolumeIsTheLargestFit` | src/bot_ea/risk_engine.py:337-387 | an accepted volume is the largest number of whole steps that fits, at least the minimum, and its loss stays within the budget |
| `RiskSizing.RoundingMovesLittle` | src/bot_ea/risk_engine.py:389-398 | for steps off the 1e-8 grid the final rounding moves the volume by at most half of 1e-8 |
| `RiskSizing.TradeFitsBothLimits` | src/bot_ea/risk_engine.py:426-434 | the loss of an accepted trade fits what is left of the daily and of the open-risk limit |
| `RiskLimits.CapitalStaysWithinTheAccount` | src/bot_ea/risk_engine.py:436-447 | the capital is never negative and never exceeds the equity |
| `RiskLimits.PercentAllocationIsItsShare` | src/bot_ea/risk_engine.py:436-447 | a percentage allocates its share of the equity, between nothing and all of it |
| `RiskLimits.CashAllocationIsCovered` | src/bot_ea/risk_engine.py:436-447 | a cash allocation is taken as named, as far as the equity covers it |
| `RiskLimits.LossIsTheMoveToTheStop` | src/bot_ea/risk_engine.py:467-474 | the loss per lot is what one lot loses over the stop distance, from whatever price it was entered at |
| `RiskLimits.BudgetIsTheTightestShare` | src/bot_ea/risk_engine.py:426-434 | the budget is the tightest of the trade's own share and what is left of the daily and the open-risk allowance, and zero exactly when one of them is |
| `RiskLimits.ModeIsTheStrictestCalledFor` | src/bot_ea/risk_engine.py:109-200 | a requested mode is obeyed; else Strict and Caution exactly when symbol, spread, margin, capital or a used allowance call for them |
| `RiskLimits.AllocationIsJudged` | src/bot_ea/risk_engine.py:476-535 | an allocation is rejected exactly when it is below the class floor, twice the margin of the smallest trade, or what twice the tolerated risk needs; clean exactly when it clears every bar |
| `RiskLimits.RecommendedMinimumIsFineIff` | src/bot_ea/risk_engine.py:60-106 | every recommended minimum earns a clean verdict except that for swing trading an index |
| `RiskLimits.RefusedForTheFirstObjection` | src/bot_ea/risk_engine.py:202-358 | a trade is refused for the first of eight objections that applies, and accepted exactly when none does |
| `RiskLimits.AcceptedTradesRiskTheirShare` | src/bot_ea/risk_engine.py:337-407 | the loss of an accepted trade at its stop stays within the share of the capital that its mode puts at risk |
| `Stability.RisingSeriesHaveNonnegativeSlope` | src/gold_engine_core/g19_stability.py:109-122 | a series that never falls has no negative slope, by the Chebyshev sum inequality |
| `Stability.SlopeIsLinear` | src/gold_engine_core/g19_stability.py:109-122 | the slope follows a change of unit or origin |
| `Stability.LinearSeriesReturnTheirRate` | src/gold_engine_core/g19_stability.py:109-122 | an exactly linear series has exactly its rate per hour |
| `StabilitySlope.SlopeIsLeastSquares` | src/gold_engine_core/g19_stability.py:109-122 | no other line misses the values by less than the one through the means with the reported slope, equal times included |
| `StabilityTrend.Windows` | src/gold_engine_core/g19_stability.py:125-134 | the cutting loop |
| `StabilityTrend.WindowsAreBalanced` | src/gold_engine_core/g19_stability.py:125-134 | at most four nonempty windows of nearly equal size whose concatenation is the input |
| `StabilityTrend.Trend` | src/gold_engine_core/g19_stability.py:137-163 | warm-up, extremes, medians, noise and verdict of a series, the median between the extremes |
| `StabilityFigures.MedianIsTheMiddle` | src/gold_engine_core/g19_stability.py:141 | the median is the middle of any ascending arrangement of the values, or halfway between the two in the middle |
| `StabilityFigures.PercentileIsOnTheLine` | src/gold_engine_core/g19_stability.py:98-106 | a percentile lies that far along any ascending arrangement, on a straight line between neighbours |
| `StabilityFigures.NoiseIsTheWidestWindow` | src/gold_engine_core/g19_stability.py:142-145 | the noise is the width of the widest window between its 5% and 95% lines |
| `StabilityFigures.WindowSizesAre` | src/gold_engine_core/g19_stability.py:125-134 | four windows, or one per value, and what does not divide evenly goes to the first ones |
| `StabilityFigures.LeakIs` | src/gold_engine_core/g19_stability.py:146-150 | a leak is at least three windows whose medians rise throughout, the last step by more than every width |
| `StabilityTrend.NonincreasingIsNeverFlagged` | src/gold_engine_core/g19_stability.py:144-150 | a series that never rises is never flagged as a leak |
| `StabilityVerdict.MedianMapped` | src/gold_engine_core/g19_stability.py:141 | medians follow an increasing affine map |
| `StabilityVerdict.PercentileMapped` | src/gold_engine_core/g19_stability.py:98-106 | so do interpolated percentiles |
| `StabilityVerdict.VerdictIgnoresUnitAndOrigin` | src/gold_engine_core/g19_stability.py:137-150 | the leak verdict does not depend on unit or origin of the series |
| `StabilityVerdict.SteadyClimbIsFlagged` | src/gold_engine_core/g19_stability.py:137-150 | every steady climb, however slow, is flagged exactly when there are samples for three windows |
| `KeyValueParser.ExtractPairs` | src/bot_ea/codex_cli_engine.py:176-195 | strip, match, cut and collect, against the scan of the stripped text |
| `KeyValueParser.MatchesAreInOrder` | src/bot_ea/codex_cli_engine.py:184-193 | matches come in order and every value ends at the next one or at the end |
| `KeyValueRoundTrip.ScanGivesThePairs` | src/bot_ea/codex_cli_engine.py:176-195 | text before the first key changes nothing |
| `KeyValueRoundTrip.RoundTrip` | src/bot_ea/codex_cli_engine.py:176-195 | rendering pairs, on one line or many, and extracting them gives the pairs back |
| `KeyValueRoundTrip.DistinctKeysAreAllKept` | src/bot_ea/codex_cli_engine.py:188-194 | with distinct keys the map holds exactly the pairs |
| `KeyValueRoundTrip.ValueSurvivesIff` | src/bot_ea/codex_cli_engine.py:184-194 | a value survives exactly when it is trimmed and hides no key pattern |
| `DecisionContract.AcceptedDecisionsAreComplete` | src/bot_ea/codex_cli_engine.py:99-174 | an accepted response has a reason, a confidence in range when it has one, and a stop distance when it trades |
| `DecisionContract.ContractRoundTrip` | src/bot_ea/codex_cli_engine.py:99-195 | a complete decision rendered under the documented keys, on one line or many, after any harmless text, is read back exactly |

## Left out

- Binary floating point and 28-digit decimal rounding: values are reals; the epsilons written in the code are kept, and so is the rounding to eight digits in the sizing.
- Calendar and time zones: timestamps are integers with the offset applied; naive datetimes and their promotion are not modelled.
- Broker calls, terminal identity and symbol mapping: validation, sending and the two calculators are arbitrary answers, or linear where a theorem says so; a calculator that returns nothing is not modelled.
- SQL, JSON, hashing, report files and command lines: rows arrive as values.
- Ordering of a report's signals by their opening time, which the scripts do by text: signals arrive in that order.
- Zero initial risk in the revised replays: the scripts divide by zero there, so signals carry a stop away from the entry.
- Portfolio.Simulator.OpenPositions: lot counters, the first high-lot time and the peaks of margin and concurrency are not in the state, nor are floating equity and its drawdown; they do not feed back into the run.
- Portfolio.Simulator.CheckBar: floating equity extremes, floating drawdown and the margin level of a bar are not in the state; the stop-out test is.
- PortfolioInputs.LoadGroups: the outcomes of both reports arrive already cut to the window between start and end.
- Tier lots that are equal up to `isclose`: the model identifies a variant by its tier, the script by its lot.
- Text fields of ledger rows (run, symbol, side, cycle ids) and quote telemetry: they are copied and never decide anything.
- CausalReplay.Run: the checks of profile, fingerprint and symbol contract and the hash of the events are left out.
- TradeLedger.BuildTradeLifecycleRows: the reported status is one boolean, closed or open.
- FillMatching.AggregatePositionEvents: prices, spread, slippage, risk cash, exit reason and notes of an aggregate are copied or coalesced in the code and are not folded here.
- FillMatching.BridgeRuntimeRecords: the telemetry coalesced into a trade record and the final ordering of the records are not modelled; pairing and counts are.
- ExecutionBridge.BuildExecutionBridge: rows are taken after coalescing with their payload and text normalization; fractions in execution ids are not modelled.
- OrderProtocol.PollingRuntime.RunCycle: market snapshots, decisions and risk-guard rows are not recorded; execution, position and stop records are.
- OrderProtocol.PollingRuntime.Trade: volumes, prices and payloads of the execution records are not recorded.
- OrderProtocol.ExecutionRuntime.Execute: latency, slippage, return codes and details of the result are not computed.
- OrderProtocol.ExecutionRuntime.RunPreflight: the list of execution guards is one yes-or-no answer, stop-distance, sl and tp are not carried in requests, and latency and slippage figures are not computed.
- ExecutionGuard.AcceptedOrdersKeepTheLimits: the source only checks the exposure it is given; the step that books an accepted order models its caller.
- KeyValueParser.ExtractPairs: the pattern matcher is a function.
- DecisionContract.AcceptedDecisionsAreComplete: reading a number from text is an arbitrary function, so not-a-number and infinities are not modelled.
- Case folding beyond ASCII in symbols and sides.
- Payload validation and latency summaries of the stability report: only one series and its verdict are modelled.
- Message texts, warnings and details of sizing results and validations.
- Argument checks, presentation and operator tooling of the scripts.
