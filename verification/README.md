# Trading engine verification

A Dafny model of a futures trading engine and proofs of what it promises. It covers the signal
sanitizer, the execution planner, the demo (paper-trading) engine and its accounts, the live
protective-order protocol with crashes and a failing exchange, reconciliation, the signal consumer,
subscription payments, client order ids and the token-bucket rate limiter. `dafny verify
dfyconfig.toml` checks everything. Decimals are exact reals.

The main results:

- **Sanitizer.** The dynamic program returns the unique best strictly monotone subsequence under
  its three-level preference, and the whole pipeline returns the best selection of the repaired
  list together with its exact complement.
- **Planner.** The merge loop equals a closed description of groups; quantity and fractions are
  conserved, every leg meets the exchange minimums, and failure is characterized exactly.
- **Demo engine.** The stored-state engine refines a stateless reading of the price history, for
  every history, and never loses more than one margin although nothing clamps it.
- **Live protocol.** `LiveExchange.Exchange` may fill orders between any two calls and may raise
  before or after any effect. Each account it passes through since the last commit is kept in
  `history`, and its `Valid` says that a process stopping at any of those moments leaves a safe
  state. `LiveRuns` puts the handlers together: every reachable state of every run is safe.
- **Reconciliation.** On any exchange, a pass that reports no failure has restored the stop, and
  every open leg's take-profit is live or has filled. A following pass is idle under an exact
  condition. An exchange that is `quiet` neither raises nor fills; only the closed form of one pass
  and the idleness of an immediate second one are stated for it.
- **Accounting.** Demo and live closings agree in profit, return and reason.

Findings, with the exact conditions:

- "The stored stop stays live" is false. It is lost exactly when the session is rolled back during
  the first fill of the first target of an open trade with quantity left, after the cancellation of
  the old stop took effect and before the break-even id was committed, with the position still open
  (`OneTurn`; the moment is that of `HeldUntil`). `CrashAfterMovingTheStop` shows that every such
  trade can lose it, even when nothing fails. `Continue` proves the property for all runs without
  such a rollback, and that some stop covers the position even then. A crash is one cause of the rollback; an
  exception while the result is published inside the same session is another
  (`services/core_engine/main.py:329-341`), and `CrashAt` stands for both.
- Reconciliation places a take-profit again that has filled while the database does not know of it
  (`FilledTakeProfitPlacedAgainIff`). If the exchange accepts the id again, the leg can sell twice
  (`FilledLegSoldTwice`).
- An exception after a trade was opened marks its row as errored and leaves the position open under
  its live stop (`OpenLiveTrade`); reconciliation looks at pending and open rows only.
- The merge can fail for SHORT although the position as a whole is large enough
  (`ShortMergeCanFail`); never for LONG.
- A rounded stop can coincide with the rounded entry (`RoundedStopCanMeetEntry`, and exactly when:
  `RoundedStopOnLosingSideIff`).
- The planner divides by a rounded entry of zero exactly for a LONG entry below one tick
  (`DividesByZeroIff`, `HalfATickDividesByZero`); `EntryRoundsToZero` stands for that error.
- The reported token-bucket wait is too short exactly when the caller's clock reading was behind
  the bucket and the tokens were not there already (`WaitFromReadingSufficesIff`), and a finite wait
  is reported for requests above the capacity, which are never granted.

Where code and documentation differ the model follows the code. Section 8 of
`MRRIK_AI_Bot_Architecture.md` breaks ties by keeping the earliest targets, or dropping the
highest-indexed offender; the code prefers the values nearest the entry (line 349, against
`shared/signal/sanitizer.py:181-197`). The document places the stop with closePosition and replaces
it by cancelling first (lines 390 and 418); the code places a quantity, and cancels only after the
new stop was confirmed (`services/core_engine/lifecycle.py:95-151`).

## Model

| member | source | states |
|---|---|---|
| Sanitizer.PreferenceIsTotal | shared/signal/sanitizer.py:181-197 | of two different paths exactly one is preferred: length, then values, then indices |
| Sanitizer.PreferenceSurvivesAppend | shared/signal/sanitizer.py:135-137 | the preferred of two paths stays preferred when the same later index is appended to both (optimal substructure) |
| Sanitizer.InnerLoopIsOptimal | shared/signal/sanitizer.py:128-138 | trying every earlier best path plus the new index gives the best of all paths ending there |
| Sanitizer.BestPathEndingAt | shared/signal/sanitizer.py:128-138 | the inner loop returns the best path ending at the index |
| Sanitizer.LongestMonotonicSubsequenceIndices | shared/signal/sanitizer.py:113-144 | the result is at least as good as every strictly monotone index list |
| Sanitizer.BestPathIsUnique | shared/signal/sanitizer.py:113-144 | there is only one best path |
| Sanitizer.BestPathBeatsEveryOther | shared/signal/sanitizer.py:113-144 | any other path is shorter, or farther from the entry at the first differing value, or later at the first differing index |
| Sanitizer.SortedIsOrdered | shared/signal/sanitizer.py:147-152 | the list whose middle is the median is an ascending permutation |
| Sanitizer.MedianIsMiddle | shared/signal/sanitizer.py:147-152 | a number is the median exactly when it is in the middle of some ascending permutation, or halfway between its two middle values |
| Sanitizer.RepairIsAShift | shared/signal/sanitizer.py:155-178 | a repair multiplies or divides by ten, lands on the profitable side, changes the target, and is the profitable candidate nearest the median |
| Sanitizer.RatioTestIff | shared/signal/sanitizer.py:166-169 | the ratio test passes exactly when the larger of target and median is lo to hi times the smaller |
| Sanitizer.RepairFollowsRule | shared/signal/sanitizer.py:155-178 | a candidate exists exactly when target and median are positive, the ratio is in range and ten times or a tenth of the target is profitable; it is ten times the target unless only the tenth is profitable or the median lies below the midpoint of the two |
| Sanitizer.ChangesIffShifted | shared/signal/sanitizer.py:36-43 | a target changes exactly when it looks shifted |
| Sanitizer.SlipIsRepaired | shared/signal/sanitizer.py:155-178 | a concrete tenfold slip that is repaired, and a good target that stays |
| Sanitizer.RepairedTargetsFollowRule | shared/signal/sanitizer.py:29-51 | every repaired target is what the rule makes of the sent target and the median of all of them |
| Sanitizer.NoneViableIff | shared/signal/sanitizer.py:53-63 | nothing survives exactly when no sent target is profitable or looks shifted |
| Sanitizer.RepairTargets | shared/signal/sanitizer.py:29-51 | the loop repairs every target (by the rule of RepairedTargetsFollowRule) and records exactly the changed ones, in order |
| Sanitizer.FilterBySide | shared/signal/sanitizer.py:53-59 | survivors and drops are the profitable and the other positions, each in order |
| Sanitizer.DropUnkept | shared/signal/sanitizer.py:68-70 | dropped pairs are the wrong-side ones and the survivors that were not kept, without duplicates |
| Sanitizer.SurvivorsGiveTheBestSelection | shared/signal/sanitizer.py:64-67 | the best path through the survivors is the best selection of the whole repaired list |
| Sanitizer.SortedDropsSplit | shared/signal/sanitizer.py:68-83 | kept and sorted dropped positions partition the repaired list, each in original order |
| Sanitizer.SanitizeSignal | shared/signal/sanitizer.py:14-86 | each rejection in exactly its case, the one for targets read off the sent targets; otherwise the record is the best selection, its complement, the corrections and the alert, and kept and dropped values are the sent targets, changed exactly where they look shifted |
| Sanitizer.AcceptedSignalIsTradable | shared/signal/sanitizer.py:24-86 | clean targets are nonempty, strictly monotone, profitable, beyond the stop, and each is the sent target or that target shifted one digit |
| Sanitizer.AlertIffChanged | shared/signal/sanitizer.py:82-86 | no alert if and only if the clean list is the list that was sent |
| Pnl.PositionPnlIsWeightedReturn | shared/signal/pnl.py:40-61 | the profit of a share is the margin times the share-weighted leveraged return |
| Pnl.WorsePriceMeansWorseReturn | shared/signal/pnl.py:8-37 | for both sides a price is worse exactly when its return on margin is lower |
| Pnl.ReturnAtLiquidation | shared/signal/pnl.py:64-82 | at the liquidation price the return is maintenance rate times leverage minus one |
| Pnl.LiquidationBeforeStopIffLossExceedsMargin | shared/signal/pnl.py:85-103 | liquidation precedes the stop exactly when the stop loses more than the margin less maintenance |
| Pnl.SafePriceLosesLessThanMargin | shared/signal/pnl.py:64-82 | a price on the safe side of liquidation loses strictly less than the margin |
| Sizing.FloorBounds | shared/signal/sizing.py:36-41 | flooring to a step is at most the value and less than one step below it |
| Sizing.FloorIsWhole | services/core_engine/risk.py:39-44 | a rounded quantity is a multiple of the step |
| Sizing.RoundPriceKeepsOrder | services/core_engine/risk.py:47-60 | rounding keeps the weak order of prices on each side |
| Sizing.RoundPriceBounds | services/core_engine/risk.py:47-60 | LONG prices round down and SHORT prices round up, by less than a tick, and stay non-negative |
| Sizing.EqualFractionsPartition | shared/signal/sizing.py:70-76 | equal fractions are positive, sum to exactly one and are all 1/n |
| Sizing.Model2FractionsPartition | shared/signal/sizing.py:79-100 | truncated weights renormalize to positive fractions that sum to exactly one in the configured ratios |
| ExecutionPlan.SplitConserves | services/core_engine/risk.py:141-145 | floored shares with the residual on the first are non-negative step multiples that sum to the total |
| ExecutionPlan.GroupsGetTheirShares | services/core_engine/risk.py:141-145 | consecutive targets that do not begin with the first get at most their share of the quantity and less than a step per target below it; those that do get at least their share, with the steps that the others lack |
| ExecutionPlan.FlushPending | services/core_engine/risk.py:229-243 | the leftover group is added to the last leg, or the merge fails because no leg was closed |
| ExecutionPlan.MergeTinyLegs | services/core_engine/risk.py:167-243 | the loop returns exactly the legs of the group description, or fails exactly when the first group never closes |
| ExecutionPlan.CloseFromIsNearest | services/core_engine/risk.py:193-198 | a group closes at the first target at which its quantity and notional reach the minimums |
| ExecutionPlan.LaterStartsMeetMinimumsAlone | services/core_engine/risk.py:200-220 | after the first leg a target opens a leg of its own only if it meets the minimums alone |
| ExecutionPlan.MergedLegsAreGood | services/core_engine/risk.py:167-243 | merging conserves quantity and fraction; legs have increasing indices from 1, the rounded target of their index, and meet both minimums |
| ExecutionPlan.MergeFailsIff | services/core_engine/risk.py:229-231 | merging fails exactly when total quantity times the first rounded target is below the minimum notional |
| ExecutionPlan.LegsGetTheirShares | services/core_engine/risk.py:141-164 | the fraction of a leg is the sum over the targets it carries of 1/n or weight over sum of weights, and its quantity is that share of the position to within a step per target |
| ExecutionPlan.TotalQtyIsLargest | services/core_engine/risk.py:95-100 | the quantity is the largest whole number of steps that margin times leverage can buy at the rounded entry |
| ExecutionPlan.Model3ExitReturns | services/core_engine/risk.py:111-114 | the unrounded model-3 exit returns exactly the configured ROI |
| ExecutionPlan.InputsPassIff | services/core_engine/risk.py:246-283 | the requests that pass the input checks |
| ExecutionPlan.BuildExecutionPlan | services/core_engine/risk.py:63-164 | the error is the one of a closed-form list of conditions; a plan has margin times leverage as notional, the whole position in legs that are step multiples meeting the minimums, each with its share of the position at its target, and the model-3 exit |
| ExecutionPlan.LongMergeNeverFails | services/core_engine/risk.py:89-100 | for LONG no request that passes the earlier checks fails in the merge |
| ExecutionPlan.ShortMergeCanFail | services/core_engine/risk.py:229-231 | for SHORT the merge can fail: a concrete request |
| ExecutionPlan.LegPricesKeepOrder | services/core_engine/risk.py:182-190 | leg prices of monotone targets stay weakly ordered and never cross the rounded entry |
| ExecutionPlan.RoundedStopOnLosingSideIff | services/core_engine/risk.py:89-94 | the rounded stop is strictly beyond the rounded entry exactly when the raw stop is beyond the rounded entry |
| ExecutionPlan.RoundedStopCanMeetEntry | services/core_engine/risk.py:89-94 | a concrete LONG entry and stop that round to one price |
| ExecutionPlan.EntryRoundsToZeroIff | services/core_engine/risk.py:89-96 | the rounded entry is not positive exactly for a LONG entry below one tick |
| ExecutionPlan.DividesByZeroIff | services/core_engine/risk.py:89-96 | the requests that end in the division by zero are exactly the otherwise valid LONG ones with an entry below one tick |
| ExecutionPlan.HalfATickDividesByZero | services/core_engine/risk.py:89-96 | such a request |
| DemoTrade.ComputeBlendedPnl | services/demo_engine/trade_logic.py:321-347 | the accumulating loop computes the recursive blended result, errors included |
| DemoTrade.BlendedIsShares | services/demo_engine/trade_logic.py:321-347 | the blended result is the margin times the sum of share-weighted returns |
| DemoTrade.RebuiltFractionsPartition | services/demo_engine/engine.py:345-357 | fractions rebuilt from stored quantities are positive and sum to one |
| DemoTrade.OpenedFromPlan | services/demo_engine/trade_logic.py:91-168 | a trade opened from an accepted plan starts untouched, and the fractions rebuilt on each tick are the planned ones |
| DemoTrade.PlanInNumbers | services/demo_engine/trade_logic.py:121-151 | margin times leverage is the notional and the quantity times the entry; each target gets an equal part or its weight's part of it |
| DemoTrade.SaneFromSignal | services/demo_engine/trade_logic.py:91-168 | a plan for a sanitized signal opens a trade with its stop on the losing side, its targets on the profitable side and the formula liquidation price |
| DemoTrade.TickWithLegs | services/demo_engine/trade_logic.py:171-293 | one stored-state tick of a trade with legs gives what the longer price history determines (the stop of that reading is pinned by StopIsStopNow) |
| DemoTrade.TickWithoutLegs | services/demo_engine/trade_logic.py:208-231 | the same for a model-3 trade |
| DemoTrade.StopIsStopNow | services/demo_engine/trade_logic.py:59-69 | the active stop is the entry exactly when the setting is on and some price so far reached the first target |
| DemoTrade.VerdictInPrices | services/demo_engine/trade_logic.py:196-293 | whether, why, at what price and with which touched legs a price closes the trade, read off prices, entry, stop, targets and returns |
| DemoTrade.ReportedExit | services/demo_engine/trade_logic.py:196-318 | the exit price of every close, by its reason |
| DemoTrade.NextTick | services/demo_engine/engine.py:240-296 | after any history that left the trade open, the next price closes it for the reason, with the return and with the touched legs that the prices give, or leaves it open |
| DemoTrade.ClosesAtFirstStop | services/demo_engine/engine.py:240-296 | without liquidation and with a target never reached, the trade closes exactly at the first price at or beyond its stop, which is the entry once the first target was reached with the setting on, and the stop loss otherwise |
| DemoTrade.EngineFollowsHistory | services/demo_engine/engine.py:240-296 | over every price history the stored-state engine ends in the trade read off the history without state: touched legs, closing tick, reason, price, profit (NextTick gives that reading in prices) |
| DemoTrade.FirstCloseIsFirst | services/demo_engine/engine.py:240-296 | the closing tick is the first at which liquidation, a profit exit or the active stop is crossed |
| DemoTrade.ClosedForGood | services/demo_engine/engine.py:230-296 | once a run has closed the trade no longer price history changes it |
| DemoTrade.TouchedIsPrefix | services/demo_engine/trade_logic.py:233-243 | with monotone targets the touched legs are a prefix |
| DemoTrade.LiquidationTouchesNothing | services/demo_engine/trade_logic.py:196-206 | when maintenance rate times leverage is below one, the liquidating tick touches no further target |
| DemoTrade.Model3ExitIsProfitable | services/demo_engine/trade_logic.py:72-88 | the return at the model-3 threshold is exactly the configured ROI |
| DemoTrade.BlendLosesLessThanMargin | services/demo_engine/trade_logic.py:321-347 | exits that each lose less than everything blend to less than one margin |
| DemoTrade.ExitBeatsLiquidation | services/demo_engine/trade_logic.py:263-318 | every exit other than liquidation returns more than minus one margin |
| DemoTrade.LossIsBoundedByMargin | services/demo_engine/trade_logic.py:171-318 | on every run from a sane signal the realized loss is at most one margin, and one whole margin exactly on liquidation |
| DemoStore.ClosedPnlUpdate | services/demo_engine/repository.py:173-202 | closing a trade adds its profit to its owner's history and nobody else's |
| DemoStore.WithoutUserKeepsOthers | services/telegram_bot/repository.py:212-224 | deleting one user's trades leaves every other history alone |
| DemoStore.CountsPartition | services/demo_engine/stats.py:13-20 | open and closed rows are all rows; wins and losses are all closed rows |
| DemoStore.StatsInRows | services/demo_engine/stats.py:7-44 | the report counts the rows of the user that are stored, open, closed, won and lost, and its rates give back the counts and the profit |
| DemoStore.LeverageInFields | services/demo_engine/engine.py:335-342 | the leverage is at most the signal's and, in cap mode with a cap, the smaller of the two; else the signal's |
| DemoStore.WithoutUserIsOthers | services/telegram_bot/repository.py:212-224 | what is left after a deletion is exactly the rows of the other users, in their order |
| DemoStore.DemoRepository.GetOrCreateDemoAccount | services/demo_engine/repository.py:56-72 | creates an account at its start balance only when there is none, keeping the books |
| DemoStore.DemoRepository.CreateOpenDemoTrade | services/demo_engine/repository.py:89-130 | appends one open trade at the signal's current leverage, whatever is open; at most one per user and signal is kept exactly when there was none |
| DemoStore.DemoRepository.OpenForAccounts | services/demo_engine/engine.py:122-196 | opens one trade for exactly the accounts without one whose plan is accepted, with their own leverage; the signal's leverage is restored; counters add up |
| DemoStore.DemoRepository.HandleSignalCreated | services/demo_engine/engine.py:90-206 | each status and ignored reason in exactly its case; the reason of no eligible accounts is never given |
| DemoStore.DemoRepository.TickTrade | services/demo_engine/engine.py:262-302 | stores the tick's result and moves the owner's balance by the realized profit |
| DemoStore.DemoRepository.HandleMarkPrice | services/demo_engine/engine.py:221-322 | every open trade of the symbol takes one tick, all others none, the count is that of the rows that closed, and an error changes nothing |
| DemoStore.DemoRepository.ResetDemoForUser | services/telegram_bot/repository.py:212-224 | what is left is exactly the other users' rows in their order; the start balance is restored and other users keep theirs |
| DemoStore.DemoRepository.GetDemoStats | services/demo_engine/stats.py:7-44 | the report counts the user's stored rows by kind, its rates give back the counts, and the net profit is the sum over the closed trades in every reachable store |
| TokenBucket.RunConservesTokens | shared/rate_limit.py:34-65 | over any calls, clocks going backwards included, tokens granted plus tokens left are at most the start plus what the bucket's clock earned |
| TokenBucket.RunEarnsExactly | shared/rate_limit.py:34-53 | when all that the clock earns would fit, tokens granted plus tokens left are exactly the start plus what was earned |
| TokenBucket.ClockIsLatestReading | shared/rate_limit.py:34-40 | the bucket's clock is the latest reading it was brought, and requests that raise bring none |
| TokenBucket.WindowIsRateLimited | shared/rate_limit.py:34-53 | in any window of a run no more than capacity plus rate times clock advance is granted |
| TokenBucket.WaitIsExact | shared/rate_limit.py:55-65 | for a request within capacity acquiring succeeds at an instant exactly when the reported wait has passed |
| TokenBucket.WaitFromReadingSufficesIff | shared/rate_limit.py:55-65 | counted from the caller's reading the wait suffices exactly when that reading was not behind the bucket or the tokens were there already |
| TokenBucket.WaitBehindTheClockIsTooShort | shared/rate_limit.py:36-37 | a concrete reading behind the clock for which the wait is too short |
| TokenBucket.SomeInstantGrantsIff | shared/rate_limit.py:42-65 | a request can ever be granted exactly when it is within capacity |
| TokenBucket.Bucket.Create | shared/rate_limit.py:15-32 | rejects a non-positive rate or capacity, else starts full |
| TokenBucket.Bucket.RefillNow | shared/rate_limit.py:34-40 | the object follows the value model of a refill |
| TokenBucket.Bucket.TryAcquire | shared/rate_limit.py:42-53 | grants exactly when enough tokens are there after the refill, and takes them |
| TokenBucket.Bucket.SecondsUntilAvailable | shared/rate_limit.py:55-65 | reports the model's wait and only refills |
| OrderIds.DecimalReadsBack | services/core_engine/ids.py:36-38 | decimal digits read back as the number |
| OrderIds.ClientOrderIdIsInjective | services/core_engine/ids.py:19-43 | two keys with one client order id are the same key |
| OrderIds.TextIsSafe | services/core_engine/ids.py:41-42 | the character check never fires |
| OrderIds.ClientOrderIdSucceedsIff | services/core_engine/ids.py:26-43 | an id is produced exactly for well-formed keys whose text fits in 36 characters |
| OrderIds.IdsOfTrade12 | services/core_engine/ids.py:6-43 | the id text of every kind of order for one trade |
| OrderIds.DatabaseKeysAlwaysFit | services/core_engine/ids.py:39-40 | for trade ids below 2^63 and legs below 2^31 the length check never fires |
| Payments.SubmittedHasPending | services/admin_panel/repository.py:143-145 | in matched books every submitted payment has a pending subscription of its user and plan |
| Payments.SubmissionKeepsMatched | services/telegram_bot/repository.py:142-161 | a submission keeps every user's and plan's books matched |
| Payments.DecisionKeepsMatched | services/admin_panel/repository.py:147-153 | moving a payment and its pending subscription together keeps all books matched |
| Payments.ExpiryKeepsMatched | services/telegram_bot/repository.py:335-337 | expiry keeps active plus expired equal to approved |
| Payments.StripsBothEnds | services/telegram_bot/repository.py:133-137 | trimming removes exactly the white space at both ends |
| Payments.Store.CreatePendingSubscriptionAndPayment | services/telegram_bot/repository.py:125-161 | each input error in its case and order, duplicates refused, else both rows or none; books stay matched |
| Payments.Store.LatestPending | services/admin_panel/repository.py:133-143 | finds the newest pending subscription of the user and plan, or none exists |
| Payments.Store.ApprovePayment | services/admin_panel/repository.py:122-166 | succeeds exactly on submitted payments, never for lack of a subscription; activates the newest pending one for the plan's days |
| Payments.Store.RejectPayment | services/admin_panel/repository.py:168-208 | decides exactly submitted payments and rejects the newest pending subscription |
| Payments.Store.EnforceExpiry | services/telegram_bot/scheduler.py:56-81 | exactly the active subscriptions whose end has come change, only in status and to expired, and they are counted |
| SignalConsumer.HandleOpensAtMostOnce | services/core_engine/engine.py:117-130 | no event id is opened twice, and a retry leaves nothing behind |
| SignalConsumer.RedeliveryIsHarmless | services/core_engine/engine.py:127-128 | handling a settled event again changes nothing and asks for no retry |
| SignalConsumer.HandleSettles | services/core_engine/repository.py:58-64 | an outcome other than retry marks the event for good |
| SignalConsumer.HandleInFields | services/core_engine/engine.py:113-145 | which events are processed, ignored or to be retried, and what each leaves in the database |
| SignalConsumer.Consumer.ReadSignalRecords | services/core_engine/main.py:237-260 | pending records are read first, then new ones in turn; delivered records are pending or acknowledged |
| SignalConsumer.Consumer.Acknowledge | services/core_engine/main.py:206 | an acknowledgement, possibly lost before or after its effect, needs a committed non-retry outcome |
| SignalConsumer.Consumer.Transact | services/core_engine/main.py:185-195 | one session: rolled back, committed, or committed without the consumer learning of it |
| SignalConsumer.Consumer.ProcessMessage | services/core_engine/main.py:171-219 | acknowledges a signal event only after its non-retry commit; without failures exactly then |
| SignalConsumer.Consumer.Run | services/core_engine/main.py:162-219 | over any run with crashes: acknowledged events are settled, delivered ones are pending or acknowledged, the openings are exactly the events of the commits that processed one, in order and each once, and nothing is undone |
| Pipeline.AcceptedIsSane | shared/signal/sanitizer.py:24-86 | an accepted signal has its stop on the losing side and strictly monotone targets on the profitable side |
| Pipeline.SidesNeverRejected | services/core_engine/risk.py:263-283 | the planner never rejects an accepted signal for a stop or target on the wrong side, or for missing targets |
| Pipeline.SidesAreOneOrder | services/demo_engine/trade_logic.py:44-57 | every price comparison of the sanitizer and of the engines is one order on prices, the one in which a worse price has a lower return |
| Pipeline.DemoRunOfAcceptedSignal | services/demo_engine/engine.py:90-322 | from an accepted signal through any price history: the stored state is what the history determines, and the loss is at most the margin, all of it exactly on liquidation |
| LiveExchange.RemainingIsUnfilled | services/core_engine/lifecycle.py:96-103 | quantity minus filled quantity is the sum over the unfilled legs |
| LiveExchange.RemainingCoversPosition | services/core_engine/reconciliation.py:73-80 | what the database thinks is open is never less than the exchange position |
| LiveExchange.FillKeepsInv | shared/exchange/client.py:54-74 | a conditional fill keeps row and account linked and no stop stops covering |
| LiveExchange.Exchange.Elapse | shared/exchange/client.py:106-108 | between calls orders may fill and the position may be liquidated; covering stops keep covering and live take-profits stay live or fill |
| LiveExchange.Exchange.PlaceStop | shared/exchange/client.py:54-63 | may fail before or after its effect; success means that exactly this order is live and covers; a stop under the break-even id is at the entry |
| LiveExchange.Exchange.PlaceTakeProfit | shared/exchange/client.py:65-74 | may fail before or after its effect; success means that exactly this order is live; covering stops keep covering |
| LiveExchange.Exchange.CancelAlgoOrder | shared/exchange/client.py:80 | needs a row that can do without the order; up to the moment of its effect the order is as live as before, from then on gone; every other order is untouched |
| LiveExchange.Exchange.GetOpenAlgoOrders | shared/exchange/client.py:102-104 | a stop that is listed covers |
| LiveExchange.Exchange.GetPosition | shared/exchange/client.py:94-96 | a missing position means that nothing is open from then on |
| LiveExchange.Exchange.ClosePositionMarket | shared/exchange/client.py:84-92 | success means a flat account; a missing position is an error |
| LiveExchange.Exchange.CancelAllAlgoOrders | shared/exchange/client.py:82 | only on a flat account |
| LiveExchange.Exchange.CrashAt | services/core_engine/repository.py:42-51 | a process that stops at any moment leaves the committed row and that moment's account in a safe state |
| LivePnl.ComputeBlendedPnl | services/core_engine/lifecycle.py:345-383 | the accumulating loop computes the recursive, clamped result, errors included |
| LivePnl.BlendedPnlSucceeds | services/core_engine/lifecycle.py:353-383 | on every stored row the computation succeeds and never reports more than the margin lost |
| LivePnl.BlendIsTradeReturn | services/core_engine/lifecycle.py:345-383 | the result is the margin times the quantity-weighted return of the legs at their exits, clamped at minus one margin |
| LiveTrade.LiveTrade.MarkLegFilled | services/core_engine/repository.py:193-210 | marks the leg and adds its index to the touched targets, keeping touched equal to filled |
| LiveTrade.LiveTrade.CloseTrade | services/core_engine/repository.py:228-248 | closes the row, stores the result and cancels the open legs |
| LiveTrade.FillingALeg | services/core_engine/repository.py:200-209 | a fill keeps the row well formed, adds the index to the touched targets and changes no other leg |
| LiveTrade.PlaceStopWithRetry | services/core_engine/orders.py:175-200 | whatever fails, stops that covered still cover |
| LiveTrade.ConfirmOpenOrder | services/core_engine/lifecycle.py:280-294 | confirmation means that the stop was seen live and covers |
| LiveTrade.MoveStopToBreakEven | services/core_engine/lifecycle.py:95-151 | the old stop is live until its cancellation takes effect, which happens only while the break-even stop covers; the stored id changes only when the new stop covers; on an exchange that neither fails nor fills, that stop is for the sum of the unfilled legs at the entry and the original one is gone |
| LiveTrade.FinishAllTp | services/core_engine/lifecycle.py:67-93 | the last fill closes the trade with its blended result; the position is flat throughout; the stop is cancelled |
| LiveTrade.ClosingsInNumbers | services/core_engine/lifecycle.py:67-191 | reason, return and profit of both closings in numbers: the exchange's own figure, else margin times return at the reported price, or at the signal's stop loss or target without one |
| LiveTrade.HandleTakeProfitFill | services/core_engine/lifecycle.py:66-154 | a leg fill closes the trade or fills the leg and possibly moves the stop; a live stop stays live; without failures a moved stop is at the entry for the unfilled legs |
| LiveTrade.CancelOpenTps | services/core_engine/lifecycle.py:314-318 | cancels the take-profits of exactly the open legs and no stop |
| LiveTrade.HandleStopFill | services/core_engine/lifecycle.py:168-191 | a fill of the stored stop closes the trade as stop or break even at the reported or signal price |
| LiveTrade.HandleLiquidationUpdate | services/core_engine/lifecycle.py:297-311 | liquidation closes the row at minus one margin and minus one hundred percent |
| LiveTrade.HandleLegEvent | services/core_engine/lifecycle.py:55-154 | a take-profit event acts once; a filled leg or closed trade ignores it |
| LiveTrade.HandleUserStreamEvent | services/core_engine/lifecycle.py:34-191 | what every event does to row and account; ignored events change nothing, handled ones are ignored when repeated, closed rows never change, the committed stop is live at every moment before a break-even cancellation takes effect, and without failures a moved stop is at the entry for the unfilled legs |
| LiveOpening.EmergencyClose | services/core_engine/orders.py:251-312 | reports closed only with a flat account; the algo orders are removed only then |
| LiveOpening.PlaceTakeProfits | services/core_engine/orders.py:143-167 | one take-profit per leg at its quantity and target; failures are skipped |
| LiveOpening.TakeProfitsPlaced | services/core_engine/orders.py:143-167 | with distinct leg indices every leg has its own order at its quantity and target, and no other order is touched |
| LiveOpening.PlaceProtectiveOrders | services/core_engine/orders.py:105-172 | opened only with a live stop for the whole quantity; otherwise emergency close |
| LiveOpening.PlaceInitialOrders | services/core_engine/orders.py:39-102 | entry first, protection after the fill; opened only with a live stop |
| LiveOpening.StoreOpening | services/core_engine/engine.py:263-402 | the stored status, stop id, entry id and take-profit ids for each outcome; open with a stored stop only if that stop is live |
| LiveOpening.OpenLiveTrade | services/core_engine/engine.py:263-432 | the same, and the error status that an exception sets after the outcome was stored, with the stop of a trade that was open still live |
| LiveOpening.HandleMarkPriceForModel3 | services/core_engine/lifecycle.py:194-251 | for the trade it is given: closes exactly when the price of its symbol crosses the threshold of the user's or configured ROI and the market close succeeded; an exchange error leaves the row alone |
| Reconciliation.RestoredMeansLive | services/core_engine/reconciliation.py:69-115 | while a position is open, restored means a live stop for at least all of it and, for every open leg, a take-profit that is filled or live for exactly the leg |
| Reconciliation.StopOrderIsRight | services/core_engine/reconciliation.py:69-97 | the stop to place is for the sum of the unfilled legs (everything without legs), at the stop loss under the original id and at the entry under the break-even id |
| Reconciliation.PassPlacesStop | services/core_engine/reconciliation.py:69-97 | a pass without failure leaves the stored, or original, stop live while a position is open, and one that was missing is that stop, with its id stored |
| Reconciliation.PassProtects | services/core_engine/reconciliation.py:47-115 | a pass during which nothing fails or fills leaves a trade with a position with its stop and every open leg's take-profit live, a missing stop placed at the right price and quantity, and closes no trade with a position |
| Reconciliation.FilledTakeProfitPlacedAgainIff | services/core_engine/reconciliation.py:98-115 | a take-profit that has filled is placed again exactly when its leg is still open in the database and the position is not flat |
| Reconciliation.NextPassIsIdleIff | services/core_engine/reconciliation.py:47-115 | on what a pass without failure restored, with any fills since, the next pass is idle exactly when no open leg of an open position has filled unseen and something is left on the exchange |
| Reconciliation.SecondPassIsIdle | services/core_engine/reconciliation.py:47-115 | when nothing fills in between, an immediate second pass repairs, closes and changes nothing |
| Reconciliation.RepairStop | services/core_engine/reconciliation.py:69-97 | on every exchange a stop that was placed is live, for the sum of the unfilled legs, at the stop loss or, under a break-even id, at the entry, and its id is stored |
| Reconciliation.RepairTakeProfit | services/core_engine/reconciliation.py:98-115 | places and stores the missing take-profit of an open leg only, at the leg's quantity and target |
| Reconciliation.RepairTakeProfits | services/core_engine/reconciliation.py:98-115 | the loop over the legs, ended by the first failure, with its count |
| Reconciliation.ReconcileTrade | services/core_engine/reconciliation.py:34-117 | on every exchange: a pass that reports no failure has restored the stop and the take-profits whatever filled meanwhile; a stop that was live stays live; only trades without a position are closed; if nothing fails or fills the result is the specified one, with a missing stop placed at the right price and quantity |
| Reconciliation.ReconcileOpenTrades | services/core_engine/reconciliation.py:23-123 | the same for every active trade of any set on any exchanges, with the report's counters and errors |
| Reconciliation.TallyCounts | services/core_engine/reconciliation.py:23-33 | the report counts the trades looked at, names the closed and the failed ones, and sums the repairs |
| Reconciliation.ReconcileTwice | services/core_engine/reconciliation.py:23-123 | on exchanges that neither fail nor fill, a second pass over any set of trades reports no repair, closing or error, and every trade is settled |
| LiveRuns.SafeMeansCovered | services/core_engine/lifecycle.py:95-151 | in a safe state an open trade with a stored stop and a position has a live stop for at least the whole position, and a covering break-even stop is priced at the entry |
| LiveRuns.FactsOfSafeRows | services/core_engine/repository.py:193-210 | in a safe state touched targets are the filled legs and the open quantity is the sum of the unfilled ones |
| LiveRuns.TakeStep | services/core_engine/lifecycle.py:34-251 | every step of the engine keeps the row and account safe |
| LiveRuns.MoveMeansFirstFill | services/core_engine/lifecycle.py:95-151 | only the first fill of the first target of an open trade with quantity left replaces the original stop id |
| LiveRuns.OneTurn | services/core_engine/lifecycle.py:95-151 | from a live stored stop, a turn ends without it exactly when it was interrupted, which takes a process that stops during such a first fill, after the old stop was cancelled, with the position open; then the break-even stop covers |
| LiveRuns.Continue | services/core_engine/lifecycle.py:34-251 | over any sequence of turns with crashes anywhere every state is safe, closed is absorbing, and the stored stop stays live in every run without an interrupted turn, in particular when no process stops during a first-target event |
| LiveRuns.Live | services/core_engine/orders.py:39-172 | the same from the opening of the trade on |
| LiveRuns.PlannedRowIsSafe | services/core_engine/repository.py:140-177 | the row stored for an accepted plan is well formed and safe |
| LiveRuns.LiveFromRequest | services/core_engine/engine.py:238-402 | from any execution request to any point of its trade's life: touched is filled, open quantity is the unfilled legs, legs sell at the rounded targets of their index and meet the minimums; right after a quiet opening the stop is at the rounded stop loss for the whole position |
| LiveRuns.NotIgnored | services/core_engine/lifecycle.py:55-166 | an event that is not ignored is the first fill of a leg or a fill of the stored stop |
| LiveRuns.HandleTwice | services/core_engine/lifecycle.py:57-66 | an event delivered twice leaves exactly the row and the account that the first delivery left, with nothing done on the exchange since |
| LiveRuns.CrashAfterMovingTheStop | services/core_engine/lifecycle.py:140-151 | for every trade with a position, a crash after the break-even move and before its commit loses the stored stop, even when nothing fails; the break-even stop covers |
| LiveRuns.CrashWhileMovingTheStop | services/core_engine/lifecycle.py:140-151 | a concrete trade of that kind |
| LiveRuns.FilledLegSoldTwice | services/core_engine/reconciliation.py:98-115 | a concrete reconciled account whose first leg sells twice, leaving no position for the unsold second leg |
| Accounting.SameFractions | services/demo_engine/engine.py:345-357 | the demo's rebuilt fractions are the live quantities over the total |
| Accounting.BlendsAgree | services/core_engine/lifecycle.py:345-383 | on the same legs, fills and exit the live result is the demo's, clamped at minus one margin |
| Accounting.BlendIsReturn | services/core_engine/lifecycle.py:383 | for exits the demo allows, the clamp is idle |
| Accounting.Model3Alike | services/core_engine/lifecycle.py:217-250 | the demo's model-3 profit at its threshold is margin times ROI over one hundred |
| Accounting.DemoAndLiveCloseAlike | services/demo_engine/trade_logic.py:196-318 | whenever the demo closes, the live engine's closing has the same profit, return and reason |

## Left out

- Decimal context and column scales: exact reals, so 28-digit rounding, database rounding and overflow are not modelled.
- size_position of shared/signal/sizing.py: a second merge loop that no service calls.
- Partial entry fills: the entry fills in full or not at all; the wait for it, its timeout and price guard are one nondeterministic answer.
- An entry order that fills although the wait reported it unfilled and the cancel succeeded: the trade is Skipped with an open position, which the model allows and the safety of open trades does not cover.
- A crash while a trade is being opened removes its uncommitted row; positions without a row are outside the protocol's claims.
- One trade per account and symbol, with its handlers one at a time; two concurrent handlers of one trade are not modelled.
- Matching of events to trades across the database: an event names one trade's orders, and CALCULATED liquidation is "this trade was liquidated", excluded from the idempotence claim.
- Profit figures supplied by the exchange are inputs; bounds and agreement hold when they are absent.
- Ordinary (not conditional) open orders and their cancellation: only the position and conditional orders are kept.
- LiveExchange.Exchange.PlaceStop: a conditional order fills in full at once; partial fills of stops and take-profits are not modelled.
- DemoStore.DemoRepository.HandleMarkPrice: rows without a signal, liquidation price or user, which the source skips, do not exist in the model; settings are a parameter.
- DemoStore.DemoRepository.HandleSignalCreated: a stored signal whose side or targets do not parse (invalid_signal) does not exist in the model.
- LiveOpening.HandleMarkPriceForModel3: the loop over open trades, which its only caller runs on one trade (services/core_engine/main.py:367-378).
- Reconciliation.PassProtects: only a pass during which nothing fills; ReconcileTrade states the protection for every exchange.
- Reconciliation.SecondPassIsIdle: only passes between which nothing fills; NextPassIsIdleIff gives the exact condition with fills.
- Reconciliation.ReconcileTwice: only exchanges that neither fail nor fill, for the same reason.
- Prechecks, credentials, kill switches, balances and counters of the per-user loop of services/core_engine/engine.py: only the idempotency mark and the outcome of one user's trade are modelled.
- Touched-target lists, always sorted and without duplicates, are sets; client order ids are keys, which is justified by their injectivity.
- Creation time orders rows as insertion does; white space trimming is that of ASCII.
- Publishing, notifications, audit log, log texts and merge notes, retry delays and jitter.
- Signal lookup retries: a signal is known to the database or not.
- REST and websocket clients, Telegram, web routes, message parsing, encryption, configuration and health checks.
