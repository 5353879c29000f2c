# Verified model of a survival-first trading agent

This project models the core of an autonomous trading agent in Dafny and proves what it promises. Five parts:

1. **The live loop as a crash-recovery protocol** (`Protocol.dfy`). Volatile memory, a state file replaced by temp file
   and rename, and a chain, moving in small steps. A crash or an exception can fall between any two of them, and a
   broadcast moves the wallet at once, later or never. The theorems are about every interleaving.
2. **Strategy, policy engine and ledger, tick by tick** (`Ladder.dfy`, `Signals.dfy`, `Survival.dfy`, `Engine.dfy`,
   `Core.dfy`, `Fills.dfy`, `Exposure.dfy`, `Spacing.dfy`, `Adherence.dfy`, `DrawdownBound.dfy`, `WholeRun.dfy`,
   `Flatten.dfy`, `FlattenBound.dfy`, `WindUp.dfy`, `ReconciledRun.dfy`). What a fill keeps, what the caps guarantee and
   for which trades, that the strategy never breaks the committed rules, that a whole run stays under the 6% drawdown
   gate with and without reconciliation, that flattening ends when reconciled, and exactly when it ends when not. State
   changes are methods of the class `Core.LiveState`, each equal to a specification function about which the theorems
   are proved. The order is the live one: reconcile, mark, tick, mark.
3. **The verifiable trail** (`Text.dfy`, `Json.dfy`, `Canonical.dfy`, `Chain.dfy`, `Receipts.dfy`). A canonical JSON
   printer (sections 4 to 7 of RFC 8259, sorted keys, compact, ASCII) with a reader and its round trip, and a hash chain
   over it. SHA-256 is an arbitrary function with 64-character digests. Instead of supposing it free of collisions, each
   binding theorem names the collision among the logs' own texts that would have to exist.
4. **The backtest** (`Account.dfy`, `Backtest.dfy`, `Metrics.dfy`, `Champion.dfy`). A mutable account with fees and
   slippage, one-pass drawdowns against their quadratic definitions, and the reference strategy over it.
5. **Operations** (`Nonce.dfy`, `Rpc.dfy`, `Abstention.dfy`). Three small state machines under any history of calls.

`Money.dfy`, `Types.dfy` and `Runs.dfy` hold shared arithmetic, values and runs of a step function. Dollars, prices
and times are `real`; `round(x, 2)` and `round(x, 4)` round half to even. Clocks, prices, balances, volatilities,
replies and outcomes of swaps are parameters. One clock value serves a whole tick.

Properties one would expect that the code does not have, and what holds instead:

- Canonical bytes do not determine every document: a high surrogate directly before a low one prints like the character
  the pair encodes (`Canonical.SplitPairIsAmbiguous`). Equality of bytes is characterised for all documents
  (`CanonicalEqualIff`), and is agreement for documents without such pairs (`CanonicalFaithful`). For the same reason
  a document keeps its bytes over a reload exactly when joining pairs keeps its key order (`ReloadKeepsBytesIff`,
  `ReloadReordersAnExample`).
- A reconcile separates two broadcasts only when a wallet address is configured (`UnreconciledWithoutWallet`).
- `verify_chain` checks links and hashes, not the numbering (`NumberingIsNotVerified`).
- The trade interval does not bind a buy that was clamped to its exposure room, and the strategy's own rounding can cause
  one (`Engine.SpacingUnlessRoomClamped`, `Spacing.StrategyOutrunsTheInterval`). All other trades of every run are spaced
  (`Spacing.RunIsSpaced`).
- The 12% exposure cap does not bind every buy, only risk-increasing ones (`Exposure.CapBindsIffRiskIncreasing`,
  `Exposure.DollarBuyEscapesTheCap`); the strategy proposes no other (`Exposure.StrategyStaysWithin`).
- The one-pass drawdown is the maximum over pairs for histories without negative values (`NegativeValueIsMissed`).
- Without reconciliation flattening need not end (`WindUp.NeverSoldOut`); `WindUp.EmptyIff` and
  `WindUp.CleanBookSellsOut` say exactly when it does.
- One failure report closes the nonce manager for good (`Nonce.FailureIsFinal`).

Where code and documentation differ the model follows the code: the champion's entry gate admits a volatility equal to
its ceiling, and its cadence key is `cadence_h`.

## Model

| member | source | states |
|---|---|---|
| `Protocol.RunInv` | agent/run_live.py:108-170 | The invariant of the crash-recovery protocol (disk, memory, control point, wallet and history agree) holds after every sequence of steps, with a crash or restart between any two of them, a broadcast that moves the wallet at once, later or never, and any other movement of the wallet at any time. |
| `Protocol.StepInv` | agent/run_live.py:127-170 | Each single step of the loop, of a save and of a crash keeps that invariant. |
| `Protocol.BroadcastIdsIncrease` | agent/core.py:171-185 | In every run each broadcast carries a strictly larger intent number than all before it, across crashes and restarts. |
| `Protocol.PendingIsDurable` | agent/core.py:174-185 | At the moment of every broadcast the committed state file is whole and holds exactly that intent as pending, with its number. |
| `Protocol.DecidesOnTheWallet` | agent/run_live.py:132-137 | With a wallet address configured, in every run and every crash interleaving: the last event before a decision, but for movements of the wallet itself, is a sync of the wallet exactly as the history left it, and the memory decided on is what that sync rebuilds, marked at its prices. |
| `Protocol.ReconcileSeparatesBroadcasts` | agent/run_live.py:132-153 | With a wallet address configured, between any two broadcasts lie a sync and then a decision, with only wallet movements between those two and only state writes and wallet movements from the decision to the second broadcast. |
| `Protocol.LostTickIsSkipped` | agent/run_live.py:143-151 | If a broadcast is not followed by the tick's final write, the next decision comes only after the recovery of that very intent: one whole tick is skipped, with or without a wallet address. With one, a sync comes before that recovery and another after it. |
| `Protocol.PersistedPeakNeverFalls` | agent/run_live.py:159-166 | Across crashes and restarts the persisted high-water mark never decreases and is at least every net asset value persisted before it. |
| `Protocol.AlwaysLoadable` | agent/ops/state.py:58-72 | A crash at any step of temp file, completion and rename leaves a state file that the next start can load. |
| `Protocol.FailedSyncChangesNothing` | agent/run_live.py:57-61 | A failed chain read and the save that follows it bring the loop back to its top with memory, prices and wallet as they were, the state file holding exactly that memory, and one write added to the history. |
| `Protocol.UnreconciledWithoutWallet` | agent/run_live.py:119-120 | The wallet address is needed: without one there is a run of the same loop with two broadcasts and no reconcile at all. |
| `Core.LiveState.MarkNav` | agent/core.py:235-243 | Marking in place gives exactly the marked ledger: value at the prices, mark never lowered. |
| `Core.LiveState.ApplyFill` | agent/core.py:205-232 | Booking in place gives exactly the filled ledger about which conservation and solvency are proved. |
| `Core.LiveState.SyncFromChain` | agent/run_live.py:53-82 | Reconciling in place rebuilds positions and cash from the wallet, or leaves every field alone when the chain was not read. |
| `Core.LiveState.Tick` | agent/core.py:84-202 | A tick in place orders exactly when the engine allows a trade, numbers the order exactly when it is live, clears the pending intent, and books, stamps and counts it exactly when it fills. |
| `Core.Consult` | agent/core.py:110-123 | Strategy and engine run step by step give the proposal and the ruling the theorems speak of. |
| `Core.AccumulateState` | agent/core.py:50-69 | The accumulating loop gives the strategy's view: value, cash left over, positions, drawdown, exposure, trades and time since the last trade. |
| `Ladder.WalkLadder` | agent/strategy/survival.py:50-55 | The strategy's walk over the sorted ladder ends at the rung of that ladder. |
| `Ladder.WalkSteps` | agent/policy/engine.py:76-81 | The engine's walk over its sorted ladder ends at the last step reached, so both compute the same rung. |
| `Ladder.RungIsHighestReached` | agent/policy/engine.py:61 | For every ladder in any order, the rung is that of the highest threshold reached, or none. |
| `Ladder.CommittedRungs` | config/strategy.json:59-63 | The committed ladder's rungs at every drawdown. |
| `Signals.Rank` | agent/strategy/signals.py:63-73 | The scoring loop gives the ranking, best score first. |
| `Signals.RankedAreRiskOn` | agent/strategy/signals.py:63-73 | The ranking holds exactly the risk-on views, each as often as it was given. |
| `Signals.RiskOnMeansAgreement` | agent/strategy/signals.py:36-60 | A token is risk-on exactly when both momenta are upward and volatility, if known, is under the ceiling. |
| `Survival.DecideStepwise` | agent/strategy/survival.py:75-190 | The cascade with its two search loops, each leaving on the first hit, gives the intent the theorems speak of. |
| `Survival.SearchExit` | agent/strategy/survival.py:82-100 | The exit search stops at the first position that is due. |
| `Survival.ExitsComeFirst` | agent/strategy/survival.py:81-100 | Nothing but an exit is proposed while a position is due to leave. |
| `Survival.CalmestIsCalmest` | agent/strategy/survival.py:143-145 | The fallback buy is the lowest-volatility token not held, and exists unless all are held. |
| `Engine.AllowedAmountIsCapped` | agent/policy/engine.py:118-161 | Every allowed trade is, to half a cent, within the single-trade cap (halved on the first rung), the amount asked for, and for a buy the exposure room, which is then not empty. |
| `Engine.SpacingUnlessRoomClamped` | agent/policy/engine.py:87-140 | Whatever the trade count and the time since the last trade: a trade is allowed exactly when checks 1 to 4 pass and it is spaced or asks for more than its exposure room. |
| `Engine.RoomClampEscapesSpacing` | agent/policy/engine.py:127-140 | Such a buy under the committed policy: ten dollars of ETH with five dollars of room, allowed one second after the last of a hundred trades in the hour. |
| `Spacing.RunIsSpaced` | agent/policy/engine.py:127-140 | Over every run, reconciled or not, under every config, with a clock that does not run backwards: each executed trade comes at least the trade interval after every earlier one, unless it was clamped to its exposure room. |
| `Spacing.StrategyOutrunsTheInterval` | agent/strategy/survival.py:123-125 | The strategy meets that exception by itself: an entry sized to the room is rounded to the cent, here from 7.006 to 7.01, above the room, and is executed one second after the last trade. |
| `Fills.FillConserves` | agent/core.py:205-232 | Booking any fill at the mark prices leaves the marked value unchanged but for the popped dust. |
| `Fills.FillDustSmall` | agent/core.py:229-230 | Only a sale pops dust, at most 1e-9 units of it. |
| `Fills.BuyAddsAmountAtCost` | agent/core.py:215-221 | A buy adds exactly the amount spent to entry price times quantity, and nothing to any other token. |
| `Fills.FillSolvent` | agent/core.py:212-231 | A fill keeps each token at most once and not short, and cash at or above -1e-9. |
| `Fills.RunSound` | agent/run_live.py:127-166 | The same over every run, reconciled or not, and the high-water mark never falls. |
| `Fills.AllowedBuyStaysWithinCaps` | agent/policy/engine.py:118-161 | For every config and every risk-increasing trade the engine allows on a ledger marked at the same prices: once booked, risky value is at most the cap's share of net asset value plus half a cent, the amount at most the single-trade cap plus half a cent, and net asset value unchanged. |
| `Exposure.CapBindsIffRiskIncreasing` | agent/policy/engine.py:118-131 | Exactly which buys the exposure cap binds: a buy of a priced token that the engine allows somewhere leaves every just-marked ledger of positive value within the cap if and only if it is risk-increasing, whenever the cap is not the whole value. |
| `Exposure.DollarBuyEscapesTheCap` | agent/policy/engine.py:118-131 | Under the committed policy a buy that the cap does not bind exists: dollars bought with ETH. |
| `Exposure.StrategyStaysWithin` | agent/core.py:110-123 | The strategy proposes no such buy: under a closed policy each of its buys is risk-increasing and, when ordered, stays within the cap. |
| `Adherence.CommittedPolicyClosed` | config/strategy.json:12-24 | The committed lists are closed: every universe token can be bought and sold through the first quote token. |
| `Adherence.RulingAdheres` | agent/policy/engine.py:97-116 | No proposal of the strategy is refused by the whitelist, the pair check or, in stablecoin mode, the ladder. |
| `Adherence.StablecoinModeNeverBuys` | agent/strategy/survival.py:91-92 | In stablecoin mode the strategy proposes exits or nothing. |
| `Adherence.NoBuyUnderNoNewRisk` | agent/policy/engine.py:113-116 | Under the no-new-risk rung the strategy may still propose its minimum-trade buy, but nothing except a sale is ordered. |
| `Adherence.RunKeepsUniverse` | agent/run_live.py:63-82 | Every reachable state holds only universe tokens. |
| `Adherence.RunAdheres` | agent/core.py:110-123 | Under any closed policy every ruling of every run adheres. |
| `Adherence.CommittedRunsAdhere` | config/strategy.json:12-24 | The committed policy adheres from the empty book, over every run. |
| `DrawdownBound.SaleSheds` | agent/core.py:222-230 | A sale raises no quantity, does not lower cash, and pays at least the floor price for what it gives up. |
| `DrawdownBound.NavFloor` | agent/core.py:235-243 | While a book only sheds and no held price is under its floor, its value is at least the starting cash plus the starting holdings at the floor, less dust. |
| `WholeRun.DeRiskingTickSheds` | agent/strategy/survival.py:130-179 | On the two lower rungs a whole tick raises no quantity and does not lower cash. |
| `WholeRun.NavKeepsShare` | agent/policy/engine.py:108-116 | While a book only sheds and no held price is below the share k of its base price: value >= cash0 + k * (risky0 - dust), for every k. |
| `WholeRun.StepStaysUnderGate` | agent/run_live.py:141-161 | One mark-tick-mark keeps the episode invariant and the drawdown under 6%, on any rung. |
| `WholeRun.NeverReachesGate` | agent/run_live.py:119-161 | Whole-run theorem for the loop without a wallet address, on its own ledger: from START_NAV (500 dollars) or more in cash, over runs of any length with any signals, clock and fills, the drawdown marked before and after each tick stays under 6%, provided exposure seen under 2% drawdown is at most 12% and from 2% on no held price is more than 34% under its mark at the last tick under 2%. |
| `Flatten.SyncUnderstatesByDust` | agent/run_live.py:66-82 | After a successful sync the marked value understates the wallet at the same prices by less than one dollar per risky token. |
| `Flatten.ExitAllowed` | agent/policy/engine.py:132-161 | In stablecoin mode, reconciled and 900 seconds after the last trade, the exit of a position is allowed for at least two cents. |
| `Flatten.PassSells` | agent/run_live.py:127-166 | While the book is not empty, a pass takes at least two cents off the wallet's risky value and does not raise the marked value. |
| `Flatten.PassKeepsFlattening` | agent/run_live.py:127-166 | A pass keeps the loop in stablecoin mode for the next one. |
| `Flatten.FlatteningTerminates` | agent/run_live.py:127-166 | The book is empty at pass n as soon as n sales of two cents exhaust the wallet's risky value, and stays empty, although each sale is capped at 100 dollars and 2.5% of value. |
| `FlattenBound.FlattensWithin` | agent/run_live.py:127-166 | The book is empty after as many passes as there are positions and capped amounts in the wallet's risky value, an amount being 2.5% of the cash at the start, at most 100 dollars and at least 2 cents. |
| `Flatten.ExitIsTradeIff` | agent/strategy/survival.py:89-100 | On one tick in stablecoin mode: the first position is proposed for exit, and the proposal is a trade exactly when it is worth more than half a cent; otherwise the tick leaves the book alone. |
| `WindUp.EmptyIff` | agent/run_live.py:119-120 | Without reconciliation, in stablecoin mode at fixed prices: after any number of passes the book is empty exactly when each position in turn sells out and as many passes have gone by as the forecast counts. |
| `WindUp.CleanBookSellsOut` | agent/core.py:222-230 | In closed form: a book of positions worth a cent or more, none half a cent over a whole number of cents, sells out exactly when for every position the value rounded to the cent covers all but 1e-9 units. |
| `WindUp.SellsOutIff` | agent/strategy/survival.py:89-100 | For one position under any cap of a cent or more: capped sales take whole cents off, so whether it sells out depends only on how its value rounds. |
| `WindUp.RunKeepsForecast` | agent/run_live.py:127-166 | Along every unreconciled run each pass uses up exactly one pass of the forecast. |
| `WindUp.NeverSoldOut` | agent/core.py:222-230 | A book that is never sold out: one unit at $10.004 with a value of 500 dollars still holds it after every number of passes. |
| `ReconciledRun.ReconciledNeverReachesGate` | agent/run_live.py:127-161 | Whole-run theorem for the reconciled loop: the book is rebuilt from the wallet at every pass and swaps move the wallet at the marks. From START_NAV (500 dollars) or more in stables at par, over runs of any length with any signals, clock and fills, the drawdown decided on and the drawdown left after each pass stay under 6%, though reconciliation drops up to a dollar for each token, provided exposure seen under 2% drawdown is at most 12% and from 2% on no held price is more than 27% under its mark at the last pass under 2%. |
| `ReconciledRun.PassStaysUnderGate` | agent/run_live.py:132-161 | One reconciled pass keeps the wallet's cushion (cash and 73% of the risk at the last pass under 2%) over 94.8% of the peak, and the drawdown under 6%, on any rung. |
| `ReconciledRun.PassKeepsShedding` | agent/strategy/survival.py:130-179 | From 2% drawdown on, a reconciled pass keeps the wallet shedding: no risky balance grows, and what has been given up since the base was paid for at the floor or better. |
| `Text.TextRoundTrip` | agent/policy/canonical.py:37 | Reading back any escaped string gives the string with its split surrogate pairs joined. |
| `Json.RoundTrip` | agent/policy/canonical.py:34-37 | Reading back any printed document, whatever follows it, gives the document with split surrogate pairs joined, and stops exactly at its end. |
| `Canonical.StripIdempotent` | agent/policy/canonical.py:25-31 | Dropping annotation keys twice drops nothing more. |
| `Canonical.NormalIffAgree` | agent/policy/canonical.py:37 | Two documents have the same sorted form exactly when they agree up to key order, at every depth. |
| `Canonical.CanonicalRoundTrip` | agent/policy/canonical.py:34-37 | From the canonical bytes a reader recovers the document they stand for. |
| `Canonical.CanonicalEqualIff` | agent/policy/canonical.py:34-37 | Equal canonical bytes exactly when the documents stand for the same thing, for all documents. |
| `Canonical.CanonicalFaithful` | agent/policy/canonical.py:34-37 | For documents without split surrogate pairs: equal bytes exactly when they agree after dropping annotation keys and ignoring key order. |
| `Canonical.CanonicalExactIff` | agent/policy/canonical.py:34-37 | The bytes read back as the stripped and sorted document itself exactly when no string or key splits a surrogate pair. |
| `Canonical.SplitPairIsAmbiguous` | agent/policy/canonical.py:37 | Outside that condition the printer is not injective: a split pair and the character it encodes give the same bytes. |
| `Canonical.CommentsAreIgnored` | agent/policy/canonical.py:25-37 | Annotations never reach the bytes. |
| `Canonical.ReloadKeepsBytesIff` | agent/policy/receipt.py:83-92 | A document that was written and read back has the same canonical bytes exactly when joining split pairs keeps the keys of every dictionary in their order. |
| `Canonical.ReloadReordersAnExample` | agent/policy/receipt.py:83-92 | Outside that condition a reload can reorder keys and so change the bytes. |
| `Chain.VerifyChain` | agent/policy/receipt.py:95-115 | Verification accepts exactly the logs in which every receipt names its predecessor's hash and stores its own; otherwise it reports the first receipt that does not, and which of the two failed; policy_ok holds exactly when every receipt carries the expected policy hash. |
| `Chain.ReceiptChain.Append` | agent/policy/receipt.py:78-87 | Appending keeps every earlier receipt and adds one linked to the last, numbered one higher. |
| `Chain.FinalHashBinds` | agent/policy/receipt.py:95-115 | Two verified logs with the same final hash have the same length and the same body texts, or exhibit a collision or an all-zero digest among their own texts; no assumption on the hash is made. |
| `Chain.ChangedBodyIsFound` | agent/policy/receipt.py:108-111 | Verification stops exactly at a receipt whose body text was changed but not its stored hashes, if and only if the two texts do not collide. |
| `Receipts.AppendedLogsVerify` | agent/policy/receipt.py:78-87 | Every log built by appending verifies, with numbers equal to places. |
| `Receipts.TextDeterminesFields` | agent/policy/receipt.py:41-49 | Equal hashed body texts exactly when all eight fields stand for the same thing. |
| `Receipts.FinalHashCommits` | agent/policy/receipt.py:95-115 | One final hash commits to the length of the log and to every field of every receipt, unless the logs exhibit a broken digest. |
| `Receipts.ChangedFieldIsFound` | agent/policy/receipt.py:108-111 | Changing any field of one receipt is reported at that receipt, if and only if the two texts do not collide. |
| `Receipts.SameFieldsIff` | agent/policy/receipt.py:41-46 | Without split surrogate pairs, standing for the same thing is equality of the fields, and agreement of the decisions up to annotations and key order. |
| `Receipts.NumberingIsNotVerified` | agent/policy/receipt.py:95-115 | Verification does not look at the numbering: a log that starts at any number verifies. |
| `Receipts.PolicyHashCommits` | agent/policy/canonical.py:44-46 | Two configurations have the same policy hash exactly when they stand for the same thing or their texts collide. |
| `Backtest.Portfolio.Buy` | backtest/portfolio.py:121-163 | Buying in place gives exactly the bought book, reports what left the cash, and keeps the account sound. |
| `Backtest.Portfolio.Sell` | backtest/portfolio.py:165-194 | Selling in place gives exactly the sold book, reports what came in, and keeps the account sound. |
| `Backtest.Portfolio.Flatten` | backtest/portfolio.py:196-207 | Flattening in place gives exactly the flattened book and counts the sales that brought something in. |
| `Backtest.Portfolio.Mark` | backtest/portfolio.py:85-100 | Marking in place appends value and drawdown, raises the mark when needed, and leaves the book alone. |
| `Backtest.Portfolio.Rebaseline` | backtest/portfolio.py:105-118 | Re-anchoring in place sets the mark to the present value and clears the last drawdown entry only. |
| `Account.BuyKeepsSound` | backtest/portfolio.py:121-163 | A buy keeps cash non-negative, the three dictionaries on the same keys, and every quantity positive. |
| `Account.SellKeepsSound` | backtest/portfolio.py:165-194 | So does a sale. |
| `Account.Run` | backtest/portfolio.py:121-207 | So does every history of buys, sales and flattenings. |
| `Account.BuyCost` | backtest/portfolio.py:134-163 | At its own price a buy lowers the account's value by between nothing and fee plus slippage on the amount. |
| `Account.SellCost` | backtest/portfolio.py:178-194 | At its own price a sale lowers it by between nothing and fee plus slippage on the value sold, plus at most 1e-12 units of dust. |
| `Account.BuyAddsSpendAtCost` | backtest/portfolio.py:149-160 | A buy adds exactly its spend to entry price times quantity, keeps the hour of an open position, and touches no other position. |
| `Account.SellKeepsEntries` | backtest/portfolio.py:187-191 | A sale leaves the entry price and hour of what remains, and every other position. |
| `Account.FlattenSells` | backtest/portfolio.py:196-207 | Flattening leaves exactly the positions without a positive price and adds exactly the sum of the others' proceeds to the cash. |
| `Account.FlattenEmpties` | backtest/portfolio.py:196-207 | At positive prices flattening empties the book and loses at most fee plus slippage on what was held. |
| `Account.TradingNeverGains` | backtest/portfolio.py:121-207 | At unchanged prices no history of fills raises the account's value. |
| `Backtest.NeverRebasedIsExact` | backtest/portfolio.py:85-100 | Without re-anchoring, every drawdown entry is the fall from the starting cash or the highest value so far. |
| `Backtest.RebasedUnderstates` | backtest/portfolio.py:105-118 | With re-anchoring only at or below the mark, no entry exceeds that fall. |
| `Backtest.RebasingUpOverstates` | backtest/portfolio.py:115 | That condition is needed: re-anchoring above the mark can overstate the fall. |
| `Metrics.MaxDrawdownPct` | backtest/metrics.py:43-54 | The one-pass loop computes the deepest fall from the running peak. |
| `Metrics.DeepestIsMaximum` | backtest/metrics.py:43-54 | For histories without negative values that is exactly the maximum of the percentage fall over all pairs of times. |
| `Metrics.DeepestIsAttained` | backtest/metrics.py:43-54 | For any history it is nothing or the fall of some pair. |
| `Metrics.NegativeValueIsMissed` | backtest/metrics.py:43-54 | With a negative value the maximum over pairs can be missed. |
| `Metrics.PerRegimeDrawdown` | backtest/run.py:240-265 | The nested loops give, for each regime, the rounded deepest fall from the peak carried over from the start. |
| `Metrics.RegimesCoverTheRun` | backtest/run.py:240-265 | The worst regime equals the whole-run drawdown, for all contiguous bounds that cover the history. |
| `Metrics.RoundedRegimesCoverTheRun` | backtest/run.py:264 | The same for the published, rounded figures. |
| `Metrics.FirstBreachHour` | backtest/metrics.py:81-86 | The first hour at or over the gate, or none exactly when all are under it. |
| `Metrics.ShownBreachIsReal` | backtest/metrics.py:81-86 | A breach shown by a history that was only re-anchored downwards is a true one. |
| `Champion.Decide` | backtest/champion.py:145-298 | The decision over the mutable portfolio: re-arms as specified, and returns the specified intent. |
| `Champion.Execute` | backtest/run.py:46-63 | Executing an intent gives the specified book and reports whether a trade happened. |
| `Champion.RunStrategy` | backtest/run.py:66-99 | The nested loops over hours and up to four trades give the specified run. |
| `Champion.BuyStaysUnder23` | backtest/champion.py:224-296 | No executed buy from 100 dollars or more leaves the risky ratio at 23% or more at its own prices, entries and micro-rebalances alike, at 25 and 30 basis points. |
| `Champion.RunStaysUnder23` | backtest/run.py:73-97 | The same for every buy of every hour of every run. |
| `Champion.ExitsComeFirst` | backtest/champion.py:192-208 | Nothing is bought while a position of the universe has to go. |
| `Champion.BestIsBest` | backtest/champion.py:229-258 | The asset picked qualifies and none that qualifies scores higher; one is picked if any qualifies. |
| `Champion.BuysOnlyAboveTheLadder` | backtest/champion.py:181-222 | Buys are proposed only while the drawdown the ladder sees is under 3%, and from 1.5% on for at most 1.5% of the account. |
| `Champion.HourRebasesOnce` | backtest/champion.py:171-179 | Within an hour only the first decision can re-anchor the mark. |
| `Champion.LadderNeverOverstates` | backtest/champion.py:157-181 | In every run from a fresh account at non-negative prices, with every marked value at least a cent, the drawdown the ladder acts on is at most the true fall from the peak: every re-anchoring goes down. |
| `Nonce.NonceManager.Sync` | agent/ops/nonce.py:31-44 | Synchronising in place does exactly the specified step, or nothing when the read failed. |
| `Nonce.NonceManager.Take` | agent/ops/nonce.py:46-58 | Reserving in place hands out the next nonce, or nothing when gapped or never synced. |
| `Nonce.NonceManager.OnConfirmed` | agent/ops/nonce.py:60-66 | Confirmation in place, then a sync. |
| `Nonce.NonceManager.OnFailed` | agent/ops/nonce.py:68-74 | Failure in place, then a sync. |
| `Nonce.NoncesAreAccountedFor` | agent/ops/nonce.py:31-74 | In every history whose callbacks name held nonces, the interval from the first synced nonce to the next one is the disjoint union of reserved, confirmed and failed. |
| `Nonce.CallbackKeepsAccountsIff` | agent/ops/nonce.py:60-74 | A callback keeps that exactly when its nonce is held or already stands where the callback puts it. |
| `Nonce.HandedIncrease` | agent/ops/nonce.py:46-58 | Whatever the chain replies, handed-out nonces strictly increase. |
| `Nonce.GapIsFinal` | agent/ops/nonce.py:46-49 | The gap flag is never cleared, and nothing is handed out after it is set. |
| `Nonce.FailureIsFinal` | agent/ops/nonce.py:68-74 | So one failure report below the next nonce closes the manager for good. |
| `Nonce.ComparingSyncDetectsGaps` | agent/ops/nonce.py:38-44 | After a sync that had something to compare with, an ungapped manager holds nothing or the chain has passed its least held nonce. |
| `Rpc.RpcPool.Call` | agent/ops/rpc.py:52-71 | A call leaves exactly the specified endpoint states, contacts and response. |
| `Rpc.FirstUsableReply` | agent/ops/rpc.py:52-71 | A call contacts the candidates from the front, stops at the first usable reply and returns it, and fails only when every candidate was tried in vain. |
| `Rpc.CandidatesDistinct` | agent/ops/rpc.py:85-93 | With distinct endpoints no candidate appears twice. |
| `Rpc.CandidatesInOrder` | agent/ops/rpc.py:85-87 | The candidates keep the order of the list. |
| `Rpc.NeverRetriedEarly` | agent/ops/rpc.py:89-105 | Under a monotone clock no history of calls contacts a failed endpoint before its cooldown has passed. |
| `Abstention.AbstentionLedger.Add` | agent/abstention/ledger.py:56-66 | Recording appends one record, numbered one higher, with an unknown reason replaced. |
| `Abstention.AbstentionLedger.MarkToMarket` | agent/abstention/ledger.py:68-90 | Marking in place marks exactly the eligible records and returns how many. |
| `Abstention.MissedOrAvoided` | agent/abstention/ledger.py:80-83 | Declining a buy that rose or a sale that fell counts as a missed gain, the reverse as an avoided loss. |
| `Abstention.AbstentionLedger.Summarise` | agent/abstention/ledger.py:92-107 | The totals are the rounded sums over marked records, and the reason counts are each reason's count and sum to the number of records. |
| `Abstention.RunIsNumbered` | agent/abstention/ledger.py:56-62 | In every history records are numbered from zero without gaps and carry known reasons. |
| `Abstention.RecordsOnlyGetMarked` | agent/abstention/ledger.py:68-90 | No record is ever altered except that an unmarked one is marked, once. |
| `Abstention.MarkingIsIdempotent` | agent/abstention/ledger.py:68-90 | Marking again at the same prices and time marks nothing. |
| `Abstention.RestraintIsMinusPnl` | agent/abstention/ledger.py:92-96 | Unrounded avoided loss less missed gain is minus the sum of marked results. |
| `Abstention.PublishedFiguresAgree` | agent/abstention/ledger.py:104-107 | The published net is within half a cent of that and within 1.5 cents of the difference of the other two published figures. |

## Left out

- Upper-casing of symbols: symbols are taken as already upper-case.
- Rationale, confidence and reason strings of intents, decisions and verdicts; a verdict's reason is an enumeration.
- Core.LiveState.Tick: does not write the receipt and the abstention a tick records; those ledgers are modelled on their
  own.
- Floating point: sums, quotients and logarithms are exact reals here; number formatting is an opaque number text, and
  NaN and infinities do not occur.
- Non-ASCII text in a stored hash or previous hash, and JSON lines that are not receipts.
- `_apply_fill` edits a position that the old state dictionary shares; nobody reads that dictionary afterwards, and the
  model keeps positions as values.
- Protocol.RunInv: a transition system on values rather than a class, since a crash may come between any two steps; the
  steps of one tick in memory are the class `Core.LiveState`. Real file-system behaviour is an atomic rename; durability
  of the directory entry is not modelled.
- WholeRun.NeverReachesGate: the run is that of a loop without a wallet address, with fills at the marks; the reconciled
  loop has its own theorem. Exposure that drifts over 12% by price alone under 2% drawdown is excluded by hypothesis, as
  are prices over a million dollars.
- ReconciledRun.ReconciledNeverReachesGate: swaps settle at the marks within their pass, without slippage or gas, and
  stables are at par; the same exclusions hold. A pass whose chain read fails is no pass of the run: it changes nothing
  (`Protocol.FailedSyncChangesNothing`).
- WindUp.CleanBookSellsOut: a position exactly half a cent over a whole number of cents that is sold in capped parts has
  no closed form here; `WindUp.EmptyIff` covers it through the pass-by-pass forecast.
- Adherence.StablecoinModeNeverBuys: under the other rungs the strategy may buy; the caps say how much.
- Account.Run: fee and slippage are fractions between nothing and everything.
- Champion.RunStrategy: every universe token has a price in every hour, as the generated series do; realised volatility
  is a given number for each asset.
- Backtest.Portfolio.Flatten: every held asset has a price; a missing one raises in the original.
- The watchdog: its restarts appear in the protocol as a start after any crash; restart limit, backoff and heartbeat
  would add easy members.
- The simulator, which decides on the previous mark, the challenger strategy, Sharpe and Calmar ratios, price generation.
- Chain, wallet, market-data and swap clients, the dashboard, the chat and the language-model brains.
