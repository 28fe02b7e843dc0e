# Exchange and settlement engine of Synthetix, modelled in Dafny

Holders of one synthetic asset (sUSD, sEUR, sBTC, …) exchange it for another
at oracle prices. The destination asset's fee rate is charged on the
destination value. Every exchange is then queued under the recipient's
(account, destination asset) for a waiting period.

Once the period is over, `settle` replays each queued exchange at the price
reached at the end of its waiting period. What the holder received in excess
is reclaimed; what they received too little is rebated. An exchange out of an
asset first settles that asset's queue and fails while the queue is still
waiting.

The model follows the behaviour pinned down by the repository's test suite,
`test/contracts/Exchanger.js`.

Modules, one per component:

- `Types` holds assets, accounts, time, amounts (exact non-negative reals),
  fee rates in [0, 1], positive prices, the error kinds and a `Result` type.
- `Prices` models the oracle as an input: a price history
  `(asset, time) -> price` and a staleness flag per (asset, time). It defines
  the rate src/dest and the effective value of an amount.
- `FeeRates` covers `feeRateForExchange`, `getAmountsForExchange` and the
  per-asset fee table.
- `SettlementQueue` covers one (account, asset) queue:
  - the bounded append (`setMaxEntriesInQueue`);
  - the waiting-period clock (`maxSecsLeftInWaitingPeriod`).
- `Reconciler` covers `settlementOwing`. Reclaims and rebates are summed
  independently over the entries, each entry replayed at
  min(now, timestamp + waiting period).
- `Exchanger` is the engine state and its operations:
  - `settle`, `exchange` and `exchangeOnBehalf`, with their gates;
  - `calculateAmountAfterSettlement`;
  - the owner setters.
- `EngineProperties` holds the properties relating the operations:
  - the effects and frame of an exchange;
  - the waiting-period behaviour;
  - when an exchange fails, and with which error;
  - what settlement applies;
  - the queue-validity invariant that every operation preserves.
- `Scenarios` holds the suite's worked examples with their concrete amounts.

An operation never mutates a state: it returns a new state and its events, or
an error. An error leaves the old state unchanged, which models the ledger's
revert.

Settlement applies only the net of the two totals: a net reclaim emits one
reclaim event, a net rebate one rebate event, never both
(`test/contracts/Exchanger.js:497-503`).

`calculateAmountAfterSettlement` is applied to the balance AFTER settlement.
The reclaim scenario (lines 699-731) needs the reclaim already deducted. The
rebate scenario (lines 868-898) needs the rebate already credited, and the
rebate is then added once more on top.

`ExchangeSucceedsIff` states the consequence. When a rebate was settled, a
request larger than the pre-settlement balance fails for insufficient
balance, even when it is below the post-settlement balance. The suite pins
this formula (lines 1207-1268), so the model keeps it as written.

## Model

| member | source | states |
|---|---|---|
| FeeRates.FeeRateIsDestinationRate | test/contracts/Exchanger.js:294-331 | the fee rate of an exchange is the destination's configured rate, the same for every source (long/long, inverse/inverse, inverse/long, swing trades), and the default rate when the destination has none |
| FeeRates.SetFeeRate | test/contracts/Exchanger.js:333-345 | setting one asset's rate changes that asset's rate and no other |
| FeeRates.GetAmountsForExchange | test/contracts/Exchanger.js:346-433 | the fee is the destination value times the destination's rate; received plus fee is exactly the destination value; the reported rate is `feeRateForExchange` |
| FeeRates.FeeScalesWithRate | test/contracts/Exchanger.js:434-467 | multiplying the destination's rate by k multiplies the fee and the reported rate by k, and the amount received is the value less the scaled fee |
| FeeRates.FeeBounded | test/contracts/Exchanger.js:346-433 | neither the fee nor the amount received exceeds the destination value; a zero rate charges nothing |
| SettlementQueue.Enqueue | test/contracts/Exchanger.js:1164-1183 | appending succeeds iff the queue holds fewer than the limit, keeping earlier entries in order; otherwise it fails with a full-queue error |
| SettlementQueue.EnqueueUpToLimit | test/contracts/Exchanger.js:1164-1199 | with limit N, entries are accepted until the queue holds N and every further one is refused; an emptied queue accepts N again |
| SettlementQueue.SecsLeftInWaitingPeriod | test/contracts/Exchanger.js:189-287 | the seconds left are the longest any entry still has to wait (attained by some entry while positive), and 0 for an empty queue |
| SettlementQueue.SecsLeftAtMostWaitingPeriod | test/contracts/Exchanger.js:202-209 | for past exchanges the seconds left never exceed the configured period |
| SettlementQueue.WaitingPeriodCountsDown | test/contracts/Exchanger.js:145-183 | the clock falls by exactly the time elapsed until it reaches 0 and then stays at 0 |
| SettlementQueue.AppendRestartsWaitingPeriod | test/contracts/Exchanger.js:280-287 | an exchange made now restarts the clock at the full period, whatever was left |
| SettlementQueue.MatureIffEveryEntryElapsed | test/contracts/Exchanger.js:162-183 | a queue may be settled exactly when every entry's own period has elapsed |
| Reconciler.EntryOwingIsRateDrift | test/contracts/Exchanger.js:474-487 | for an entry recorded at its trade price, the amount owed is amount × (1 − fee rate at trade) × (rate at trade − rate at the end of the period) |
| Reconciler.FreshEntryOwesNothing | test/contracts/Exchanger.js:577-582 | an exchange queried at its own moment owes neither reclaim nor rebate |
| Reconciler.SettlementOwing | test/contracts/Exchanger.js:622-645 | the reclaim total is the sum of the positive amounts owed, the rebate total the sum of the magnitudes of the negative ones, and the count is the queue length |
| Reconciler.ReclaimsMinusRebatesIsNet | test/contracts/Exchanger.js:1025-1047 | reclaim minus rebate is the signed total owed over the whole queue |
| Reconciler.AppendSplitsBySign | test/contracts/Exchanger.js:1073-1108 | a new entry adds its positive part to the reclaims and its negative part to the rebates |
| Reconciler.AppendFreshEntryKeepsOwing | test/contracts/Exchanger.js:1048-1072 | exchanging again into the same asset leaves the totals owed now unchanged and adds one entry |
| Reconciler.OwingFrozenAfterPeriod | test/contracts/Exchanger.js:943-956 | once every period has ended, later price moves do not change what is owed |
| Reconciler.NothingOwedWhenNoDrift | test/contracts/Exchanger.js:928-942 | if every entry's src/dest rate at the end of its period equals the rate at its trade, nothing is owed either way |
| Reconciler.OwingIgnoresStaleness | test/contracts/Exchanger.js:1396-1410 | what is owed does not depend on whether prices are stale |
| Exchanger.Debit | test/contracts/Exchanger.js:1365-1383 | burning succeeds iff the balance covers it, and lowers only that balance by the amount |
| Exchanger.Credit | test/contracts/Exchanger.js:1321-1344 | issuing raises only that balance by the amount |
| Exchanger.RecordFee | test/contracts/Exchanger.js:1321-1344 | the fee sink for the destination asset grows by the fee, the others do not, and no balance changes |
| Exchanger.CalculateAmountAfterSettlement | test/contracts/Exchanger.js:1207-1268 | the result is the refund plus either the request or the balance, whichever is smaller |
| Exchanger.Reconcile | test/contracts/Exchanger.js:654-697 | settling fails iff the queue is waiting; otherwise it nets reclaim against rebate, floors the balance at zero, emits one reclaim event when the reclaim total is larger, one rebate event when the rebate total is larger, and none when they balance, clears the queue, and touches nothing else |
| Exchanger.Settle | test/contracts/Exchanger.js:513-543 | any caller may settle; settle is refused when the system, exchanges or the asset are suspended (another asset's suspension does not matter), and otherwise succeeds iff the waiting period is over, leaving the queue empty |
| Exchanger.Swap | test/contracts/Exchanger.js:1321-1364 | the debit, credit, fee and queued entry of an exchange: it succeeds iff the balance covers the amount and the queue has room, with the exact effect on both holdings |
| Exchanger.Exchange | test/contracts/Exchanger.js:1271-1317 | exchange is refused for the wrong caller and when the system, exchanges or either asset are suspended; a success never overfills the destination queue |
| Exchanger.ExchangeOnBehalf | test/contracts/Exchanger.js:1442-1545 | past the caller and suspension gates, an approved delegate gets exactly the authoriser's own exchange paid to the authoriser, and an unapproved one is refused |
| Exchanger.SetWaitingPeriodSecs | test/contracts/Exchanger.js:129-144 | only the owner sets the period; the rest of the configuration, the balances, queues, fee sink, approvals and suspension status are unchanged |
| Exchanger.SetMaxEntriesInQueue | test/contracts/Exchanger.js:1164-1167 | only the owner sets the queue limit; the rest of the configuration, the balances, queues, fee sink, approvals and suspension status are unchanged |
| Exchanger.SetExchangeFeeRate | test/contracts/Exchanger.js:449-451 | only the owner sets an asset's rate; exchanges into that asset then pay the new rate from every source, and exchanges into other assets keep their rates; the period, the queue limit and everything outside the configuration are unchanged |
| EngineProperties.SwapEntryRecorded | test/contracts/Exchanger.js:571-582 | the entry an exchange queues is recorded at the price and fee rate of its moment |
| EngineProperties.ExchangeEffects | test/contracts/Exchanger.js:699-733 | a successful exchange settles the source first, then debits exactly the usable amount from the settled balance, credits the amount received, records the fee, queues the entry, and emits the settlement events then one exchange event; no other holding changes |
| EngineProperties.ExchangeWithNothingToSettle | test/contracts/Exchanger.js:1321-1364 | with nothing queued under the source, the requested amount itself is exchanged and the recipient's balance grows by the amount received |
| EngineProperties.ExchangeStartsWaitingPeriod | test/contracts/Exchanger.js:202-213 | after an exchange the recipient's destination has the full period left and the source has none |
| EngineProperties.ExchangeLeavesOtherClocksAlone | test/contracts/Exchanger.js:214-260 | other holders' and other assets' clocks, balances and amounts owed are not affected by an exchange |
| EngineProperties.ExchangeGates | test/contracts/Exchanger.js:1396-1435 | a stale source or destination refuses the exchange; next, a waiting source queue refuses it |
| EngineProperties.ExchangeSucceedsIff | test/contracts/Exchanger.js:1365-1383 | past the gates, the exchange fails for insufficient balance exactly when it overdraws (above the balance with nothing to settle; above the pre-settlement balance after a rebate), for a full queue exactly when the destination queue has no room, and succeeds otherwise |
| EngineProperties.ExchangeAllOutEmptiesBalance | test/contracts/Exchanger.js:734-771 | after a settlement, asking for at least the pre-settlement balance empties the source holding |
| EngineProperties.ExchangeQueueGrowsByOne | test/contracts/Exchanger.js:1168-1183 | each exchange adds exactly one entry to the destination queue, within the limit |
| EngineProperties.ExchangeAddsNothingOwedNow | test/contracts/Exchanger.js:1048-1072 | an exchange adds no reclaim and no rebate at its own moment |
| EngineProperties.ExchangeKeepsValid | test/contracts/Exchanger.js:571-582 | exchanges preserve the invariant that every queued entry is into its queue's asset, in the past, and recorded at its trade price |
| EngineProperties.SettleEmptyQueueIsSilent | test/contracts/Exchanger.js:598-621 | settling an empty queue succeeds, emits nothing and changes no balance |
| EngineProperties.SettleAppliesNetOwing | test/contracts/Exchanger.js:654-679 | settlement lowers the balance by the net amount owed over the queue, floored at zero, and leaves nothing owed |
| EngineProperties.SettleIgnoresStaleness | test/contracts/Exchanger.js:1408-1410 | settle gives the same result whether or not prices are stale |
| EngineProperties.SettleIgnoresLaterFeeChange | test/contracts/Exchanger.js:1132-1157 | a fee-rate change after the exchanges changes neither what is owed nor what settlement does |
| EngineProperties.SettlementOwingFrozenAfterPeriod | test/contracts/Exchanger.js:943-956 | once the waiting period is over, what is owed stays fixed however prices move |
| EngineProperties.SettleKeepsValid | test/contracts/Exchanger.js:583-621 | settlement preserves the queue-validity invariant |
| Scenarios.AmountAfterSettlementExamples | test/contracts/Exchanger.js:1207-1268 | with 1000 held: (500, 0) gives 500, (500, 25) gives 525, (1200, 0) gives 1000, (1200, 50) gives 1050 |
| Scenarios.OwingAfterEurMoves | test/contracts/Exchanger.js:807-831 | 100 sUSD into sEUR at 2 with a 1% fee: sEUR at 4 owes a reclaim of 24.75, sEUR at 1 a rebate of 49.5 |
| Scenarios.NothingOwedOncePriceReturns | test/contracts/Exchanger.js:928-969 | when sEUR is back at 2 at time 17 and at the end of the period, nothing is owed at 17, and a move after the period (queried at 77) changes nothing |
| Scenarios.RebatesAddUpAcrossEntries | test/contracts/Exchanger.js:973-1108 | two exchanges into sBTC: a reclaim of 0.0022 before sBTC falls, then rebates of 0.0176 and 0.000495 summing to 0.018095 |
| Scenarios.EurEntryOwing | test/contracts/Exchanger.js:654-667 | the queued 100 sUSD entry owes a reclaim of 24.75 when sEUR ends the period at 4 and a rebate of 49.5 when it ends at 1 |
| Scenarios.ExchangeIntoEur | test/contracts/Exchanger.js:571-582 | with sUSD at 1 and sEUR at 2, exchanging 100 sUSD leaves 49.5 sEUR, no sUSD, and one queued entry |
| Scenarios.ExchangeOutAfterReclaim | test/contracts/Exchanger.js:699-733 | exchanging 30 sEUR after a reclaim of 24.75 emits the reclaim, exchanges the 24.75 left and empties the holding |
| Scenarios.ReclaimPathEmptiesHolding | test/contracts/Exchanger.js:571-733 | the two exchanges of the reclaim path in sequence succeed and leave no sEUR |
| Scenarios.ExchangeOutAfterRebate | test/contracts/Exchanger.js:868-925 | exchanging 49.5 or 10 sEUR after a rebate of 49.5 emits the rebate and exchanges the request plus the rebate |

## Left out

- `publish/index.js`: command-line deployment plumbing, not part of the engine.
- Oracle internals (inverse pricing with its entry point and bounds, freezing, rate updates): the price history and the staleness flag are inputs.
- Ledger token mechanics, fee-pool periods and the conversion of the fee into sUSD: the fee sink only accumulates the fee per destination asset.
- Fixed-point rounding: amounts are exact reals, so results equal the suite's expected values exactly. The suite tolerates a small rounding variance in some multi-entry scenarios.
- Access control: the owner check and the "only through the ledger" check on exchanges are boolean inputs (`isOwner`, `viaLedger`). The delegate registry is a set of (authoriser, delegate) pairs.
- Event encoding and the Issued/Burned token events: events are a list of the engine's own reclaim, rebate and exchange events.
- Exchanger.Reconcile: a reclaim is capped at the balance so settlement never drives it negative; no test in the suite exercises the cap.
- Exchanger.Exchange: a zero amount or an exchange from an asset into itself is not refused, because nothing in the suite says either is.
- Exchanger.Exchange: its own contract states only the caller and suspension gates and the queue bound. What a success does is stated by EngineProperties.ExchangeEffects and EngineProperties.ExchangeSucceedsIff.
- Timing helpers, snapshots and the suite's fast-forwarding of the clock: time is an explicit `now` argument.
