# Verified model of arbx

arbx watches Arbitrum pools, looks for two-hop arbitrage cycles, simulates and
submits them, and keeps a ledger of profit, gas and budget. This project models
its integer arithmetic and its state machines in Dafny and proves what they keep.

| file | models |
|---|---|
| `Words.dfy`, `BigEndian.dfy`, `Decimal.dfy`, `Wrappers.dfy`, `Types.dfy` | machine words with their wrap-around, byte and decimal encodings, shared records |
| `Amm.dfy`, `ConstantProduct.dfy`, `TwoHop.dfy` | swap formulas, their composition into cycles, and the inequalities about them |
| `TernarySearch.dfy`, `ClosedForm.dfy`, `NearOptimal.dfy` | the flash-loan search, the un-floored profile it is made for, and how near its answer is to the best floored profit |
| `PoolStore.dfy`, `PathScanner.dfy`, `Profit.dfy` | the pool cache, the scan over it, and the profit filter |
| `Reconciler.dfy`, `PoolRun.dfy` | one reconciler pass, and whole runs in which its tasks interleave with discovery |
| `SwapDetection.dfy`, `BlockPoller.dfy`, `PoolSeeder.dfy`, `Config.dfy` | swap detection, block walking, chunked log scans, template expansion |
| `Submitter.dfy`, `Ledger.dfy`, `Watchdog.dfy`, `Persistence.dfy` | gas accounting, the ledger, the kill switch, and crash-safe saving |
| `Pipeline.dfy` | detection and execution tasks around the ledger |

Arithmetic follows a release build: `+`, `-` and `*` on U256, I256, u128, u64 and
u32 wrap unless the source names a checked or saturating form. `Words.Product`,
`Words.Quot` and `Words.Rem` spell out `*`, `/` and `%` on words recursively so that
proofs rest on their contracts; `ProductIs`, `QuotIsFloor` and `RemIsMod` tie them to
the built-in operators. USD amounts are exact reals, the gas buffer is an integer in
billionths and the USD floor an integer in wei. Answers of the node (logs, reserves,
gas quotes, receipts, heads) and file or channel failures are parameters or steps.

Where code and documentation disagree the model follows the code:

- The comment at crates/detector/src/opportunity.rs:251-252 promises the global
  maximum. 64 rounds leave a bracket about 5.4e12 wide, so the search never looks
  below about 2.7e12 and misses profits of small pools (`TernarySearch.MaximumMissed`,
  `NearOptimal.BlindIfLeastRefused`). Pools whose profit is seen to drop half a final
  bracket before they refuse get a near-optimal answer (`NearOptimal.SearchNearOptimal`),
  pools that refuse the least answer get none; in between it depends on the search's own
  trajectory whether the answer is refused, and `NearOptimal.SearchNearOptimalIff` says
  what follows either way.
- crates/detector/src/profit.rs:130-131 says integer scaling avoids drift on large
  values; the product wraps once cost x buffer reaches 2^256
  (`Profit.MinProfitExactIff`, `Profit.WrappedThresholdUndercharges`), and then what
  clears need not pay its costs; `Profit.AccountsForAllIff` says exactly when it does.
- A fee tier of 1_000_100 and more, which a uint24 read from an unknown contract can
  be, makes `10_000 - fee_tier / 100` wrap, and both orientations of one pair can then
  show a profit (`TwoHop.SafeFeeIff`, `TwoHop.WrappedFeeBreaksOrientation`); the laws of
  compute_v2 hold for exactly the other fee tiers (`ConstantProduct.NoGainBackIff`,
  `ConstantProduct.NoGainSplitIff`, `ConstantProduct.ProductKeptIff`).
- crates/ingestion/src/sequencer_feed.rs:504-506 states an equivalence that fails
  once the scaled amount leaves 256 bits (`SwapDetection.FlagIsExactIff`).
- A saved ledger keeps its remaining budget when the configured budget changes,
  until the next record (`Ledger.NewBudgetWaitsForARecord`).

## Model

| member | source | states |
|---|---|---|
| TwoHop.OneOrientationOnly | crates/detector/src/opportunity.rs:86-131 | Of the two orientations tried for one pair of pools, in any mix of V2 and V3 and for any two loan amounts, at most one has a positive estimated profit, whenever the product of the two fee fractions is at most one. |
| TwoHop.NeverBothIff | crates/detector/src/opportunity.rs:86-131 | For two fee tiers, no pair of pools with chain-sized reserves ever pays both ways, at any prices and amounts, if and only if the product of the two (wrapping) fee factors is at most 10_000^2. |
| TwoHop.SafeFeeIff | crates/detector/src/opportunity.rs:214 | A fee tier is safe against every fee tier whose factor does not wrap if and only if its own does not wrap: fee_tier / 100 <= 10_000. |
| TwoHop.QuoteTakesFee | crates/detector/src/opportunity.rs:141-245 | For every tier up to 100%, no quote, floors and cut-offs included, exceeds amount x spot price x (10_000 - fee_tier / 100) / 10_000. |
| ClosedForm.V2QuoteIs | crates/detector/src/opportunity.rs:159-187 | A V2 pool refuses an amount above its input reserve and pays nothing when a reserve is zero; otherwise it pays exactly the floor of a k R / (10_000 r + a k), with k = 10_000 - fee_tier / 100. |
| ClosedForm.V3QuoteIs | crates/detector/src/opportunity.rs:198-245 | A V3 pool pays at most amount x (sqrtPriceX96 / 2^96)^2, or its inverse, x k / 10_000, and less than 1 + (price + 1) x k / 10_000 below that, unless a checked product overflows. |
| TwoHop.ProfitNeedsRate | crates/detector/src/opportunity.rs:278-282 | A positive path profit needs the product of spot prices and fee fractions along the cycle to exceed one. |
| TwoHop.ProfitNeedsPriceGap | crates/detector/src/opportunity.rs:278-282 | A positive path profit needs a gap between the two pools' prices even before fees. |
| TwoHop.NoProfitAtParity | crates/detector/src/opportunity.rs:278-282 | When the fee-adjusted reserves leave no gap (f1 f2 R1 R2 <= 10^8 r1 r2 for V2 pools), the path profit is 0 for every loan amount. |
| TwoHop.NothingWraps | crates/detector/src/opportunity.rs:33-45 | For uint112 V2 reserves and uint160 prices and any fee tier, every wrapping operation after the fee subtraction is exact for any amount, also one that came out of a V3 pool: the quote equals the quote over the integers. |
| TwoHop.QuoteV3 | crates/detector/src/opportunity.rs:198-245 | The V3 quote is the true chain of floors, or none: none exactly when a checked product overflows or the result is 0. |
| TwoHop.QuoteV3Monotone | crates/detector/src/opportunity.rs:218-241 | A larger amount never buys less in a V3 pool, and fits 256 bits only if every smaller one does. |
| TwoHop.SamePoolNeverGains | crates/detector/src/opportunity.rs:141-245 | Going there and back in one pool at its quoted state never returns more than was put in, V2 or V3. |
| TwoHop.StubNeverPays | crates/detector/src/opportunity.rs:159-212 | A cycle through a pool that is still an unhydrated stub has no profit. |
| TwoHop.WrappedFeeBreaksOrientation | crates/detector/src/opportunity.rs:214 | The instance for fee tier 1_000_100: two unit-price V3 pools on which both orientations show a profit. |
| ClosedForm.ComputeV2Is | crates/detector/src/opportunity.rs:33-45 | For any amount, reserves and fee tier whose products fit 256 bits, compute_v2 is the floor of a k R / (10_000 r + a k), with k = 10_000 - fee_tier / 100, plus 2^32 when that is negative. |
| ConstantProduct.OutputBound | tests/property/mod.rs:66-79 | An output never exceeds its own fraction and is below the output reserve. |
| ConstantProduct.FeeFreeShare | crates/detector/src/opportunity.rs:33-45 | What a swap pays never exceeds the fee-free share: out / (R - out) <= a / r. |
| ConstantProduct.OutputMonotone | tests/property/mod.rs:121-155 | More in or a lower fee never pays less. |
| ConstantProduct.ProductKeptIff | crates/detector/src/opportunity.rs:33-45 | Likewise: no compute_v2 trade lowers the product of the reserves, floors included, if and only if the fee factor does not wrap. |
| ConstantProduct.NoGainBackIff | tests/property/mod.rs:174-193 | For a fee tier: selling the proceeds of compute_v2 back through the updated reserves never returns more than was put in, at all amounts and reserves whose products fit 256 bits, if and only if the fee factor does not wrap. |
| ConstantProduct.NoGainSplitIff | crates/detector/src/opportunity.rs:33-45 | Likewise: two successive compute_v2 trades into a funded side never pay more than one trade of their sum, if and only if the fee factor does not wrap. |
| ConstantProduct.SplittingNeverGainsIff | crates/detector/src/opportunity.rs:34-45 | Splitting a trade never gains for any two amounts if and only if the input side is funded (or the output side or the fee factor makes every output 0). |
| ConstantProduct.ProductNeverFallsOverRuns | crates/detector/src/opportunity.rs:33-45 | The reserve product never falls over any series of trades in both directions. |
| ConstantProduct.NoMoneyPump | crates/detector/src/opportunity.rs:33-45 | No series of trades leaves a funded pool with less of one token and no more of the other. |
| TernarySearch.Converge | crates/detector/src/opportunity.rs:253-275 | The loop, with its two early exits, returns the midpoint that the recursive search specifies. |
| TernarySearch.OptimalFlashLoanAmount | crates/detector/src/opportunity.rs:253-275 | The method returns the specified amount for the path's own profit comparison. |
| TernarySearch.WidthIgnoresProfits | crates/detector/src/opportunity.rs:257-272 | After n rounds the bracket width is exactly the n-fold w - floor(w/3), whatever the profits are, and the bracket stays inside its start. |
| TernarySearch.WidthIsGeometric | crates/detector/src/opportunity.rs:261-270 | n rounds scale the width by (2/3)^n up to an error below 2. |
| TernarySearch.FinalWidth | crates/detector/src/opportunity.rs:254-274 | The search over [10^6, 10^24] always ends with a bracket of 5_372_289_657_159 or one more. |
| TernarySearch.EveryRoundCuts | crates/detector/src/opportunity.rs:258-264 | Neither early exit ever fires: all 64 rounds run. |
| TernarySearch.PeakStaysInside | crates/detector/src/opportunity.rs:265-271 | For a profile that rises strictly and then never rises, the bracket always contains the peak. |
| TernarySearch.PeakIsBest | crates/detector/src/opportunity.rs:249-252 | That peak is a maximiser of the profile. |
| TernarySearch.MidpointRange | crates/detector/src/opportunity.rs:254-274 | The result stays in range, and at least half a final bracket from either end. |
| TernarySearch.MidpointNearPeak | crates/detector/src/opportunity.rs:253-275 | On such a profile the result is within the computed half-width of the maximiser. |
| TernarySearch.MaximumMissed | crates/detector/src/opportunity.rs:249-275 | A concrete pair of pools pays at the lowest amount of the range while the search finds 0: the comment at lines 251-252 is stronger than the code. |
| ClosedForm.QuoteNearCurve | crates/detector/src/opportunity.rs:141-245 | The floored quote of a V2 or V3 pool lies below its curve K a / (D + E a) (a straight line for V3), by less than a stated error. |
| ClosedForm.ThenComposes | crates/detector/src/opportunity.rs:278-282 | Two such legs compose to one such curve. |
| ClosedForm.QuoteMonotone | crates/detector/src/opportunity.rs:141-245 | A smaller amount is taken by a pool if a larger one is, and pays no more. |
| ClosedForm.OutputNearCurve | crates/detector/src/opportunity.rs:278-282 | For any mix of V2 and V3 pools the path output is 0 where a leg refuses the amount, and elsewhere below the composed curve by less than the loss of both legs' floors. |
| ClosedForm.ProfitNearProfile | crates/detector/src/opportunity.rs:278-282 | The floored profit lies below the un-floored profile, by less than that loss, at every amount. |
| ClosedForm.NeverRisesAgain | crates/detector/src/opportunity.rs:278-282 | The un-floored profit profile with its cut-offs at zero, once it fails to rise, never rises again. |
| ClosedForm.PeakExists | crates/detector/src/opportunity.rs:249-252 | So the profile is unimodal on every range: there is a peak to search for. |
| NearOptimal.Concave | crates/detector/src/opportunity.rs:249-252 | Chords of the composed curve flatten. |
| NearOptimal.CutLosesLittle | crates/detector/src/opportunity.rs:265-271 | A round that compares floored profits, and so may cut off the best amount, keeps an amount whose profile is lower by at most the floor loss. |
| NearOptimal.SearchLosesLittle | crates/detector/src/opportunity.rs:257-272 | n rounds lose at most n times the floor loss. |
| NearOptimal.SearchNearOptimalIff | crates/detector/src/opportunity.rs:253-282 | For any live pair, V2 or V3: no amount of the range pays more than the code's own answer plus an explicit slack (65 floor losses and the initial rate times half a final bracket), if and only if the answer is not refused by a pool or nothing pays more than the slack. |
| NearOptimal.AnswerAdmitted | crates/detector/src/opportunity.rs:253-275 | Two profits and one admission decide beforehand that the answer is not refused: the profit drops between p and t by more than the floors explain, and the pools still take t plus half a final bracket. |
| NearOptimal.SearchNearOptimal | crates/detector/src/opportunity.rs:253-282 | So, if that holds for some p and t or the pools take the top of the range, no amount of the range pays more than the code's own answer plus the slack. |
| NearOptimal.ProfitFound | crates/detector/src/opportunity.rs:249-275 | And then whatever pays more than the slack is found: the answer pays. |
| NearOptimal.BlindIfLeastRefused | crates/detector/src/opportunity.rs:174-180 | Pools of either kind that refuse even the least possible answer (about 2.7e12) hide every profit from the search. |
| NearOptimal.DeadPathPaysNothing | crates/detector/src/opportunity.rs:141-245 | The remaining pairs, with a leg at price zero or a fee that takes everything, never pay. |
| PathScanner.PathScanner.Scan | crates/detector/src/opportunity.rs:78-136 | For a stored pool the result covers both orientations, each with exactly one path per other pool over the same pair that the store holds at that lookup and nothing else; an unknown pool has none. Other tasks may write between the three lookups. |
| PathScanner.PathScanner.ScanOrientation | crates/detector/src/opportunity.rs:91-132 | One orientation: exactly one path per partner pool, with the partner's own amount and profit. |
| PathScanner.PathScanner.Evaluate | crates/detector/src/opportunity.rs:103-131 | The path built for one candidate carries the search's amount and the profit at that amount. |
| PathScanner.PathsAreCycles | crates/detector/src/opportunity.rs:74-76 | Every path is circular from the given token, leads through the affected pool and a different stored pool that has both tokens, and its profit is the path profit at its own loan amount. |
| PathScanner.EveryPairIsReported | crates/detector/src/opportunity.rs:91-132 | Every other stored pool over the two tokens, in either order, is reported exactly once. |
| PathScanner.LoanIsSearched | crates/detector/src/opportunity.rs:109 | Every reported loan is what 64 rounds of the search settle on for its own two pools, and at least half a final bracket inside [10^6, 10^24]. |
| PathScanner.ReportedProfitNearOptimal | crates/detector/src/opportunity.rs:103-131 | For every reported path with two live pools that take the top of the range, or whose profit turns before they refuse: no amount of the range pays more than the reported profit plus the slack. |
| PathScanner.OrientationsMatch | crates/detector/src/opportunity.rs:86-89 | The second orientation reports at least as many paths, and as many if no pool was added in between; for distinct tokens no path twice. |
| PathScanner.AtMostOneOrientationPays | crates/detector/src/opportunity.rs:78-136 | Of the two paths a scan reports for one partner whose record did not change in between, at most one shows a profit, whenever the product of the two fee fractions is at most one. |
| Profit.EstimateExactIff | crates/detector/src/profit.rs:195-197 | Both costs are the mathematical products if and only if neither product leaves 128 bits. |
| Profit.MinProfitExactIff | crates/detector/src/profit.rs:140-149 | The threshold is floor(cost x buffer / 10^9) + floor if and only if the buffer product fits 256 bits; the final addition never wraps. |
| Profit.ThresholdCoversCost | crates/detector/src/profit.rs:140-149 | With a buffer of at least one and a product that fits, the threshold is at least cost + floor. |
| Profit.ClearsIff | crates/detector/src/profit.rs:238-273 | A path clears exactly when (profit - floor) x 10^9 exceeds cost x buffer, whenever that product fits. |
| Profit.ClearsFromQuotesIff | crates/detector/src/profit.rs:172-273 | The same test from the four answers of the node, when neither cost leaves 128 bits. |
| Profit.EstimateGas | crates/detector/src/profit.rs:172-218 | An estimate exists exactly when all four calls to the node succeed; otherwise the error is that of the first one that fails. |
| Profit.FilterFailsIff | crates/detector/src/profit.rs:238-248 | The filter fails exactly when the estimate does, with its error. |
| Profit.ClearedIsAccounted | crates/detector/src/profit.rs:250-275 | What clears satisfies gross = net + l2 + l1 with nothing saturated, carries its own costs and time, and its net exceeds the floor. |
| Profit.AccountsForAllIff | crates/detector/src/profit.rs:238-273 | For given gas quotes and strategy, every path that clears satisfies gross = net + l2 + l1 if and only if (cost - floor - 1) x 10^9 <= (cost x buffer) mod 2^256. |
| Profit.SoundBufferCovers | crates/detector/src/profit.rs:140-149 | A buffer of at least one whose product fits meets that condition. |
| Profit.WrappedThresholdUndercharges | crates/detector/src/profit.rs:141 | A concrete gas bill and buffer whose product wraps: a path that does not pay for its gas clears, with net profit saturated to 0. |
| Profit.ParityYieldsNothing | crates/detector/src/profit.rs:250-258 | Pools without a fee-adjusted price gap yield no opportunity, whatever the gas quotes. |
| Profit.AtMostOneOrientationClears | crates/detector/src/profit.rs:238-258 | Of the two paths a scan reports for one unchanged partner, at most one clears the filter, under the same bound on the fees. |
| PoolStore.PoolStateStore.Upsert | crates/ingestion/src/pool_state.rs:33-35 | The record is stored under its own address, replacing any earlier one; nothing else changes. |
| PoolStore.PoolStateStore.Get | crates/ingestion/src/pool_state.rs:40-42 | The stored record, or none for an unknown address. |
| PoolStore.PoolStateStore.AllAddresses | crates/ingestion/src/pool_state.rs:55-60 | Every stored address exactly once, in some order. |
| PoolStore.PoolStateStore.ByDex | crates/ingestion/src/pool_state.rs:63-69 | Exactly the stored pools of one kind, each once. |
| PoolStore.PoolStateStore.PoolsContainingToken | crates/ingestion/src/pool_state.rs:72-78 | Exactly the stored pools with the token on either side, each once. |
| PoolStore.PoolStateStore.UpdateReserves | crates/ingestion/src/pool_state.rs:83-98 | Writes reserves and stamp of a known pool and reports it; an unknown address changes nothing and is not created. |
| Reconciler.SkipIsInvisibleIff | crates/ingestion/src/reconciler.rs:282-291 | The early return differs from always writing exactly when somebody else rewrote the pool after its task captured the record. |
| Reconciler.EveryPoolIsCountedOnce | crates/ingestion/src/reconciler.rs:250-263 | checked = updated + unchanged + failed. |
| Reconciler.BlockReconciler.ReconcilePool | crates/ingestion/src/reconciler.rs:272-313 | One pool: the store becomes the reconciled one; the outcome is an error iff the call failed, and true iff the answer differs from the captured record in a reserve, which is then what changes in the store. |
| Reconciler.CountedAsMovedIff | crates/ingestion/src/reconciler.rs:250-311 | A pool counts as updated iff the pass changed one of its reserves, as unchanged iff it was answered and the pass changed neither; an answered pool ends with the answer and the stamp. |
| Reconciler.BlockReconciler.ReconcileAll | crates/ingestion/src/reconciler.rs:226-266 | One pass: every answered pool agrees with its answer and is stamped, the others are untouched, and the statistics count the pools whose reserves changed and those whose call failed. |
| Reconciler.BlockReconciler.Tally | crates/ingestion/src/reconciler.rs:250-265 | The statistics loop counts exactly the updated and the failed pools. |
| Reconciler.BlockReconciler.Run | crates/ingestion/src/reconciler.rs:193-220 | The polling loop runs a pass exactly at the blocks that exceed all before them, and remembers the last. |
| Reconciler.PassesAreRecords | crates/ingestion/src/reconciler.rs:197-216 | Pass blocks strictly increase, and a block gets a pass if and only if it was observed as a new highest head. |
| PoolRun.RunPreserves | crates/ingestion/src/reconciler.rs:193-313 | Over any interleaved run no pool is removed, identities never change, no stamp decreases, and one stamp means one record. |
| PoolRun.HydratedStaysHydrated | crates/ingestion/src/sequencer_feed.rs:336-371 | A reconciled pool is never reset to the stub it was discovered as. |
| PoolRun.ProbedOnceAndOnlyIfAbsent | crates/ingestion/src/sequencer_feed.rs:336-371 | Each address is probed at most once, and what a probe finds is stored only while the address is absent. |
| PoolRun.PassEndsAsSequential | crates/ingestion/src/reconciler.rs:234-248 | Every interleaving of a finished pass, with discovery in between, leaves its pools as the sequential pass does, and counts each pool once. |
| PoolRun.PassCoversKnown | crates/ingestion/src/reconciler.rs:226-236 | A pass takes a record and a task for every pool stored when its listing began, whatever is registered meanwhile. |
| PoolRun.PassAgreesWithChain | crates/ingestion/src/reconciler.rs:226-248 | If the chain stood still, every pool the pass could fetch ends equal to the chain and stamped with the block, and every failed one is untouched. |
| PoolRun.AnswerTakesEffect | crates/ingestion/src/reconciler.rs:236-311 | When a pass of an interleaved run is over, a pool whose call was answered during it holds that answer, stamped with the block of the pass; a pool whose call failed is as it was when the pass began. |
| PoolRun.NeverMoreThanLimitInFlight | crates/ingestion/src/reconciler.rs:234-243 | Never more than concurrency_limit calls are in flight. |
| PoolRun.EarlyReturnIsDead | crates/ingestion/src/reconciler.rs:282-287 | In a run passes have growing blocks, so the early return is never taken. |
| PoolRun.PassMovesIff | crates/ingestion/src/reconciler.rs:234-248 | An unfinished pass can always take a step if and only if the concurrency limit is positive. |
| PoolRun.WorkDecreases | crates/ingestion/src/reconciler.rs:236-248 | Every step of a task uses up a measure that discovery leaves alone, so a pass ends. |
| PoolRun.StepPreserves | crates/ingestion/src/pool_state.rs:33-98 | Each single step keeps what RunPreserves states. |
| SwapDetection.TwoDetectorsAgree | crates/ingestion/src/block_poller.rs:126-194 | For every store and transaction the block poller and the feed accept the same swaps with the same is_large. |
| SwapDetection.DetectsIff | crates/ingestion/src/sequencer_feed.rs:378-407 | A swap is reported if and only if the call goes to a stored pool with one of the two selectors, and carries that call. |
| SwapDetection.StubIsNeverLarge | crates/ingestion/src/sequencer_feed.rs:474-478 | A swap in a pool that has not been reconciled yet is never flagged. |
| SwapDetection.FlagIsExactIff | crates/ingestion/src/sequencer_feed.rs:504-507 | For a swap size, the test is size x 10_000 > reserves x 10 for all reserves whose product fits, if and only if size x 10_000 is below 2^256. |
| SwapDetection.LargeIsExact | crates/ingestion/src/sequencer_feed.rs:474-507 | So is_large is that test for every pool and calldata whose size fits. |
| SwapDetection.SizeOfV3Call | crates/ingestion/src/sequencer_feed.rs:480-493 | For encoded V3 calldata the size is the absolute value of amountSpecified, in either direction. |
| SwapDetection.SizeOfV2Call | crates/ingestion/src/sequencer_feed.rs:494-502 | For encoded V2 calldata the size is the larger of the two outputs. |
| SwapDetection.SmallestAmountIsNeverLarge | crates/ingestion/src/sequencer_feed.rs:489-506 | The largest possible swap, amount int256::MIN, wraps to nothing and is never flagged. |
| SwapDetection.SequencerFeed.MaybeProbeAndRegister | crates/ingestion/src/sequencer_feed.rs:318-372 | Only a call with a known selector to an absent, never probed address is probed; V3 is tried before V2; the address is remembered either way. |
| SwapDetection.RegistersTheAnswer | crates/ingestion/src/sequencer_feed.rs:434-466 | What is registered is a stub with the tokens and the order of the answer; V3 first, with its own fee, then V2 with fee 300. |
| SwapDetection.ProbeIsDiscovery | crates/ingestion/src/sequencer_feed.rs:318-372 | A call is probed if and only if it has one of the two selectors and its target is neither stored nor probed; it is then three enabled discovery steps of an interleaved run, with the same effect on the store and on the probed addresses. |
| BlockPoller.BlockPoller.Run | crates/ingestion/src/block_poller.rs:66-96 | For any observed heads, failures and step-backs included, every block from start + 1 to the highest head is visited once and in order, and the swaps are delivered in that order, each judged by the store as other tasks have left it at that lookup. |
| BlockPoller.BlockPoller.VisitTo | crates/ingestion/src/block_poller.rs:89-94 | The inner loop extends the visited blocks up to the new head. |
| BlockPoller.BlockPoller.ProcessBlock | crates/ingestion/src/block_poller.rs:99-207 | Sends the swaps of a block in order and stops early only when the channel has closed; a missing block sends nothing. |
| BlockPoller.EachBlockOnce | crates/ingestion/src/block_poller.rs:89-94 | The visited blocks are exactly those after the start and up to the last head, strictly increasing. |
| BlockPoller.FoundIff | crates/ingestion/src/block_poller.rs:99-207 | The swaps of the visited blocks are exactly those of their transactions, each judged by the store at its lookup. |
| BlockPoller.HighestIsMaximum | crates/ingestion/src/block_poller.rs:85-94 | The last head is the maximum of the start and all observed heads. |
| PoolSeeder.RunsThroughIff | crates/ingestion/src/pool_seeder.rs:205-277 | For every range and chunk size: the scan runs straight through if and only if the range is empty, or ends before 2^64 - 1 and its last window does not wrap (with chunk size 0: and starts at block 0). |
| PoolSeeder.WindowsPartition | crates/ingestion/src/pool_seeder.rs:205-277 | The windows of a scan that runs straight through are consecutive, start and end with the range, and hold at most chunk-size blocks each. |
| PoolSeeder.EachBlockInOneWindow | crates/ingestion/src/pool_seeder.rs:208-209 | Every block of the range lies in exactly one window, every other block in none. |
| PoolSeeder.FetchPools | crates/ingestion/src/pool_seeder.rs:198-280 | Wherever the loop ends, it fails if and only if one of its windows fails; otherwise it finds what its windows hold, one after the other. |
| PoolSeeder.OneQuery | crates/ingestion/src/pool_seeder.rs:198-280 | A scan that runs straight through ends, and its windows hold what one query over the whole range would return, in order. |
| PoolSeeder.ScanEndsIff | crates/ingestion/src/pool_seeder.rs:205-277 | For every range and chunk size, without failing queries the loop ends if and only if the range is empty, or ends before 2^64 - 1 and some window start + k x chunk, taken modulo 2^64, reaches the last block without wrapping (with chunk size 0: it starts at block 0). |
| PoolSeeder.DecodeLogs | crates/ingestion/src/pool_seeder.rs:320-358 | The loop over one answer keeps exactly the decodable logs, in order. |
| PoolSeeder.AdvancesIff | crates/ingestion/src/pool_seeder.rs:209-276 | The scan moves forward exactly when the window sum does not wrap; with chunk size 0 it stays where it is for ever (except at block 0). |
| PoolSeeder.DecodesWhatFactoriesEmit | crates/ingestion/src/pool_seeder.rs:223-273 | A factory's log decodes to the pool it announces: address, token order, fee and kind. |
| PoolSeeder.DecodesIff | crates/ingestion/src/pool_seeder.rs:224-273 | A log is dropped if and only if it lacks a token topic, has too little data, or has zero bytes where the address is expected; any other gives a stub with the topics' addresses. |
| PoolSeeder.FeeIsTopic | crates/ingestion/src/pool_seeder.rs:239-249 | For a topic below 2^24 the decoded fee is the topic, as the comment there says. |
| PoolSeeder.SeedPoolsFromFactories | crates/ingestion/src/pool_seeder.rs:80-179 | Bad and failing factories are skipped; the others' pools are stored in order and counted, whenever the scans end. |
| PoolSeeder.SeededIff | crates/ingestion/src/pool_seeder.rs:80-179 | After a scan that runs straight through, an address is stored if and only if some log in the range, of a valid factory none of whose queries failed, announces it. |
| PoolSeeder.SeedingStartsARun | crates/ingestion/src/pool_seeder.rs:264-273 | Seeding an empty store leaves an initial state of the interleaved runs of PoolRun. |
| BigEndian.ReadsBack | crates/ingestion/src/sequencer_feed.rs:485-486 | A value written as big-endian bytes is read back. |
| BigEndian.Word | crates/ingestion/src/sequencer_feed.rs:485-489 | A 32-byte word has its top bit set exactly when its value is at least 2^255. |
| Config.ExpandEnvVars | crates/common/src/config.rs:150-175 | The loop returns exactly the substitution into the parsed template; the remaining text shrinks every round. |
| Config.ExpansionIsSubstitution | crates/common/src/config.rs:145-175 | Expanding the rendering of any template with proper literals and names equals direct substitution; values are never scanned again. |
| Config.RenderParse | crates/common/src/config.rs:150-175 | Every text is the rendering of its parse, which is a proper template. |
| Config.ParseRender | crates/common/src/config.rs:150-175 | Every proper template is the parse of its rendering. |
| Config.ErrorIsFirst | crates/common/src/config.rs:159-166 | Expansion succeeds iff all variables are set and closed; otherwise the error is the first unset variable, or the unclosed one if all before it are set. |
| Config.ExpandsAs | crates/common/src/config.rs:150-175 | On texts: a text without an opening is itself, one that never closes is an error, and otherwise the first variable is replaced by its value between what precedes it and the expansion of what follows. |
| Submitter.Submit | crates/executor/src/submitter.rs:227-345 | The method with its polling loop returns the specified outcome: the first failing step, a timeout, or the settlement of the first mined receipt. |
| Submitter.SubmittedOkIff | crates/executor/src/submitter.rs:227-345 | A submission yields a result if and only if all its calls succeed, its first answered poll is a receipt, and neither the bill nor the profit is too large to be booked. |
| Submitter.SubmittedBalances | crates/executor/src/submitter.rs:227-345 | The result is then that of this receipt: its costs are the bill, and profit and costs balance the earnings. |
| Submitter.SubmitErrorIs | crates/executor/src/submitter.rs:227-345 | Otherwise the error is that of the first step that fails: each call, the first answered poll, a timeout exactly when every poll is pending, or the panic. |
| Submitter.CostsAreExact | crates/executor/src/submitter.rs:288-291 | No cost wraps or saturates: costs are the mathematical products and add up to the gas bill. |
| Submitter.ResultBalances | crates/executor/src/submitter.rs:298-343 | A result carries its own costs and outcome, and net + gas equals what was earned modulo 2^256, exactly iff the earnings are below 2^255. |
| Submitter.SettlePanicsIff | crates/executor/src/submitter.rs:293-306 | The submission panics exactly when the bill, or the signed difference of earnings and bill, does not fit 128 bits. |
| Decimal.ParsePrint | crates/common/src/pnl.rs:143-144 | Printing and reading back an unsigned wei total gives the total. |
| Decimal.ParsePrintSigned | crates/common/src/pnl.rs:148-150 | The same for a signed total. |
| Decimal.PrintParse | crates/common/src/pnl.rs:143-144 | A canonical decimal string is what printing its value produces. |
| Ledger.PnlTracker.WithThresholds | crates/common/src/pnl.rs:92-120 | Starts from the saved state if there is one, else from zero totals and the full budget. |
| Ledger.PnlTracker.RecordSubmission | crates/common/src/pnl.rs:126-165 | One record changes the state as specified, field by field, or panics before the lock and changes nothing. |
| Ledger.PnlTracker.IsBudgetExhausted | crates/common/src/pnl.rs:197-203 | True exactly when the remaining budget is at most the kill threshold plus 10^-6. |
| Ledger.PnlTracker.IsBudgetLow | crates/common/src/pnl.rs:207-213 | True exactly when the remaining budget is at most the warning threshold plus 10^-6. |
| Ledger.StepPosts | crates/common/src/pnl.rs:139-165 | A record on a reachable state posts its effect and leaves a state whose strings read back, so the ZERO fallback never fires. |
| Ledger.ReplayPosts | crates/common/src/pnl.rs:139-165 | After any series of records the whole state is the posting of the records' sum. |
| Ledger.RunBooks | crates/common/src/pnl.rs:126-165 | Over any series of records gas moves by the sum of l2 + l1 and profit by the sum of net profits, of the records that fit 128 bits, and each of those is counted once. |
| Ledger.UsdAgreesWithWei | crates/common/src/pnl.rs:132-163 | At one price, USD gas and profit move by those integer sums / 10^18 x price, and the remaining budget falls by the gas. |
| Ledger.ExhaustedIff | crates/common/src/pnl.rs:197-213 | From an empty ledger the budget is exhausted (low) exactly when the gas, in USD, reaches the budget less the threshold and 10^-6. |
| Ledger.OrderIsIrrelevant | crates/common/src/pnl.rs:139-165 | Any two orders of the same records give the same state but for the time stamp. |
| Ledger.RestartIsTransparent | crates/common/src/pnl.rs:92-120 | Recording, saving, reloading with the same budget and going on equals never stopping. |
| Ledger.SessionsAddUp | crates/common/src/pnl.rs:143-150 | The totals after two sessions are the sums of both. |
| Ledger.NewBudgetWaitsForARecord | crates/common/src/pnl.rs:98-119 | A restart with another budget keeps the old remaining budget until the first record that counts; the two agree only if the budgets are equal. |
| Ledger.EntryBalances | crates/common/src/pnl.rs:132-160 | What the submitter returns never makes the ledger panic, and its effect on profit plus gas is what was earned. |
| Ledger.LiveRunConserves | crates/common/src/pnl.rs:132-165 | Over any live run profit + gas moves by what the submissions earned, modulo 2^256, and submissions = successes + reverts. |
| Ledger.LiveRunConservesExactly | crates/common/src/pnl.rs:132-165 | The same as an equation of integers while neither total leaves its type. |
| Ledger.DryRunConservesIff | bin/arbx.rs:717-728 | A dry-run record keeps profit + gas only if it carries no gas. |
| Ledger.RemainingNeverRises | crates/common/src/pnl.rs:161-163 | With non-negative prices the remaining budget is the budget less the gas spent, and never rises. |
| Ledger.ExhaustionIsPermanent | crates/common/src/pnl.rs:197-213 | Exhaustion once reached is permanent, and with warn >= kill it is also low. |
| Watchdog.BudgetWatchdog | bin/arbx.rs:650-682 | The watchdog returns its error at the first tick that finds the budget exhausted, and at no other. |
| Watchdog.CrossingIsCaught | bin/arbx.rs:654-669 | Exhaustion at any record, also between ticks, is still there at the next tick and all later ones. |
| Persistence.StateFiles.Save | crates/common/src/pnl.rs:264-301 | On any failure the target is untouched; on success it is the whole new snapshot, synced. |
| Persistence.CrashRecovers | crates/common/src/pnl.rs:92-119 | At any crash the next start loads a complete ledger that lost at most the latest records, never one that had reached the disk. |
| Persistence.RenameTakesEffect | crates/common/src/pnl.rs:284-292 | A rename leaves the target complete, synced and equal to the snapshot of its save. |
| Persistence.SaveOnMachine | crates/common/src/pnl.rs:264-301 | The machine can make the moves of one save, with any fault or none, and leaves both files as Save does. |
| Persistence.FlushedSaveSurvives | crates/common/src/pnl.rs:92-292 | Once a renamed save has reached the disk, its records are in every later ledger, whatever crashes come. |
| Persistence.SavedRecordSurvives | crates/common/src/pnl.rs:126-292 | So is every record made before a save that was renamed and reached the disk without a crash. |
| Persistence.TargetNeverTorn | crates/common/src/pnl.rs:284-292 | In every reachable state the target is absent or a complete synced snapshot, whatever stale .tmp was present, so no start ever fails to load it. |
| Persistence.SavedStatesOccurred | crates/common/src/pnl.rs:264-292 | Whatever a restart can load is a state the ledger really was in. |
| Persistence.TotalsAreOfSurvivors | crates/common/src/pnl.rs:92-165 | After any number of crashes and restarts the totals are those of the surviving records. |
| Pipeline.PermitsAndFunnel | bin/arbx.rs:500-539 | In every reachable state permits held + permits free = max_concurrent_simulations, the queue keeps its bound, and recorded <= cleared_simulation <= cleared_threshold <= detected. |
| Pipeline.ExactlyOnePlace | bin/arbx.rs:527-639 | Every cleared opportunity is in exactly one of in-send, queued, waiting, simulating, submitting, recording, finished or dropped; nothing else is anywhere. |
| Pipeline.RecordedAtMostOnce | bin/arbx.rs:583-638 | Each opportunity is recorded at most once, only when its task ends, and with its own submission (or its own estimates in a dry run). |
| Pipeline.NoOpportunityIsStuck | bin/arbx.rs:567-639 | With at least one permit, whenever some cleared opportunity is unfinished a step that advances one is enabled. |
| Pipeline.AdvancingUsesWork | bin/arbx.rs:567-639 | Every step that carries an opportunity on uses up a measure, to which only a newly cleared opportunity adds. |
| Pipeline.WorkBoundsSteps | bin/arbx.rs:567-639 | While nothing new clears, at most that many such steps can follow. |
| Pipeline.EveryOpportunityEnds | bin/arbx.rs:527-639 | With at least one permit, once no such step is left every opportunity that ever cleared is finished or was dropped unsent. |
| Pipeline.NothingDroppedWhileOpen | bin/arbx.rs:500-539 | While the execution loop receives, nothing is dropped. |
| Pipeline.CloseTakesEffect | bin/arbx.rs:527-539 | Once it has stopped, what was queued is dropped and nothing is received any more. |
| Pipeline.PathsInOrder | bin/arbx.rs:491-530 | Until detection stops, the detected paths are decided once each and in order, and those left are the ones waiting. |
| Pipeline.ClearsInOrder | bin/arbx.rs:511-530 | What clears is the first path not decided yet. |
| Pipeline.ReceivedInOrder | bin/arbx.rs:527-567 | While it receives, the execution loop takes the opportunities in the order in which they cleared. |
| Pipeline.FinishedHow | bin/arbx.rs:567-639 | A task finishes only through a failed simulation, a failed submission or a record. |
| Pipeline.SubmissionIsBooked | bin/arbx.rs:590-639 | What was submitted and mined is booked when its task records it, once, with the result of that submission. |
| Pipeline.CountersCount | bin/arbx.rs:500-600 | The counters are the numbers of detected paths, cleared opportunities and successful simulations. |
| Pipeline.PipelineConserves | bin/arbx.rs:600-627 | In every reachable state of a live run, ledger profit + gas has moved by the gross profit of the recorded successes, modulo 2^256, and submissions by the number recorded. |
| Pipeline.DryPipelineBooks | bin/arbx.rs:600-627 | In every reachable state of a dry run, recorded gas has moved by the estimated l2 + l1 of the recorded opportunities, profit has not moved, and each counts as a revert. |
| Pipeline.DryRecordIsBooked | bin/arbx.rs:717-728 | What a dry run records is booked, unless its estimate does not fit 128 bits. |

## Left out

- TwoHop.NothingWraps: reserves up to uint112 for V2 and prices up to uint160 for V3, which is what the chain can return; the store's own U256 fields could hold more.
- ConstantProduct.NoGainBackIff: amounts and reserves whose products fit 256 bits (`Amm.Roomy`, which `Amm.ChainIsRoomy` gives for all chain values); likewise NoGainSplitIff and ProductKeptIff. Beyond that compute_v2 wraps.
- NearOptimal.SearchNearOptimal: the slack is an upper bound, not the largest loss that occurs.
- PoolSeeder.FetchPools: says nothing of a scan that never ends; ScanEndsIff says which those are.
- PoolSeeder.SeedPoolsFromFactories: the same; the known_pools of the configuration, which are probed one by one, are not modelled.
- Reconciler.BlockReconciler.ReconcileAll: takes the tasks one after the other (PoolRun covers the interleavings) and has no closed-semaphore outcome, since the semaphore is never closed.
- Decimal.ParsePrint: reading covers decimal digits with an optional sign; the `0x`, `0o`, `0b` prefixes and `_` separators that the U256 parser also accepts never occur in a printed total and read as no value here.
- Submitter.Submit: gas limit, transaction hash and revert text are not modelled; they do not enter the accounting.
- SwapDetection.LargeIsExact: requires the reserve threshold itself to fit 256 bits, which uint112, uint128 and uint160 chain values always do.
- Ledger.LiveRunConserves: modulo 2^256; LiveRunConservesExactly needs both totals to stay in their types, because two wraps can cancel out.
- Persistence.TargetNeverTorn: one save at a time; two at once would share one `.tmp` path without a lock. JSON text is modelled as the whole snapshot it encodes.
- RPC, WebSocket, ABI and revm calls, calldata encoding of the executor contract, and `ArbExecutor.sol`: library or contract code; their outcomes are parameters.
- Floating-point rounding: prices and budgets are exact reals, the gas buffer and floor are integers after scaling.
- The metrics counters transactions_submitted and transactions_succeeded, which both the submitter and the execution loop increase.
- Time stamps of detected swaps, the backoff schedule, log output, the metrics server, the command line and the placeholder crates/detector/src/graph.rs.
- Shutdown by aborting tasks: closing the opportunity channel is a step of the pipeline, the abort of a running task is not.
