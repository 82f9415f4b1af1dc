# Ideal Network: subscriptions, beacon ingestion and callbacks, verified

The Ideal Network (IDN) ingests the drand quicknet randomness beacon and sells its pulses by subscription.
This project models four parts of it in Dafny and proves what holds of every run of them.

* **The subscription ledger** (`pallet-idn-manager`). Subscriptions are Active, Paused or Finalized. Their fees and
  storage deposits are held per account, shared by all subscriptions of the account. Each accepted pulse gives every
  subscription one turn, which costs one credit, and each block end removes some of the finalized ones.
  `ManagerSpec` says what each call does to storage as a value, `ManagerPallet` is the pallet as a class that updates
  storage in place and is proved to do exactly that, and `ManagerRuns` defines runs: any sequence of calls, dispatches,
  block ends and outside transfers, in any storage order, with the currency and the message transport failing wherever
  they like. `Lifecycle`, `Conservation`, `Solvency`, `Histories`, `Standing`, `Deposits` and `Quotes` hold the results
  over runs; `Effects` says who may make a call, exactly when it succeeds and what it changes, field by field.
  `Pricing`, `PriceShape` and `Runtime` are the tiered price and the deployed configuration. The results over runs hold
  for every price that charges nothing for nothing and never falls; `Runtime.TieredIsPrice` shows the tiered one is such.
* **Beacon ingestion** (`pallet-randomness-beacon`) in `Beacon`, `BeaconRuns`, `Pairing` and `PulseMessages`, over any
  pair of groups with a bilinear pairing. `Chain` composes it with the ledger.
* **The collator** (`Collator`, `CollatorRuns`): the bounded queue of pulses, the finality gadget and the worker that
  puts at most one transaction per block into the pool, over every interleaving of arrivals and notifications.
* **Contract callbacks** (`Callback`, `Scale`): call data encoded around dummy parameters, cut off, and completed by
  the network with the real ones.

Each event, send and failed collection is appended to a *journal* (`Subscriptions.Journal`). Whole-run results are
folds over it: `Histories.LifeOf` is what has happened to one subscription, `Solvency.Drift` is by how much an account's
updates and failed collections have moved its fee hold. The journal is written by the methods of
`ManagerPallet.IdnManager` beside the events the pallet emits, and nothing reads it back.

Integers are modelled at their widths. Saturating operations saturate; the plain additions
`last_delivered + frequency` (u32) and `end + 1` (u64) wrap, since the release profile has no overflow checks.

## Where the code and its documentation differ

The model follows the code.

* The ranges documented for tiers 3 to 5 (`pallets/idn-manager/src/impls.rs:134-136`) are a thousand times too small;
  the constants at lines 144-150 are used. The last tier ends at `u64::MAX - 1`, so the very last credit is free
  (`Pricing.TiersPartitionCredits`).
* The documented formula for credits charges `frequency - 1` idle blocks per pulse; the code charges `frequency`
  (`pallets/idn-manager/src/traits/mod.rs:153-165`). Both are enough (`Quotes.QuoteSuffices`,
  `Quotes.DocumentedQuoteSuffices`).
* `update_subscription` changes `credits` and the fee hold but not `credits_left`, so lowering the credits can leave too
  little on hold for the refund at termination (`Solvency.LoweredPriceBlocksKill`).
* A collection is made at best effort and politely, so a freeze can cut it short while the hold covers it. At a delivery
  the part taken is gone although the credit is not used up (`Solvency.CutShortBlocksKill`).
* The deposit difference in `update_subscription` compares the subscription with a copy taken after the changes, so the
  deposit never moves (`Deposits.ShrunkDepositIsStranded`).
* The comment on the height check promises at most `MaxSigsPerBlock` signatures; the check admits one round more
  (`BeaconRuns.OneRoundOverTheLimit`); `BeaconRuns.AcceptedIff` says exactly what is accepted.
* The worker answers without error when it skips a block it has already served, so the gadget moves its next round past
  a pulse that was not put into the pool. `CollatorRuns.AnsweredIsPooledIff` says exactly when, and
  `CollatorRuns.SkippedPulseIsLost` shows a run in which the pulse never gets there. `CollatorRuns.AnsweredRoundsRise` is
  about answers without error, `CollatorRuns.SubmittedRoundsRise` about what the pool took.
* A queue of capacity zero is not bounded (`CollatorRuns.ZeroCapacityIsUnbounded`).

## Model

| member | source | states |
|---|---|---|
| Pricing.CalculateSubscriptionFees | pallets/idn-manager/src/impls.rs:142-177 | the tier loop never underflows, stops early only when every credit is priced, and yields the sum over all five tiers of that tier's saturating fee |
| Pricing.TiersPartitionCredits | pallets/idn-manager/src/impls.rs:144-166 | the per-tier counts add up to the credits exactly when there are fewer than `u64::MAX`; one credit is lost at the maximum |
| PriceShape.FeeIsListPrice | pallets/idn-manager/src/impls.rs:154-176 | the fee is the list price in unbounded arithmetic (each tier at its rate, rounded down tier by tier) exactly when no tier saturates, and never above it |
| PriceShape.FeeMonotone | pallets/idn-manager/src/impls.rs:142-177 | more credits never cost less, over all u64 counts and base fees, saturated or not |
| PriceShape.FeeSubadditive | pallets/idn-manager/src/impls.rs:142-177 | one order never costs more than the same credits in two orders, for every base fee and all counts, whether or not any tier saturates |
| PriceShape.MarginalsNeverRiseIff | chains/ideal-network/runtime/src/configs/mod.rs:329 | each further credit costs no more than the one before, for all counts that do not saturate, exactly when 20 divides the base fee or the fee is so large that the first tier already saturates; the deployed 2,900,000 qualifies |
| PriceShape.RoundingBound | pallets/idn-manager/src/impls.rs:168-171 | rounding loses at most one unit per tier, and nothing when 20 divides the base fee |
| Runtime.TieredIsPrice | pallets/idn-manager/src/impls.rs:142-177 | the tiered price is a price in the sense all run results assume: zero for zero credits, never falling |
| Runtime.ConsumingNeverCollects | pallets/idn-manager/src/impls.rs:188-207 | in the deployed configuration, consuming any number of credits never has direction Collect, and the amount is the drop in the tiered fee |
| ManagerPallet.IdnManager.constructor | pallets/idn-manager/src/lib.rs:379-386 | a new pallet has nothing stored, nothing on hold and nothing done, the state runs start from |
| ManagerPallet.IdnManager.CollectFees | pallets/idn-manager/src/lib.rs:1017-1032 | takes the least of the price of one credit, the hold and what the currency lets it take, and succeeds exactly if the currency does not refuse and that is the whole price; what was taken stays with the treasury all the same |
| ManagerPallet.IdnManager.ManageFees | pallets/idn-manager/src/lib.rs:1068-1074 | holds more, releases exactly or leaves alone by direction, and a failure changes nothing |
| Currency.HoldReleaseRoundTrip | pallets/idn-manager/src/lib.rs:1052-1082 | a hold moves exactly the amount from free to that one hold of that one account, and releasing the amount exactly always succeeds and restores every balance |
| Currency.ReleaseGivesBack | pallets/idn-manager/src/lib.rs:1059-1096 | a release the currency does not refuse fails only if it is to be exact and the hold is short; otherwise the account gets the amount back, or at best effort all there is, and nothing else moves |
| ManagerPallet.IdnManager.CreateSubscription | pallets/idn-manager/src/lib.rs:489-554 | new storage and result are those of `ManagerSpec.Create`, and any failure, a refused deposit after held fees included, leaves storage as it was |
| ManagerPallet.IdnManager.PauseSubscription | pallets/idn-manager/src/lib.rs:573-591 | new storage and error are those of `ManagerSpec.Pause` |
| ManagerPallet.IdnManager.KillSubscription | pallets/idn-manager/src/lib.rs:609-622 | new storage and error are those of `ManagerSpec.Kill`; a termination that fails half way is rolled back |
| ManagerPallet.IdnManager.UpdateSubscription | pallets/idn-manager/src/lib.rs:640-692 | new storage and error are those of `ManagerSpec.Update`: the fee hold moves by the price difference, credits left and deposit do not move |
| ManagerPallet.IdnManager.ReactivateSubscription | pallets/idn-manager/src/lib.rs:704-722 | new storage and error are those of `ManagerSpec.Reactivate` |
| ManagerPallet.IdnManager.TerminateSubscription | pallets/idn-manager/src/lib.rs:888-907 | new storage is that of `ManagerSpec.Terminate`, not rolled back when the deposit is refused |
| ManagerPallet.IdnManager.DistributeTo | pallets/idn-manager/src/lib.rs:919-981 | one turn of the loop is `ManagerSpec.DistributeOne`: deliver, idle, pause on error or finalize |
| ManagerPallet.IdnManager.DistributeAll | pallets/idn-manager/src/lib.rs:915-982 | the loop over storage, in any order, is the fold of the turns, failed turns included |
| ManagerPallet.IdnManager.OnFinalize | pallets/idn-manager/src/lib.rs:457-466 | the loop terminates the first finalized subscriptions in storage order up to the limit, whatever their terminations answer |
| Effects.StrangersAreRefused | pallets/idn-manager/src/lib.rs:573-722 | pause, reactivate, update and kill by anyone but the subscriber answer `NotSubscriber` and change nothing |
| Effects.MissingIsReported | pallets/idn-manager/src/lib.rs:573-722 | the same calls about a subscription that is not stored answer `SubscriptionDoesNotExist` and change nothing |
| Effects.OnlyOwnersChange | pallets/idn-manager/src/lib.rs:573-722 | over any run without calls by its subscriber, dispatches and block ends a stored subscription stays exactly as it is |
| Effects.TermsAreKept | pallets/idn-manager/src/lib.rs:146-167 | no call changes id, subscriber, size of the details or creation block of a subscription that stays stored, and only its subscriber's update changes credits, frequency, metadata or the update block |
| Effects.CreateIff | pallets/idn-manager/src/lib.rs:498-552 | where the currency refuses nothing for reasons of its own, creation succeeds exactly if credits are asked for, there is room, the given or else generated id is free, and the free balance covers fees and deposit together; it stores that subscription alone, with every field as asked, and moves those two amounts alone |
| Effects.CreateErrors | pallets/idn-manager/src/lib.rs:498-521 | each error of the checks is answered exactly for its own reason, in their order; what fails after them, a hold refused for reasons of the currency's own included, fails as a currency error |
| Effects.PauseAndReactivate | pallets/idn-manager/src/lib.rs:579-590 | the subscriber can pause exactly an active and reactivate exactly a paused subscription; reactivating undoes pausing, leaving storage and balances as they were |
| Effects.UpdateIff | pallets/idn-manager/src/lib.rs:640-692 | where the currency refuses nothing for reasons of its own, the subscriber's update succeeds exactly if the subscription is not finalized and the price change can be held or released; it replaces what was asked for, keeps the rest, and moves the price change alone |
| Effects.KillEffect | pallets/idn-manager/src/lib.rs:888-907 | a kill that succeeds was the subscriber's; it removes that subscription alone and gives back the price of the credits left and the deposit as far as held, to that account alone |
| Effects.HalfTermination | pallets/idn-manager/src/lib.rs:894-898 | a termination whose deposit is refused leaves the fees released and the subscription stored; a kill rolls that back |
| Effects.TurnOutcome | pallets/idn-manager/src/lib.rs:919-1001 | every field of a subscription after its turn, in each of the four cases: not paid and paused, paid but not sent and paused, delivered, idle; finalized exactly when the last two leave no credits |
| Effects.TurnOnRecord | pallets/idn-manager/src/lib.rs:919-982 | a turn counts as a delivery exactly if due, paid and sent, as a send exactly if due and paid, as a failed collection exactly if not paid |
| Effects.TurnMoves | pallets/idn-manager/src/impls.rs:226-257 | a turn moves the least of the fee, the hold and what the currency allows from the hold to the treasury, or nothing if refused, and nothing else, for every account |
| Effects.DepositIsPerByte | pallets/idn-manager/src/impls.rs:304-313 | the deposit is the multiplier times the length of the stored bytes, field by field in storage order, up to the largest balance |
| Standing.PausedIffSuspended | pallets/idn-manager/src/lib.rs:985-1001 | in every run a stored subscription that is not finalized is paused exactly if it was suspended (by its subscriber, a failed collection or a failed send) and not reactivated since, and nothing was sent to it in between |
| Lifecycle.AlwaysOrderly | pallets/idn-manager/src/lib.rs:498-549 | in every reachable state the counter is the number of stored subscriptions, at most the maximum, and Finalized implies no credits left |
| Lifecycle.FinalizedIsFinal | pallets/idn-manager/src/lib.rs:973-980 | no call changes anything about a finalized subscription, short of removing it |
| Lifecycle.ReapExactly | pallets/idn-manager/src/lib.rs:457-466 | a block end picks the first min(finalized, limit) finalized subscriptions in storage order and removes exactly those of them whose deposit the currency gives back; every other subscription stays as it is and no fees move |
| Lifecycle.ReapsFullBatchIff | pallets/idn-manager/src/lib.rs:457-466 | exactly min(finalized, limit) subscriptions are removed if and only if the currency refuses none of the picked ones, and never more |
| Lifecycle.BacklogDrains | pallets/idn-manager/src/lib.rs:457-466 | over any run without dispatches the backlog of finalized subscriptions never grows, and shrinks by the full limit at every block end at which the currency refuses no deposit release, until it is empty |
| Conservation.StepConserves | pallets/idn-manager/src/lib.rs:915-982 | every call, failed or not, keeps the sum of free and held balance over all accounts, the treasury included |
| Conservation.RunConserves | pallets/idn-manager/src/lib.rs:888-1108 | so does every run |
| Conservation.DispatchPaysTreasury | pallets/idn-manager/src/impls.rs:226-257 | a dispatch adds to the treasury exactly what it took from fee holds, by collections that succeeded and by those that fell short |
| Solvency.FeesAccounted | pallets/idn-manager/src/lib.rs:888-1074 | in every run an account's fee hold is the price of its subscriptions' credits left plus the drift; if it was not drained (no update lowered a price, no collection cut short by the currency took more than the price of the credits used up), the hold covers that price and no collection ever fails for lack of held funds; with no price change and no failed collection the two are equal |
| Solvency.KillSucceedsIff | pallets/idn-manager/src/lib.rs:609-622 | where the currency refuses nothing for reasons of its own, a kill by any caller succeeds exactly if the subscription is stored, is the caller's, and the hold has the price of the credits left |
| Solvency.KillAlwaysRefunds | pallets/idn-manager/src/lib.rs:888-907 | after any run in which the owner's hold was not drained the kill succeeds, removes the subscription, and the owner's free balance grows by the whole price of the credits left plus the deposit as far as it is held |
| Solvency.UpdateKeepsCoverIff | pallets/idn-manager/src/lib.rs:659-662 | an update keeps the hold sufficient exactly when the price drop is at most what is held beyond the fees due |
| Solvency.LoweredPriceBlocksKill | pallets/idn-manager/src/lib.rs:659-678 | create, update the credits, kill: the update goes through unless it raises the price beyond the free balance; with nothing else on hold, after one that lowers the price the kill always fails and after any other it always succeeds |
| Solvency.CutShortBlocksKill | pallets/idn-manager/src/impls.rs:241-257 | create, then let the currency cut the first collection short: the credit is not used up but what was taken is gone, so with nothing else on hold the kill succeeds exactly when nothing was taken or the whole fee |
| Histories.DeliveryBudget | pallets/idn-manager/src/lib.rs:704-722 | in every run, through failed sends, reactivations without credits and any updates, a subscription gets at most as many deliveries as the credits it was created with |
| Histories.LifetimeConservation | pallets/idn-manager/src/lib.rs:894-898 | in every run, what a subscription paid to the treasury by successful collections, plus the price of the credits it used up although their collection failed, plus what it got back when it ended (or the price of its credits left while it lives) is exactly the price it was created for; the second part is zero unless a collection failed |
| Histories.SendsAreSpaced | pallets/idn-manager/src/lib.rs:923-956 | consecutive sends are at least the later one's frequency apart, across pauses, updates and failed sends, exactly when the due block number fits u32 |
| Histories.EarlySend | pallets/idn-manager/src/lib.rs:923-929 | a run in which it does not fit: with frequency `u32::MAX` two sends are made in consecutive blocks |
| Histories.AlwaysTold | pallets/idn-manager/src/lib.rs:919-1001 | the invariant behind the three rows above, in every reachable state; a subscription that is not finalized and has no credits has one delivery in reserve |
| Deposits.DepositsComeBack | pallets/idn-manager/src/lib.rs:1088-1096 | in every run in which an account made no subscription smaller, its storage hold is at most its subscriptions' current deposits, and zero once its last subscription is gone |
| Deposits.DepositMonotone | pallets/idn-manager/src/impls.rs:304-313 | a subscription with the larger encoding never takes the smaller deposit, saturation included |
| Deposits.ShrunkDepositIsStranded | pallets/idn-manager/src/lib.rs:673-680 | create, replace the metadata, kill: both later calls always succeed, and with no other deposit on hold everything comes back exactly when the new encoding takes no smaller a deposit |
| Quotes.QuoteIsExact | pallets/idn-manager/src/traits/mod.rs:159-165 | with u32 frequency and lifetime the saturating formula never saturates |
| Quotes.DispatchGivesTurn | pallets/idn-manager/src/lib.rs:915-982 | a dispatch gives each stored subscription exactly one turn, undisturbed by all the others; the turn succeeds or its failed collection is on record, and it cannot fail for lack of funds if the owner's hold was not drained |
| Quotes.CreditsBuyPulses | pallets/idn-manager/src/lib.rs:915-982 | created in any reachable state with any credits and left alone, a subscription is finalized or gone exactly when there have been as many dispatches as credits, for every strictly increasing sequence of dispatch blocks, and then has had at least credits / max(frequency, 1) deliveries, if no collection from it failed; and none fails if its owner's hold was not drained |
| Quotes.QuoteSuffices | pallets/idn-manager/src/traits/mod.rs:147-165 | so with the quoted credits it has had at least the quoted number of pulses by the time it is finalized or gone, which it is after as many dispatches as credits |
| Quotes.DocumentedQuoteSuffices | pallets/idn-manager/src/traits/mod.rs:153-154 | the credits of the documented formula would be enough as well, for every frequency of at least one |
| Chain.ChainIsManagerRun | pallets/idn-manager/src/lib.rs:1191-1193 | a run of both pallets together is, for the manager, a valid run with one dispatch per accepted pulse and dispatches in strictly increasing blocks |
| Chain.QuoteSufficesOnChain | pallets/randomness-beacon/src/lib.rs:332-369 | on the whole chain the subscription is over exactly when the beacon has accepted as many pulses as it has credits, with the deliveries of the rows above; the spacing of dispatches is a consequence of the once-per-block flag |
| Pairing.Curve.FastPairingIff | primitives/crypto/src/bls12_381.rs:53-60 | the single-product check accepts exactly when the two pairings agree |
| Pairing.Curve.VerifyIff | primitives/crypto/src/verifier.rs:52-69 | verification succeeds exactly if key, signature and message decode and the two pairings agree; a key that does not decode is told apart from a point that does not |
| Pairing.Curve.HonestAggregateVerifies | primitives/crypto/src/verifier.rs:38-69 | signatures of one key on any points, added up in any order, pass the check for the sum of the points under that key's public key |
| Pairing.Curve.FoldAnyOrder | client/consensus/randomness-beacon/src/gadget.rs:222-228 | the sum of points does not depend on their order |
| PulseMessages.VerifyBeaconSignature | pallets/randomness-beacon/src/lib.rs:417-446 | the loop over the inclusive range fails at the first round that cannot be hashed and otherwise verifies against the sum of the points of all its rounds |
| PulseMessages.ChainAcceptsIff | pallets/randomness-beacon/src/lib.rs:417-446 | the chain accepts a signature exactly if every round hashes, key and signature decode, and the signature paired with the generator is the sum of the rounds' points paired with the key |
| PulseMessages.UnsignedIsRefused | primitives/crypto/src/verifier.rs:63-66 | an input that is refused: the zero signature on round one, over a lawful pair of groups |
| PulseMessages.UnhashableAddsNothing | chains/ideal-network/bridge/src/types.rs:99-101 | in the consumer's message a round that cannot be hashed adds nothing and any other adds its hash |
| PulseMessages.SameMessage | chains/ideal-network/bridge/src/types.rs:98-109 | the consumer's fold gives the element the chain verified, for every interval that ends before `u64::MAX`, and the encoded zero point there |
| PulseMessages.ConsumerAgrees | chains/ideal-network/bridge/src/types.rs:98-130 | for every interval ending before `u64::MAX` the chain accepts a pulse under a key exactly when its rounds hash and the consumer authenticates it under that key |
| PulseMessages.ConsumerAtLastRound | chains/ideal-network/bridge/src/types.rs:98-130 | ending at `u64::MAX` a pulse authenticates exactly when key and signature decode and the signature pairs to one, whatever its rounds |
| PulseMessages.HonestLastRound | chains/ideal-network/bridge/src/types.rs:98-130 | there an honest aggregate is still accepted by the chain, and by the consumer only if its message pairs with the key to one |
| PulseMessages.LastRoundRefused | chains/ideal-network/bridge/src/types.rs:98-130 | a pulse for round `u64::MAX`, over a lawful pair of groups, that the chain accepts and the consumer refuses |
| PulseMessages.HonestIntervalAccepted | pallets/randomness-beacon/src/lib.rs:417-446 | the beacon's signatures on all rounds of any interval, added up in any order, are accepted by the chain |
| Beacon.RandomnessBeacon.constructor | pallets/randomness-beacon/src/lib.rs:179-196 | a new pallet expects any round, has ingested nothing and has its flag down |
| Beacon.RandomnessBeacon.TrySubmitAsig | pallets/randomness-beacon/src/lib.rs:321-373 | new storage and error are those of `Beacon.TrySubmit`; a failure changes nothing |
| Beacon.RandomnessBeacon.ValidateUnsigned | pallets/randomness-beacon/src/lib.rs:249-281 | valid exactly if local or in a block and not starting before the next round |
| Beacon.RandomnessBeacon.SetBeaconConfig | pallets/randomness-beacon/src/lib.rs:382-390 | replaces the key and nothing else |
| Beacon.RandomnessBeacon.OnFinalize | pallets/randomness-beacon/src/lib.rs:297-302 | lowers the once-per-block flag, tells whether it was up, and changes nothing else |
| BeaconRuns.EveryIntervalSized | pallets/randomness-beacon/src/lib.rs:338-361 | over every run each dispatched interval is non-empty and at most one round over the limit, and after any acceptance, the first included, storage holds the last interval and the round after it |
| BeaconRuns.AcceptedIff | pallets/randomness-beacon/src/lib.rs:328-357 | in any state a submission is accepted exactly if it is unsigned, signed by the block's author, the first in its block, a key is set, it starts at or after the next round, has from one to `MaxSigsPerBlock + 1` rounds, and verifies under that key |
| BeaconRuns.AcceptedEffect | pallets/randomness-beacon/src/lib.rs:359-369 | an accepted submission becomes the stored interval, moves the next round past it, raises the flag and is dispatched under the key in force; nothing else changes |
| BeaconRuns.RefusalReasons | pallets/randomness-beacon/src/lib.rs:328-355 | each error of the checks before verification is answered exactly for its own reason, in their order |
| BeaconRuns.PulsesComeFromAuthors | pallets/randomness-beacon/src/lib.rs:328-390 | over every run each dispatched pulse comes from a submission of its own that is unsigned and signed by the block's author, under the key set last before it and in that block; the stored key is the one set last |
| BeaconRuns.DispatchedPulsesSign | pallets/randomness-beacon/src/lib.rs:357-369 | every pulse ever dispatched has rounds that all hash and a signature whose pairing with the generator is the pairing of their sum with the accepting key |
| BeaconRuns.OneRoundOverTheLimit | pallets/randomness-beacon/src/lib.rs:338-348 | for every limit, a first submission of one round more than the limit is ingested and dispatched |
| BeaconRuns.NoRoundTwice | pallets/randomness-beacon/src/lib.rs:321-373 | over every run of submissions, key changes and block ends, any two dispatched intervals are in strictly increasing blocks, and the later starts after the earlier ended exactly if that ended before `u64::MAX` |
| BeaconRuns.LastRoundRepeats | pallets/randomness-beacon/src/lib.rs:360-361 | the input for which the exception is real: round `u64::MAX` is ingested in two blocks |
| BeaconRuns.StaleForever | pallets/randomness-beacon/src/lib.rs:256-266 | a submission the pool refuses as stale is refused by the call in that state and after any further events |
| BeaconRuns.StaleExactly | pallets/randomness-beacon/src/lib.rs:256-266 | of submissions in order otherwise the pool drops exactly those the call would refuse |
| BeaconRuns.DispatchedPulsesAuthenticate | pallets/randomness-beacon/src/lib.rs:357-369 | every pulse ever dispatched that ends before `u64::MAX` authenticates under the key that accepted it |
| Scale.CompactRoundTrip | contracts/src/xcm/mod.rs:210-223 | decoding a compact integer undoes encoding it in all four modes and leaves the rest of the input alone |
| Scale.CompactIsUnique | contracts/src/xcm/mod.rs:210-223 | whatever a compact integer is read from is its encoding followed by the rest, so no longer form is accepted |
| Scale.CompactVectors | contracts/src/xcm/mod.rs:984-996 | the exact bytes of sample numbers in all four modes, the default weights among them |
| Scale.CompactLength | contracts/src/xcm/mod.rs:210-223 | a compact integer is never longer than its type plus one byte, and a length takes 1, 2, 4 or 5 bytes |
| Callback.CallRoundTrip | contracts/src/xcm/mod.rs:210-223 | decoding a contract call undoes encoding it, for every call |
| Callback.CreateCallbackData | contracts/src/xcm/mod.rs:978-1013 | the data returned is the encoded call around the dummies with exactly the dummies cut off; for dummies of any length SCALE can encode it is never too long |
| Callback.CallbackFits | chains/ideal-network/bridge/src/types.rs:163-166 | for every client, call parameters, selector and length of dummies the truncated data takes at most 97 of the 256 bytes allowed |
| Callback.CompletedCallbackIff | contracts/src/xcm/mod.rs:1006-1012 | truncated data followed by any bytes reads as the original call with data = selector ++ bytes, and nothing left over, exactly when the bytes are as long as the dummies |
| Callback.CompletedCallbackFields | contracts/src/xcm/mod.rs:984-1060 | the completed callback reads, field by field, as a call to the contract itself with the value, weight and deposit limit asked for or else 0, 4,000,000,000, 200,000 and none, data = selector ++ parameters, behind the pallet and call index |
| Callback.DefaultLayout | contracts/src/xcm/mod.rs:1041-1059 | the exact bytes of a default pulse callback, in the order of the encoded call |
| Callback.SampleLayout | contracts/src/xcm/mod.rs:1041-1059 | the exact bytes with given value, weight and deposit limit |
| Callback.ParamsLayout | chains/ideal-network/bridge/src/types.rs:64-71 | where signature, rounds and id are in pulse parameters, and reference, fees and deposit in quotes |
| Callback.PulseCallbackRoundTrip | contracts/src/xcm/mod.rs:523-530 | for all call parameters, dummies, pulses and subscription ids the pulse callback fits, reads as the original call, and its parameters decode to that pulse and id |
| Callback.QuoteCallbackRoundTrip | contracts/src/xcm/mod.rs:682-688 | likewise for quotes |
| Collator.DrandReceiver.constructor | client/consensus/randomness-beacon/src/gossipsub.rs:284-301 | a new receiver is empty |
| Collator.DrandReceiver.Receive | client/consensus/randomness-beacon/src/gossipsub.rs:289-297 | a pulse joins at the back and a full queue first drops its front |
| Collator.DrandReceiver.Consume | client/consensus/randomness-beacon/src/gossipsub.rs:304-315 | takes the oldest pulses, up to the number asked for, in order |
| Collator.PulseWorker.Submit | client/consensus/randomness-beacon/src/worker.rs:70-165 | new state and answer are those of `Collator.SubmitPulse`: skip a served block, mark before signing, unmark only when the pool refuses; each failure has its own error |
| Collator.LatestFresh | client/consensus/randomness-beacon/src/gadget.rs:199-207 | picks the last pulse of the batch that is at or above the next round, and none only if all are behind |
| Collator.PulseFinalizationGadget.HandleFinalityNotification | client/consensus/randomness-beacon/src/gadget.rs:162-247 | queue, worker and next round change together as `Collator.HandleFinality` says; the batch is gone even if the submission fails, and the answer is the worker's, or no error when there was nothing fresh |
| CollatorRuns.NotificationOutcome | client/consensus/randomness-beacon/src/gadget.rs:168-235 | for every state and notification: which pulses leave the queue, that the last fresh one is chosen, exactly when it is answered and when it is put into the pool, with which aggregate, and where the next round moves |
| CollatorRuns.SubmitAnswers | client/consensus/randomness-beacon/src/worker.rs:76-154 | each error of the worker is answered exactly for its own reason, and success exactly if there is a key and the block is served or everything works |
| CollatorRuns.ServedBlock | client/consensus/randomness-beacon/src/worker.rs:84-152 | over every run the worker holds as served the best block of the last notification that got past the served-block check, or none if the pool refused that one or there was none |
| CollatorRuns.RetryIffPoolRefused | client/consensus/randomness-beacon/src/worker.rs:139-153 | after a failed submission a further notification at the same best block, with everything working, puts its pulse into the pool exactly if it was the pool that had refused |
| CollatorRuns.QueueKeepsNewest | client/consensus/randomness-beacon/src/gossipsub.rs:292-296 | a bounded queue keeps the newest pulses that fit and drops its front exactly when full |
| CollatorRuns.ConsumedInOrder | client/consensus/randomness-beacon/src/gossipsub.rs:304-315 | pulses taken off the queue leave as consumed, oldest first, as many as asked for or as there are |
| CollatorRuns.AlwaysAccounted | client/consensus/randomness-beacon/src/gossipsub.rs:284-315 | over every interleaving each received pulse is, in order of arrival, exactly one of consumed, evicted or waiting, and a queue of positive capacity never exceeds it |
| CollatorRuns.ZeroCapacityIsUnbounded | client/consensus/randomness-beacon/src/gossipsub.rs:292-295 | with capacity zero every arrival makes the queue longer |
| CollatorRuns.AnsweredIsPooledIff | client/consensus/randomness-beacon/src/worker.rs:84-106 | a notification answered without error moves the next round past its pulse, and puts it into the pool exactly if the worker has not served the best block yet |
| CollatorRuns.SubmittedRoundsRise | client/consensus/randomness-beacon/src/gadget.rs:174-235 | over every run, in any arrival order and with any best blocks, what the pool took is a subsequence of the answered submissions, each at or above the next round the runtime had given at its notification, and their rounds strictly rise unless round `u64::MAX` is answered in between |
| CollatorRuns.AnsweredRoundsRise | client/consensus/randomness-beacon/src/gadget.rs:174-235 | the same of all answered submissions, each later than the one before exactly if that was not for `u64::MAX` |
| CollatorRuns.PassedRoundsStayOut | client/consensus/randomness-beacon/src/gadget.rs:177-235 | from any state on, no run puts a round behind the local next round into the pool, unless round `u64::MAX` is answered |
| CollatorRuns.SkippedPulseIsLost | client/consensus/randomness-beacon/src/worker.rs:91-104 | a run in which a pulse is answered without error, passed and not in the pool, and in which it never gets there later, whatever happens, short of the next round wrapping |
| CollatorRuns.QueuedPulsesAreFresh | client/consensus/randomness-beacon/src/gadget.rs:174-235 | if pulses arrive in strictly increasing rounds, every waiting pulse is at or above the local next round, always |
| CollatorRuns.OncePerStretch | client/consensus/randomness-beacon/src/worker.rs:84-154 | over every run, whatever the best block does, each transaction in the pool comes from a notification of its own at its best block, and between two for the same best block there is a notification at another one, across pool failures, resets and retries |
| CollatorRuns.OneTransactionPerBlock | client/consensus/randomness-beacon/src/worker.rs:84-154 | so if the best block number never falls, the pool takes transactions in strictly increasing best blocks, and for strictly increasing rounds until the last round is reached |
| CollatorRuns.FallingBestRepeats | client/consensus/randomness-beacon/src/worker.rs:91-104 | why that condition is needed: a run of the gadget with a best block number that falls back, after which the pool has two transactions for one block |

## Left out

- `pallet-balances` itself: existential deposits, locks and freezes appear only as a refusal the currency may give at any hold or release, and as a refusal of a collection or a limit on what it takes; each is a parameter of the call.
- XCM sending and delivery: a send is a parameter that succeeds or fails. Origin checks and location conversion are not modelled; a caller is an account.
- Storage iteration: a snapshot of the keys in an arbitrary order. Changing a map while iterating over it is not modelled.
- Subscription ids made by hashing the parameters: the generated id is a parameter.
- Target location, call data and origin kind of a subscription: only their encoded size, which the deposit depends on.
- `quote_subscription` and `get_subscription_info` of the manager pallet, and the callback for subscription information: forwarding of values computed elsewhere; the length of the information depends on caller-supplied metadata.
- Curve arithmetic, hash to curve, SHA-256, point encodings, sr25519 and the keystore: parameters, with the group laws, bilinearity and encoding laws they must satisfy stated in `Pairing.Curve.Lawful`.
- The aggregation of signatures in the gadget: a parameter of the collator model; that sums of honest signatures are accepted is the subject of `PulseMessages.HonestIntervalAccepted`.
- Collator.PulseFinalizationGadget.HandleFinalityNotification: one notification at a time, as the submission lock enforces; the tokio tasks and locks are not modelled. The finalized header is only logged by the source and is not a parameter.
- Callback.CreateCallbackData: requires selector and dummies to fit a length of 32 bits, the most a SCALE vector can have.
- libp2p, gossip retries and timers, protobuf decoding of pulses: network and wall-clock behaviour.
- The consumer pallet, the example contracts, `vraas`, the example fee calculators, runtime APIs, weights, benchmarks and runtime wiring: forwarding, configuration or smaller copies of what is modelled.
