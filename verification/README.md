# Verified models of the campaign platform's protocols

This project models the parts of the platform that keep money, tokens, scores and reports consistent
while requests race, retry and crash, and proves what they keep. It covers five groups of protocols:

1. **Campaign lifecycle and wallet ledger.** Every money step of a campaign is one database transaction
   under the campaign's and the wallet's row locks, so a run of the program is a sequence of steps on
   one ledger. `Ledger` defines the steps, `LedgerStore` has the program's own in-place form of them
   (each method is proved to take exactly one step), `LedgerEffects` says in plain terms when a step
   succeeds and what it then does, `LedgerInvariant` and `LedgerResults` prove what every run keeps,
   `Pricing` the price taken and the price rebuilt for a refund, `Finalization` the optimistic
   finalization among racing draft saves and changing prices, and `LockOrder` which transactions can
   deadlock.
2. **Short links.** `ShortLinkUids` is the token format and the shared allocator, `ShortLinkAllocation`
   all interleavings of workers that allocate, lose races, reuse and publish, `AllocationKey` the byte
   strings behind the allocation keys, `UploadJob` the administrator's CSV upload.
3. **Tag evaluation.** `EvaluationBatches` builds the batches and validates answers, `WorkerPool` covers
   every schedule of the cancelling pool, `RequestPacer` the pacing of provider calls,
   `EvaluationAttempts` crash and resumption of a batch and the final count check, `EvaluationQueue` the
   queuing of runs.
4. **Audience reports.** `AudienceUidFile` is the append-only input file, `AudienceReport` the staged,
   paged export against the in-memory one, `ReportLease` the leases and output files of report jobs.
5. **Administrator login and audience specification.** `AdminOtp` is the one-time-code challenge under
   racing requests, `AudienceSpec` the builder, the validator that guards the cache, and the cache.

`Numbers` and `Wrappers` hold shared mathematics and the option type.

## How the program is modelled

- A transaction that holds the row locks it needs is one atomic step. Where requests interleave between
  such steps (finalization, allocation, pool, pacer, queue, leases, login), the steps are events of a
  state machine and the results quantify over every sequence of events.
- Code that updates objects in place is a class or a method with the program's own statements, proved
  against functions on values; the results about whole runs are lemmas over those functions.
- Amounts and prices are 64-bit unsigned where the program multiplies or adds them without a check
  (`Pricing`); elsewhere they are unbounded, and the invariant shows that a wallet's total stays within
  64 bits as long as deposits do. Price factors are real numbers.
- Times, random identifiers, provider answers, database failures and crashes are inputs.
- Assumed of the environment: row locks and unique keys of the database, all-or-nothing transactions,
  fresh lease tokens and challenge identifiers, texts without NUL bytes in the database, SHA-256 without
  collisions. The settlement of refunds assumes freezes that are worth what they store, and
  `CampaignFinalization.FreezeIsWellPricedIff` says which are.

## Where the program falls short of what it promises

Each of these is a lemma with a concrete input, beside a lemma that says exactly when the promise holds.

- A release of a frozen budget credits the whole amount, so money taken from the free balance comes back
  as credit (`LedgerResults.ReleaseTurnsFreeMoneyIntoCredit`). The routine that would split it correctly
  is proved to be the inverse of the freeze (`LedgerResults.SplitUndoesTheFreeze`) but is not called.
- The refund price treats a line factor of zero as one (`CampaignPricing.RebuiltPriceIsExactIff`).
- Ending a campaign releases its reservations after taking the wallet's lock, while approval and
  finalization lock the bundle before the wallet, so a cancellation can deadlock with an approval
  (`LockOrder.CancelMeetsApprove`, `LockOrder.CanDeadlockIff`).
- A finalization looks prices up twice, to store them and to charge them, and its revision covers neither:
  a price published in between is charged but not stored, and a refund is then paid at a price that was
  never charged (`CampaignFinalization.RepricedBetweenLookUps`, `CampaignFinalization.FreezeIsWellPricedIff`,
  `LedgerResults.SettlementIsExactIff`).
- A draft save tests the status before it takes the row lock and not again, and a rescheduling writes back
  a row it read without a lock, so a late one reopens a finalized campaign and its budget can be frozen
  twice (`CampaignFinalization.LateSaveFreezesTwice`, `CampaignFinalization.LateRescheduleFreezesTwice`,
  `CampaignFinalization.ReopenedIff`). The ledger modules serialise the test and the write.
- The token counter also moves past tokens that older links occupy, so it does not count rows exactly
  (`ShortLinkUids.AdvanceEqualsRowsIff`). Without a configured redirect service, codes are returned
  unacknowledged (`ShortLinkAllocation.UnconfiguredServiceReturnsUnacknowledged`).
- Score rows are inserted without an upsert, so a batch that crashes between its scores and its
  completion event, with a tag missing, can never complete (`EvaluationAttempts.CompletableIff`).
- An evaluation request is stamped before it waits for its locks, so two runs of one bundle can be active
  (`EvaluationQueue.InsertKeepsOneActiveIff`).
- The asynchronous report counts clicks without a code, the synchronous one does not
  (`AudienceReport.AsyncRefinesSyncIff`).
- The pacer rounds its interval down, so a minute may hold one slot more than configured
  (`RequestPacer.RateIsExactIff`).
- The attempt counter of a login challenge lives for a time-to-live that is read in whole seconds, rounded
  to the nearest, so it can lapse before the challenge and let a sixth attempt through
  (`AdminOtp.RoundingAdmitsTheSixth`, `AdminOtp.FirstFiveIff`).
- An append to the audience file that is cut short leaves a piece in later snapshots
  (`AudienceUidFile.TornWriteIsSeen`, `AudienceUidFile.SnapshotsHoldWholeBatchesIff`).

## Model

| member | source | states |
|---|---|---|
| `CampaignPricing.CalculateParts` | business_flow/campaign_flow.go:4590-4609 | one part up to 70 characters or without SMS content; above, the fewest parts of 66 that hold the text |
| `CampaignPricing.TargetAudience` | business_flow/campaign_flow.go:2085-2103 | the audience never exceeds capacity or budget, and one message more would |
| `CampaignPricing.CheckedCost` | business_flow/smart_targeting_sampling_flow.go:336-341 | the cost is the exact product, refused iff it does not fit 64 bits |
| `CampaignPricing.OverflowGuardIsExact` | business_flow/smart_targeting_sampling_flow.go:337-339 | dividing before multiplying detects exactly the overflowing products |
| `CampaignPricing.PriceIsBasePlusPage` | business_flow/campaign_flow.go:2177-2250 | as long as nothing wraps, a message costs the base price (for SMS times the whole part of line factor times parts) plus the whole part of segment factor times page price |
| `CampaignPricing.RebuiltPriceIsBasePlusPage` | business_flow/campaign_flow.go:4365-4432 | the refund rebuilds the same sum, taking a zero price from the current tables and a zero factor as one; there is none iff a price is missing in both |
| `CampaignPricing.RebuiltPriceIsThePriceCharged` | business_flow/campaign_flow.go:4365-4432 | positive prices and factors are rebuilt to the price charged, whatever the price tables say later |
| `CampaignPricing.RebuiltPriceIsExactIff` | business_flow/campaign_flow.go:4387-4431 | with unchanged tables the rebuilt price is the charged one iff both prices, and for SMS the line factor, are positive |
| `CampaignPricing.FreeLineIsRefundedAtADifferentPrice` | business_flow/campaign_flow.go:4414-4418 | a line factor of zero is refunded at a price that was never charged |
| `CampaignLedger.Move` | business_flow/campaign_flow.go:1218-1234 | a snapshot moves an amount between two buckets, keeps the other four and the total |
| `CampaignLedger.Freeze` | business_flow/campaign_flow.go:715-732 | a freeze takes free money before credit and keeps the total |
| `CampaignLedger.Settle` | business_flow/campaign_flow.go:1149-1277 | a release or consumption writes one transaction of its kind exactly when its guards pass, and nothing otherwise |
| `CampaignLedger.ReconcileGuard` | business_flow/campaign_flow.go:4048-4166 | when the refund job goes on to pay, the campaign is executed, under-delivered and not yet refunded, and fee and wallet cover the refund |
| `LedgerStore.Store.SaveDraft` | business_flow/campaign_flow.go:3800-3832 | the in-place draft save takes exactly the save step |
| `LedgerStore.Store.Finalize` | business_flow/campaign_flow.go:611-806 | the in-place freeze, with its rollback on a shortage, takes exactly the finalize step |
| `LedgerStore.Store.Approve` | business_flow/campaign_admin_flow.go:514-675 | the in-place approval takes exactly the approve step |
| `LedgerStore.Store.Reject` | business_flow/campaign_admin_flow.go:849-988 | the in-place rejection takes exactly the reject step |
| `LedgerStore.Store.Cancel` | business_flow/campaign_flow.go:1115-1410 | the in-place cancellation takes exactly the cancel step; on a consistent ledger it succeeds iff the owner may cancel, and then gives exactly the frozen budget or the fee back as credit |
| `LedgerStore.Store.AdminCancel` | business_flow/campaign_admin_flow.go:1103-1326 | the in-place administrative cancellation takes exactly its step; on a consistent ledger it succeeds iff an administrator may cancel, with the same effect |
| `LedgerStore.Store.Expire` | business_flow/campaign_flow.go:3855-4009 | one transaction of the expiry sweep takes exactly the expire step |
| `LedgerStore.Store.ExpireCustomerCampaigns` | business_flow/campaign_flow.go:3834-4010 | the sweep never stops early, expires exactly the customer's overdue waiting campaigns and keeps the ledger consistent |
| `LedgerStore.Store.MoveToRunning` | business_flow/campaign_bot_flow.go:316-343 | takes exactly the step from approved to running |
| `LedgerStore.Store.MoveToExecuted` | business_flow/campaign_bot_flow.go:346-376 | takes exactly the step from running to executed |
| `LedgerStore.Store.UpdateStatistics` | business_flow/campaign_bot_flow.go:445-475 | a delivery report is merged, keeping what it does not name |
| `LedgerStore.Store.Reschedule` | business_flow/campaign_admin_flow.go:1042-1077 | the in-place rescheduling takes exactly its step |
| `LedgerStore.Store.CheckEligibility` | business_flow/campaign_flow.go:4048-4107 | the tests pass iff the customer's executed campaign is past its delay, under-delivered by its report, and neither refunded nor marked; manual review means a missing schedule or audience or a mark |
| `LedgerStore.Store.CheckPayable` | business_flow/campaign_flow.go:4109-4166 | the tests pass iff the refund is positive, fits 64 bits, and is covered by the last fee and by the wallet's spent bucket |
| `LedgerStore.Store.Reconcile` | business_flow/campaign_flow.go:4040-4289 | the in-place refund takes exactly the reconcile step |
| `LedgerEffects.ApproveEffect` | business_flow/campaign_admin_flow.go:514-675 | an approval succeeds iff the campaign waits and its schedule has not passed; then exactly its frozen budget moves to spent |
| `LedgerEffects.RejectEffect` | business_flow/campaign_admin_flow.go:849-988 | a rejection succeeds iff the campaign waits; then exactly its frozen budget becomes credit |
| `LedgerEffects.ExpireEffect` | business_flow/campaign_flow.go:3855-4009 | an expiry succeeds iff it is the customer's waiting campaign scheduled before the cutoff; then its frozen budget becomes credit |
| `LedgerEffects.CancelEffect` | business_flow/campaign_flow.go:1115-1410 | an owner's cancellation succeeds iff the campaign waits, or is approved and ten minutes from its schedule; then its frozen budget, or its fee, becomes credit and nothing else changes |
| `LedgerEffects.AdminCancelEffect` | business_flow/campaign_admin_flow.go:1103-1326 | an administrator's succeeds iff a waiting campaign missed its schedule, or an approved one is two minutes from it; with the same effect |
| `LedgerEffects.FinalizeEffect` | business_flow/campaign_flow.go:611-806 | a finalization succeeds iff the campaign is a draft and free money and credit cover the cost; free money is frozen first |
| `LedgerEffects.ReconcileEffect` | business_flow/campaign_flow.go:4044-4289 | a refund moves the missing messages' cost, at the rebuilt price, from spent to credit and marks the campaign |
| `LedgerEffects.SaveDraftEffect` | business_flow/campaign_flow.go:3800-3832 | a save succeeds iff the campaign is a draft, and keeps a schedule that it does not name |
| `LedgerEffects.RunningEffect` | business_flow/campaign_bot_flow.go:316-343 | a campaign starts running from approved and from no other status, and nothing else of it changes |
| `LedgerEffects.ExecutedEffect` | business_flow/campaign_bot_flow.go:346-376 | likewise it is executed only from running |
| `LedgerEffects.RescheduleEffect` | business_flow/campaign_admin_flow.go:1042-1077 | which statuses, old schedules and new schedules a rescheduling needs, and that only the schedule changes |
| `LedgerEffects.ReportEffect` | business_flow/campaign_bot_flow.go:445-475 | a delivery report replaces exactly the figures it names |
| `LedgerInvariant.SettlementGuardsNeverFire` | business_flow/campaign_flow.go:1149-1172 | on a consistent ledger the guards for a missing or repeated freeze or fee and for too little money never fire |
| `LedgerInvariant.ShareIsCovered` | business_flow/campaign_flow.go:1170-1172 | what one campaign has frozen or spent never exceeds its wallet's bucket |
| `LedgerInvariant.ChangeKeepsInv` | business_flow/campaign_flow.go:715-806 | a change that moves the wallet by what its own campaign owes keeps the whole ledger consistent |
| `LedgerInvariant.StepKeepsInv` | business_flow/campaign_flow.go:611-806 | every step keeps frozen and spent sums, books and snapshot chains, and meets no impossible guard |
| `LedgerInvariant.RunKeepsInv` | business_flow/campaign_flow.go:611-806 | so does every run |
| `LedgerResults.StepConserves` | business_flow/campaign_flow.go:750-768 | a step changes a wallet's six-bucket total only by what an accepted deposit brings |
| `LedgerResults.RunConserves` | business_flow/campaign_flow.go:750-768 | over a run the total changes by exactly the deposits |
| `LedgerResults.EveryRunExplainsItsWallets` | business_flow/campaign_flow.go:707-806 | after any run frozen is what waiting campaigns owe, spent is fees less refunds, all deposited money is there, and the snapshots chain |
| `LedgerResults.EveryRunKeepsBooks` | business_flow/campaign_flow.go:4083-4092 | after any run a finalized campaign has one freeze, and at most one refund, never beyond its fee |
| `LedgerResults.NoReleaseGuardEverFires` | business_flow/campaign_flow.go:1161-1172 | after any run no release meets a missing or repeated transaction or a shortage |
| `LedgerResults.SplitUndoesTheFreeze` | business_flow/campaign_flow.go:4472-4500 | the split of a whole refund is the exact inverse of the freeze |
| `LedgerResults.ReleaseTurnsFreeMoneyIntoCredit` | business_flow/campaign_flow.go:1215-1234 | a release restores the wallet iff nothing was taken from the free balance; otherwise that part has become credit |
| `LedgerResults.RunKeepsPrices` | business_flow/campaign_flow.go:735-749 | if every finalization's cost is the price of the facts it stores, every freeze of the ledger is and stays so |
| `LedgerResults.ExecutedCampaignIsPriced` | business_flow/campaign_flow.go:4365-4432 | among such freezes an executed campaign's fee is price times audience, and its refund is rebuilt at that price |
| `LedgerResults.RefundGuardIsExact` | business_flow/campaign_flow.go:4048-4166 | among such freezes a refund is paid iff it is due; no price, fee or wallet guard stops one |
| `LedgerResults.UnderDeliveredCampaignCostsItsDeliveries` | business_flow/campaign_flow.go:4044-4289 | after any run with such freezes, a paid refund leaves fee less refund at price times messages sent, and moves the wallet by the rest |
| `LedgerResults.SettlementIsExactIff` | business_flow/campaign_flow.go:4044-4289 | after any run, with no assumption about prices, a paid refund leaves price times messages sent iff the rebuilt price is the price the fee was charged at |
| `CampaignFinalization.StepKeepsInv` | business_flow/campaign_flow.go:611-630 | at every step a request whose revision is still the row's has read only the row's draft, and all it looked up was published since it began |
| `CampaignFinalization.EveryFreezeIsHonest` | business_flow/campaign_flow.go:513-749 | with increasing revisions, in any interleaving of saves, published prices and capacities, a committed freeze is about exactly the stored draft: its own fields, entries published for it while the request looked, its audience's capacity then, and the quote these give |
| `CampaignFinalization.FreezeFactsWerePublished` | business_flow/campaign_flow.go:552-586 | the facts stored and the facts charged are the stored draft's own platform, parts, line and segments, each at a price or factor in force while the request looked |
| `CampaignFinalization.FreezeSpendsTheBudget` | business_flow/campaign_flow.go:2085-2103 | a freeze buys the whole capacity if the draft states no budget or is a test; otherwise it stays within the budget, and short of the capacity one more message would exceed it |
| `CampaignFinalization.AdmittedIff` | business_flow/campaign_flow.go:530-544 | a finalization goes on iff the capacity is known and, but for files and smart targeting tests, is at least 500 |
| `CampaignFinalization.FreezeIsWellPricedIff` | business_flow/campaign_flow.go:552-749 | its cost is the price of its stored facts times its audience, at positive prices, iff those are positive and the two look-ups gave the same price (or nobody is addressed) |
| `CampaignFinalization.StillPricesAreStored` | business_flow/campaign_flow.go:552-586 | if no price of the draft changes between the first look-up and the last, the stored facts are the charged ones |
| `CampaignFinalization.RepricedBetweenLookUps` | business_flow/campaign_flow.go:570-586 | a price published between the two look-ups is charged but not stored |
| `CampaignFinalization.RepeatedRevisionStoresAnotherDraft` | business_flow/campaign_flow.go:626-630 | two writes with one revision let a freeze pay for one draft and store another |
| `CampaignFinalization.ReopenedIff` | business_flow/campaign_flow.go:457-477 | in any run a finalized campaign becomes a draft again iff a save checked before the freeze, or a rescheduling that read a draft, writes after it |
| `CampaignFinalization.AtMostOneFreeze` | business_flow/campaign_flow.go:623-625 | without such late writes a campaign is frozen at most once |
| `CampaignFinalization.LateSaveFreezesTwice` | business_flow/campaign_flow.go:309-477 | one late save freezes a campaign's money twice |
| `CampaignFinalization.LateRescheduleFreezesTwice` | business_flow/campaign_admin_flow.go:1042-1077 | so does one late rescheduling, which writes back the whole row it had read |
| `LockOrder.StoppedIffWaiting` | business_flow/campaign_flow.go:612-707 | a transaction is stopped iff it waits for another, and otherwise gets the lock it asked for |
| `LockOrder.LocksAreHeldToTheEnd` | business_flow/campaign_flow.go:611-806 | in any run a lock stays with its holder until that transaction ends |
| `LockOrder.EndFreesItsLocks` | business_flow/campaign_flow.go:611-806 | the end of a transaction frees all its locks and no others |
| `LockOrder.OrderedIff` | repository/campaign_targeting_test_sample_selection_repository.go:311-335 | the test of reserved bundles made before the first lock tells exactly whether a transaction's locks come in order: a release iff nothing is reserved, a finalization iff it retires no bundle below its own |
| `LockOrder.NoDeadlock` | business_flow/campaign_flow.go:4048-4157 | no interleaving of any number of transactions that are in order reaches a ring of waiting |
| `LockOrder.CanDeadlockIff` | repository/campaign_targeting_execution_reservation_repository.go:441-470 | among transactions in order one can become part of a deadlock iff it is not in order itself |
| `LockOrder.CancelMeetsApprove` | business_flow/campaign_flow.go:1143-1398 | cancelling a campaign with a reserved bundle and approving another of the same bundle and wallet deadlock |
| `LockOrder.SomeoneProceeds` | business_flow/bundle_tag_evaluation_flow.go:294-300 | while such transactions run, one of them waits for nobody |
| `ShortLinkUids.UidRoundTrip` | models/short_link_uid.go:16-37 | reading a token back gives its number |
| `ShortLinkUids.UidIsInjective` | models/short_link_uid.go:16-37 | no two numbers share a token |
| `ShortLinkUids.ReversePrefix` | models/short_link_uid.go:33-35 | the in-place swap loop reverses the buffer |
| `ShortLinkUids.CollectDigits` | models/short_link_uid.go:28-32 | the digit loop holds the numeral's digits, least significant first |
| `ShortLinkUids.FormatShortLinkUID` | models/short_link_uid.go:19-37 | the result is the six-digit numeral, refused iff out of range |
| `ShortLinkUids.ScanTakesTheFirstFree` | repository/short_link_repository.go:528-584 | a reservation is all free tokens between the counter's positions, the counter moves by taken plus occupied ones, and it fails iff too few are left |
| `ShortLinkUids.AdvanceEqualsRowsIff` | repository/short_link_repository.go:528-585 | a reservation succeeds and moves the counter by exactly the rows created iff enough tokens are left and none of the next ones is occupied |
| `ShortLinkUids.OccupiedTokenIsPassed` | repository/short_link_repository.go:568-577 | an occupied token moves the counter further than the rows created |
| `ShortLinkUids.Allocator.ReserveSequentialUIDs` | repository/short_link_repository.go:499-585 | the windowed loop returns what the one-at-a-time scan returns, and only success moves the counter |
| `ShortLinkAllocation.StepKeepsInv` | business_flow/bot_short_link_flow.go:58-119 | at every step the committed rows, in order, are all the free tokens the counter has passed |
| `ShortLinkAllocation.RunKeepsInv` | business_flow/bot_short_link_flow.go:58-119 | and in every interleaving |
| `ShortLinkAllocation.SameKeySameCodes` | business_flow/bot_short_link_flow.go:58-119 | all successful calls with one key get the same tokens in the same order |
| `ShortLinkAllocation.DifferentKeysDisjointCodes` | business_flow/admin_short_link_flow.go:223-296 | calls with different keys share no token |
| `ShortLinkAllocation.CounterMovesByCommittedRows` | business_flow/campaign_test_send.go:223-278 | in every interleaving the counter has moved by the rows plus the occupied tokens passed: by exactly the rows iff none of that many tokens from the start is occupied |
| `ShortLinkAllocation.ReturnedCodesAreAcknowledged` | business_flow/bot_short_link_flow.go:120-124 | with a redirect service no code is returned unacknowledged |
| `ShortLinkAllocation.UnconfiguredServiceReturnsUnacknowledged` | business_flow/external_short_link_publication.go:27-29 | without one codes are returned although nothing was acknowledged |
| `ShortLinkAllocation.ShortLinkAllocationCodes` | business_flow/bot_short_link_flow.go:129-141 | rows are accepted iff they are a complete allocation, and give their tokens in position order |
| `ShortLinkAllocation.BuildRows` | business_flow/bot_short_link_flow.go:84-106 | the rows carry the reserved tokens at consecutive positions |
| `ShortLinkAllocation.CommittedRowsAreComplete` | business_flow/bot_short_link_flow.go:63-71 | what any interleaving commits is read back as complete, so reuse never reports corruption |
| `ShortLinkAllocation.PublishShortLinkMappings` | business_flow/external_short_link_publication.go:21-51 | publication succeeds iff all rows have tokens, all are stored and the upload is accepted; then exactly these are acknowledged |
| `AllocationKey.DecimalRoundTrip` | business_flow/bot_short_link_flow.go:148-153 | decimal numerals read back to their number |
| `AllocationKey.FieldRoundTrip` | business_flow/bot_short_link_flow.go:148-153 | a length-delimited field is found whatever follows it |
| `AllocationKey.RequestRoundTrip` | business_flow/bot_short_link_flow.go:146-171 | every request is read back from the bytes hashed for it |
| `AllocationKey.EncodeIsInjective` | business_flow/bot_short_link_flow.go:143-171 | equal bytes mean equal campaign, domain and items, with duplicates and absent against empty links |
| `AllocationKey.ShortLinkAllocationKey` | business_flow/bot_short_link_flow.go:146-171 | the loop writes exactly the encoding |
| `AllocationKey.TestPayloadCollidesIff` | business_flow/campaign_test_send.go:297-304 | two test keys collide iff campaign and recipient agree and link and domain join to the same bytes |
| `AllocationKey.TestPayloadIsInjectiveOnCleanLinks` | business_flow/campaign_test_send.go:297-304 | links without NUL bytes make the test key injective |
| `AllocationKey.NulInLinkCollides` | business_flow/campaign_test_send.go:301-301 | a NUL byte in a link would let two requests share a key |
| `UploadJob.InspectCsv` | business_flow/admin_short_link_flow.go:358-381 | the inspection accepts exactly clean files, and rows less skipped is the number of links |
| `UploadJob.CollectLinks` | business_flow/admin_short_link_flow.go:230-249 | the second pass succeeds on exactly the same files and returns their links in order |
| `UploadJob.Backoff` | business_flow/admin_short_link_flow.go:334-335 | minutes double with the attempts and stop at 64 |
| `UploadJob.Upload.FailJob` | business_flow/admin_short_link_flow.go:324-342 | a failure is final iff permanent or the tenth, and otherwise schedules the next attempt |
| `UploadJob.Upload.PublishAll` | business_flow/admin_short_link_flow.go:305-313 | the 500-link chunks publish every stored link once and in order iff no chunk is refused, and otherwise a whole number of chunks |
| `UploadJob.Upload.ProcessJob` | business_flow/admin_short_link_flow.go:195-322 | says exactly which attempts complete, which fail for good and which are retried; existing rows are reused, the disagreement failures are dead branches, and completion means created, published and unskipped rows are the same number |
| `UploadJob.Upload.ProcessUntilDone` | business_flow/admin_short_link_flow.go:171-193 | over any retries one allocation at most is made, and the job ends within ten attempts |
| `UploadJob.ChunksPartition` | business_flow/admin_short_link_flow.go:697-723 | every row falls into exactly one worker's chunk |
| `UploadJob.ChunkIsSmallest` | business_flow/admin_short_link_flow.go:697-704 | the chunk is the smallest with which the workers cover all rows |
| `EvaluationBatches.CollectSnapshots` | business_flow/bundle_tag_evaluation_flow.go:816-851 | the keyset loop ends, visits every active tag once in order, and fails iff one lacks metadata |
| `EvaluationBatches.PageContinues` | repository/tag_repository.go:75-91 | asking after the last row of a page continues where the page ended |
| `EvaluationBatches.BuildBatches` | business_flow/bundle_tag_evaluation_flow.go:853-876 | the batches concatenate to the list, are numbered from 1, non-empty, full but for the last, and labelled with their end tags |
| `EvaluationBatches.BatchRangesIncrease` | business_flow/bundle_tag_evaluation_flow.go:866-873 | consecutive batches cover increasing id ranges |
| `EvaluationBatches.ParseAndValidate` | business_flow/bundle_tag_evaluation_flow.go:1184-1268 | an answer is accepted iff it is valid, and every answered tag is mapped to its score |
| `EvaluationBatches.BuildScoreRows` | business_flow/bundle_tag_evaluation_flow.go:1147-1182 | one row per tag of the batch that was answered |
| `EvaluationBatches.ValidAnswerLeavesFewOut` | business_flow/bundle_tag_evaluation_flow.go:1256-1265 | a valid answer leaves at most the allowed number of the batch's tags without a row |
| `WorkerPool.StepKeepsInv` | business_flow/bundle_tag_evaluation_flow.go:631-646 | workers and batches stay paired, starts unique and stops explained at every step |
| `WorkerPool.NoBatchRunsTwice` | business_flow/bundle_tag_evaluation_flow.go:619-646 | in every schedule no batch is handed to the processor twice |
| `WorkerPool.AtMostMaxParallelRun` | business_flow/bundle_tag_evaluation_flow.go:614-617 | never more than max(1, maxParallel) batches run at once |
| `WorkerPool.SendNeverBlocks` | business_flow/bundle_tag_evaluation_flow.go:622-643 | a worker that reports a failure finds room in the results channel |
| `WorkerPool.NeverStuck` | business_flow/bundle_tag_evaluation_flow.go:628-648 | until all workers have returned some step is possible |
| `WorkerPool.NilMeansAllSucceeded` | business_flow/bundle_tag_evaluation_flow.go:650-665 | returning no error means every batch was processed exactly once and successfully |
| `WorkerPool.FailuresNameFailedBatches` | business_flow/bundle_tag_evaluation_flow.go:639-643 | the failures sent are exactly those of the failed batches, each under its batch's number |
| `WorkerPool.CancelledIffTheCallerIs` | business_flow/bundle_tag_evaluation_flow.go:619-665 | the pool's own cancellation of its workers is never taken for the caller's |
| `WorkerPool.NilIffAllSucceeded` | business_flow/bundle_tag_evaluation_flow.go:598-665 | once the workers have returned, no error is returned iff every batch succeeded and the caller did not cancel |
| `WorkerPool.SelectFailure` | business_flow/bundle_tag_evaluation_flow.go:650-661 | the reported failure is the least by cancellation last and batch number |
| `WorkerPool.ArrivalOrderDoesNotMatter` | business_flow/bundle_tag_evaluation_flow.go:650-661 | whatever the arrival order, the same batch is reported |
| `WorkerPool.RealErrorsWin` | business_flow/bundle_tag_evaluation_flow.go:655-657 | a cancellation is reported iff every failure was one |
| `WorkerPool.Conclude` | business_flow/bundle_tag_evaluation_flow.go:662-665 | nothing is returned iff there was neither a failure nor a cancelled caller |
| `RequestPacer.Pacer.Reserve` | business_flow/bundle_tag_evaluation_flow.go:140-147 | the first critical section books the next slot not in the past, and is an arrival's step of the machine |
| `RequestPacer.Pacer.Recheck` | business_flow/bundle_tag_evaluation_flow.go:161-172 | after the sleep a caller goes iff no pause is in force and books again otherwise, as a waking caller's step of the machine does |
| `RequestPacer.Pacer.Pause` | business_flow/bundle_tag_evaluation_flow.go:176-186 | a pause never shortens one in force, and is a pause's step of the machine |
| `RequestPacer.GoesIff` | business_flow/bundle_tag_evaluation_flow.go:134-175 | a caller that comes back goes iff its slot has come and no pause is in force, sleeps on if it is early, and otherwise books a slot behind the pause |
| `RequestPacer.RunKeepsInv` | business_flow/bundle_tag_evaluation_flow.go:135-174 | slots stay an interval apart and are used once, in every interleaving |
| `RequestPacer.AdmissionsAreBounded` | business_flow/bundle_tag_evaluation_flow.go:135-174 | by time t at most (t - t0) / interval + 1 calls have gone |
| `RequestPacer.NoAdmissionDuringPause` | business_flow/bundle_tag_evaluation_flow.go:161-166 | no call goes before its slot or during a pause announced before it |
| `RequestPacer.RateIsExactIff` | business_flow/bundle_tag_evaluation_flow.go:124-133 | a minute holds the configured number of slots iff that number divides a minute |
| `EvaluationAttempts.StepKeepsInv` | business_flow/bundle_tag_evaluation_flow.go:900-1069 | every step keeps attempts numbered, bounded, and scores explained by the latest answer |
| `EvaluationAttempts.AttemptsAreNumberedAndBounded` | business_flow/bundle_tag_evaluation_flow.go:961-966 | over any crashes attempts are numbered without a gap and at most one plus the retries |
| `EvaluationAttempts.ProcessBatch` | business_flow/bundle_tag_evaluation_flow.go:900-1069 | one uninterrupted execution is one of the histories; it completes the batch iff that is done already, or is unscored and has a valid answer on record or gets one before its attempts run out; calls are recorded in order and go on only while worth repeating |
| `EvaluationAttempts.FinalCheck` | business_flow/bundle_tag_evaluation_flow.go:547-561 | the check passes iff the missing scores are between none and the allowance of all batches |
| `EvaluationAttempts.FinalCheckCannotFail` | business_flow/bundle_tag_evaluation_flow.go:547-561 | once every batch has completed, by whatever history, the check passes |
| `EvaluationAttempts.CompletableIff` | business_flow/bundle_tag_evaluation_flow.go:900-966 | a batch left behind can still complete iff its stored state is resumable |
| `EvaluationAttempts.CrashAfterPartialScoresIsFinal` | business_flow/bundle_tag_evaluation_flow.go:1052-1066 | a crash between partial scores and the completion event is final |
| `EvaluationQueue.LatestRun` | migrations/0119_convert_bundle_tag_evaluation_ids_to_bigserial.sql:230-241 | the bundle's latest run is the newest by timestamp, then by id |
| `EvaluationQueue.DayBounds` | business_flow/bundle_tag_evaluation_flow.go:1582-1586 | the bounds are a whole day around the time |
| `EvaluationQueue.BoundsAreTheDay` | business_flow/bundle_tag_evaluation_flow.go:1582-1586 | a time lies within them iff it is of the same day |
| `EvaluationQueue.DailyLimitHolds` | business_flow/bundle_tag_evaluation_flow.go:318-329 | in any interleaving no customer gets more runs stamped within a UTC day than the limit |
| `EvaluationQueue.NoDayExceedsTheLimit` | business_flow/bundle_tag_evaluation_flow.go:318-329 | from an empty queue no customer's UTC day ever exceeds the limit |
| `EvaluationQueue.StampIsKept` | business_flow/bundle_tag_evaluation_flow.go:283-294 | through any run a request keeps the stamp it took until it is decided |
| `EvaluationQueue.TakesAStampIff` | business_flow/bundle_tag_evaluation_flow.go:265-294 | a request takes a stamp and waits for the locks iff the latest run is not evaluating when it arrives |
| `EvaluationQueue.RunsCarryTheirStamp` | business_flow/bundle_tag_evaluation_flow.go:283-334 | in any interleaving every run carries the stamp that a request of its customer and bundle took |
| `EvaluationQueue.AloneCreatesIff` | business_flow/bundle_tag_evaluation_flow.go:283-345 | an uninterrupted request creates its run iff the latest run is not evaluating and fewer runs than the limit are stamped on its day |
| `EvaluationQueue.NoRunWhileLatestEvaluates` | business_flow/bundle_tag_evaluation_flow.go:302-316 | in any interleaving every run was inserted at a moment when its bundle's latest run was not evaluating |
| `EvaluationQueue.InsertKeepsOneActiveIff` | business_flow/bundle_tag_evaluation_flow.go:283-345 | an accepted request keeps one active run per bundle iff its timestamp is in order |
| `EvaluationQueue.OneActiveRunPerBundle` | business_flow/bundle_tag_evaluation_flow.go:283-345 | with timestamps in commit order no bundle has two active runs |
| `EvaluationQueue.ActiveRunsAreBounded` | business_flow/bundle_tag_evaluation_flow.go:283-345 | in any interleaving a bundle has, beside its latest run, at most one active run per request decided out of order |
| `EvaluationQueue.LateDecisionGivesTwoActiveRuns` | business_flow/bundle_tag_evaluation_flow.go:283-300 | a request decided after a later stamp gives two active runs |
| `AudienceUidFile.SnapshotsHoldWholeBatchesIff` | business_flow/campaign_audience_uid_store.go:39-109 | whenever a reader reads up to its captured size, it reads exactly the batches whole at capture iff no append before was cut short after some but not all of its bytes |
| `AudienceUidFile.AppendArrives` | business_flow/campaign_audience_uid_store.go:39-81 | an append that is not cut short adds exactly its batch, and the next snapshot ends after it |
| `AudienceUidFile.TornWriteIsSeen` | business_flow/campaign_audience_uid_store.go:75-78 | a write that fails half way leaves its piece in later snapshots |
| `AudienceReport.CollectUids` | business_flow/campaign_audience_uid_store.go:162-193 | the map is the file's last-wins mapping, refused iff it has more UIDs than allowed |
| `AudienceReport.AppendStageRow` | business_flow/campaign_audience_report_job_flow.go:215-226 | a batch keeps one row per UID and stages the same as its records in order |
| `AudienceReport.Staging.UpsertStageBatch` | business_flow/campaign_audience_report_job_flow.go:228-266 | the upsert applies the batch and counts exactly the new rows |
| `AudienceReport.Staging.StageCampaign` | business_flow/campaign_audience_report_job_flow.go:283-319 | one campaign's file is staged, or the limit or missing data reported, whatever the batch boundaries |
| `AudienceReport.Staging.Stage` | business_flow/campaign_audience_report_job_flow.go:268-319 | the row limit trips iff the distinct (campaign, UID) pairs exceed it |
| `AudienceReport.LiveStates` | business_flow/campaign_audience_report_job_flow.go:434-467 | a page's lookups answer for each of its rows |
| `AudienceReport.Write` | business_flow/campaign_audience_report_job_flow.go:377-432 | the sheets hold one line per staged row in order, wherever pages and sheets are cut |
| `AudienceReport.StageAllHolds` | business_flow/campaign_audience_report_job_flow.go:283-319 | the staging table holds exactly each campaign's mapping |
| `AudienceReport.ReportIsOfTheRecords` | business_flow/campaign_audience_report_job_flow.go:283-432 | the asynchronous report has one line for the latest record of every UID of every campaign and no other, by campaign and UID, each saying whether its code was clicked and its UID acted |
| `AudienceReport.AsyncRefinesSyncIff` | business_flow/campaign_flow.go:1638-1666 | the asynchronous lines of a campaign are the in-memory builder's lines iff no click without a code meets a UID without one |
| `AudienceReport.EmptyCodeDiffers` | repository/short_link_click_repository.go:69-100 | with such a click the two reports differ |
| `ReportLease.StepKeepsInv` | business_flow/campaign_audience_report_job_flow.go:469-516 | every step keeps completed jobs' files present and owned by nobody else |
| `ReportLease.CompletedOutputExists` | business_flow/campaign_audience_report_job_flow.go:490-630 | in any interleaving a completed job's file exists until it is marked expired |
| `ReportLease.OnlyTheHolderEndsAJob` | repository/campaign_audience_report_job_repository.go:90-96 | in any interleaving every job that ended was ended, while in work, by the worker then holding its lease |
| `ReportLease.EndedJobsStayEnded` | repository/campaign_audience_report_job_repository.go:69-117 | through any run a job that ended stays so, but for a completed one expiring and for the purge |
| `ReportLease.LostForGood` | repository/campaign_audience_report_job_repository.go:69-96 | a lost lease is never regained |
| `ReportLease.LoserTouchesOnlyItsOwn` | business_flow/campaign_audience_report_job_flow.go:495-509 | once a lease is lost, nothing its worker still does in any continuation changes a job or removes another's file |
| `ReportLease.PromptWorkerCompletes` | business_flow/campaign_audience_report_job_flow.go:469-516 | an uninterrupted worker completes any claimable job, its file is there, and it meets the assumptions iff it commits within a day |
| `ReportLease.ClaimTakesIff` | repository/campaign_audience_report_job_repository.go:69-88 | a claim takes a job iff it is pending, or in work with its lease over by the clock, and gives it a fresh token and lease |
| `ReportLease.LeaseIsKept` | repository/campaign_audience_report_job_repository.go:69-96 | in any run, until the lease is over by the clock a job stays with its worker unless that worker ends it |
| `ReportLease.AbandonedJobCompletesIff` | repository/campaign_audience_report_job_repository.go:69-96 | a job whose worker is gone is completed by a new one iff the clock has passed its lease |
| `ReportLease.ExpiredOutputGoes` | business_flow/campaign_audience_report_job_flow.go:556-575 | a completed report is marked expired iff its day is over, and its file then goes |
| `ReportLease.ReapedIff` | business_flow/campaign_audience_report_job_flow.go:576-630 | a cleanup pass removes a file iff it was written more than a day before and no completed job refers to it |
| `ReportLease.HiddenCommitLosesTheFile` | business_flow/campaign_audience_report_job_flow.go:494-500 | an update that commits but reports an error loses a completed job's file |
| `ReportLease.LateCommitLosesTheFile` | business_flow/campaign_audience_report_job_flow.go:592-630 | a file committed more than a day after it was written may be gone |
| `AdminOtp.Redis.IncrementAttempts` | business_flow/login_admin_flow.go:379-388 | the counter grows by one and expires a time-to-live from now |
| `AdminOtp.Redis.Consume` | business_flow/login_admin_flow.go:353-365 | all keys go, and the caller learns whether the challenge was there |
| `AdminOtp.Redis.VerifyOtp` | business_flow/login_admin_flow.go:159-221 | an uninterrupted request gets a session iff the challenge reads as alive, attempts are left, the code is right and the administrator active; a surviving challenge has counted it for the time read |
| `AdminOtp.StepKeepsInv` | business_flow/login_admin_flow.go:159-221 | while every time-to-live read covers what is left, a living challenge's counter has seen every increment and outlives it |
| `AdminOtp.AtMostOneSession` | business_flow/login_admin_flow.go:159-221 | in any interleaving, whatever is read, a challenge yields at most one session |
| `AdminOtp.FirstFiveIff` | business_flow/login_admin_flow.go:304-319 | in every run with a given store sessions go only to the first five increments iff no time-to-live it answers falls short of what is left |
| `AdminOtp.ShortReadAdmitsTheSixth` | business_flow/login_admin_flow.go:379-388 | an answer that falls short lets a sixth attempt get the session |
| `AdminOtp.RoundingAdmitsTheSixth` | business_flow/login_admin_flow.go:316-319 | rounding to whole seconds falls short, for any challenge that lives longer than a second |
| `AdminOtp.AloneIsVerifyOtp` | business_flow/login_admin_flow.go:159-221 | in the state machine an uninterrupted request comes out exactly as the in-place request does |
| `AdminOtp.DeletionResetsTheCounter` | business_flow/login_admin_flow.go:338-347 | a late request is counted from one again after deletion, and gets nothing |
| `AdminOtp.GoneForGood` | business_flow/login_admin_flow.go:353-365 | once the challenge is gone no continuation issues a session |
| `AudienceSpec.Capacity` | business_flow/audience_spec.go:52-91 | the capacity is the reach, refused iff a count is negative or the reach does not fit |
| `AudienceSpec.KeyIsInjective` | business_flow/audience_spec.go:145-145 | joined keys of NUL-free categories identify the path |
| `AudienceSpec.NulMergesLeaves` | business_flow/audience_spec.go:145-145 | with a NUL byte two paths would share an accumulator |
| `AudienceSpec.Accumulate` | business_flow/audience_spec.go:122-186 | the row loop succeeds iff the rows are valid and agree, and holds one leaf per path |
| `AudienceSpec.SortedTags` | business_flow/audience_spec.go:198-206 | the tags are listed ascending as decimals |
| `AudienceSpec.BuildSpec` | business_flow/audience_spec.go:93-239 | the build succeeds iff every row is accepted by its columns and rows of one leaf agree; each row's trimmed categories lead, in order, to an item with its statistics, capacity and tag; every item and tag comes from such a row |
| `AudienceSpec.TrimCutsWhiteSpace` | business_flow/audience_spec.go:123-125 | trimming cuts off white space in front and behind and nothing else |
| `AudienceSpec.BuildableByColumns` | business_flow/audience_spec.go:122-186 | rows can be built from iff there are some, each has a tag, three categories and statistics with a capacity, and those of one leaf have the same statistics |
| `AudienceSpec.BuildableIgnoresOrder` | business_flow/audience_spec.go:122-186 | success does not depend on row order |
| `AudienceSpec.SpecIgnoresOrder` | business_flow/audience_spec.go:93-239 | nor does the result |
| `AudienceSpec.ParseUintIsExact` | business_flow/audience_spec.go:306-312 | the tag texts that parse are the decimals below 2^64, with any leading zeros |
| `AudienceSpec.ValidateSpec` | business_flow/audience_spec.go:267-321 | the validator's loops accept exactly the valid specifications |
| `AudienceSpec.BuiltSpecIsValid` | business_flow/audience_spec.go:267-321 | every built specification passes the validator |
| `AudienceSpec.Cache.ListAudienceSpec` | business_flow/audience_spec.go:325-365 | a usable entry is served and kept, anything else rebuilt, and what is cached is never filtered |

## Left out

- Smart targeting's capacities, samples, reservations and calculations: their tests are preconditions of a finalization, and the audience count that approval writes again for a test campaign is the finalized one.
- The difference between a missing schedule and a zero one: both are no schedule here.
- Administrators' campaigns at no cost: their freeze and fee are zero, and the settlement result is about campaigns that were charged.
- A zero price with a zero budget: the division of the two is not a number in the program.
- JSON metadata and statistics: the facts they carry are fields here; counts beyond 2^53 lose digits in the program.
- Wallet creation, top-ups and agency shares: one deposit step that only adds to free, locked, credit or agency share.
- The order in which a wallet's latest snapshot is chosen: snapshots are replaced in step order.
- Creating, cloning, hiding and listing campaigns, and transferring them to another customer.
- `LedgerStore.Store.SaveDraft`: tests and writes under one lock; the program's separate test is in CampaignFinalization.
- `LedgerStore.Store.Finalize`: the stale-revision refusal is in CampaignFinalization, and smart targeting's refusals are left out.
- `LedgerStore.Store.Approve`: the refusals of a missing bundle, of platform settings and of sampling are left out; they write nothing.
- `LedgerStore.Store.Reschedule`: tests and writes in one step; the program's unlocked read and late write are in CampaignFinalization.
- `LockOrder.NoDeadlock`: is about the row locks on customers, campaigns, bundles and wallets and the campaign advisory lock; shared bundle locks of capacity scans, locks on profiles, reservations and action files, and locks that foreign keys take are not modelled.
- `LockOrder.CanDeadlockIff`: ranges over all lists of reserved bundles, whether or not earlier transactions can have left them.
- `ShortLinkAllocation.RunKeepsInv`: the scenario identifiers and the background publisher are not modelled.
- `AllocationKey.EncodeIsInjective`: is about the bytes hashed; SHA-256 is taken to be free of collisions, and the domain to be normalised already.
- `UploadJob.Upload.ProcessUntilDone`: attempts follow each other; the lease that keeps two workers apart is not modelled.
- `UploadJob.Upload.ProcessJob`: the CSV reader and the link syntax are one classification per record; leases are not modelled, a rival worker is an input.
- `WorkerPool.NilMeansAllSucceeded`: batches that are absent are filtered before the pool starts and are not part of the model.
- `RequestPacer.NoAdmissionDuringPause`: a pause announced after a call went does not hold it back; the clock does not run backwards.
- `EvaluationAttempts.CompletableIff`: tags that become inactive during a run, and provider answers re-read under another configuration, are not modelled.
- `EvaluationQueue.OneActiveRunPerBundle`: a failed run that is executed again becomes active in the program without a request.
- `AudienceReport.AsyncRefinesSyncIff`: assumes one collation on both sides, and clicks and actions that do not change between pages.
- `AudienceReport.Staging.Stage`: starts from an empty staging table, as a fresh lease token does; a worker that stalls before purging other tokens' rows is not modelled.
- `ReportLease.CompletedOutputExists`: partial files are not modelled; they are never referred to.
- `AdminOtp.AtMostOneSession`: the code's hash, the password step and token generation are not modelled, and reading the challenge and its time-to-live is one step.
- `AudienceSpec.Cache.ListAudienceSpec`: the JSON form of a cached entry is not modelled; an entry that does not parse is an unusable one.
- `CampaignFinalization.EveryFreezeIsHonest`: a draft's audience is named by its targeting, and capacity is what the last read of it answered; it may have shrunk by the commit.
- `AudienceSpec.BuildSpec`: the platform is one of SMS and not SMS, and invalid platforms are refused before.
- HTTP handlers, message, Excel and provider clients, audit logs, notifications and migrations.
