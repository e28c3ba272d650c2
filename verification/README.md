# Verification of the payment gateway's money path

A Dafny model of how the gateway moves money: orders and the bills and on-chain deposits that pay them,
merchant callbacks, idempotent commands, refunds, and the ledger with its balances and settlements. Each
database table is a map of rows, each statement a guarded update, the clock an integer of milliseconds. Where
the source awaits between a read and a write that another process can interleave with, the model has separate
steps, and the results are about every run of those steps.

`dafny verify dfyconfig.toml` checks everything.

## Layout

| files | what they hold |
|---|---|
| PaymentStatus, Orders | status resolution, notification acceptance and the one write that applies a notification |
| BillMatching, BillSafety, BillFinding, BillTimes, Expiry, PaymentGateway | CTF orders with unique amounts: the transition system, its results, exactly which order a bill finds, expiry, and the service class |
| BillStatus, BillSchedule, BillQueue, BillWorker | the retry schedule of a captured bill under any number of workers; who is in a worker's batch; the worker class |
| Callbacks, CallbackQueue, CallbackService | callback delivery of one order under concurrent dispatchers; who is in a worker's batch; the service class |
| Idempotency, IdempotencyService, Fingerprint | the lease protocol of one key; the `while (true)` loop; canonical request summaries |
| Refunds, RefundService | reservation of refunds on one order; the service class |
| DayKeys | Shanghai days, ISO day keys, the proleptic Gregorian calendar of ECMA-262 section 21.4.1 |
| Finance, FinanceReports, Ledgers, Settlements, SettlementColumns, FinanceService | fees, digests, balances, the ledger as a view, settlements over runs and what their columns add up to; the service class |
| UsdtTail, OnchainDeposits, OnchainService, EvmScan, ScanStall | USDT tail amounts, deposit matching, the rematch loop, the block scanner, and how a refused deposit stalls it |
| Options, Sets, Sums, Sorting, Batches | small shared vocabulary; batch queries with `orderBy` and `take` |

A service class holds the tables in its fields and repeats the source's loops and guards; its `ensures` tie the
new tables to the transition system of the module beside it, whose lemmas then speak about all runs.

## What is established, in short

- A bill finds exactly the orders whose account, channel, currency, cents and times it fits: one its remark names, or a
  lone one if a listener captured it. An order that is created, confirmed and polled any number of times is credited by
  a bill of exactly the amount that was told (`BillFindings.PolledOrderIsCredited`).
- A bill has at most one eligible order in every reachable state, except in the millisecond in which an order closes
  and hands its amount over to a new one. An order is credited by at most one bill, and bills of one identity credit
  at most one order, over every run, because whoever speaks about a capture order echoes its own gateway id and that
  id is unique.
- A captured bill that is still RECEIVED is due after the longest lease or delay. A due bill is in a worker's batch iff
  fewer than `limit` due bills come before it by paidAt and createdAt; it is in one of the next passes once these have
  more places than the bills not behind it have attempts left, if no such bill arrives meanwhile and every batch is
  attempted before the next pass (`BillQueues.NoBillIsStranded`).
- With timely workers a bill is settled after at most the configured attempts. A late worker can leave a stale claim
  behind: `StaleClaimIffRetryIsOld` says when, `StaleClaimIsReachable` that it happens. A bill whose payment was applied
  just before its worker died, or before its callback or ledger sync threw, finds no order again and ends in DEAD_LETTER.
- Notifications form a join-semilattice: any reordering or repetition ends in the same status. The payment time is the
  one of the last accepted success that brings one.
- A waiting callback with attempts left is due from its instant on, and it is served in the order of these instants: it
  is in one of the next passes once these have more places than there were orders ahead of it
  (`CallbackQueues.WaitingCallbackIsServed`).
- A failed dispatch is due again exactly one retry interval after its reply, and an order is due at a list of visits
  exactly when they are that far apart and attempts are left (`Callbacks.AlwaysDueIffSpaced`).
- Attempts are bounded, and DELIVERED tells the current status exactly when no delivery of an older status finished late
  (`StaleDeliveryHidesSuccess`). `QueuedSuccessIsDroppedIff` lists every step that ends the wait of a success without
  telling it.
- With timely holders an idempotency key has at most one live holder, and whoever asks again is told the very status and
  body its final finish was given (`ReplaysTellTheFinish`, `LateRequestIsAnswered`);
  `LateFinishReopens` and `LateHolderIsReachable` show what a late holder does.
- What refunds reserve stays within the order plus one cent plus what providers revive from FAILED, and a notification
  passes that limit exactly when it revives a refund larger than what is left. What providers really pay back stays
  within the order, one cent, what they revived since, and the paid refunds that a failing creation marked FAILED.
- The ledger after a backfill is the view of the SUCCEEDED orders and refunds plus the rows of refunds that fell from
  SUCCEEDED; closing balances of the view equal earned nets less refunds less paid settlements; a PAID settlement is
  frozen with one payout row.
- Every settlement that a sync writes has the totals of its day's rows by kind; over runs without moved or fallen rows
  and early payouts its columns add up to the SUCCEEDED orders, their fees and the SUCCEEDED refunds
  (`SettlementColumns.ColumnsAddUpToBooks`).
- No ledger row is counted by two settlements unless its payment day moved, even when ledger writes fall between a
  sync's reading and its writes. A repeated success notification can move it: `MovedCaptureIsPaidTwice`.
- A USDT order whose CNY and USDT figures differ by more than 0.01 is never cancelled, so no deposit ever has two of
  them as candidates. For the others an old cancelled row can hide a payment (`TouchHidesPayment`).
- The deposits of one transaction pay at most one order, over scans, rematches and crashes. A second transfer in
  a used transaction is refused and blocks the rematch loop behind it.
- The block scanner has stored every deposit between its first stored run and its cursor. A refused second transfer holds
  the cursor before its block for as long as the open order it fits stays open (`SecondTransferStallsScanner`).

## Where the code differs from its own wording

- lib/orders/service.ts:386-404 quotes `order.amount` in the expiry notification, while acceptance compares with
  the payable amount. An overdue CTF order is cancelled exactly when its tail is at most one cent
  (`Expiry.CtfExpiry`); other overdue orders fail the sweep and keep their amount occupied.
- The comment at lib/refunds/service.ts:353-357 states that refunds never sum past the order amount. The
  tolerance allows one cent more, and a FAILED refund revived by a provider query allows its whole amount
  (`Refunds.RevivalCanPayTwice`). So does a refund that was paid and then marked FAILED by the catch at lines 460-474,
  although the reserved sum never shows it (`Refunds.FallenRefundIsPaidAgain`).
- The comment at lib/ctf-bill-capture/service.ts:310-311 promises that late bills are recovered while the order
  was valid. Any notification accepted after the expiry other than another expiry ends that
  (`BillSafety.PollingForfeitsLateBill`).
- An EasyPay success is told to its notify URL only if the native callback target is set as well
  (`Callbacks.SuccessIsSentIffBothTargets`).
- A USDT order's close and expiry notifications quote the CNY amount and are compared with the USDT amount. An overdue
  USDT order is cancelled exactly when the two are within 0.01; otherwise close and expiry both throw
  (`OnchainDeposits.OverdueIsCancelledIffNear`).
- The overlap of the block scanner starts only once a cursor exists: blocks of failed runs before that which lie behind
  the overlap of the first stored run are lost (`EvmScan.FailedStartLosesOlderBlocks`).
- The catch at lib/refunds/service.ts:460-474 can mark a refund FAILED whose success and ledger row were written; the
  row then stays (`Settlements.FallenRefundKeepsItsRow`).

## Assumptions

- CNY amounts are integer cents, fee rates ten-thousandths, USDT amounts integer units; binary floating point
  is not modelled, so a difference of exactly one cent counts as within the tolerance.
- These are single steps: applying a notification (read and write), allocating an amount and creating its order,
  finding a candidate and paying it, looking up and writing one settlement, one mark-as-paid, retrying a failed refund.
- Rows with equal sort keys are listed in any order the database likes, another one in every query; paidAt and createdAt
  never change.
- Configuration is fixed during a run. Clocks never go backwards but may stand still.
- Providers do not send the gateway's own ORDER_EXPIRED or bill evidence, and no notification reaches an order
  before the second write of its creation (`Orders.FinishCreateRises` shows why this matters).
- Provider payloads of CTF orders carry no quote fields; channel codes are normalised.
- For the ledger, a SUCCEEDED order stays SUCCEEDED; orders keep their account, amount and fee, refunds their account and,
  while SUCCEEDED, their amount.
- Notifications about capture orders bring no gateway id or the order's own (lib/payments/providers/ctf-bill-capture.ts:56-75,
  lib/orders/service.ts:386-404); this is a hypothesis of `BillSafety.OneOrderPerBill` only.
- Merchant and currency order of the balance sort is a strict total order; so is the key order of the fingerprint.

## Model

| member | source | states |
|---|---|---|
| PaymentStatuses.ResolveIsJoin | lib/orders/status.ts:23-45 | the decision list over provider texts is the join of PENDING < PROCESSING < FAILED < CANCELLED < SUCCEEDED with a target that ignores the current status |
| PaymentStatuses.TextDecides | lib/orders/status.ts:3-45 | which words of a provider's text cancel, fail or keep a status, succeeded and terminal ones included |
| PaymentStatuses.MentionsIgnoresCase | lib/orders/status.ts:15-32 | texts that differ in case only mention the same words |
| Orders.DeliverIsLeastUpperBound | lib/orders/service.ts:832-926 | after any notifications the status is the least upper bound of the first one and everything accepted |
| Orders.DeliveryOrderIsIrrelevant | lib/orders/service.ts:847-866 | two notification sequences with the same elements end in the same status, however ordered or repeated |
| Orders.DeliveryStampsOnce | lib/orders/service.ts:878-894 | completedAt is the first terminal instant and never moves, a row is stamped iff terminal, paidAt appears exactly through accepted successes |
| Orders.PaymentTimeIsLastTold | lib/orders/service.ts:889 | the payment time is that of the last accepted success that brings one; a success without one leaves the old one, or the instant of its arrival where there was none |
| Orders.LastWordCounts | lib/orders/service.ts:887-888 | the provider status is that of the last accepted notification, the gateway id that of the last one that brings an id |
| Orders.AcceptsIff | lib/orders/service.ts:847-860 | accepted is what brings capture evidence on capture channels only, an amount within a cent, and for a success an amount unless waived |
| Orders.FinishCreateRises | lib/orders/service.ts:787-830 | the second write of creation keeps statuses rising iff nothing higher arrived before it |
| Orders.ExpiryCancelsIffTailIsTiny | lib/orders/service.ts:386-404 | an open order's own expiry notification cancels it iff payable and nominal amount differ by at most a cent, otherwise nothing changes |
| BillMatching.FirstFreeIsLeast | lib/orders/service.ts:242-262 | the probe returns the least free amount of the hundred, or none iff all are used |
| BillMatching.AllocatedAmountIsLeast | lib/orders/service.ts:210-263 | a positive amount on a capture channel gets the least of its hundred tails that no PENDING or PROCESSING order of the account, channel and currency asks for, and every other amount stays as it is |
| BillMatching.AllocationSucceeds | lib/orders/service.ts:210-263 | fewer than a hundred open orders in the group always leave a tail |
| BillMatching.NextKeepsInv | lib/orders/service.ts:647-926 | every step keeps exclusive amount slots, unique gateway ids, justified credits and true marks |
| BillMatching.RunKeepsInv | lib/ctf-bill-capture/service.ts:279-510 | so does every run |
| BillSafety.AtMostOneEligible | lib/ctf-bill-capture/service.ts:294-342 | in every reachable state two orders eligible for one bill are in the one-millisecond handover |
| BillSafety.SearchMeetsRelation | lib/ctf-bill-capture/service.ts:344-369 | the candidate search returns an order the matching rule allows, and none iff there is none |
| BillSafety.SearchIgnoresListing | lib/ctf-bill-capture/service.ts:333-369 | with at most one candidate the match does not depend on the order of the rows |
| BillFindings.MayReturnIffFits | lib/ctf-bill-capture/service.ts:279-370 | the matching rule allows exactly the orders that fit in every column and are hit, or the lone one of a listener |
| BillFindings.WaitingOrderFitsAlone | lib/ctf-bill-capture/service.ts:294-342 | in every reachable state a waiting order that fits a bill is the only one that does, unless another order handed its amount over at that instant |
| BillFindings.OpenOrderIsCredited | lib/ctf-bill-capture/service.ts:372-431 | after any run a bill that fits an open order finds it and nothing else, and ingest, match and mark credit it with the bill's payment time |
| BillFindings.PolledOrderIsCredited | lib/orders/service.ts:717-926 | so does, over the whole life of an order, creation, any polling and the bill of the payable amount paid within the validity |
| BillSafety.OneBillPerOrder | lib/ctf-bill-capture/service.ts:372-431 | in every reachable state an order is credited by at most one bill |
| BillSafety.NextKeepsBills | lib/ctf-bill-capture/service.ts:397-414 | while capture orders are spoken of with their own gateway id, every step keeps a credited order carrying its bill's identity |
| BillSafety.OneOrderPerBill | lib/ctf-bill-capture/service.ts:372-510 | over any such run, crashes and retries included, bills of one identity credit at most one order and only one of them does |
| BillSafety.MatchedBillsAreInjective | lib/ctf-bill-capture/service.ts:416-430 | two bills marked MATCHED with one order are the same bill |
| BillSafety.RunRises | lib/orders/service.ts:862-915 | over any run no order with completed creation disappears or falls in status |
| BillSafety.PollingForfeitsLateBill | lib/ctf-bill-capture/service.ts:305-320 | a recoverable order stays recoverable through an accepted notification iff it is another expiry |
| BillTimes.NextIsInTime | lib/ctf-bill-capture/service.ts:294-331 | without bills from the future every step keeps credited orders open or valid at the time they were paid |
| BillTimes.CreditedBillFindsNothing | lib/ctf-bill-capture/service.ts:397-430 | outside a tie of three instants, a bill whose payment is applied is allowed no further order, so a crash before marking it leaves it to the dead letters |
| BillSchedule.NextIsSound | lib/ctf-bill-capture/service.ts:556-636 | every interleaved step keeps RECEIVED bills below the limit and put off by no more than the longest lease or delay |
| BillSchedule.WaitingBillIsClaimed | lib/ctf-bill-capture/service.ts:573-587 | after any run, dead and late workers included, a RECEIVED bill is due once that wait has passed, and a worker that then has it in its batch claims it with its current count |
| BillSchedule.TimelyClaimsAreCurrent | lib/ctf-bill-capture/service.ts:573-593 | in timely runs a claim that succeeds was made with the current attempt count, however old its batch |
| BillSchedule.StaleClaimIffRetryIsOld | lib/ctf-bill-capture/service.ts:573-614 | a failed attempt leaves an open batch a successful claim iff the retry time fixed at its own claim is not after that batch's instant |
| BillSchedule.StaleClaimIsReachable | lib/ctf-bill-capture/service.ts:573-614 | for any configuration of two attempts or more, a run in which a stale claim makes two failed attempts count as one |
| BillQueues.NoBillIsStranded | lib/ctf-bill-capture/service.ts:546-587 | such a bill is in the batch of one of the passes made after that wait, and claimed there, as soon as these have more places than the bills not sorted behind it have attempts left; it needs that no such bill arrives and each batch is attempted before the next pass |
| BillQueues.SelectedInTime | lib/ctf-bill-capture/service.ts:556-565 | the same for any bill that stays due |
| BillQueues.BatchIsOldestFirst | lib/ctf-bill-capture/service.ts:562-563 | no due bill left out of a batch was paid before a selected one, nor at the same instant and captured before it |
| BillQueues.AttemptIsScheduled | lib/ctf-bill-capture/service.ts:573-636 | the row the worker leaves after an attempt is the one the schedule's run leaves |
| BillQueues.OverlookingUsesAttempts | lib/ctf-bill-capture/service.ts:562-563 | a pass that leaves a due bill out has a full batch of bills not sorted behind it, each with an attempt left |
| BillQueues.WorkerPassFits | lib/ctf-bill-capture/service.ts:556-636 | what the worker's pass guarantees is what the bound asks of a pass: its batch by the fixed keys, and an attempt less for every bill of it that no rival leased |
| BillQueues.TimelyRunsAdvance | lib/ctf-bill-capture/service.ts:573-636 | a bill leased by rivals loses an attempt as well once a timely one of them completes it, and never gains one |
| Batches.SelectedIffFewAhead | lib/ctf-bill-capture/service.ts:556-565 | a due row is in an ordered batch of a limited size iff fewer due rows than the limit come before it |
| BillSchedule.MatchedIsFinal | lib/ctf-bill-capture/service.ts:602-631 | no late failure takes a bill out of MATCHED |
| BillSchedule.TimelyRunsDrain | lib/ctf-bill-capture/service.ts:573-636 | with timely workers the counter is the number of failed attempts, each completed one uses up one of those left, and after that many the bill is settled |
| BillSchedule.RewindIsReachable | lib/ctf-bill-capture/service.ts:589-614 | for any configuration of three attempts or more, a run in which a late worker sets the counter back |
| BillSchedule.BackoffDoubles | lib/ctf-bill-capture/service.ts:573-614 | the undisturbed run of k failed attempts takes 2^k - 1 base delays and ends due again, or as a dead letter at the limit |
| BillWorkers.BillWorker.ClaimBill | lib/ctf-bill-capture/service.ts:573-587 | the compare-and-set takes the lease iff the bill is due |
| BillWorkers.BillWorker.TryMatch | lib/ctf-bill-capture/service.ts:372-431 | matching from the worker is a run of the gateway; no match means no allowed order; a throw after the payment leaves it written and the bill RECEIVED |
| BillWorkers.BillWorker.RunDueCtfBillCaptureMatches | lib/ctf-bill-capture/service.ts:546-647 | the first due bills by paidAt and createdAt, up to the limit, are tried once each, those leased by others meanwhile are refused, other rows stay, and the whole pass is a run of the gateway; matches and dead letters are those the table shows |
| BillWorkers.ReportCounts | lib/ctf-bill-capture/service.ts:567-647 | matched, open, failed and dead-lettered are the numbers of visits that ended so, and refused ones are in none |
| Expiry.PaidOverdueOrderSucceeds | lib/orders/service.ts:406-440 | an overdue order whose provider reports its success is not expired but succeeds |
| Expiry.ClosedOverdueOrderIsCancelled | lib/orders/service.ts:425-459 | an overdue order its provider closes is cancelled in the provider's words |
| Expiry.OtherOrdersAreLeftAlone | lib/orders/service.ts:406-424 | an order that has ended, does not expire or is not yet due to is left alone without a word to its provider |
| Expiry.SweepCountsEndings | lib/orders/service.ts:461-506 | what a sweep reports as cancelled and as succeeded are the numbers of its orders that ended so |
| Expiry.CtfExpiry | lib/orders/service.ts:406-459 | the expiry check of an overdue CTF order cancels it iff its tail is at most a cent, otherwise throws and changes no row |
| Expiry.CtfSweep | lib/orders/service.ts:461-506 | a sweep over distinct overdue CTF orders cancels exactly those with tiny tails, changes no other row, and counts the rest as failed |
| Expiry.WaitingAsksForProcessing | lib/payments/providers/ctf-bill-capture.ts:56-75 | the CTF provider's own status text never asks for more than PROCESSING |
| PaymentGateways.PaymentGateway.AllocateCtfPayableAmount | lib/orders/service.ts:210-263 | the loop's amount is the least one no open order of the group uses; it fails iff all hundred are used |
| PaymentGateways.PaymentGateway.CreatePaymentOrder | lib/orders/service.ts:717-830 | allocation, insertion and second write are exactly the two creation steps; it fails iff no amount is free, and the new row has the amount, payable amount, validity and status it was asked for |
| PaymentGateways.PaymentGateway.ApplyPaymentNotification | lib/orders/service.ts:832-915 | rejected notifications leave the table alone, accepted ones make the one specified write |
| PaymentGateways.PaymentGateway.FindMatchingPaymentOrder | lib/ctf-bill-capture/service.ts:279-370 | the found order fits in every column and is hit, or is a listener's lone one, and of several it is the oldest; none is found iff there is none |
| PaymentGateways.PaymentGateway.MatchCtfBillCaptureEvent | lib/ctf-bill-capture/service.ts:372-431 | a RECEIVED bill is matched iff an order fits it; the order then carries the bill's payment time and the bill is marked, unless something threw after the payment was written; otherwise nothing changes |
| PaymentGateways.PaymentGateway.IngestCtfBillCaptureEvent | lib/ctf-bill-capture/service.ts:433-510 | a repeated report adds no event, and ingest is the ingest step followed by at most one match |
| PaymentGateways.PaymentGateway.ExpirePaymentOrderIfNeeded | lib/orders/service.ts:406-459 | query, close and forced expiry leave the table the specification gives, errors included |
| PaymentGateways.PaymentGateway.CloseExpiredPaymentOrders | lib/orders/service.ts:461-506 | the sweep's table and counters are those of the fold over its batch |
| Callbacks.NextKeepsInv | lib/callbacks/service.ts:191-420 | every interleaved step keeps waiting callbacks recoverable and the attempt count equal to the attempt rows |
| Callbacks.NoCallbackIsLost | lib/callbacks/service.ts:422-466 | after any run a waiting callback meets the `where` of the due query from its due time on, iff attempts are left |
| CallbackQueues.WaitingCallbackIsServed | lib/callbacks/service.ts:422-466 | after any run a waiting callback with attempts left is in the batch of one of the passes from its instant on, as soon as these have more places than there were orders ahead of it; it needs that batches are dispatched and nobody gains a place |
| CallbackQueues.RunGainsNoPlace | lib/callbacks/service.ts:422-466 | once a callback's instant has passed, no run of statements puts another order before it, except a claim so late after its reading that its lease has ended |
| CallbackQueues.VisitGivesUpPlace | lib/callbacks/service.ts:191-300 | a dispatcher that stops at its reading or has tried its claim leaves its order behind such a callback, whoever else is at work |
| CallbackQueues.ServicePassFits | lib/callbacks/service.ts:480-514 | a pass of the service dispatches its batch out of the way and lets nobody in |
| CallbackQueues.DueHasInstant | lib/callbacks/service.ts:422-466 | over every run a due order has an instant, so none is sorted last for having none |
| Callbacks.DueIsDispatched | lib/callbacks/service.ts:191-300 | a dispatcher that acts on a due order claims it, or finds it has no address |
| Callbacks.AttemptsAreBounded | lib/callbacks/service.ts:378-411 | attempt rows equal the counter and exceed the limit only by forced and overlapping claims |
| Callbacks.RequeuedAtMostTwice | lib/orders/service.ts:869-909 | a delivered order is queued again for a changed terminal status at most twice |
| Callbacks.FreshUnlessStale | lib/callbacks/service.ts:376-411 | a step leaves DELIVERED telling the current status iff it is not the late finish of an older reading |
| Callbacks.RunIsFresh | lib/callbacks/service.ts:191-420 | without such late finishes DELIVERED always tells the current status |
| Callbacks.StaleDeliveryHidesSuccess | lib/callbacks/service.ts:376-411 | for any order, a success landing during delivery of a failure is marked DELIVERED with it and never due again |
| Callbacks.QueuedSuccessIsDroppedIff | lib/callbacks/service.ts:191-420 | a queued success leaves the queue untold by exactly four kinds of steps |
| Callbacks.StaleReadingDropsSuccess | lib/callbacks/service.ts:302-326 | for any EasyPay order with both addresses, a success queued while a failure is being dispatched is taken out of the queue untold |
| Callbacks.SuccessIsSentIffBothTargets | lib/callbacks/service.ts:141-156 | a success of an open order reaches a dispatcher iff both the queuing and the sending target are set |
| Callbacks.UndisturbedIsARun | lib/callbacks/service.ts:191-420 | one dispatch without interference is a run of the transition system |
| Callbacks.DueDispatchProgresses | lib/callbacks/service.ts:480-514 | each dispatch of a due order delivers it, retires it, or uses up one of its remaining attempts |
| Callbacks.DueIsToldIff | lib/callbacks/service.ts:302-411 | a due order with an address is told its status, unless it is an EasyPay order that did not succeed or has no credential |
| Callbacks.EasyPayIsToldSuccessOnly | lib/callbacks/service.ts:302-326 | over every run an EasyPay merchant is told of successes and of nothing else |
| Callbacks.FailureIsRetriedAfterInterval | lib/callbacks/service.ts:401-411 | after a failed dispatch the order is due exactly from one retry interval after the reply on, and never again once its attempts are used up |
| Callbacks.AlwaysDueIffSpaced | lib/callbacks/service.ts:376-514 | an order is due at every one of some visits iff attempts are left for them, all but the last fail, and each comes a retry interval after the reply before or later |
| Callbacks.NewsIsDueAtOnce | lib/orders/service.ts:869-909 | a terminal status the order did not have is due from the instant of the notification on |
| Callbacks.ClaimPutsOffByLease | lib/callbacks/service.ts:120-139 | a claimed order is due again exactly one lease after its dispatcher's reading |
| Callbacks.ClaimSucceedsIff | lib/callbacks/service.ts:62-139 | a claim takes the row iff no lease runs at the dispatcher's reading and, unless forced, attempts are left and the callback waits past its instant |
| Callbacks.ForcedDispatchIff | lib/callbacks/service.ts:93-139 | a forced dispatch goes ahead iff there is an address, a terminal status and no running lease |
| Callbacks.WorkerDrains | lib/callbacks/service.ts:480-514 | an order is due at no more worker visits than it has attempts left |
| CallbackServices.CallbackService.ClaimMerchantCallbackDispatch | lib/callbacks/service.ts:120-139 | the compare-and-set claims iff the claim predicate holds, and writes the lease |
| CallbackServices.CallbackService.DispatchMerchantCallback | lib/callbacks/service.ts:191-420 | row and attempt log after a dispatch are those of the undisturbed run; an attempt row exists iff it was not skipped |
| CallbackServices.CallbackService.ListDueMerchantCallbackOrderIds | lib/callbacks/service.ts:422-466 | the first due orders by nextCallbackAt and createdAt, as many as the limit allows |
| CallbackServices.CallbackService.RunDueMerchantCallbackDispatches | lib/callbacks/service.ts:480-514 | exactly those orders, longest wait first, are dispatched once each with their attempt logs, no other row changes, and each counter is the number of orders whose dispatch ended so |
| Idempotency.AtMostTwoPasses | lib/idempotency/service.ts:97-261 | in any run no begin goes round its retry loop more than twice |
| Idempotency.AtMostOneLiveHolder | lib/idempotency/service.ts:79-261 | with timely finishes at most one started unfinished command holds an unexpired lease |
| Idempotency.FinalOutcomeIsStable | lib/idempotency/service.ts:152-261 | after SUCCEEDED or FAILED_FINAL the outcome never changes, nobody starts, and replays return that status and body |
| Idempotency.ReplaysTellTheFinish | lib/idempotency/service.ts:180-344 | after a timely finish with a final status every later result is a conflict, a notice of work in progress, or the replay of the status and body that finish was given |
| Idempotency.LateRequestIsAnswered | lib/idempotency/service.ts:152-200 | a request that enters after it gets that replay iff it is the same request, and a conflict otherwise |
| Idempotency.SameRequestIsReplayed | lib/idempotency/service.ts:79-344 | from the empty table, a first request starts, and after its final finish a second one is replayed iff its hash is the same |
| Idempotency.LateFinishReopens | lib/idempotency/service.ts:319-344 | a late retryable finish reopens any finished record and the next begin starts |
| Idempotency.LateHolderIsReachable | lib/idempotency/service.ts:263-344 | such a late holder is reachable from the empty table |
| IdempotencyServices.IdempotencyStore.BeginMerchantIdempotencyCommand | lib/idempotency/service.ts:79-261 | the loop ends within two passes under a racing creator; result and record by the fields of the record found |
| IdempotencyServices.IdempotencyStore.Finish | lib/idempotency/service.ts:263-344 | finishing overwrites status, HTTP status, body and lease, whatever they were |
| Fingerprint.CanonicalIffSame | lib/idempotency/fingerprint.ts:3-21 | two JSON trees have the same sorted form iff they are equal up to member order at every depth |
| Fingerprint.SortValueIsIdempotent | lib/idempotency/fingerprint.ts:3-17 | sorting a sorted tree changes nothing |
| Fingerprint.ConflictIffDifferent | lib/idempotency/service.ts:152-166 | a request meets a conflict iff it differs from the recorded one beyond member order |
| Refunds.TextDecides | lib/refunds/status.ts:3-31 | which words of a provider's text make a refund succeeded, processing or failed |
| Refunds.AmountErrorMeans | lib/refunds/service.ts:73-87 | a request is admitted iff it is positive and at most a cent above what is available, and invalid iff it is not positive |
| Refunds.RetryIsAdmittedIff | lib/refunds/service.ts:337-432 | a known refund is tried again iff it failed, for its old amount up to a cent, and within what the other refunds leave |
| Refunds.NextIsBounded | lib/refunds/service.ts:73-87 | every admission leaves the reserved sum within the order amount plus one cent |
| Refunds.RefundsAreBounded | lib/refunds/service.ts:353-432 | over every run the reserved sum is at most the order amount, one cent and the revived refunds |
| Refunds.RefundsStayWithinOrder | lib/refunds/service.ts:353-475 | without revivals it is at most the order amount plus one cent |
| Refunds.ReservationGrowsOnlyByRevival | lib/refunds/status.ts:3-31 | outside creation the reserved sum grows iff a FAILED refund hears anything but failure, by exactly its amount |
| Refunds.LimitIsPassedIffRevived | lib/refunds/status.ts:3-31 | a notification takes the sum past the limit iff it revives a refund larger than what is left below it |
| Refunds.OneCentMoreIsAdmitted | lib/refunds/service.ts:73-87 | creation admits the order amount plus one cent, and not more |
| Refunds.RevivalCanPayTwice | lib/refunds/status.ts:16-30 | for any amount a run in which both of two full refunds stand |
| Refunds.PaidIsBounded | lib/refunds/service.ts:353-475 | over every run what was really paid back is at most the order amount, one cent, the revived refunds, and the paid refunds a failing creation marked FAILED |
| Refunds.PaidStaysWithinOrder | lib/refunds/service.ts:353-475 | it is at most the order amount plus one cent if none is revived and none falls |
| Refunds.FallenRefundIsPaidAgain | lib/refunds/service.ts:448-474 | for any amount a run without revivals that pays the order back twice while its reserved sum shows it once |
| Refunds.SuccessIsFinal | lib/refunds/status.ts:3-31 | provider words never take a refund out of SUCCEEDED, and one success, by flag or by word, puts it there for good |
| RefundServices.QueryIsHeard | lib/refunds/service.ts:211-234 | the provider's answer about a known refund is one word about that refund and no other, heard before it is replayed or retried |
| RefundServices.ThrownReplyFails | lib/refunds/service.ts:430-475 | whatever throws while a refund is created leaves it FAILED, and a reply that does not throw is one word of the provider |
| RefundServices.RefundService.GetReservedRefundAmount | lib/refunds/service.ts:132-158 | the aggregate is the sum over refunds that are not FAILED, without the excluded one |
| RefundServices.RefundService.ApplyPaymentRefundNotification | lib/refunds/service.ts:160-209 | a provider notification is the notify step and keeps the bound |
| RefundServices.RefundService.CreateMerchantPaymentRefund | lib/refunds/service.ts:288-475 | creation is the create step; a known refund is queried, then replayed, or retried if it failed; the catch around the provider call is the failing step; a rejected request changes nothing but what the query said, and gives the error its amount calls for; both bounds are kept |
| DayKeys.DayContainsInstant | lib/finance/calculations.ts:110-126 | an instant lies between start and end of a day iff it is its Shanghai day |
| DayKeys.ParseKey | lib/finance/calculations.ts:110-126 | for years 0000 to 9999 printing a day and reading the key back is the identity |
| DayKeys.KeyOrderIsChronological | lib/finance/calculations.ts:134-146 | comparing keys as text is comparing days |
| DayKeys.AddDaysToKeyAdds | lib/finance/calculations.ts:128-132 | addDaysToDayKey adds days, through the UTC date setter and across month and year ends |
| DayKeys.CutoffGuardNeverFires | lib/finance/settlements.ts:90-95 | an entry that passes the query's cutoff never fails the day-key guard |
| Finance.FeeIsNearest | lib/finance/calculations.ts:47-61 | the fee is within half a cent of exact, halves rounded up, and fee and net add up to the amount |
| Finance.TotalFeesAreClose | lib/finance/calculations.ts:47-61 | total fees on n orders at one rate are within n/2 cents of the fee on the total |
| Finance.Reconciliation | lib/finance/calculations.ts:63-165 | a closing balance is the settlement nets up to the day less the payouts up to the day, for well-signed entries |
| Finance.ReconciliationNeedsSigns | lib/finance/calculations.ts:85-88 | for a single entry that holds iff its direction fits its type or its amount is zero |
| Finance.BucketsPartition | lib/finance/settlements.ts:90-114 | adding a measure up bucket by bucket counts every entry exactly once |
| Finance.SettlementsCoverLedger | lib/finance/settlements.ts:90-121 | the nets of settlements covering the ledger add up to its signed total |
| FinanceReports.BuildSettlementDigest | lib/finance/calculations.ts:63-108 | each figure is the sum of its type and the net is the signed total of the entries |
| FinanceReports.GroupByDay | lib/finance/settlements.ts:209-241 | one row per merchant, currency and day, holding that day's credits and debits |
| FinanceReports.CarryBalances | lib/finance/calculations.ts:148-164 | the running balances are, for each row, the totals of its account before and through its day |
| FinanceReports.BuildDailyBalanceSnapshots | lib/finance/calculations.ts:134-165 | the snapshots list the rows in sorted order with those totals, independent of the rows' own order |
| FinanceReports.RowsCarryBalance | lib/finance/settlements.ts:209-241 | the grouped rows carry the same balances as the ledger entries they came from |
| FinanceReports.OpeningIsPreviousClosing | lib/finance/calculations.ts:148-157 | each day opens where the previous day with entries closed |
| FinanceReports.SnapshotIgnoresOrder | lib/finance/settlements.ts:187-196 | snapshots do not depend on the order in which the ledger is read |
| Ledgers.BackfillIsViewIffNothingStale | lib/finance/ledger.ts:210-243 | a backfilled ledger is exactly the view of SUCCEEDED orders and refunds iff no stale row was in it |
| Ledgers.BackfillIsIdempotent | lib/finance/ledger.ts:210-243 | repeating a backfill changes nothing |
| Ledgers.SyncOrderLooksUp | lib/finance/ledger.ts:15-135 | syncing an order gives its capture and fee rows what the view says, deletes a zero fee row, and touches no other key |
| Ledgers.SyncRefundLooksUp | lib/finance/ledger.ts:137-208 | syncing a refund gives its row what the view says and touches no other key |
| Ledgers.OrderRows | lib/finance/ledger.ts:35-135 | a synced SUCCEEDED order has its amount as a credit and a positive fee as a debit, dated by payment, else completion, else last write |
| Ledgers.RefundRow | lib/finance/ledger.ts:137-208 | a synced SUCCEEDED refund has its amount as a debit, dated by its refund, else its last write |
| Ledgers.NetIsCaptureLessFee | lib/finance/ledger.ts:35-135 | capture less fee is the order's net amount, on every account and day |
| Ledgers.BalanceIsNetLessRefunds | lib/finance/ledger.ts:15-208 | a balance of the view is the nets of SUCCEEDED orders less SUCCEEDED refunds plus the payout rows |
| Settlements.RunKeepsInv | lib/finance/settlements.ts:46-183 | every run keeps payouts matched to PAID settlements, counted and read rows in place, kinds signed, and only fallen refunds stale |
| Settlements.UndisturbedSync | lib/finance/settlements.ts:46-183 | an undisturbed sync is one reading and one write per bucket, in any order |
| Settlements.PaidIsFrozen | lib/finance/settlements.ts:131-134 | a PAID settlement and its payout row never change again |
| Settlements.PaidOnce | lib/finance/settlements.ts:291-379 | a settlement is PAID iff its payout row exists, a debit of its positive net at its paidAt |
| Settlements.CountedOnceUnlessMoved | lib/finance/settlements.ts:90-173 | a ledger row counted by two settlements was redated into another bucket, even if it was written while a sync was running |
| Settlements.StableRunCountsOnce | lib/finance/settlements.ts:90-173 | if no SUCCEEDED order or refund falls or changes its payment day, settlements count disjoint rows |
| Settlements.MovedCaptureIsPaidTwice | lib/finance/settlements.ts:131-149 | for any fee-free order, a redated success is settled and paid out a second time |
| Settlements.LateRowIsLockedOut | lib/finance/settlements.ts:131-134 | a row that reaches a PAID day late is in no settlement, unless it moves |
| Settlements.SyncedFromEligibleDay | lib/finance/settlements.ts:136-139 | a day is settled iff the day of its eligibleAt has come |
| Settlements.FiguresAddUp | lib/finance/settlements.ts:136-147 | the stored net is gross less refunds less fees plus adjustments |
| SettlementColumns.FiguresAreTotals | lib/finance/settlements.ts:116-147 | gross, refund, fee and adjustment are each the total of that kind over the rows of the account and day, and the net is what they leave |
| SettlementColumns.EligibleIffDue | lib/finance/settlements.ts:46-114 | a day is settled iff it is not after the cutoff and has a row that is not a payout |
| SettlementColumns.RunStands | lib/finance/settlements.ts:46-183 | over every run without moved or fallen rows each settlement's figures are those of the rows it counted, as the ledger has them now |
| SettlementColumns.ColumnsAddUpToBooks | lib/finance/settlements.ts:116-173 | then, with the ledger the view and no day paid out before its rows were there, the gross, fee and refund columns add up to the SUCCEEDED orders, their fees and the SUCCEEDED refunds |
| Settlements.BackfillAfterAnyRun | lib/finance/ledger.ts:210-243 | after any mix of changes and incremental syncs a backfill yields the view plus the rows of refunds that fell, and exactly the view iff there are none |
| Settlements.FallenRefundKeepsItsRow | lib/refunds/service.ts:460-474 | for any refund, a run in which it falls from SUCCEEDED and no backfill ever removes its row |
| Settlements.ReachableReconciles | lib/finance/settlements.ts:185-273 | in every reachable ledger closing balances are day nets less payouts |
| Settlements.BalanceIsEarnedLessPaid | lib/finance/settlements.ts:291-379 | whenever the ledger is the view, a balance is earned nets less refunds less the nets of settlements paid by that day |
| FinanceServices.FinanceService.SyncPaymentOrderLedgerEntries | lib/finance/ledger.ts:15-135 | the upserts and the delete are the order sync step |
| FinanceServices.FinanceService.SyncPaymentRefundLedgerEntries | lib/finance/ledger.ts:137-208 | the upsert is the refund sync step |
| FinanceServices.FinanceService.BackfillMerchantLedgerEntries | lib/finance/ledger.ts:210-243 | the loops backfill, leaving the view iff no refund's row had fallen, and the counters are the numbers of SUCCEEDED orders and refunds |
| FinanceServices.GroupForSettlement | lib/finance/settlements.ts:76-114 | the buckets are those with rows up to the cutoff, each holding exactly its rows in ledger order |
| FinanceServices.FinanceService.SyncMerchantSettlements | lib/finance/settlements.ts:46-183 | every due settlement that is not PAID gets the totals of its day's rows, its release date and keeps its status, all others stay; cutoff and counters as returned |
| FinanceServices.TallyCounts | lib/finance/settlements.ts:116-182 | created, updated and locked split the buckets into new, known and PAID ones |
| FinanceServices.FinanceService.SyncMerchantBalanceSnapshots | lib/finance/settlements.ts:185-273 | every day with rows gets the snapshot of the naive reading of the ledger, other snapshots stay |
| FinanceServices.FinanceService.MarkMerchantSettlementPaid | lib/finance/settlements.ts:291-387 | missing, repeated and non-positive requests change no settlement; otherwise payout and status change together and snapshots follow |
| UsdtTail.HashIsPolynomial | lib/rates/usdt-quote.ts:221-229 | truncating to 32 bits at every character is the polynomial of the string modulo 2^32 |
| UsdtTail.TailStaysInRange | lib/rates/usdt-quote.ts:248-262 | no tail exceeds the absolute limit, and one longer than a step is within the basis points of the base amount |
| UsdtTail.TailRangeIsUsedUp | lib/rates/usdt-quote.ts:248-262 | one tail more than there are would exceed one of the limits |
| UsdtTail.ProbeStartsAtHash | lib/rates/usdt-quote.ts:221-229 | the first slot tried is the order id's polynomial modulo 2^32, modulo the number of slots |
| UsdtTail.SingleSlotIffStepTooLarge | lib/rates/usdt-quote.ts:251-262 | only the bare amount is available iff one step is over the absolute limit |
| UsdtTail.ProbeVisitsEachSlotOnce | lib/rates/usdt-quote.ts:303-308 | from any start the cyclic probe meets every slot at exactly one offset |
| UsdtTail.AllocateUsdtTailAmount | lib/rates/usdt-quote.ts:231-328 | it fails iff every slot's amount is taken, and otherwise returns the first free slot in probing order |
| UsdtTail.FullIffCapacityReached | lib/rates/usdt-quote.ts:297-328 | all amounts are taken iff the occupied amounts among them number maxSlot + 1 |
| UsdtTail.FewerOrdersThanSlots | lib/rates/usdt-quote.ts:269-328 | fewer occupied amounts than slots always leave one free |
| OnchainDeposits.NextKeepsInv | lib/onchain/service.ts:331-496 | every step keeps amount slots yielded, transactions unique, one deposit per paid order and true marks |
| OnchainDeposits.EligibleMeans | lib/onchain/service.ts:398-444 | the columns in which a deposit has to fit an order |
| OnchainDeposits.OutcomeMeans | lib/onchain/service.ts:383-479 | a deposit is skipped, not found, ambiguous, matched or refused by the number of orders that fit it and the transactions other orders carry |
| OnchainDeposits.OccupiedMeans | lib/rates/usdt-quote.ts:269-301 | an amount is occupied iff a PENDING or PROCESSING order of the account and chain with a running quote asks for it |
| OnchainDeposits.NearMeans | lib/orders/service.ts:160-208 | the tolerance is 0.01 between the plain numbers of yuan and USDT |
| OnchainDeposits.FittingDepositPays | lib/onchain/service.ts:331-496 | a deposit that fits one order alone credits it with its transaction and is marked with it |
| OnchainDeposits.OpenOrderIsPaid | lib/onchain/service.ts:383-496 | after any run the exact amount sent within the validity pays an open order whose neighbours are outside the tolerance |
| OnchainDeposits.OverdueIsCancelledIffNear | lib/orders/service.ts:406-459 | an overdue USDT order is cancelled iff its CNY and USDT figures are within 0.01, otherwise close and expiry both throw |
| OnchainDeposits.FarOrdersAreNeverCancelled | lib/payments/providers/usdt-onchain.ts:176-189 | over every run an order outside that tolerance stays open or is paid |
| OnchainDeposits.TwoCandidatesNeedATouch | lib/onchain/service.ts:398-452 | two orders are candidates for one deposit only if one, within the tolerance, was cancelled and written at or after the deposit's time |
| OnchainDeposits.AtMostOneCandidate | lib/onchain/service.ts:398-452 | a deposit never has two candidates outside the tolerance |
| OnchainDeposits.AtMostOneUntouchedCandidate | lib/onchain/service.ts:398-452 | within it, rows not written after cancellation and no shared instant leave at most one candidate |
| OnchainDeposits.OnePaymentPerTransaction | lib/onchain/service.ts:461-489 | over every run the deposits of one transaction pay at most one order, and only one of them does |
| OnchainDeposits.MatchedDepositsAreInjective | lib/onchain/service.ts:481-489 | a MATCHED deposit did pay the order it names, and no other deposit names it |
| OnchainDeposits.SecondTransferAlwaysThrows | lib/onchain/service.ts:461-479 | a second transfer of a used transaction is refused whenever it has its one candidate |
| OnchainDeposits.TouchHidesPayment | lib/onchain/service.ts:431-459 | for any amounts within the tolerance, a run in which writing a closed order's row makes the open order's payment ambiguous |
| OnchainServices.RematchIsARun | lib/onchain/service.ts:498-544 | whatever a rematch does is a run of the transition system |
| OnchainServices.RematchIsBlocked | lib/onchain/service.ts:525-537 | behind such a second transfer the rematch changes nothing |
| OnchainServices.OnchainService.UpsertDeposit | lib/onchain/service.ts:331-381 | a rescan refreshes a deposit and never its match |
| OnchainServices.OnchainService.FindCandidates | lib/onchain/service.ts:398-452 | at most two distinct candidates, and all of them when fewer than two |
| OnchainServices.OnchainService.MatchDepositToOrder | lib/onchain/service.ts:383-496 | the outcome is the one the candidate set calls for, and only a match changes rows |
| OnchainServices.OnchainService.RematchConfirmedDeposits | lib/onchain/service.ts:498-544 | exactly the unmatched deposits are tried, each once, up to the first that throws; without one the counters are those of the outcomes |
| OnchainServices.RematchCounts | lib/onchain/service.ts:518-544 | matched, ambiguous and pending are the numbers of matches that ended so |
| EvmScan.RunAsksFor | lib/onchain/service.ts:581-640 | a run asks an answering account for exactly the blocks from the twelfth behind the cursor, or the deepest one alone without a cursor, to the deepest with the confirmations |
| EvmScan.NoGaps | lib/onchain/service.ts:576-697 | over any runs every block from the first stored run to the cursor has had all its deposits stored for every account |
| EvmScan.OnlyDeepBlocks | lib/onchain/service.ts:576-591 | only blocks with the required confirmations are ever queried |
| EvmScan.SuccessCatchesUp | lib/onchain/service.ts:596-697 | a run without errors leaves everything up to its safe block stored |
| EvmScan.FailedStartLosesOlderBlocks | lib/onchain/service.ts:596-602 | after any failed runs, the first stored one and any later ones, exactly the blocks within the overlap of the first stored one are stored |
| ScanStall.OpenOrderKeepsThrowing | lib/onchain/service.ts:383-479 | over any further run a second transfer of a used transaction is refused while the order it fits is open, if no order of its amount is within the tolerance |
| ScanStall.SecondTransferStallsScanner | lib/onchain/service.ts:620-697 | meanwhile no list of scans moves the cursor to its block or past it, for any account |
| EvmScan.EvmScanner.ScanEvmChain | lib/onchain/service.ts:546-706 | the account loop is one scan step; the cursor moves iff no account failed |

## Left out

- HTTP, DNS, TLS, JSON-RPC and rate providers: their answers are inputs.
- Sessions, roles, UI actions, plugins and licences: lookups and field copying.
- Cryptography: signatures and hashes; the fingerprint hash is taken as injective on its text.
- EasyPay request building and signing: whether a credential exists is an input of a dispatch.
- Merchant status and profile checks of createPaymentOrder, and its early return for a known external id.
- Text matching of bill remarks: an arbitrary set of orders hit by the remark.
- Floating-point behaviour of Number, toFixed and EPSILON, including parsing USDT amounts back from text.
- A configured USDT_TAIL_STEP below one unit, where the source divides by zero.
- The bill schedule inside the gateway's transition system: there, giving up is possible whenever a bill is RECEIVED.
- Races the source does not guard: two notifications on one order at once, allocation against creation, settlement sync against mark-as-paid, and a provider query while a refund is being created.
- The order by observedAt of the rematch list: any order of the unmatched deposits is covered.
- The Solana scanner, which keeps no cursor.
- Changes of the receiving accounts between scans: the block scanner has a fixed list.
- BillSafety.AtMostOneEligible: excludes the millisecond in which an order closes and hands its amount over.
- BillTimes.CreditedBillFindsNothing: excludes the same millisecond.
- Settlements.CountedOnceUnlessMoved: excludes redated rows, where MovedCaptureIsPaidTwice shows it fails.
