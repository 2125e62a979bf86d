# The sale engine, modelled and proved

This project models how the repository sells one vehicle or one lot: bidding, buy-now holds,
checkout, payment, the payment webhook, pickup, lot assembly, and the counters and totals they
rely on. Rows of the database are datatypes (`Rows.dfy`), a table is a map or a sequence, and
time is a clock reading that each call receives.

## How it is built

- **Calls as functions.** `BidsSpec`, `VehiclesSpec`, `OrdersSpec`, `PickupSpec`, `WebhookSpec`,
  `LotsSpec`, `AttemptGate` and `Money` say what one call does to the tables it touches, branch by
  branch, including every error answer.
- **Services as classes.** `Storage` holds the tables and the Redis counters as mutable fields;
  `VehiclesService`, `BidsService`, `OrdersService`, `PickupService`, `PaymentsWebhookController`
  and `LotsService` update them in place, guard by guard and write by write, and are proved equal to
  the functions above. A transaction works on copies and stores them back at its end, so a failed
  write undoes the earlier ones. `Server.AppModule.Handle` ties them together: every call from a
  valid state is exactly one step of the machine below, and leaves the state valid.
- **Outcomes in row columns.** `BidOutcomes`, `CheckoutOutcomes`, `PaymentOutcomes`, `WebhookOutcomes`,
  `VehicleOutcomes`, `PickupOutcomes` and `LotOutcomes` say of every L1 call exactly when it succeeds, which
  columns of which rows it then writes with which values, and how each refusal is answered, without naming
  the functions above (`Columns` holds the few terms they share). `InFlightOutcomes` does so for the writes
  of L2.
- **L1** (`Machine`): each service call is one atomic step with one clock reading. The Redis lock
  around holds, bids and checkouts is what makes this fair for them; for the sweeps, payments,
  pickup, price updates, webhooks and lot creation it is an assumption. A run is a list of events;
  theorems speak of every state of every run.
- **L2** (`Interleaved`): payments, hold sweeps, bids, scans, completions, price updates and lot
  creations are cut into a read and the writes that follow; any number of such calls are in flight, and
  their phases interleave freely with each other and with whole calls. The calls that are cut take no
  lock here. The other calls (holds, checkouts, order expiry, webhooks, bidder approvals) enter as single
  steps: a hold and a checkout by their lock, the order expiry and the approval by their one statement or
  transaction, a webhook by assumption. The phases back to back are proved to be the L1 step.

| level | theorems |
|---|---|
| none (arithmetic, counters) | `Money`, `AttemptGate` |
| L1 | `BidOutcomes`, `PaymentOutcomes`, `WebhookOutcomes`, `VehicleOutcomes`, `PickupOutcomes`, `LotOutcomes`, `SalesRuns`, `Lifecycle`, `Handover`, `Auctions`, `AuctionWinner`, `Holds`, `NoDoubleSale`, `ExpireFirst`, `BlockedHolder`, `RepeatCheckouts`, `FreshRepeat`, `SweepTransparency`, `GateRuns`, `Replay`, `LotMembership`, `PrivateLots`, `SoldPrices`, `UniqueColumns` |
| L2 | `InFlightOutcomes`, `PaymentsInFlight`, `SettlementOnce`, `LifecycleInFlight`, `PickupInFlight`, `HandoverInFlight`, `HoldsInFlight`, `SweepsInFlight`, `SalesInFlight`, `StaleSales`, `HoldersInFlight`, `DoubleSaleRuns`, `CheckoutsInFlight`, `PriceIntegrity`, `PricesInFlight`, `LedgerInFlight`, `LedgerOrder`, `LedgerNeedsLock`, `LotsInFlight` |
| both | `CheckoutOutcomes`, `FreshDoubleSale` |

An L1 theorem says nothing about calls in flight. Where a call that takes no lock can break it, the
L2 theorem gives the condition under which it still holds:

| L1 | at L2 |
|---|---|
| `Lifecycle.NeverGoesBack`: EXPIRED and COLLECTED are final | `LifecycleInFlight.ExpiredLeftByStaleCommit`: EXPIRED is left exactly by a payment read before the expiry; `PickupInFlight.HandedOverForGoodIff`: COLLECTED is final exactly when no scan or completion of the order is in flight |
| `Lifecycle.StrandedForever`, `Lifecycle.CapturedWebhookStrandsOrder` | `LifecycleInFlight.SettleableIffCanBePaid`, `LifecycleInFlight.CapturedWebhookStrandsUnlessRead` |
| `PaymentOutcomes.SettledMeansCapturedIff`, `UniqueColumns.ColumnsStayUnique` | `PaymentsInFlight.SettledMeansCapturedInFlightIff`, `PaymentsInFlight.CapturedForGoodIff`; `PaymentsInFlight.ColumnsStayUniqueInFlight` |
| `Handover.CollectedOrderHistory` | `HandoverInFlight.CollectedOrderHistoryInFlight` |
| `Holds.SoldForever` | `HoldsInFlight.SoldForeverIffUnlisted`, `HoldsInFlight.SoldStaysIffUndisturbed` |
| `Holds.HoldStands`, `Holds.HoldsAreDisjoint`, `Holds.HoldsAreSpaced` | `HoldsInFlight.HoldStandsIffUnlisted`, `HoldsInFlight.HoldStandsIffUndisturbed`, `HoldsInFlight.HoldsDisjointIfUndisturbed`, `HoldsInFlight.SecondHoldIffDisturbed` |
| `SweepTransparency.SweepsAreTransparent`, `SweepTransparency.SweepsUnseenIffBlind` | `SweepsInFlight.SweepsChangeNothingIff`; `SweepsInFlight.SplitSweepIsSeen` is a run without bids in which a sweep is seen |
| `NoDoubleSale.HoldIsSafeIffNoRival`, `BlockedHolder.HoldIsSafeIff`, `NoDoubleSale.SoldAtMostOnce`, `NoDoubleSale.SoldForGood`, `ExpireFirst.ExpiryBeforeHoldsSuffices` | `HoldersInFlight.HoldIsSafeIff`, `StaleSales.HoldIsSafeIffNothingOwed`, `SalesInFlight.SoldOnceInFlight`, `SalesInFlight.SettledOnceInFlight` |
| `RepeatCheckouts.CheckoutIsSafeIffUnclaimed`, `RepeatCheckouts.SoldOnceIfCheckedOutClean`, `RepeatCheckouts.WinnerSoldAgainIff` | `CheckoutsInFlight.CheckoutIsSafeIffNothingOwed`, `CheckoutsInFlight.SoldOnceIfCheckedOutClean`, `CheckoutsInFlight.OwnClaimsInFlight` |
| `Auctions.LedgerAgreesInEveryState` | `LedgerOrder.LedgerAgreesIffInOrder` |
| `Auctions.FloorFrozen`, `Auctions.PriceAndTimeBound` | `PricesInFlight.FloorFixedIff`; `PricesInFlight.StaleUpdateRaisesFloorOverBid` is a run that ends with the bid below the floor |
| `LotMembership.LotsPartitionVehicles`, `LotMembership.MembershipIsForGood` | `LotsInFlight.LotsAgreeIff`, `LotsInFlight.StaysInLotIff` |

`Frames`, `AuctionView`, `VehicleView` and `OrderView` describe what one L1 step does to
one row, `SysView` what one L2 move does; `SalesTheory` and `Accounts` what every writer keeps about orders, payments, invoices and banks.
The theorems start from any state that satisfies their invariant; `FreshStart` shows that a
database without bids, lots, orders or payments satisfies all of them.

## Where the code and its documentation differ

The model follows the code.

- The architecture notes (README.md:31-56 of the repository) promise that a vehicle is never sold to two
  people, because an overdue order is EXPIRED and can no longer be paid. `verifyPayment` checks the
  status and not the deadline, so between the deadline and the next expiry sweep the old order can still
  be paid while a new buyer holds the vehicle: `FreshDoubleSale.FreshRunSellsTwice`. With every call
  atomic, `BlockedHolder.HoldIsSafeIff` is the exact condition: no other buyer can still pay, or the
  holder has an open order, which blocks their checkout. Sweeping overdue orders right before each hold
  meets it (`ExpireFirst.ExpiryBeforeHoldsSuffices`). Both are facts about L1 only. The source reads the
  order before its transaction and does not look at the status again, so a payment read before the sweep
  settles an EXPIRED order afterwards: `FreshDoubleSale.FreshRunSellsTwiceInFlight` sells a vehicle
  twice although the sweep ran and no rival was left. The exact condition with payments in flight is
  `HoldersInFlight.HoldIsSafeIff`: no order on the vehicle can still be paid, whoever owns it, and none
  has been, unless an order of the holder's own bars their checkout for as long as the hold runs.
- The webhook is described as the safety net behind `verifyPayment`
  (src/modules/payments.webhook.controller.ts:12-20). A `payment.captured` event that arrives first
  takes the pending payment away and the order can never be settled:
  `Lifecycle.CapturedWebhookStrandsOrder`, and at L2 exactly when no payment call had read it yet. Its
  event key can also fall back to the payment id, so that another event of the same payment hides the
  capture: `Replay.OtherEventHidesCapture`, with `Replay.DroppedIffKeyTaken` as the exact condition.
- `incrWindow` is called a sliding-window counter (src/common/redis.service.ts:83-86). Since every
  attempt renews the expiry it counts the current burst (`AttemptGate.CountIsLongestBurst`). The two
  agree exactly when the oldest attempt of the burst lies in the window
  (`AttemptGate.CountIsWindowIff`); three attempts 59 seconds apart count as three with two in the last
  minute (`AttemptGate.CountExceedsWindow`). `GateRuns.RefusedWithinRateIff` says exactly when the gate
  refuses a user who is within the sliding rate, and `GateRuns.SteadyAttemptsAreRefused` is a run that
  does.
- A settlement captures the payment of its order (src/modules/orders.service.ts:239-257), but two writes
  do not look at the order before they change that payment: the failure event of the webhook
  (src/modules/payments.webhook.controller.ts:94-102), and the branch of `verifyPayment` for a bad
  signature, which goes by the payment it read (src/modules/orders.service.ts:207-211). Either leaves a
  settled, invoiced order whose only payment is FAILED: `PaymentOutcomes.FailureEventAfterSettlement`,
  `PaymentsInFlight.StaleFailureAfterSettlement`. `PaymentOutcomes.SettledMeansCapturedIff` and
  `PaymentsInFlight.SettledMeansCapturedInFlightIff` are the exact conditions.
- A checkout is refused while the same buyer has one in progress for the vehicle
  (src/modules/orders.service.ts:79-92), but the check leaves out orders in pickup and never looks at
  the vehicle's status: the winner of an auction whose order has been scanned can check out and pay
  again, and the bank is credited twice (`FreshRepeat.WinnerBuysTwice`). Any accepted checkout is safe
  exactly when no order on the vehicle can still be paid or has been
  (`RepeatCheckouts.CheckoutIsSafeIffUnclaimed`); for a winner past the end that is exactly when no
  order of theirs has left READY_FOR_PICKUP (`RepeatCheckouts.WinnerSoldAgainIff`).
- An order is handed over against a one-time code (src/modules/pickup.service.ts:107-109). Neither
  `scan` nor `complete` looks at the status again when it writes, so a scan in flight reopens an order
  that has been handed over: `PickupInFlight.StaleScanHandsOverTwice`, with
  `PickupInFlight.HandedOverForGoodIff` as the exact condition.
- Prices are frozen once a bid is placed (src/modules/vehicles.service.ts:158-162), and `create` checks
  that no vehicle is in a lot (src/modules/lots.service.ts:54-64), both on rows read before the write
  and without a lock: `PricesInFlight.StaleUpdateRaisesFloorOverBid`,
  `LotsInFlight.TwoCreationsBreakTheCount`, with `PricesInFlight.FloorFixedIff` and
  `LotsInFlight.LotsAgreeIff` as the exact conditions.
- `verifyPayment` says it marks the order PAID (src/modules/orders.service.ts:178-180); it writes
  READY_FOR_PICKUP, and no modelled call writes PAID or PAYMENT_PENDING.
- `scan` says it also accepts an order id (src/modules/pickup.service.ts:37-38); it looks up the pass
  only.

## Model

| member | source | states |
|---|---|---|
| Server.AppModule.Handle | src/modules/orders.service.ts:49-316 | Whatever call the services answer from a valid state, the stores end as one step of the L1 machine says, the answer is the machine's, and the state is valid again |
| Server.AppModule.Run | src/modules/orders.service.ts:49-374 | Any sequence of calls served one after the other ends in the state of the L1 run of those events, with its answers |
| VehiclesModule.VehiclesService.Hold | src/modules/vehicles.service.ts:192-277 | Every attempt is counted; above the threshold nothing else happens; otherwise the conditional update or the diagnosed refusal, rows and answer as specified |
| VehiclesModule.VehiclesService.ReleaseExpiredHolds | src/modules/vehicles.service.ts:283-307 | Exactly the vehicles on hold past their deadline become LIVE without holder, and their number is returned |
| VehiclesModule.VehiclesService.UpdatePrices | src/modules/vehicles.service.ts:150-173 | Reserve and buy-now price change only for the owner bank or an admin, only to a nonzero value and never once a bid exists |
| BidsModule.BidsService.BidOnVehicle | src/modules/bids.service.ts:52-179 | Gate, guards in order, compare-and-set, ledger transaction and anti-snipe write leave vehicles, bids and counters as specified |
| BidsModule.BidsService.BidOnLot | src/modules/bids.service.ts:183-260 | The same for a lot, with the approval check of private lots and no gate |
| OrdersModule.OrdersService.StartCheckout | src/modules/orders.service.ts:49-174 | Entitlement, duplicate check and the transaction that inserts order and payment together or not at all |
| OrdersModule.OrdersService.VerifyPayment | src/modules/orders.service.ts:182-316 | Read, signature branch and settlement leave all five tables as specified |
| OrdersModule.OrdersService.Settle | src/modules/orders.service.ts:239-290 | The settlement transaction: all of payment, order, vehicle, bank and invoice, or none, with the error of the first write that fails |
| OrdersModule.OrdersService.ExpireOverdueOrders | src/modules/orders.service.ts:361-374 | Exactly the unpaid orders past their deadline become EXPIRED, and their number is returned |
| PickupModule.PickupService.Scan | src/modules/pickup.service.ts:40-105 | A scan by staff of the order's bank issues a new code for ten minutes; every refusal leaves the rows alone |
| PickupModule.PickupService.Complete | src/modules/pickup.service.ts:110-141 | Hand-over needs the own bank, an order in progress, an unexpired code and a match, refused in that order |
| PaymentsWebhook.PaymentsWebhookController.Webhook | src/modules/payments.webhook.controller.ts:34-67 | Signature, de-duplication, processing and the processed flag leave payments and events as specified |
| PaymentsWebhook.PaymentsWebhookController.Process | src/modules/payments.webhook.controller.ts:69-132 | Each event type updates at most the one matching payment; an exception leaves all payments alone |
| LotsModule.LotsService.Create | src/modules/lots.service.ts:50-95 | Eligibility by count, then lot row and vehicle rows together |
| LotsModule.LotsService.ApproveBidder | src/modules/lots.service.ts:121-141 | Approval by the owner bank or an admin, idempotent |
| Storage.RedisService.IncrWindow | src/common/redis.service.ts:87-93 | INCR and EXPIRE in one step: a live key counts on, a lapsed one starts at one, and the expiry is renewed either way |
| BidOutcomes.VehicleBidAcceptedIff | src/modules/bids.service.ts:52-98 | A vehicle bid succeeds if and only if the amount is positive, the user is within the rate, the vehicle exists, is AUCTION or HYBRID, LIVE and not past its end, the user is not staff of its bank, and the amount reaches the price plus the increment, or else the starting bid or reserve |
| BidOutcomes.AcceptedVehicleBidWrites | src/modules/bids.service.ts:100-141 | Price, bidder, count, end and extension counter of the row, the winning ledger row, the attempt, the answer; nothing else |
| BidOutcomes.RefusedVehicleBid | src/modules/bids.service.ts:54-98 | A refused vehicle bid writes the attempt only, and each error is given for its own guard |
| BidOutcomes.LotBidAcceptedIff | src/modules/bids.service.ts:183-211 | A lot bid succeeds if and only if the amount is positive, the lot exists, is OPEN or PRIVATE and not past its end, the user is approved if it is private and not staff of its bank, and the amount is high enough |
| BidOutcomes.AcceptedLotBidWrites | src/modules/bids.service.ts:213-239 | Price, bidder, count and end of the lot, the winning ledger row, the answer; nothing else |
| BidOutcomes.RefusedLotBid | src/modules/bids.service.ts:185-211 | A refused lot bid writes nothing, and each error is given for its own guard |
| BidOutcomes.NoOwnStaffBid | src/modules/bids.service.ts:84-87 | In no run is a bid on a vehicle or lot accepted from staff of the bank that sells it |
| BidOutcomes.ApprovedBidIsAccepted | src/modules/bids.service.ts:199-201 | After an approval by the lot's bank or an admin, the bidder's bid succeeds if and only if it meets the remaining guards |
| BidOutcomes.ApprovalWrites | src/modules/lots.service.ts:121-141 | An approval is given by the lot's bank or an admin alone, and adds one pair to the list |
| CheckoutOutcomes.CheckoutAcceptedIff | src/modules/orders.service.ts:49-92 | A checkout succeeds if and only if the vehicle exists, the user holds it in time at a set price, or is the high bidder of an auction past its end, has no order in progress on it, and gateway and unique values are there |
| CheckoutOutcomes.AcceptedCheckoutWrites | src/modules/orders.service.ts:94-149 | Every column of the new order and payment: base the buy-now price or the high bid, fee and GST the rounded shares at the call's own rates, the payment their sum; nothing else |
| CheckoutOutcomes.RefusedCheckout | src/modules/orders.service.ts:55-92 | A refused checkout writes nothing, and each error is given for its own guard |
| CheckoutOutcomes.NearestIff | src/common/money.ts:37-44 | A share is rounded to the nearest paisa, halves up, if and only if no negative fraction is cut off |
| CheckoutOutcomes.BilledNearest | src/common/money.ts:37-44 | With no negative price or rate, fee and GST lie within half a paisa of their exact shares |
| CheckoutOutcomes.OrdersCarryTheirRates | src/modules/orders.service.ts:94-149 | In every state of a run, each order checked out in it bills the price its listing had, the fee and GST of its checkout's rates, and its payment their sum |
| CheckoutOutcomes.OrdersCarryTheirRatesInFlight | src/modules/orders.service.ts:94-149 | The same in every state of every interleaving |
| PaymentOutcomes.PaymentSettlesIff | src/modules/orders.service.ts:182-290 | verifyPayment settles if and only if the signature is good, the order is the caller's, HELD, with an undecided payment, the rows are there and the unique values free |
| PaymentOutcomes.DuePayment | src/modules/orders.service.ts:207-290 | A due payment: a bad signature writes FAILED on that payment alone; a settlement writes payment CAPTURED, order READY_FOR_PICKUP, vehicle SOLD, bank counters and invoice, every column; otherwise nothing, with the error of the write that fails |
| PaymentOutcomes.NothingDue | src/modules/orders.service.ts:187-199 | Without a due payment nothing is written, and each answer is given for its own guard |
| PaymentOutcomes.SettledAnswer | src/modules/orders.service.ts:240-248 | After an answer Settled the order's one payment is CAPTURED under the given id at that moment, and every other payment row is unchanged |
| PaymentOutcomes.SettledMeansCapturedIff | src/modules/orders.service.ts:239-257 | Throughout a run the payment of every settled order is CAPTURED if and only if no delivery of a failure or refund takes one back; so it is in every run without webhooks |
| PaymentOutcomes.FailureEventAfterSettlement | src/modules/payments.webhook.controller.ts:94-102 | A settlement and then a failure event: the order is settled, its payment FAILED |
| PaymentsInFlight.CommitWrites | src/modules/orders.service.ts:207-290 | L2: what the commit of a payment in flight writes on the rows as they are then, every column |
| PaymentsInFlight.SettledMeansCapturedInFlightIff | src/modules/orders.service.ts:207-257 | L2: throughout an interleaving the payment of every settled order is CAPTURED if and only if no call commits a bad signature on an order settled since its read, and no delivery takes a payment back |
| PaymentsInFlight.CapturedForGoodIff | src/modules/orders.service.ts:207-211 | L2: a settled order's captured payment is CAPTURED in every continuation without webhooks if and only if no payment call that has read the order is in flight |
| PaymentsInFlight.StaleFailureAfterSettlement | src/modules/orders.service.ts:207-211 | L2: two calls read one order, one settles it, the other commits a bad signature: settled and invoiced, its payment FAILED |
| PaymentsInFlight.ColumnsStayUniqueInFlight | prisma/schema.prisma:573-600 | L2: the gateway order and payment ids stay unique in every interleaving |
| WebhookOutcomes.FirstDelivery | src/modules/payments.webhook.controller.ts:69-132 | The first delivery about a payment: a capture writes CAPTURED, id and time, a failure FAILED, a refund REFUNDED, time and amount, on that row alone, and the event is flagged; where the source throws only the unprocessed event is stored |
| WebhookOutcomes.UnrelatedDelivery | src/modules/payments.webhook.controller.ts:69-132 | A first delivery of another kind, or about no payment, only flags its event |
| WebhookOutcomes.IgnoredDelivery | src/modules/payments.webhook.controller.ts:42-51 | A forged delivery, or one whose key has been processed, changes nothing |
| VehicleOutcomes.HoldGrantedIff | src/modules/vehicles.service.ts:192-232 | A hold is granted if and only if the user is within the rate and the vehicle exists, is BUY_NOW or HYBRID, and is LIVE or on a hold past its deadline |
| VehicleOutcomes.GrantedHoldWrites | src/modules/vehicles.service.ts:233-239 | Status, holder, deadline and lock version of the row, and the attempt; nothing else |
| VehicleOutcomes.RefusedHold | src/modules/vehicles.service.ts:193-253 | A refused hold writes the attempt only, and each error is given for its own reason |
| VehicleOutcomes.SweepWrites | src/modules/vehicles.service.ts:283-307 | The sweep makes LIVE exactly the vehicles on a hold past its deadline and answers how many |
| VehicleOutcomes.UpdateWrites | src/modules/vehicles.service.ts:150-173 | A price update succeeds for the owner bank or an admin, and replaces a price only by a nonzero one and only without bids |
| PickupOutcomes.ScanWrites | src/modules/pickup.service.ts:40-73 | Scanning the pass of an order: refused to other banks and in other statuses, else a new code for 600000 milliseconds |
| PickupOutcomes.UnknownPass | src/modules/pickup.service.ts:41-51 | A pass of no order is refused |
| PickupOutcomes.CompletionAcceptedIff | src/modules/pickup.service.ts:110-126 | A completion succeeds if and only if staff of the order's bank give the code on an order in pickup, no later than its deadline |
| PickupOutcomes.AcceptedCompletionWrites | src/modules/pickup.service.ts:128-137 | Status, time and staff, and the code cleared; nothing else |
| PickupOutcomes.RefusedCompletion | src/modules/pickup.service.ts:111-126 | A refused completion writes nothing, and says why |
| PickupOutcomes.CodeLastsTenMinutes | src/modules/pickup.service.ts:64 | A scanned code hands the order over if and only if it is given within 600000 milliseconds |
| PickupOutcomes.ExpiryWrites | src/modules/orders.service.ts:361-374 | The order expiry makes EXPIRED exactly the unpaid orders past their deadline and answers how many |
| LotOutcomes.LotCreatedIff | src/modules/lots.service.ts:50-68 | A lot is created if and only if the ids are distinct and name vehicles of the caller's bank that are neither sold, cancelled nor in a lot, and id and number are free |
| LotOutcomes.CreatedLotWrites | src/modules/lots.service.ts:69-95 | The lot row with the requested number, reserve, privacy, status and end and no bids, and its vehicles pointing at it; nothing else |
| InFlightOutcomes.VehicleSwapWrites | src/modules/bids.service.ts:100-115 | L2: the conditional update takes effect on a LIVE row with the price that was read, and answers Conflict otherwise |
| InFlightOutcomes.LotSwapWrites | src/modules/bids.service.ts:213-221 | L2: the same for a lot |
| InFlightOutcomes.LedgerWrites | src/modules/bids.service.ts:117-128 | L2: one winning row is added and the others of its target lose the flag |
| InFlightOutcomes.VehicleExtensionWrites | src/modules/bids.service.ts:130-141 | L2: the extension goes by the end that was read and the clock of the write |
| InFlightOutcomes.LotExtensionWrites | src/modules/bids.service.ts:232-239 | L2: the same for a lot |
| InFlightOutcomes.SweepWritesById | src/modules/vehicles.service.ts:291-295 | L2: the sweep releases the vehicles it listed, whatever they have become |
| InFlightOutcomes.ScanWritesAnyway | src/modules/pickup.service.ts:66-73 | L2: a scan writes its code and status whatever status the order has by then |
| InFlightOutcomes.CompletionWritesAnyway | src/modules/pickup.service.ts:128-137 | L2: the same for a completion |
| InFlightOutcomes.UpdateWritesAnyway | src/modules/vehicles.service.ts:164-173 | L2: a price update writes by what it read of the bids |
| InFlightOutcomes.LotWritesAnyway | src/modules/lots.service.ts:69-95 | L2: a lot creation points its vehicles at the new lot whatever lot they are in by then |
| Money.SharesNearExact | src/common/money.ts:37-44 | Fee and GST each lie within half a paisa of their exact share with halves rounding up, GST never exceeds the fee nor the fee the base, and the total is the sum of the three |
| Money.TotalNearExact | src/common/money.ts:35-44 | The total lies within 1.5 paise of the exact rational total, for rates from 0 to 100 percent |
| Money.TotalStrictlyIncreasing | src/common/money.ts:37-44 | A higher base has a higher total, so no two bases share one |
| Money.TotalBetweenBaseAndTriple | src/common/money.ts:37-44 | The total lies between the base and three times the base |
| Money.SplittingBound | src/common/money.ts:37-44 | Selling in k parts instead of one changes the summed total by at most 3(k-1) paise |
| AttemptGate.CountIsLongestBurst | src/common/redis.service.ts:87-93 | The returned count is the length of the longest suffix of attempts whose consecutive gaps are shorter than the window |
| AttemptGate.QuietGapResets | src/common/redis.service.ts:87-93 | A gap of a whole window starts the count at one again |
| AttemptGate.BurstCoversWindow | src/common/redis.service.ts:83-93 | The count is at least the number of attempts in the last window |
| AttemptGate.CountIsWindowIff | src/common/redis.service.ts:83-93 | The count is the number of attempts in the last window if and only if the oldest attempt it counts lies in that window |
| AttemptGate.CountExceedsWindow | src/common/redis.service.ts:87-93 | Attempts at 0, 59 and 118 seconds: the count is three, with two in the last minute |
| GateRuns.CountIsBurstOfAttempts | src/modules/vehicles.service.ts:193-195 | In any L1 run the stored counter is the current burst of that user's calls |
| GateRuns.WindowCounted | src/common/redis.service.ts:87-93 | Within a window of an attempt the counter has counted every attempt since, and has not lapsed |
| GateRuns.GateHolds | src/modules/bids.service.ts:56-68 | In any window of sixty seconds at most the threshold number of one user's holds, or vehicle bids, pass the gate |
| GateRuns.RefusedWithinRateIff | src/modules/bids.service.ts:56-68 | A user with no more than the threshold in the last window is refused by the gate if and only if the last threshold + 1 attempts follow each other within the window and the first of them is a window old |
| GateRuns.SteadyAttemptsAreRefused | src/modules/vehicles.service.ts:193-214 | An attempt every 59 seconds, never more than two in a window, ends in a refusal for every threshold from two on |
| SalesTheory.FinishKeeps | src/modules/orders.service.ts:207-290 | The second half of a payment, on any rows that have evolved since its read, keeps the sale invariant and only evolves the rows |
| SalesTheory.SettleOnce | prisma/schema.prisma:616-621 | A settlement succeeds only on an order without invoice and leaves it with one |
| SalesRuns.SalesInvAlways | src/modules/orders.service.ts:94-149 | In every reachable state: one full-price payment per order, unique passes, no pending payment on a settled order, and an invoice exactly for the settled orders |
| SalesRuns.MoneyConservedOverRun | src/modules/orders.service.ts:239-290 | Over any stretch of any run and for any set of banks, one or all: the counters move by the count and base sum of the vehicle orders invoiced meanwhile, and what those orders' payments billed is what the banks recovered plus all fees plus all GST, exactly |
| Accounts.MoneyConserved | src/common/money.ts:37-44 | The same balance between any two states whose bank counters follow the invoices |
| UniqueColumns.ColumnsStayUnique | prisma/schema.prisma:573-600 | L1: the gateway order and payment ids of the payment table stay unique in every run |
| Lifecycle.NeverGoesBack | src/modules/pickup.service.ts:55-73 | Over any stretch of any run a status only moves HELD to EXPIRED, or HELD to READY_FOR_PICKUP to PICKUP_IN_PROGRESS to COLLECTED |
| Lifecycle.SettlesIffPayable | src/modules/orders.service.ts:190-199 | With rows present and identifiers free, a correctly signed payment settles an order if and only if the order is HELD and has a pending payment |
| Lifecycle.StrandedForever | src/modules/orders.service.ts:195-199 | An unpaid order without pending payment is never settled, whatever follows |
| Lifecycle.CapturedWebhookStrandsOrder | src/modules/payments.webhook.controller.ts:71-91 | A captured event before verifyPayment leaves the payment CAPTURED and the order unsettled in every continuation |
| LifecycleInFlight.NeverGoesBackInFlight | src/modules/orders.service.ts:239-257 | L2: over any stretch a status moves as at L1, except that an EXPIRED order can still be settled and a COLLECTED one go back to PICKUP_IN_PROGRESS |
| LifecycleInFlight.ExpiredLeftByStaleCommit | src/modules/orders.service.ts:183-257 | L2: an order leaves EXPIRED exactly when a payment commits that had read it, HELD, before the sweep that expired it |
| LifecycleInFlight.StrandedForeverInFlight | src/modules/orders.service.ts:195-199 | L2: an unsettled order with no payment in flight, and not HELD with one pending, is never settled |
| LifecycleInFlight.SettleableIffCanBePaid | src/modules/orders.service.ts:183-199 | L2: with rows present and identifiers free, some interleaving settles an unsettled order if and only if a payment for it is in flight, or it is HELD with one pending |
| LifecycleInFlight.CapturedWebhookStrandsUnlessRead | src/modules/payments.webhook.controller.ts:71-91 | L2: after a captured event some interleaving settles the order if and only if a payment call had already read it |
| PickupInFlight.HandedOverForGoodIff | src/modules/pickup.service.ts:55-73 | L2: a COLLECTED order stays so and is never handed over again, in every continuation, if and only if no scan or completion of it is in flight |
| PickupInFlight.StaleScanHandsOverTwice | src/modules/pickup.service.ts:43-73 | L2: a scan reads an order in pickup, the order is handed over, the scan writes: the order is in pickup again and handed over a second time |
| Handover.CollectedOrderHistory | src/modules/pickup.service.ts:113-141 | Every collected order was settled, then scanned and completed by staff of its own bank, with the code of the last scan and at most ten minutes after it |
| HandoverInFlight.CollectedOrderHistoryInFlight | src/modules/pickup.service.ts:110-141 | L2: every collected order was settled, then scanned, then checked, then handed over, by staff of its own bank; the check found the code of the last scan before it, at most ten minutes old, and is the read of the call that hands over |
| Auctions.LedgerAgreesInEveryState | src/modules/bids.service.ts:100-128 | For every vehicle and lot: bid count is the number of its bid rows, amounts climb by the increment, exactly the last row wins, and it is the current price and bidder |
| Auctions.PriceAndTimeBound | src/modules/bids.service.ts:89-141 | After n accepted bids the price is at least floor + (n-1) increments, and the end has moved by at most extension times 1 + (price - floor) / increment |
| Auctions.FloorFrozen | src/modules/vehicles.service.ts:158-162 | With every call atomic: once a bid stands its floor never changes |
| PricesInFlight.FloorFixedIff | src/modules/vehicles.service.ts:150-173 | L2: once a bid stands the floor is fixed in every continuation if and only if the listing has a starting bid, or no update in flight read it before its first bid and will write another reserve price |
| PricesInFlight.PricesFixedIff | src/modules/vehicles.service.ts:158-162 | L2: both prices are fixed if and only if no update in flight read the listing before its first bid and will write another of either |
| PricesInFlight.StaleUpdateRaisesFloorOverBid | src/modules/vehicles.service.ts:150-173 | L2: an update reads a listing without bids, a first bid is accepted, the update writes: the standing bid is below the reserve price |
| Auctions.ExtensionsWithinBids | src/modules/bids.service.ts:130-141 | The extension counter never exceeds the bid counter |
| Auctions.TimeToAnswer | src/modules/bids.service.ts:130-141 | After a bid accepted before the end then in force, the end stays at least min(window, extension) after that bid for the rest of the run |
| Auctions.EndNeverMovesEarlier | src/modules/bids.service.ts:232-239 | With an extension no shorter than the window the end never moves earlier |
| Auctions.ShortExtensionCutsTheEnd | src/modules/bids.service.ts:133-139 | An accepted bid moves the end earlier if and only if the time left is inside the window and longer than the extension |
| Auctions.FrozenOnceOver | src/modules/bids.service.ts:81-83 | Once the clock has passed the end the auction columns never change again |
| AuctionWinner.WinnerSettledByClock | src/modules/orders.service.ts:70-77 | An order checked out past the end names, at any later time, the bidder and the amount of the highest bid ever accepted |
| AuctionWinner.OneWinnerOnePrice | src/modules/orders.service.ts:70-77 | All orders of an auction vehicle checked out past its end have one buyer and one base price |
| AuctionWinner.TwoWinnersAtTheDeadline | src/modules/bids.service.ts:81-83 | At the very millisecond of the end, a checkout, an accepted bid and a second checkout give two buyers orders at different prices |
| AuctionWinner.OneWinnerIffClosed | src/modules/orders.service.ts:70-77 | After an accepted auction checkout, with another bidder who passes the gate: all later auction checkouts of the vehicle agree in buyer and base price if and only if the clock is past the end or the listing is not LIVE |
| Holds.HoldStands | src/modules/vehicles.service.ts:222-238 | From a successful hold on, the vehicle is sold, or still held until that deadline, or the deadline is past |
| Holds.HoldsAreDisjoint | src/modules/vehicles.service.ts:216-238 | The intervals from hold to deadline of two successful holds on one vehicle never meet |
| Holds.HoldsAreSpaced | src/modules/vehicles.service.ts:216-238 | The k-th hold comes more than (k-1) hold periods after the first |
| Holds.SoldForever | src/modules/orders.service.ts:259-270 | A sold vehicle stays sold and no hold on it succeeds |
| HoldsInFlight.SoldStaysIffUndisturbed | src/modules/vehicles.service.ts:285-295 | L2: once sold, a vehicle stays SOLD over a stretch if and only if no sweep whose snapshot contains it writes in that stretch |
| HoldsInFlight.HoldStandsIffUndisturbed | src/modules/vehicles.service.ts:222-238 | L2: until its deadline a granted hold stands, or has led to a sale, if and only if no sweep whose snapshot contains the vehicle writes over it |
| HoldsInFlight.HoldsDisjointIfUndisturbed | src/modules/vehicles.service.ts:216-238 | L2: two holds on one vehicle overlap only if a sweep wrote over the first |
| HoldsInFlight.SecondHoldIffDisturbed | src/modules/vehicles.service.ts:222-238 | L2: while the first hold runs, unsold, a second buyer who passes the gate gets one if and only if a sweep has written over the first |
| HoldsInFlight.SplitSweepGrantsTwoHolds | src/modules/vehicles.service.ts:285-295 | L2: the four moves, at one clock reading, that grant two buyers holds with the same deadline |
| HoldsInFlight.SoldForeverIffUnlisted | src/modules/vehicles.service.ts:285-295 | L2: a sold vehicle is SOLD in every continuation if and only if no sweep in flight lists it |
| HoldsInFlight.HoldStandsIffUnlisted | src/modules/vehicles.service.ts:222-238 | L2: a hold stands until its deadline, or leads to a sale, in every continuation if and only if no sweep in flight lists the vehicle |
| NoDoubleSale.SoldAtMostOnce | src/modules/orders.service.ts:239-290 | In a run whose successful holds leave no other buyer with a payable order, a buy-now vehicle is settled at most once |
| NoDoubleSale.SoldForGood | src/modules/orders.service.ts:259-270 | Once it is, it stays SOLD, without holder, without payable order and without a second settled order |
| NoDoubleSale.RivalMakesDoubleSale | src/modules/orders.service.ts:190-199 | From a hold granted over another buyer's payable order, a checkout and two payments sell the vehicle twice |
| NoDoubleSale.HoldIsSafeIffNoRival | src/modules/vehicles.service.ts:222-238 | A hold of a user without an open order can never lead to a double sale if and only if nobody else has a payable order on the vehicle when it is granted |
| BlockedHolder.HoldIsSafeIff | src/modules/orders.service.ts:79-92 | For every holder: a granted hold can never lead to a double sale if and only if nobody else has a payable order on the vehicle, or the holder has an open order of their own |
| RepeatCheckouts.SoldOnceIfCheckedOutClean | src/modules/orders.service.ts:79-92 | In a run whose checkouts of a vehicle find no order on it payable or settled it is sold at most once, whatever its sale type |
| RepeatCheckouts.CheckoutIsSafeIffUnclaimed | src/modules/orders.service.ts:49-92 | An accepted checkout, of any sale type, can never lead to a second sale if and only if no order on the vehicle can still be paid or has been |
| RepeatCheckouts.WinnerSoldAgainIff | src/modules/orders.service.ts:70-92 | Past the end, an accepted checkout of an auction's winner can never lead to a second sale if and only if no order on the vehicle has left READY_FOR_PICKUP |
| FreshRepeat.WinnerBuysTwice | src/modules/orders.service.ts:79-92 | From a database without orders: bid, checkout, payment, scan, checkout, payment by one winner; two settled orders, and the bank credited twice |
| CheckoutsInFlight.SoldOnceIfCheckedOutClean | src/modules/orders.service.ts:183-290 | L2: in every interleaving whose checkouts of a vehicle find nothing owed, no state shows two settled orders on it |
| CheckoutsInFlight.CheckoutIsSafeIffNothingOwed | src/modules/orders.service.ts:49-92 | L2: an accepted checkout, of any sale type, can never lead to a second sale if and only if no order on the vehicle can still be paid, by a new payment or one in flight, or has been |
| CheckoutsInFlight.OwnClaimsInFlight | src/modules/orders.service.ts:79-92 | L2: when every order on the vehicle is the buyer's, an accepted checkout finds nothing owed if and only if none of them has left READY_FOR_PICKUP and none that expired has a payment in flight |
| SalesInFlight.SoldOnceInFlight | src/modules/orders.service.ts:183-290 | L2: in every interleaving whose holds find nothing owed on the vehicle, no state shows two settled orders on it, and once there is one it has no holder and nothing on it can be paid |
| SalesInFlight.SettledOnceInFlight | src/modules/orders.service.ts:239-290 | L2: in such an interleaving no two moves settle orders on the vehicle |
| StaleSales.HoldIsSafeIffNothingOwed | src/modules/vehicles.service.ts:222-238 | L2: a hold of a user without an open order can never lead to two sales if and only if, when it is granted, no order on the vehicle can still be paid, by a new payment or one in flight, and none has been |
| HoldersInFlight.HoldIsSafeIff | src/modules/orders.service.ts:79-92 | L2, for every holder: a hold can never lead to two sales if and only if nothing on the vehicle is owed or paid, or the holder has a HELD order of their own on it that does not expire while the hold runs |
| DoubleSaleRuns.StaleCommitSellsTwice | src/modules/orders.service.ts:183-199 | L2: a payment is read, its order expires, another buyer holds, checks out and pays, and the first payment commits: two settled orders, though the hold met the L1 condition |
| FreshDoubleSale.FreshRunSellsTwice | src/modules/orders.service.ts:190-199 | L1: from a database without orders, two buyers hold in turn, check out and pay, and the vehicle is sold twice |
| FreshDoubleSale.FreshRunSellsTwiceInFlight | src/modules/orders.service.ts:239-257 | L2: the same from such a database with the expiry sweep right before the second hold, also when both checkouts are by one buyer |
| ExpireFirst.ExpiryBeforeHoldsSuffices | src/modules/orders.service.ts:361-369 | Running the order-expiry sweep right before each hold makes every hold clean and every vehicle sold at most once |
| SoldPrices.SoldPriceIsOrdersBase | src/modules/orders.service.ts:259-270 | A vehicle sold during the run was sold to the buyer and at the base price of one of its settled orders |
| SweepTransparency.SweepsAreTransparent | src/modules/vehicles.service.ts:283-295 | With the sweep atomic: in two runs that differ only in hold sweeps, anywhere and any number, the same calls succeed with the same answers, and the rows end the same, vehicles up to one sweep, if no bid of the run without sweeps depends on one |
| SweepTransparency.SweepsUnseenIffBlind | src/modules/vehicles.service.ts:283-295 | With the sweep atomic: sweeps can be inserted anywhere with the same calls succeeding if and only if, in the run without them, no bid meets a HYBRID listing with a lapsed hold and every guard but the status |
| SweepTransparency.BidSeesSweepIff | src/modules/bids.service.ts:75-98 | A sweep changes whether a bid succeeds exactly when the listing is HYBRID, its hold has lapsed and the bid meets the remaining guards; the bid is then refused before the sweep |
| SweepsInFlight.SweepsChangeNothingIff | src/modules/vehicles.service.ts:283-295 | L2: the moves of the sweep can be taken out of an interleaving with the same calls succeeding and the same rows, vehicles up to one sweep, if and only if no bid reads, or swaps on, a row that is LIVE only because of a sweep and meets every other guard, and no sweep writes over a row that is neither a lapsed hold nor released already |
| SweepsInFlight.WithoutIsPlainRun | src/modules/vehicles.service.ts:283-295 | L2: what that theorem compares with is the run of the other moves |
| SweepsInFlight.SplitSweepIsSeen | src/modules/vehicles.service.ts:285-295 | L2: without any bid, a sweep that writes over a fresh hold lets a second buyer in who is refused without it |
| Replay.ReplayIsNoOp | src/modules/payments.webhook.controller.ts:49-51 | A delivery of a processed event changes nothing and answers so |
| Replay.ReplaysAreHarmless | src/modules/payments.webhook.controller.ts:46-67 | Any run ends in the same database with its replayed deliveries removed |
| Replay.LaterDeliveriesAreReplays | src/modules/payments.webhook.controller.ts:46-62 | Every correctly signed delivery after the first successful one of its event id is such a replay |
| Replay.DroppedIffKeyTaken | src/modules/payments.webhook.controller.ts:46-51 | A correctly signed delivery is dropped if and only if an earlier one with its key went through, whatever the kinds of event |
| Replay.OtherEventHidesCapture | src/modules/payments.webhook.controller.ts:46-51 | Without event ids, any other event of a payment that went through makes the payment's capture a replay |
| Replay.FailedDeliveryCanBeRetried | src/modules/payments.webhook.controller.ts:63-66 | A delivery whose processing throws changes no row of a sale and leaves its event unprocessed |
| Replay.DeliveriesTouchPaymentsOnly | src/modules/payments.webhook.controller.ts:69-132 | No list of deliveries changes an order, invoice, bank, vehicle, lot or bid |
| LotMembership.LengthTestForcesDistinct | src/modules/lots.service.ts:54-64 | When `create` succeeds the requested ids are distinct, exist and are all eligible |
| LotMembership.LotsPartitionVehicles | src/modules/lots.service.ts:69-95 | With every call atomic: in every reachable state a lot's count is the number of vehicles pointing at it, and those share its bank |
| LotMembership.MembershipIsForGood | src/modules/lots.service.ts:54-61 | With every call atomic: a vehicle in a lot never leaves it or moves to another |
| LotsInFlight.LotsAgreeIff | src/modules/lots.service.ts:54-95 | L2: lots and vehicles agree in every state of an interleaving if and only if no creation writes over the lot of a vehicle that another has taken since its read |
| LotsInFlight.StaysInLotIff | src/modules/lots.service.ts:69-95 | L2: a vehicle stays in its lot over a stretch if and only if no creation that listed it writes in the stretch |
| LotsInFlight.TwoCreationsBreakTheCount | src/modules/lots.service.ts:54-95 | L2: two creations that read the same vehicles both succeed, and the first lot counts vehicles that are in the second |
| PrivateLots.BidderWasApproved | src/modules/bids.service.ts:188-201 | Every accepted bid on a private lot follows a successful approval of that bidder for that lot by its bank or an admin, unless it stood at the start |
| Interleaved.PaymentPhasesCompose | src/modules/orders.service.ts:182-290 | The read and the commit of a payment, back to back, are the L1 step |
| Interleaved.SweepPhasesCompose | src/modules/vehicles.service.ts:283-295 | The read and the write of a hold sweep, back to back, are the L1 step |
| Interleaved.ScanPhasesCompose | src/modules/pickup.service.ts:40-73 | The read and the write of a scan, back to back, are the L1 step |
| Interleaved.CompletePhasesCompose | src/modules/pickup.service.ts:110-141 | The same for a completion |
| Interleaved.UpdatePhasesCompose | src/modules/vehicles.service.ts:150-173 | The same for a price update |
| Interleaved.LotPhasesCompose | src/modules/lots.service.ts:50-95 | The same for a lot creation |
| SettlementOnce.SettledAtMostOnce | src/modules/orders.service.ts:239-290 | With any number of payments in flight, interleaved with any other calls, each order settles at most once |
| SettlementOnce.MoneyConservedInFlight | src/modules/orders.service.ts:272-287 | The same balance over any stretch of any interleaving |
| SettlementOnce.InvoicedIffSettled | prisma/schema.prisma:616-621 | In every state of every interleaving an order has an invoice exactly when it is settled |
| SettlementOnce.SplitSweepRevivesSoldVehicle | src/modules/vehicles.service.ts:285-295 | A payment between the read and the write of a hold sweep leaves a settled order on a LIVE vehicle |
| PriceIntegrity.BidCountIsCommitCount | src/modules/bids.service.ts:101-115 | Without the lock: the bid count is the number of commits |
| PriceIntegrity.AfterCommit | src/modules/bids.service.ts:101-115 | Without the lock: until the next commit the row holds the amount and bidder of the last one, afterwards a price at least an increment higher |
| PriceIntegrity.CommitsClimb | src/modules/bids.service.ts:213-221 | Without the lock: committed prices climb by at least the increment, so none recurs |
| PriceIntegrity.NoStaleCommit | src/modules/bids.service.ts:72-115 | Without the lock: between the read of a bid and its commit nothing else was committed on the target |
| LedgerNeedsLock.BidPhasesCompose | src/modules/bids.service.ts:52-179 | The phases of a vehicle bid, back to back, are the L1 step, accepted or refused |
| LedgerNeedsLock.LotBidPhasesCompose | src/modules/bids.service.ts:183-260 | The same for a lot |
| LedgerNeedsLock.CrossedBidsBreakTheLedger | src/modules/bids.service.ts:117-128 | Without the lock two bids can record in the wrong order: the lower one carries the winning flag while the higher one holds the price |
| LedgerOrder.LedgerAgreesIffInOrder | src/modules/bids.service.ts:100-128 | Without the lock: the ledger of a target agrees with its row if and only if its bids have been recorded in the order in which they were committed, all of them |
| LedgerInFlight.LedgerAgreesWhenRecordedInTurn | src/modules/bids.service.ts:100-128 | Without the lock: recording each committed bid before the next commit on its target is enough for that, whenever no bid is due |
| FreshStart.FreshDatabaseIsSound | prisma/schema.prisma:312-391 | A database without bids, lots, orders or payments satisfies every starting invariant used above |

## Left out

- Controllers, request validation, guards, realtime events, notifications, the activity log, fraud alerts, QR codes, invoices as documents: they never feed back into the modelled rows. The loop at the end of the hold sweep only notifies.
- Users, authentication, banks and admin pages, vehicle search, listing creation, the RFQ module: create-read-update code without an invariant to keep.
- Signatures, hashes and random draws: a correct signature is an input of the call, the one-time code matches exactly its own hash, and drawn identifiers, passes and codes are inputs.
- Widths: amounts, counters and clock readings are unbounded integers; the source uses 64-bit columns and JavaScript numbers.
- Percents are basis points; the source rounds a floating-point percent to them. Rupee conversion and formatting are not modelled.
- One clock reading serves a whole call at L1, and a whole phase at L2; the source reads the clock several times. Redis expiry is exact to the millisecond: a key lives while the reading is before its expiry.
- VehiclesModule.VehiclesService.UpdatePrices: covers the two prices of `update` only; edits of status or auction end by the bank write unconditionally and would break most theorems.
- LotsModule.LotsService.ApproveBidder: does not model the access request that the same transaction marks APPROVED; no modelled call reads it.
- A crash between the separate writes of one call (price, ledger, extension of a bid; event row and payment of a webhook) is not modelled.
- Two first deliveries of one webhook event at the same time: webhooks are atomic in both levels.
- Lock acquisition, retries and time-to-live: mutual exclusion is assumed in L1, and dropped in L2 for the calls that are cut.
- OrdersModule.OrdersService.VerifyPayment: requires the valid rows that every call keeps, because with two pending payments on one order the source takes whichever the database lists first.
- PickupModule.PickupService.Scan: requires the valid rows that every call keeps, because it looks an order up by its unique pass.
- PaymentsWebhook.PaymentsWebhookController.Webhook: requires the valid rows that every call keeps, because it looks a payment up by unique columns.
- Webhooks and bidder approvals stay whole calls at L2; the read of a webhook's payment and its update are not cut.
- AuctionWinner.OneWinnerOnePrice: speaks of checkouts strictly after the end; AuctionWinner.OneWinnerIffClosed has the exact condition.
- Lifecycle.NeverGoesBack: L1 only, because a payment or a scan in flight breaks it; the table of L2 counterparts above names the theorem that covers it.
- Lifecycle.StrandedForever: L1 only, because a payment in flight breaks it; the table of L2 counterparts above names the theorem that covers it.
- Lifecycle.CapturedWebhookStrandsOrder: L1 only, because a payment in flight breaks it; the table of L2 counterparts above names the theorem that covers it.
- Handover.CollectedOrderHistory: L1 only, because a scan or completion in flight breaks it; the table of L2 counterparts above names the theorem that covers it.
- PaymentOutcomes.SettledMeansCapturedIff: L1 only, because a payment in flight breaks it; the table of L2 counterparts above names the theorem that covers it.
- Auctions.FloorFrozen: L1 only, because a price update in flight breaks it; the table of L2 counterparts above names the theorem that covers it.
- Auctions.PriceAndTimeBound: L1 only in its price bound, because a price update in flight moves the floor; the table of L2 counterparts above names the theorem that covers it.
- LotMembership.LotsPartitionVehicles: L1 only, because a lot creation in flight breaks it; the table of L2 counterparts above names the theorem that covers it.
- LotMembership.MembershipIsForGood: L1 only, because a lot creation in flight breaks it; the table of L2 counterparts above names the theorem that covers it.
- SweepTransparency.SweepsAreTransparent: L1 only, because a hold sweep cut in two breaks it, and compares which calls succeed, not the kinds of error: a late checkout is Gone before a sweep and Forbidden after it; the table of L2 counterparts above names the theorem that covers it.
- SweepTransparency.SweepsUnseenIffBlind: L1 only, because a hold sweep cut in two breaks it, and compares which calls succeed, not the kinds of error; the table of L2 counterparts above names the theorem that covers it.
- SweepsInFlight.SweepsChangeNothingIff: compares which calls succeed, not the kinds of error, for the reason above; sweeps are in flight under call numbers of their own.
- RepeatCheckouts.CheckoutIsSafeIffUnclaimed: L1 only, because a payment in flight breaks it; the table of L2 counterparts above names the theorem that covers it. Both speak of payments whose values are free and whose rows exist.
- RepeatCheckouts.WinnerSoldAgainIff: L1 only, because a payment in flight breaks it, and of vehicles checked out only past their end; the table of L2 counterparts above names the theorem that covers it.
- BlockedHolder.HoldIsSafeIff: L1 only, because a payment in flight breaks it; speaks of states in which a payable order has the deadline of its hold, as runs with clean holds keep it, of a buy-now price that is set and of fresh identifiers that are free.
- NoDoubleSale.SoldAtMostOnce: L1 only, because a payment in flight breaks it; the table of L2 counterparts above names the theorem that covers it.
- NoDoubleSale.SoldForGood: L1 only, because a payment in flight breaks it; the table of L2 counterparts above names the theorem that covers it.
- ExpireFirst.ExpiryBeforeHoldsSuffices: L1 only, because a payment in flight breaks it; the table of L2 counterparts above names the theorem that covers it.
- Holds.HoldStands: L1 only, because a hold sweep cut in two breaks it; the table of L2 counterparts above names the theorem that covers it.
- Holds.HoldsAreDisjoint: L1 only, because a hold sweep cut in two breaks it; the table of L2 counterparts above names the theorem that covers it.
- Holds.HoldsAreSpaced: L1 only, because a hold sweep cut in two breaks it; the table of L2 counterparts above names the theorem that covers it.
- Holds.SoldForever: L1 only, because a hold sweep cut in two breaks it; the table of L2 counterparts above names the theorem that covers it.
- StaleSales.HoldIsSafeIffNothingOwed: speaks of a holder without an open order; HoldersInFlight.HoldIsSafeIff speaks of every holder.
- HoldersInFlight.HoldIsSafeIff: speaks of a buy-now price that is set, of fresh identifiers and a call number that are free, because otherwise the checkout that would complete the second sale is refused for another reason.
- NoDoubleSale.HoldIsSafeIffNoRival: L1 only, and speaks of a holder without an open order; BlockedHolder.HoldIsSafeIff speaks of every holder. Both need a buy-now price that is set and fresh identifiers that are free, because otherwise the checkout that would complete the second sale is refused for another reason.
- LotsModule.LotsService.Create: descriptive columns, access requests and the region part of the lot number are not modelled.
