# Glowora booking engine: a Dafny model

This project models the booking engine of the Glowora backend, a platform on which customers book services at spas and
salons, and proves what its protocols keep. The backend is a NestJS service over MySQL; its interesting behaviour lies
in concurrent transactions over shared rows, a greedy slot scheduler, two coupled state machines for bookings and
payments, a temporal table of staff schedules, and a retry protocol over RabbitMQ.

Database tables are sequences or maps of records, and a row's id is its index. Times are integer milliseconds since the
epoch, a time zone is a fixed offset in minutes, a local date is a day number, and a time of day is a minute count.
Money is exact (`real`). A step is one statement where the code relies on a row lock, and otherwise the reads of a handler
or one of its writes: the booking and payment handlers read, decide, and write later without a lock, so every interleaving
of their halves is allowed, and a result that needs a handler's read to hold still when it writes says so as a hypothesis
on the run. Handlers that change state are also written as classes whose methods, with nothing in between, are proved to do
what the steps say. Where a handler is one step all the same, "Left out" names it.

What an operation decides and writes is stated twice: as the function that the code computes, which the protocols run on,
and in terms of the rows, with their statuses, columns, times and amounts written out and none of those functions used.
The two are proved to say the same, and the methods promise both.

## Modules

| module | what it holds |
|---|---|
| `Common`, `Text`, `Sorting` | statuses and intervals; clock texts and numerals with their parsing; stable sorting, filtering and grouping |
| `Bookings` | booking tables and the six-hour overlap scan |
| `Reservation` | the reservation protocol: steps of any number of transactions with row locks at read-committed isolation |
| `RequestSafety`, `ReservationSafety`, `CouponSafety` | its invariants: one booking per request in every run; no double booking; coupon limits |
| `CouponGap` | exactly when a coupon may be created, with the continuation that overruns it otherwise |
| `CreationRows` | what creating a booking adds to the tables, or why it is refused: as the function, and row by row |
| `BookingService` | `create` and `createWalkIn` as they run alone, and the proof that each such execution is a run of the protocol |
| `Reassignment` | whom the store is offered for a service, and giving it to another staff member |
| `ReservationWitnesses` | runs that show each hypothesis of those results is needed |
| `TransactionRetry` | the bounded retry around the transaction |
| `Staffing` | schedules, call-ins, days off, and the batched staff picker against its one-by-one meaning |
| `Slots`, `SlotData`, `SlotSearch` | the slot search: its specification, the data it reads, and its loops |
| `SlotRows` | what a search answers in terms of the rows: which minutes are offered, with whom, and what is refused |
| `Bookable`, `BookableWitnesses` | exactly when the booking code accepts an offered slot, and a search for each case in which it does not |
| `LedgerRows` | what each handler asks of the rows and makes of them, from its read to its writes, and what an amount received decides |
| `Ledger`, `PaymentsService` | bookings and payments as a state machine of reads and writes, and the handlers that perform them |
| `LedgerSafety`, `Balance`, `SettlementSafety`, `DepositTiming` | money, the exact condition under which it adds up, settlement, deposit deadlines |
| `PaymentWitnesses` | what revives a booking, what overcharges it, and which deposited bookings can be completed: exact conditions and runs |
| `StaleWrites` | what a write on an old read does: which bookings a sweep can still cancel, lost deposits, unpaid completions, double payments |
| `ScheduleHistory` | versioned weekly schedules and the as-of lookup |
| `RetryQueue` | consumers, retries and dead letters |
| `ServicesImport`, `Pricing`, `Stores` | bulk import with fresh slugs; price decomposition; store verification |

## Main results

* **No double booking.** In every interleaving of any number of booking transactions, with several services each,
  chosen or automatically picked staff, waits, aborts and retries at any point, no staff member has two overlapping
  items in active bookings (`NeverDoubleBooked`). The hypotheses are stated step by step in `Admissible`: durations of
  at most 360 minutes, no revival of an inactive booking whose time has been taken, no unlocked reassignment to somebody
  who is taken by then, and neither while a transaction holds the staff rows concerned. On the tables these conditions are
  exact (`RevivalIsSafeExactly`, `ReassignIsSafeExactly`), and `ReservationWitnesses` has a run against each hypothesis,
  down to the exact minute of the scan margin.
* **The slot search loses nothing** (`OfferedExactly`), the loops compute it, and their answer is proved against the tables
  alone: which minutes are listed, in which order, with which staff member for each service, and which error comes when
  (`GetAvailableSlots`). What it offers is
  **accepted exactly when** nothing it cannot see is in the way (`OfferedSlotExactly`): work or a booking that began on
  another local day or off the minute, or, for automatic picking, nobody left to pick. On tidy data that is always
  (`OfferedSlotIsBookable`).
* **Coupon limits hold** in every interleaving in which no coupon is created under a code that a transaction has just
  looked up in vain (`CouponLimitsHold`). That condition is exact: creating a coupon is safe for every limit and every
  continuation precisely when no transaction stands in that gap (`CreationIsSafeExactly`).
* **Money is conserved** in every interleaving in which handlers write on reads that still hold and no payment settles
  beside another open one (`MoneyIsConserved`); beside another open one it is lost every time (`SettlingConservesExactly`,
  `TwoSettledOvercharge`). For all runs, with writes on old reads, `InStepExactly` gives the condition each write has to
  meet, as an equivalence.
* **Payments settle at most once** in every interleaving (`SettledAtMostOnce`), and by the amount received: over every run, a
  delivery that was told so had read enough, one that was refused had read less (`ToldByAmount`), and what is open at both
  its halves is settled exactly when the amount covers it (`DeliveryByAmount`). **Statuses are backed by money**, on however
  old reads, exactly when every completion finds a settled full payment (`BackedExactly`), which it does while its booking
  is still PAID (`StatusIsBackedByMoney`). **One payment of each type is live** exactly when every insertion finds none
  (`SingleExactly`).
* **A sweep cancels a booking that has left DEPOSIT_PENDING** in some continuation exactly when a confirmation that asks for
  a deposit is still in flight, for a booking with a customer or on a list (`SweptExactly`); otherwise never, however old
  the list the sweep works from (`SweepSparesSettled`).
* **No unpaid deposit reaches the appointment** when sweeps, read and written in whatever interleaving, are at most an hour
  apart (`NoUnpaidDepositAtStart`).
* **The as-of schedule lookup is the replay** of the edits made by then (`AsOfIsReplay`), at every moment since exactly when no
  row that the instant saw has been edited in place (`AsOfExactly`).
* **What is written is what was read for.** Of every booking and payment handler: it goes past its read exactly when the rows
  allow it (`ReadIs`), and its writes, whatever has happened in between, make of the rows what those it read call for
  (`HandlerWrites`, `TransferInserts`, `SweepWrites`).
* **No queue message is lost**, and without crashes its retries are bounded and its copies unique (`NoMessageIsLost`,
  `RetriesAreBounded`). In every run, a retried copy is back only after its wait (`NotBackBeforeItsTime`).

## Where the code falls short of the obvious claim

* The repository's README.md says booking transactions are `Serializable`; the code asks for `ReadCommitted`
  (src/features/booking/bookings/bookings.service.ts:324, src/features/booking/bookings/bookings.service.ts:505) and relies on row locks. The model follows the code.
* A booking that was cancelled, rejected or completed can become active again. `OnlyTheseWritesRevive` shows that of all
  booking and payment steps exactly three do this: the settlement of an open deposit, and the writes of a confirmation or
  of a cash deposit whose handler had read the booking before. `LateDepositRevives`, `StaleConfirmRevives` and
  `StaleCashRevives` show each, and `RevivalDoubleBooks` what follows.
* A paid deposit can be lost. When two confirmations of a pending booking have read it, one is written, and the deposit is
  paid, the other puts the booking back to DEPOSIT_PENDING, because the write of a confirmation looks at no status; the next
  sweep after the deadline cancels the booking and refunds nothing. `PaidDepositIsLost` shows this from any pending booking
  of a customer that a confirmation asks a deposit of, with nothing else of it going on, and that the deposit then stays
  settled for good; `HalfIsLost` from the empty tables. `StaleConfirmIsSwept` does the same to a booking in any state, a fully paid one included.
* Two handlers of one booking can each act on what they read before the other wrote. `StaleTransferOvercharges` charges any
  confirmed booking twice in this way, `TwoTransfersInsert` leaves it with two open full payments, and
  `StaleCompletionIsUnpaid` completes any paid booking whose money has been refunded in between.
* `SELECT ... FOR UPDATE` on a coupon code that does not exist yet locks nothing. Whenever a transaction stands between its
  two reads of a code, a coupon for one use created then is used twice in some continuation (`GapOverruns`).
* A deposited booking, with no payment of it open and no handler at work on it, can still be completed exactly when its
  deposit is less than its charge and no full payment of it has been settled (`CompletableExactly`). It gets stuck after a
  deposit of 100 percent (`WholeDepositStrands`), and after a deposit that settles behind a full payment
  (`DoublePaymentStrands`). With a full payment still open it can become PAID by that payment.
* A deposit and a full payment, or cash and a transfer, that are open together can both settle, and then overcharge the
  booking in every case (`TwoSettledOvercharge`, `CashBesideTransferOvercharges`, `TwoOpenPaymentsOvercharge`).
* Clearing a verified date that is stored as 1 January 1970 goes unnoticed, because `new Date(null)` is the epoch: the
  store stays active with data nobody approved. `StepKeepsVerification` shows that this is the only such step.
* Sending the stored values of a store again is meant to leave its approval alone. It does exactly when nothing is sent as
  null: a null counts as a change even where nothing is stored (`ResendingIsHarmlessExactly`).
* The update and the removal of a single schedule row leave no trace in the history. They change what the lookup says about
  an earlier instant exactly when the history has no answer for it and the row was there by then (`InPlaceExactly`).
* Reassigning a service asks neither for a shift nor for days off, unlike the list of staff that is offered for it
  (`ListedExactly`).
* `createWalkIn` subtracts the promotion twice (`WalkInSubtractsTwice`).
* The slot search and the booking code disagree exactly on work and bookings that began on another local day or off the
  minute, and on call-ins without times (`ScanAgreesExactly`, `CustomerAgreesExactly`, `WindowAgreesExactly`).

## Model

| member | source | states |
|---|---|---|
| Bookings.ScanSeesSixHours | src/features/booking/bookings/bookings.service.ts:1040-1068 | for any table, the windowed scan reports a clash exactly when a clashing active item began no more than six hours before the candidate |
| Bookings.WindowedScanIsFullScan | src/features/booking/bookings/bookings.service.ts:1047-1067 | when no duration exceeds 360 minutes the windowed scan reports a clash exactly when some active item of the staff member, anywhere in time, overlaps |
| Bookings.LongItemEscapesScan | src/features/booking/bookings/bookings.service.ts:29 | without that bound a clash can be missed |
| ReservationSafety.NeverDoubleBooked | src/features/booking/bookings/bookings.service.ts:122-326 | in every admissible interleaving of create and walk-in transactions, no two items of one staff member in active bookings overlap |
| RequestSafety.OneBookingPerRequest | src/prisma/transaction-retry.util.ts:8-29 | in every run, without any hypothesis, a request commits at most one booking, exactly when it ends in success, and is tried at most five times, whatever aborts and retries happen |
| RequestSafety.BookingsAreBackToBack | src/features/booking/bookings/bookings.service.ts:223-241 | in every run the items of every committed booking follow each other without a gap and fill exactly the booking's own interval, also after reassignments |
| ReservationSafety.StepIsSafe | src/features/booking/bookings/bookings.service.ts:363-507 | every statement, commit or abort, and every status write or reassignment, that meets the hypotheses in `Admissible` keeps the invariant that ties committed items, uncommitted plans and held locks together |
| ReservationSafety.MoveIsSafe | src/features/booking/bookings/bookings.service.ts:1036-1038 | what one statement makes of a transaction is safe, given the lock it asks for |
| ReservationSafety.CommitKeepsBookingsSafe | src/features/booking/bookings/bookings.service.ts:291-315 | publishing a booking whose items are reserved and back to back keeps the tables free of clashes |
| ReservationSafety.ReassignKeepsBookingsSafe | src/features/booking/bookings/bookings.service.ts:1137-1147 | a reassignment whose check still holds when it writes keeps the tables free of clashes |
| ReservationSafety.RevivalIsSafeExactly | src/features/booking/payments/payments.service.ts:467-471 | a status write that makes an inactive booking active again keeps the tables free of clashes exactly when no active item is in the way of its items |
| ReservationSafety.ReassignIsSafeExactly | src/features/booking/bookings/bookings.service.ts:1137-1147 | a reassignment of an active booking's item keeps the tables free of clashes exactly when nobody else's item is in the way of the moved one |
| CouponSafety.CouponLimitsHold | src/features/booking/coupons/coupons.service.ts:245-321 | after every interleaving in which no coupon is created under a code an in-flight transaction has just tried to lock: the counter equals the usage rows, never passes the usage limit, and no user passes the per-user limit |
| CouponSafety.StepKeepsCoupons | src/features/booking/bookings/bookings.service.ts:276-320 | every step, except the creation of a coupon under such a code, keeps the counter exact, and a transaction past its check holds the coupon row until it ends |
| BookingService.BookingsService.PickFree | src/features/booking/bookings/bookings.service.ts:197-206 | the candidate loop finds the first candidate without an overlapping item |
| BookingService.BookingsService.ChooseStaff | src/features/booking/bookings/bookings.service.ts:154-209 | the chosen staff member when free, else the first free candidate, with the error of the first check that fails |
| BookingService.BookingsService.PlanItems | src/features/booking/bookings/bookings.service.ts:124-239 | one item per service, each starting where the previous one ends, or the first error |
| BookingService.BookingsService.Create | src/features/booking/bookings/bookings.service.ts:94-327 | refused with an error exactly when, check by check, the rows call for it, and then nothing changes; else exactly one booking is added, with the customer, start, sum of durations and back-to-back items of the request, CONFIRMED for a walk-in or an auto-confirming store and PENDING otherwise, and with a coupon its counter is one higher and one usage row names it, the customer and the booking |
| CreationRows.RejectionIs | src/features/booking/bookings/bookings.service.ts:94-289 | for any tables, the request is refused with an error exactly when that check is the first to fail on the rows |
| CreationRows.AdditionIs | src/features/booking/bookings/bookings.service.ts:291-320 | an accepted request adds exactly the row, items, counter and usage that its request and the lookups call for |
| BookingService.CreationIsARun | src/features/booking/bookings/bookings.service.ts:122-327 | whatever create does alone is a run of the protocol: same tables at the end, no lock left, the request done or failed |
| Reassignment.BookingItemService.FindAvailableStaffForSlot | src/features/booking/bookings/bookings.service.ts:1070-1110 | lists, in table order, exactly the active staff whose weekly schedule of that date covers the item, with no day off in the way and no other item than this one |
| Reassignment.BookingItemService.UpdateBookingItemStaff | src/features/booking/bookings/bookings.service.ts:1112-1147 | succeeds exactly for an item of an unfinished booking and an active staff member with no other item in the way, and then changes the staff of that item and nothing else; each error exactly when its check is the first to fail |
| Reassignment.CheckIs | src/features/booking/bookings/bookings.service.ts:1123-1138 | on any tables, the check of a reassignment to an active staff member passes exactly when the booking is not completed, cancelled or rejected and no other item is in the way |
| Reassignment.WriteIs | src/features/booking/bookings/bookings.service.ts:1140-1147 | its write, whatever has happened since, changes the staff of that item and nothing else |
| Reassignment.ListedExactly | src/features/booking/bookings/bookings.service.ts:1070-1138 | of an unfinished booking: whoever is listed passes the check of a reassignment; of those who pass it exactly the ones off shift or off duty then are not listed |
| ReservationWitnesses.RevivalDoubleBooks | src/features/booking/payments/payments.service.ts:467-471 | a run, admissible up to its last write, in which the status write that a late deposit settlement makes double-books |
| ReservationWitnesses.RacingReassignmentsDoubleBook | src/features/booking/bookings/bookings.service.ts:1137-1147 | a run, admissible up to its last write, in which two unlocked reassignments double-book |
| ReservationWitnesses.LongServiceDoubleBooks | src/features/booking/bookings/bookings.service.ts:29 | a run whose only departure is a service of 361 minutes double-books |
| ReservationWitnesses.RevivalRacesACommit | src/features/booking/payments/payments.service.ts:467-471 | a run, admissible up to a revival onto time that is still vacant, in which the next step, a commit that had planned that time, double-books |
| ReservationWitnesses.ReassignmentRacesACommit | src/features/booking/bookings/bookings.service.ts:1137-1147 | the same for an unlocked reassignment |
| CouponGap.CreationIsSafeExactly | src/features/booking/coupons/coupons.service.ts:32-82 | after any run in which coupons were created safely: creating one is safe for every limit and every continuation exactly when no transaction has just looked its code up in vain |
| CouponGap.GapOverruns | src/features/booking/coupons/coupons.service.ts:259-277 | from any state with a transaction in that gap, a coupon for one use created then is used twice by some continuation of ordinary statements |
| CouponGap.CouponCreatedInTheGap | src/features/booking/coupons/coupons.service.ts:259-277 | a run from the empty tables that meets every double-booking hypothesis and in which a coupon for one use is used twice |
| TransactionRetry.RetryTransaction | src/prisma/transaction-retry.util.ts:8-29 | returns the first success or final error, or the last of five calls when all failed with P2034 or P2028, and calls no further |
| Staffing.AvailableStaffMeaning | src/features/booking/bookings/bookings.service.ts:905-1004 | the picker's answer holds, once each, exactly the active staff whom the weekly schedule of that date covers, or without one an accepted call-in with both times, with no day off in the way and no active item near enough to overlap; fewer items near the interval first, ties in table order |
| Staffing.FetchBatch | src/features/booking/bookings/bookings.service.ts:939-968 | the maps filled from four batch queries hold for each staff member what its own queries would return |
| Staffing.Examine | src/features/booking/bookings/bookings.service.ts:972-999 | the tests on the batch decide that question for one staff member, and count the active items that begin from six hours before the interval to its end |
| Staffing.PickAvailableStaff | src/features/booking/bookings/bookings.service.ts:909-1004 | the batched picker lists, once each and in that order, exactly the staff whose rows allow the interval |
| Sorting.SortIsPermutation | src/features/booking/bookings/bookings.service.ts:1002 | sorting by workload keeps every candidate, as often as it was there |
| Sorting.SortIsAscending | src/features/booking/slots/slots.service.ts:239-248 | sorted staff come in non-decreasing workload |
| Sorting.SortIsStable | src/features/booking/bookings/bookings.service.ts:1002 | of two with the same workload, the one that stood first comes first |
| Sorting.GroupBy | src/features/booking/bookings/bookings.service.ts:958-968 | grouping rows into a map keeps, per key, exactly its rows in order |
| Slots.NoIntraOverlap | src/features/booking/slots/slots.service.ts:288-290 | the check against earlier services of the same slot never rejects anyone, because services follow each other |
| Slots.FirstFitIsExact | src/features/booking/slots/slots.service.ts:272-308 | first fit finds someone exactly when a qualified staff member is free, whatever was assigned before |
| Slots.GreedyFindsAssignments | src/features/booking/slots/slots.service.ts:264-315 | the greedy assignment exists exactly when some valid assignment exists, and is valid |
| Slots.OfferedExactly | src/features/booking/slots/slots.service.ts:264-328 | a start time is offered exactly when it lies on the interval grid within opening hours and not before now, a valid assignment exists, and the customer is free |
| Slots.OfferedSlotsAreValid | src/features/booking/slots/slots.service.ts:264-328 | every slot handed out carries a valid assignment for its start time |
| Slots.AssignedIsPreferred | src/features/booking/slots/slots.service.ts:239-308 | each service of a slot goes to the least busy of the qualified staff who can serve it, ties in table order |
| Text.ParseFormat | src/features/booking/slots/slots.service.ts:452-469 | parsing a clock text undoes formatting, for every minute count |
| Text.ClockText | src/features/booking/slots/slots.service.ts:466-469 | a minute of the day is written as two digits, a colon and two digits, hours first |
| SlotSearch.StaffInfos | src/features/booking/slots/slots.service.ts:145-233 | the map built from batch queries gives each staff member the window and busy times of its own rows |
| SlotSearch.AssignSlot | src/features/booking/slots/slots.service.ts:267-314 | the loops over services and staff, with their map of windows already taken, compute the greedy assignment |
| SlotSearch.ListSlots | src/features/booking/slots/slots.service.ts:264-315 | the loop over start times ends and lists the slots from opening to closing |
| SlotSearch.DropCustomerConflicts | src/features/booking/slots/slots.service.ts:317-328 | the last filter keeps the slots at which the customer is free |
| SlotSearch.GetAvailableSlots | src/features/booking/slots/slots.service.ts:37-341 | refused for the first reason that applies, empty on a closed day; else it lists, from opening, exactly the minutes on the grid that end by closing, have not passed today, leave the customer free, and at which every service has a qualified staff member whose schedule, call-in, day-off and item rows allow it; each with the least busy of those for each service |
| SlotRows.AnswerIs | src/features/booking/slots/slots.service.ts:131-341 | for any search that is not refused, what the search function computes is that answer, row by row |
| SlotRows.RefusalIs | src/features/booking/slots/slots.service.ts:37-123 | the error it computes is the first that the rows call for |
| Bookable.ScanAgreesExactly | src/features/booking/bookings/bookings.service.ts:1047-1067 | where the day's busy windows are clear, the six-hour scan reports a clash exactly when work that began on another local day or off the minute is in the way |
| Bookable.WindowAgreesExactly | src/features/booking/bookings/bookings.service.ts:985-987 | a staff member whom the search finds working has no working window for the picker exactly without a schedule and on a call-in that lacks a time |
| Bookable.AvailableExactly | src/features/booking/bookings/bookings.service.ts:970-1000 | staff who fit by what the search knows pass the picker's tests exactly when there is neither unseen work nor such a call-in |
| Bookable.AssignedExactly | src/features/booking/bookings/bookings.service.ts:909-1004 | the staff member a slot assigns has an overlapping item exactly when there is unseen work, and is in the picker's list exactly when there is neither that nor an open-ended call-in |
| Bookable.CustomerAgreesExactly | src/features/booking/bookings/bookings.service.ts:243-261 | a slot that survives the customer filter meets the customer-conflict check exactly on bookings that began on another local day or off the minute |
| Bookable.OfferedSlotExactly | src/features/booking/bookings/bookings.service.ts:94-327 | an offered slot later than now, replayed on the same tables, is accepted by create exactly when every service can be served, no unseen booking of the customer is in the way, and the coupon, if any, is usable |
| Bookable.OfferedSlotIsBookable | src/features/booking/slots/slots.service.ts:184-328 | on data without work or bookings across midnight or off the minute and with call-ins that state their times, every offered slot later than now is accepted, with its assigned staff or automatic picking for any of its services and any usable coupon |
| BookableWitnesses.WorkAcrossMidnightIsOverlooked | src/features/booking/slots/slots.service.ts:158-165 | a slot is offered although an item of the evening before runs into it |
| BookableWitnesses.OpenEndedCallInIsRefused | src/features/booking/slots/slots.service.ts:213-216 | a slot is offered to a call-in without times whom the staff picker never lists |
| BookableWitnesses.OffMinuteWorkIsMisread | src/features/booking/slots/slots.service.ts:462-465 | a slot is offered although work that started half a minute late runs into it |
| LedgerSafety.MoneyIsConserved | src/features/booking/payments/payments.service.ts:445-489 | in every interleaving in which each handler writes on a read that still holds and no payment settles beside another open one, settled payments add up to nothing, the deposit or the full charge, as the booking's status says |
| LedgerSafety.TransferConserves | src/features/booking/payments/payments.service.ts:57-123 | the amount of a new transfer is what the booking still owes, so its later settlement keeps the sum |
| LedgerSafety.CashConserves | src/features/booking/payments/payments.service.ts:265-363 | a cash payment of the computed amount brings the booking to the sum its new status says |
| LedgerSafety.SettleConserves | src/features/booking/payments/payments.service.ts:452-488 | settling a transfer keeps the sum and the status in step, also on a cancelled booking |
| LedgerSafety.CancelRefundsEverything | src/features/booking/bookings/bookings.service.ts:838-852 | the write of a cancellation, on any read, leaves nothing of the booking settled and no other booking's money touched |
| LedgerSafety.DepositRoundsUp | src/features/booking/bookings/bookings.service.ts:702-703 | the deposit is the least whole amount not below the store's percentage of the charge |
| Balance.StepBalancesExactly | src/features/booking/payments/payments.service.ts:322-360 | on any read, a step keeps sums and statuses in step exactly when a confirmation finds nothing paid, a completion the full charge paid, and a settlement, in cash or by transfer, is for the rest that its new status asks for |
| Balance.InStepExactly | src/features/booking/payments/payments.service.ts:445-489 | for every run, settled payments add up to what the statuses say at every point exactly when every step meets that condition |
| SettlementSafety.SettledAtMostOnce | src/features/booking/payments/payments.service.ts:168-202 | with any duplicate and interleaved deliveries, a transfer is paid exactly when one delivery was told so, and never a second |
| LedgerRows.ToldByAmount | src/features/booking/payments/payments.service.ts:168-202 | over every run: a delivery told that it settled a payment had read at least its amount, one told that it was too little had read less, and neither had read anything else |
| LedgerRows.DeliveryByAmount | src/features/booking/payments/payments.service.ts:168-202 | over every run: a delivery has something to write exactly when its payment was open at its read; if it is still open at the write it is settled when the amount covers it and fails otherwise, and if not nothing changes |
| LedgerRows.ChargeIs | src/features/booking/payments/payments.service.ts:57-103 | what is owed, status by status: the stored deposit, the whole charge, or the charge less the deposit, when no such payment is settled and something is left; and each refusal |
| LedgerRows.ReadIs | src/features/booking/bookings/bookings.service.ts:682-836 | a confirmation, rejection, completion, cancellation or payment request goes past its read exactly when the booking has the status, customer, time and payments it asks for |
| LedgerRows.HandlerWrites | src/features/booking/bookings/bookings.service.ts:699-852 | whatever happens after its read, a handler writes what the rows it read call for: the deposit and deadline, the status, the refunds, the cash payment, and older transfers of the kind give way |
| LedgerRows.TransferInserts | src/features/booking/payments/payments.service.ts:112-123 | and a transfer is then inserted, open, for what was owed at the read |
| LedgerRows.SweepWrites | src/features/booking/bookings/booking-reminder.consumer.ts:151-172 | whatever happens after its read, a sweep writes exactly the bookings whose deposit had lapsed by then and that have a customer, and cancels those still in DEPOSIT_PENDING |
| LedgerRows.DepositIs | src/features/booking/bookings/bookings.service.ts:702-703 | the deposit is whole, no less than the percentage of the charge, and less than one above it |
| LedgerRows.DeadlineIs | src/features/booking/bookings/bookings.service.ts:754-761 | a deadline exists when more than two hours are left, and is a day, six hours, two or one after confirmation as more than a week, a day, six hours or two are left |
| LedgerRows.BookedIs | src/features/booking/bookings/bookings.service.ts:291-309 | a new booking has the prices and time given and no deposit, and starts CONFIRMED for a walk-in or an auto-confirming store and PENDING otherwise |
| SettlementSafety.LeavesOpenOnce | src/features/booking/payments/payments.service.ts:456-465 | a payment that has left PENDING never returns to it; only a refund of a paid one can follow |
| SettlementSafety.OnlyTheWinnerMovesTheBooking | src/features/booking/payments/payments.service.ts:445-489 | a delivery changes a booking only when it settles its payment, and then only that booking |
| SettlementSafety.PutBackExactly | src/features/booking/bookings/bookings.service.ts:699-720 | of all steps, exactly the write of a confirmation that asks for a deposit puts a booking that has left PENDING and DEPOSIT_PENDING back there |
| SettlementSafety.SweepSparesSettled | src/features/booking/bookings/booking-reminder.consumer.ts:151-172 | a booking that has left DEPOSIT_PENDING is left alone by every sweep, however old the list the sweep works from, while no such confirmation is written over it |
| StaleWrites.SweptExactly | src/features/booking/bookings/booking-reminder.consumer.ts:151-172 | from any state, a booking that has left DEPOSIT_PENDING is cancelled by a sweep in some continuation exactly when such a confirmation is in flight and the booking has a customer or is on a sweep's list |
| StaleWrites.StaleConfirmIsSwept | src/features/booking/bookings/bookings.service.ts:716-720 | in any such state the write of that confirmation, the read of a sweep after its deadline and the sweep's write cancel the booking and leave every payment as it is |
| StaleWrites.PaidDepositIsLost | src/features/booking/bookings/bookings.service.ts:682-720 | from any pending booking with a customer that a confirmation asks a deposit of, with no payment open, no deposit settled and no handler at work: a run to DEPOSIT_PAID and on to CANCELLED, after which the deposit stays settled in every continuation |
| StaleWrites.HalfIsLost | src/features/booking/bookings/booking-reminder.consumer.ts:151-172 | the same from the empty tables |
| StaleWrites.StaleCompletionIsUnpaid | src/features/booking/bookings/bookings.service.ts:790-801 | whatever the state, a paid booking cancelled between the read and the write of its completion counts as completed with nothing paid |
| StaleWrites.TwoTransfersInsert | src/features/booking/payments/payments.service.ts:106-123 | from any confirmed booking with something to charge, two requests that both let older payments give way before either inserts leave two open full payments |
| SettlementSafety.SweepOnlyCancelsPending | src/features/booking/bookings/booking-reminder.consumer.ts:162-172 | the write of a sweep changes at most its booking, and only from DEPOSIT_PENDING to CANCELLED |
| SettlementSafety.OnePaymentPerKind | src/features/booking/payments/payments.service.ts:373-389 | without cash, and when each handler writes on a read that still holds, each booking has at most one open or settled payment of each type, also after cancellation and revival |
| SettlementSafety.StepIsSingleExactly | src/features/booking/payments/payments.service.ts:112-123 | on any read, a step keeps one live payment of each type exactly when the payment it inserts, open or in cash, finds no live one of its booking and type |
| SettlementSafety.SingleExactly | src/features/booking/payments/payments.service.ts:106-123 | every run, with or without cash, keeps that at every point exactly when every insertion does |
| SettlementSafety.StatusIsBackedByMoney | src/features/booking/payments/payments.service.ts:322-360 | in every interleaving, on however old reads, in which a completion finds its booking still PAID: a paid or completed booking has a settled full payment, a deposited one a settled deposit |
| SettlementSafety.BackedExactly | src/features/booking/bookings/bookings.service.ts:790-801 | for every run, on however old reads, statuses are backed by settled payments at every point exactly when every completion finds a settled full payment |
| DepositTiming.DeadlineLeavesAnHour | src/features/booking/bookings/bookings.service.ts:754-761 | a deadline exists exactly when the start is more than two hours away, at least an hour after confirmation and more than an hour before the start |
| DepositTiming.NoUnpaidDepositAtStart | src/features/booking/bookings/booking-reminder.consumer.ts:151-172 | when a sweep read at most an hour ago has done all its writes, interleaved with anything, whoever still owes a deposit starts later than now; customers are kept and a confirmation is written by the deadline it sets |
| DepositTiming.DeadlinesSinceSweep | src/features/booking/bookings/booking-reminder.consumer.ts:153-162 | after the read of a sweep, a deadline before it belongs only to bookings the sweep has still to write |
| DepositTiming.ForgottenCustomerIsNotSwept | src/features/booking/bookings/booking-reminder.consumer.ts:162-163 | a run in which the customer is deleted, the sweep passes the booking over, and it starts unpaid |
| DepositTiming.LateWriteIsTooLate | src/features/booking/bookings/bookings.service.ts:699-720 | a run in which a confirmation written only at the start leaves its booking unpaid then |
| DepositTiming.AnHourAndAMillisecondIsTooLong | src/features/booking/bookings/booking-reminder.consumer.ts:153-155 | a run in which one millisecond more lets a booking reach its start unpaid |
| PaymentWitnesses.OnlyTheseWritesRevive | src/features/booking/payments/payments.service.ts:467-471 | of all steps, exactly the settlement of an open deposit and the unguarded writes of a confirmation or cash deposit make an inactive booking active |
| PaymentWitnesses.CurrentWritesDoNotRevive | src/features/booking/bookings/bookings.service.ts:682-720 | while handlers write on reads that still hold, late deposits are the only way |
| PaymentWitnesses.StaleConfirmRevives | src/features/booking/bookings/bookings.service.ts:682-720 | whatever the state, a booking cancelled between the read and the write of its confirmation is confirmed after all |
| PaymentWitnesses.StaleCashRevives | src/features/booking/payments/payments.service.ts:335-342 | whatever the state, a booking cancelled while its deposit is taken in cash counts as deposited after all |
| PaymentWitnesses.OpenDepositRevives | src/features/booking/payments/payments.service.ts:467-471 | any open deposit, whatever has become of its booking, is one delivery away from reviving it |
| PaymentWitnesses.LateDepositRevives | src/features/booking/payments/payments.service.ts:467-471 | a run from the empty tables: a deposit is asked for, the booking cancelled, the deposit settled, the booking active |
| PaymentWitnesses.SettlingConservesExactly | src/features/booking/payments/payments.service.ts:452-488 | settling a payment of a payable booking keeps its money in step exactly when no other payment of it is open |
| PaymentWitnesses.CashConservesExactly | src/features/booking/payments/payments.service.ts:314-363 | the same for cash |
| PaymentWitnesses.TwoSettledOvercharge | src/features/booking/payments/payments.service.ts:106-110 | any two open payments of a payable booking, settled in either order, overcharge it |
| PaymentWitnesses.CashBesideTransferOvercharges | src/features/booking/payments/payments.service.ts:322-360 | cash taken beside any open transfer that then settles overcharges the booking |
| PaymentWitnesses.StaleTransferOvercharges | src/features/booking/payments/payments.service.ts:90-123 | in any state, cash settled between the read and the writes of a transfer leads to a second full charge, settled alone |
| PaymentWitnesses.TwoOpenPaymentsOvercharge | src/features/booking/payments/payments.service.ts:106-110 | a run in which a deposit and a full payment both settle and the paid booking is written back to DEPOSIT_PAID |
| PaymentWitnesses.WholeDeposit | src/features/booking/bookings/bookings.service.ts:702-703 | a deposit of a hundred percent is at least the whole charge |
| PaymentWitnesses.CompletableExactly | src/features/booking/payments/payments.service.ts:90-102 | a quietly deposited booking can be completed by some continuation exactly when its deposit is less than its charge and no full payment of it is settled |
| PaymentWitnesses.WholeDepositStrands | src/features/booking/bookings/bookings.service.ts:702-704 | a run from the empty tables to a booking that no continuation completes: a deposit of a hundred percent, paid |
| PaymentWitnesses.DoublePaymentStrands | src/features/booking/payments/payments.service.ts:90-93 | another such run, with a deposit of half the charge settled behind a full payment |
| PaymentsService.PaymentsService.FailOlder | src/features/booking/payments/payments.service.ts:106-110 | exactly the open payments of the booking and type are failed |
| PaymentsService.PaymentsService.RefundPaid | src/features/booking/bookings/bookings.service.ts:848-851 | exactly the settled payments of the booking are refunded |
| PaymentsService.PaymentsService.ChargeAmount | src/features/booking/payments/payments.service.ts:265-305 | the branches on status and earlier payments compute what the rows say is owed, or why nothing is |
| PaymentsService.PaymentsService.CreateSepayPayment | src/features/booking/payments/payments.service.ts:42-147 | refused exactly when the booking is not the customer's or, with that error, nothing is owed, and then nothing changes; else open payments of the kind have failed and a new open one has the amount owed; statuses stay backed |
| PaymentsService.PaymentsService.RecordStorePayment | src/features/booking/payments/payments.service.ts:236-413 | the same at the counter, where cash is settled at once and moves the booking to DEPOSIT_PAID or PAID |
| PaymentsService.PaymentsService.UpdatePaymentSuccess | src/features/booking/payments/payments.service.ts:445-489 | exactly when the payment is still open it is settled and its booking moves to DEPOSIT_PAID, or to PAID from the three payable statuses |
| PaymentsService.PaymentsService.FinishDelivery | src/features/booking/payments/payments.service.ts:180-202 | the guarded write of a delivery: ignored unless the payment is open, settled when enough, failed otherwise |
| PaymentsService.PaymentsService.HandleSepayWebhook | src/features/booking/payments/payments.service.ts:149-234 | with nothing in between: an open payment is settled, with its booking, exactly when the amount received is at least its own, and fails otherwise; any other is ignored |
| PaymentsService.PaymentsService.ConfirmBooking | src/features/booking/bookings/bookings.service.ts:682-720 | only from PENDING: DEPOSIT_PENDING with the least whole deposit and the deadline of its tier when the store asks for a deposit, can receive it and more than two hours are left, else CONFIRMED; nothing else changes; statuses stay backed |
| PaymentsService.PaymentsService.RejectBooking | src/features/booking/bookings/bookings.service.ts:763-774 | exactly from PENDING, to REJECTED and nothing else; statuses stay backed |
| PaymentsService.PaymentsService.CompleteBooking | src/features/booking/bookings/bookings.service.ts:790-801 | exactly from PAID, to COMPLETED and nothing else; statuses stay backed |
| PaymentsService.PaymentsService.CancelBooking | src/features/booking/bookings/bookings.service.ts:816-852 | succeeds exactly when the booking exists, is the user's, has one of the five active statuses and starts no less than cancelBeforeHours from now; then it is CANCELLED, its settled payments are REFUNDED, and nothing else changes |
| PaymentsService.PaymentsService.CancelExpiredDeposits | src/features/booking/bookings/booking-reminder.consumer.ts:151-172 | cancels exactly the bookings in DEPOSIT_PENDING whose deadline has passed and that have a customer; statuses stay backed |
| PaymentsService.SweepAlone | src/features/booking/bookings/booking-reminder.consumer.ts:151-172 | a sweep that nothing disturbs is a run of the ledger that cancels exactly those and leaves its list empty |
| ScheduleHistory.BranchesAreExclusive | src/features/staff/staff-schedule/staff-schedule.service.ts:85-109 | the history and the current branch never both match, with or without a day filter |
| ScheduleHistory.LaterEditsExactly | src/features/staff/staff-schedule/staff-schedule.service.ts:34-147 | an edit after an instant changes what the lookup says about it exactly when it edits in place a row that was there by then, is looked for before or after, and is not overruled by the history |
| ScheduleHistory.InPlaceExactly | src/features/staff/staff-schedule/staff-schedule.service.ts:129-147 | of the update and the removal of one row, on any tables, the same |
| ScheduleHistory.AsOfExactly | src/features/staff/staff-schedule/staff-schedule.service.ts:79-110 | for every history of edits and every instant, the lookup returns at every moment, row for row, the table as it was after the edits made by then, exactly when no later edit rewrites a row in this way |
| ScheduleHistory.AsOfIsReplay | src/features/staff/staff-schedule/staff-schedule.service.ts:79-110 | in particular always while later edits only create rows or replace weeks |
| ScheduleHistory.FindAllIsReplay | src/features/staff/staff-schedule/staff-schedule.service.ts:79-118 | findAll returns the rows in force at the midnight of a past date, unless one has been rewritten since, or now, by day of the week |
| ScheduleHistory.FindAllLists | src/features/staff/staff-schedule/staff-schedule.service.ts:79-118 | findAll lists exactly the rows of that staff member and day that were in force, from the history if it has any, else from the current rows of that age, in ascending order of the day |
| ScheduleHistory.StaffScheduleService.CreateSchedule | src/features/staff/staff-schedule/staff-schedule.service.ts:19-32 | appends one row, created now, unless the staff member has that day already |
| ScheduleHistory.StaffScheduleService.ReplaceAll | src/features/staff/staff-schedule/staff-schedule.service.ts:34-70 | when days repeat nothing changes; else the staff member's rows, and only they, are archived until now and replaced by the new ones as of now |
| ScheduleHistory.StaffScheduleService.UpdateSchedule | src/features/staff/staff-schedule/staff-schedule.service.ts:129-141 | changes the entry of that one row, keeping its creation time, unless it is missing or its new day is taken |
| ScheduleHistory.StaffScheduleService.RemoveSchedule | src/features/staff/staff-schedule/staff-schedule.service.ts:143-147 | removes exactly that row |
| ScheduleHistory.StaffScheduleService.FindSchedules | src/features/staff/staff-schedule/staff-schedule.service.ts:79-118 | the branches of findAll return exactly those rows in that order |
| RetryQueue.NoMessageIsLost | src/mail/mail.consumer.ts:53-70 | in every run, with connections lost between any two steps, a published message is handled or the broker holds a copy, retried at most three times |
| RetryQueue.RetriesAreBounded | src/rabbitmq/rabbitmq-topology.service.ts:50-57 | without crashes: one live copy until handled and none after, at most four handler runs, waits of 5, 15 and 45 seconds in order |
| RetryQueue.NotBackBeforeItsTime | src/rabbitmq/rabbitmq-topology.service.ts:50-57 | in every run, with connections lost at any time: the copy that a retry publishes stays in the retry queue until 5, 15 or 45 seconds after, by its count, and leaves it once |
| RetryQueue.Consumer.HandleDelivery | src/mail/mail.consumer.ts:53-70 | a success is handled and gone, a failure waits 5, 15 or 45 seconds with its next count, or is a dead letter after the third retry; nothing else changes, and nothing is lost |
| ServicesImport.ParseExcel | src/features/catalog/services/services-import.service.ts:107-155 | every counted row is either valid or an error; the valid rows of a name are, in order, the complete ones of the sheet with their variant names, durations, prices and activity; the errors are the incomplete ones |
| ServicesImport.GroupByName | src/features/catalog/services/services-import.service.ts:163-168 | names in order of first appearance, each with exactly its rows |
| ServicesImport.GroupsCoverRows | src/features/catalog/services/services-import.service.ts:163-194 | counting group by group counts every row of those names once |
| ServicesImport.ValidRowsAre | src/features/catalog/services/services-import.service.ts:107-155 | the variants of a name are, in the order of the sheet, its rows with a name of 1 to 150 characters, whole positive minutes and a price of at least zero: named as in the row, or "Gói cơ bản" when it names none, and active unless the row says INACTIVE |
| ServicesImport.MakeSlug | src/features/catalog/services/services-import.service.ts:233-242 | the suffix loop ends, at the first of base, base-2, base-3, ... that is not taken |
| ServicesImport.ServicesImportService.SplitNames | src/features/catalog/services/services-import.service.ts:180-194 | names the store has are skipped with all their rows and reported by their first row, the others kept in order |
| ServicesImport.ServicesImportService.CreateServices | src/features/catalog/services/services-import.service.ts:225-276 | one service per name, in order, with exactly its rows, under the first free slug; slugs stay unique |
| ServicesImport.ServicesImportService.ImportServices | src/features/catalog/services/services-import.service.ts:158-280 | counted rows are imported or skipped; after the services there were comes one for each other name with a complete row, with these rows as its variants, under the first free slug, in order of first appearance; the report lists exactly them, the incomplete rows, and the first row of each known name |
| Pricing.DiscountsAreParts | src/features/booking/coupons/coupons.service.ts:323-333 | an accepted promotion or coupon takes between nothing and all of an amount |
| Pricing.DiscountsAre | src/features/booking/coupons/coupons.service.ts:323-333 | a discount is value percent of the amount, capped at maxDiscount, or the fixed value, capped at the amount |
| Pricing.PricedIs | src/features/booking/promotions/promotions.service.ts:192-219 | an item is priced at its list price less that discount exactly when the promotion covers its service |
| Pricing.ItemsAddUp | src/features/booking/promotions/promotions.service.ts:192-219 | over any item list, prices and savings add up to the list prices, both non-negative |
| Pricing.PriceBooking | src/features/booking/bookings/bookings.service.ts:211-289 | each item is priced so; list prices are total plus promotion discount, the total is final price plus coupon discount; the coupon discount is value percent of the total, capped at maxDiscount, or the fixed value; refused exactly when the total is below the minimum amount; the final price lies between zero and the total |
| Pricing.WalkInSubtractsTwice | src/features/booking/bookings/bookings.service.ts:473-495 | a walk-in's final price is its total exactly when nothing was saved, and negative exactly when more than half was |
| Stores.UnnoticedChange | src/features/stores/stores.service.ts:583-596 | a change of verified data goes undetected exactly when nothing detected changed and a date stored as the epoch is cleared |
| Stores.ResendingIsHarmlessExactly | src/features/stores/stores.service.ts:581-596 | sending the stored values again leaves the store, its status and its approval as they are exactly when no field is sent as null or the store is not active or inactive |
| Stores.NoticedIs | src/features/stores/stores.service.ts:583-596 | a change is noticed exactly when a field is sent with another value, or as null, except for a date stored as the epoch |
| Stores.StepKeepsVerification | src/features/stores/stores.service.ts:383-395 | every owner and administrator step keeps verification, except exactly the one that clears an epoch date of an active store unnoticed |
| Stores.VerificationIsNeverStale | src/features/stores/admin-stores.service.ts:111-224 | from creation on, unless that step occurs, an active or banned store has the data of its last approval, by someone else than its owner |
| Stores.ClearedEpochStaysActive | src/features/stores/stores.service.ts:594 | a run in which that step leaves an active store with unapproved data |
| Stores.StoreService.DetectChange | src/features/stores/stores.service.ts:583-596 | the loops over text and date fields decide whether verified data changed |
| Stores.StoreService.UpdateStore | src/features/stores/stores.service.ts:358-396 | for the owner of a store that is not banned, what is sent is stored and nothing else; an active or inactive store goes back to PENDING without approval exactly when a change is noticed; verification is kept unless exactly the unnoticed change slips through |
| Stores.StoreService.UploadImage | src/features/stores/stores.service.ts:452-486 | for the owner of a store that is not banned, stores that image; an active or inactive store goes back to PENDING without approval |
| Stores.StoreService.ApproveStore | src/features/stores/admin-stores.service.ts:111-129 | exactly from PENDING or INACTIVE and by somebody else than the owner: ACTIVE, with the approver and the data approved |
| Stores.StoreService.RejectStore | src/features/stores/admin-stores.service.ts:144-161 | exactly with a reason and from PENDING or INACTIVE: INACTIVE; keeps verification |
| Stores.StoreService.LockStore | src/features/stores/admin-stores.service.ts:176-193 | exactly with a reason and from ACTIVE: BANNED; keeps verification |
| Stores.StoreService.UnlockStore | src/features/stores/admin-stores.service.ts:208-221 | exactly from BANNED: ACTIVE; keeps verification |

## Left out

- Controllers, DTO decorators, guards, notifications, mail, push, Telegram, QR images, HMAC and JWT: plumbing and foreign calls.
- Raw SQL listings, analytics and paging queries: their meaning lives in MySQL.
- A missing or inactive store, a missing payment configuration, and a customer who belongs to the store: such requests are refused before anything modelled happens.
- Reads of other tables (variants, active staff, promotions, store settings, coupon dates and minimum amount) are parameters of the steps; a transaction may be given any answer, so the results hold for all of them.
- The transaction body of `create` runs in `BookingsService.Create` on tables that nothing else changes meanwhile; interleavings are the subject of `Reservation`, and `CreationIsARun` connects the two.
- BookingService.CreationIsARun: for a single request on tables without held locks; several requests at once are runs of the protocol, not of the methods.
- Deadlock detection is not modelled: any transaction may be aborted at any step, which covers every victim MySQL may choose; progress is not claimed.
- The customer-overlap check is not an invariant of concurrent runs, because no customer row is locked; it is proved for offered slots on unchanged tables only.
- ReservationSafety.NeverDoubleBooked: excludes revivals (by the writes that `OnlyTheseWritesRevive` lists) and reassignments onto time that is taken or whose staff row a transaction holds, and services over six hours, each shown to be necessary by a run.
- LedgerSafety.MoneyIsConserved: excludes writes on reads that no longer hold (`StaleTransferOvercharges`) and payments that settle beside another open one of the booking (`SettlingConservesExactly`); `InStepExactly` has the exact condition for all runs.
- SettlementSafety.OnePaymentPerKind: excludes cash and writes on reads that no longer hold; `SingleExactly` has the exact condition for all runs.
- Removal and update of coupons (src/features/booking/coupons/coupons.service.ts:129-185): deactivation and expiry are covered by the eligibility parameter of the check; the deletion of an unused coupon is not a step.
- The several reads of one booking or payment handler are one step, as are the queries of one slot search, of one import and of one schedule edit; the writes of a payment handler that the code does not put into one transaction are separate steps.
- Store and schedule handlers are one step each: two owners or administrators acting on one store at the same time are not modelled.
- Stores.VerificationIsNeverStale: excludes the one step that clears an epoch date unnoticed, shown to be necessary by a run and to be the only one.
- Floating point and decimal column rounding: amounts are exact reals.
- Time zones with changing offsets; the table of zone names is a parameter, an offset in minutes.
- Times of day that are not well-formed texts: schedules, call-ins and days off hold minute counts, and a day off holds both its times or none. Formatting and parsing are modelled where the slot search relies on them.
- The back-off delay of the transaction retry: it changes when a call is made, not which.
- SePay codes: a payment is found by its index; that generated codes do not collide is not modelled.
- Expiry of messages in the retry queue happens at or after their due time; that a message may wait behind a slower one is covered, that it comes back in time is not claimed.
- `remove` of bookings: a cascade on rows without history.
- Promotion non-overlap: extending an active promotion's end date skips the check, so no invariant holds over all runs.
- `slugify` and the cell readers of the import: the slug function is a parameter, and the import is correct for any such function; slugify relies on Unicode normalisation.
- Categories and descriptions of imported services, store names, slugs and working hours: copied data.
