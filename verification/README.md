# Verified model of the course, membership, billing and login core

This project models the stateful core of the back end in Dafny and proves what the code promises about it.
Check it with `dafny verify dfyconfig.toml`.

The design note of the repository (src/infrastructure/redis/REDIS_LOCKS.md:7-10) says that Redis locks only
reduce contention and that correctness comes from unique indexes, conditional updates and transactions. The
model takes that literally: the theorems about schedules, lessons and orders assume no Redis lock at all, and
speak of every interleaving of the database calls.

## How the model is organised

Every component has the same three layers.

1. A value-level specification: what one transaction, statement or Redis command does to the tables.
   (`Slots`, `Schedules`, `BusinessKeys`, `Ledger`, `Orders`, `Redis`, `StringOrder`, `Money`, `JsText`.)
   Beside it stand predicates that say, field by field and without the functions, what a request answers and what
   it leaves (`ScheduleEffects`, `Ledger.DeductEffect`, `Orders.PaidReply`, `Login.CheckEffect` and their like), and
   lemmas for all inputs that the functions do exactly that.
2. The code in its own imperative form: classes whose methods change tables in place, loops with invariants,
   rollback and compensation. Each method is proved equal to the specification and to have those effects.
   (`ScheduleService`, `LedgerService`, `Attendance`, `BillingService`, `LockService`, and the classes in
   `Redis`, `Login`, `Tokens` and `Idempotency`.)
3. A transition system whose steps are single database or Redis calls of any number of clients, an invariant
   kept by every step, and theorems about whole runs. `Runs` holds what is common to them.
   (`ScheduleRuns`, `LedgerRuns`, `LedgerTheorems`, `LedgerSnapshots`, `OrderRuns`, `Locks`, `Idempotency`,
   `RateLimit`, `Login`, `Tokens`.) `LedgerRefinement` and `RateLimit.StepsAreCommands` connect this layer with the first.

Instants are integer milliseconds in the schedule modules and integer seconds in the Redis modules. Random
values (UUIDs, lock tokens, order numbers), clocks, password comparison, signature checks and the rows a query
returned are parameters, so a method's contract holds however stale its reads are.

## What the proofs found

- A schedule update computes its lock rows from a row read before the transaction. Lock rows and schedules stay
  in agreement if and only if, in the fields the request leaves out, that read is still current up to slot
  boundaries. Otherwise a coach can be double-booked, and `ScheduleRuns.StaleCommitDoubleBooks` gives the run.
  So for schedules the claim of REDIS_LOCKS.md lines 12-13 and 40 holds with that condition only.
- A schedule created with status CANCELLED still takes its lock rows (`Schedules.CancelledCreationStillBlocks`).
  That is the only way a cancelled schedule comes to hold a slot (`ScheduleRuns.CancelledHoldNothingIff`).
- The slot index never misses an overlap, but off the 15-minute grid it refuses some bookings that do not
  overlap; `Slots.FalseConflictIff` says which.
- Check-in does not move a card's `version`, so an adjustment it overtakes commits with a wrong snapshot in its
  ledger row. The snapshot is right if and only if no row of the card was committed since the adjustment's read
  (`LedgerSnapshots.SnapshotIsRightIff`). Balances are conserved all the same.
- A card adjusted for a schedule cannot pay for it: the check-in fails with an error, although another card of
  the student could pay (`Ledger.DeductionHappensIff`, `Ledger.AdjustedCardBlocksCheckIn`).
- The reason of an adjustment is free text. One made for a schedule under the check-in reason makes the lesson
  free (`Ledger.AdjustmentPosesAsCheckIn`). The only other way in which "already deducted" is untrue is a debit
  of somebody else with the same key, which takes a colon in a student id (`LedgerTheorems.MatchIsDebitIff`,
  `LedgerTheorems.ColonFreeMatchIsDebitIff`).
- A check-in after the lesson has ended, or with an approved leave, writes over the record of a student who was
  charged: the charge stays, the presence is gone. Nothing else separates the two
  (`Attendance.ChargedShowUpThroughoutIff`).
- Payment and refund callbacks set no isolation level, and the database is MySQL (prisma/schema.prisma:6), whose
  default lets the query after a lost race see the transaction's own snapshot. Then a callback that loses the
  race to its own duplicate is always answered with a conflict, although the event is in effect
  (`Orders.LostRaceIff`). The table is right all the same.
- The branch that answers a trade-number conflict with the order itself (billing.service.ts:255-261) is never
  taken (`Orders.ViolationMeansOtherOrder`).
- The fixed-window limiter lets through at most 2 * limit - 1 calls in any interval as long as the window, and
  that bound is attained.
- A request handler that outlives its processing marker can be joined by a second one
  (`Idempotency.LateHandlerIsJoined`).
- A duplicate that arrives after a completion is always answered with the stored result. One that was already
  at its last SET NX can be refused although the success is stored (`Idempotency.RefusedDespiteSuccess`).
- A logged-out token can come back to life exactly when the blacklist duration is positive and shorter than the
  token's; for the documented lifetimes it is not, for "2w" it is a week.
- money.ts:9 speaks of rounding half up; the parser accepts at most two decimals, so nothing is ever rounded.

## Model

| member | source | states |
|---|---|---|
| Slots.BuildTimeSlotKeys | src/modules/courses/schedule-resource-lock.ts:16-25 | The loop's keys are strictly increasing, are exactly the slots of the booking, number ceil((end - first slot) / 15 min), cover every instant of it, and are none only if the end is not past the first slot |
| Slots.ShareSlotIff | src/modules/courses/schedule-resource-lock.ts:16-25 | Two bookings share a slot iff each one's first slot starts before the other ends |
| Slots.OverlapSharesSlot | src/modules/courses/schedule-resource-lock.ts:4-7 | Bookings that truly overlap always share a slot |
| Slots.AlignedSharingIsOverlap | src/modules/courses/schedule-resource-lock.ts:9-12 | For starts on the 15-minute grid, sharing a slot is the same as overlapping |
| Slots.FalseConflictIff | src/modules/courses/schedule-resource-lock.ts:16-25 | Bookings share a slot without overlapping iff one ends inside the slot the other starts in, no later than that start |
| Slots.UnalignedSharingIsNotOverlap | src/modules/courses/schedule-resource-lock.ts:18 | The input: two disjoint bookings off the grid that share a slot |
| Slots.SameSlotsIff | src/modules/courses/schedule-resource-lock.ts:16-25 | Two bookings have the same slots iff their bounds agree up to slot boundaries |
| Schedules.KeysDisjointIff | src/modules/courses/schedule-resource-lock.ts:27-63 | Two schedules fit in the index together iff they do not share a slot of a shared coach or venue |
| Schedules.SameKeysIff | src/modules/courses/schedule-resource-lock.ts:27-63 | Two schedules own the same rows iff coach, venue and slot bounds agree |
| Schedules.AgreementExcludesDoubleBooking | prisma/schema.prisma:331-343 | If every schedule owns exactly its rows, no two live schedules of one coach or venue overlap |
| Schedules.CreateKeepsAgreement | src/modules/courses/courses.service.ts:157-193 | Creation, successful or rolled back, keeps agreement of schedules and lock rows |
| Schedules.CancelKeepsAgreement | src/modules/courses/courses.service.ts:270-280 | Cancelling keeps agreement |
| Schedules.DeleteClassKeepsAgreement | src/modules/courses/courses.service.ts:128-132 | Deleting a class, with the cascades to schedules and lock rows, keeps agreement |
| Schedules.UpdateKeepsAgreementIff | src/modules/courses/courses.service.ts:228-268 | A committed update keeps agreement iff its early read is still current in the fields the request leaves out, or the schedule ends up cancelled |
| Schedules.UpdateConflictIff | src/modules/courses/courses.service.ts:237-258 | An update reports a conflict iff another schedule's row holds a needed key; its own old rows never count |
| Schedules.ExactIff | src/modules/courses/courses.service.ts:157-280 | Live schedules own exactly their rows and cancelled ones none iff schedules and rows agree and no cancelled schedule holds a slot |
| Schedules.CreateKeepsCancelledIff | src/modules/courses/courses.service.ts:157-193 | A creation leaves every cancelled schedule without slots iff it is not a successful one with status CANCELLED |
| Schedules.UpdateKeepsCancelled | src/modules/courses/courses.service.ts:238-266 | An update, however stale its read, leaves no cancelled schedule with a slot |
| Schedules.UpdateToSame | src/modules/courses/courses.service.ts:228-268 | A live schedule updated with what it already is keeps the whole database |
| Schedules.CreateThenUpdateIsCreate | src/modules/courses/courses.service.ts:157-268 | A creation stores what was asked: asking for the same by an update changes neither row nor locks |
| Schedules.ReinstateUndoesCancel | src/modules/courses/courses.service.ts:228-280 | Restoring the status of a schedule just cancelled gives back the database, lock rows included |
| Schedules.CancelledCreationStillBlocks | src/modules/courses/courses.service.ts:178-183 | The input: a schedule created as CANCELLED takes rows and makes a live booking of the coach fail |
| ScheduleEffects.CreateDoes | src/modules/courses/courses.service.ts:157-193 | Every creation: bad range iff the times are not in order, not found iff the class is unknown, conflict iff a needed slot of the coach or venue is taken, otherwise done; the stored row field by field with the defaults, its slots taken, all else as before; a refusal changes nothing |
| ScheduleEffects.UpdateDoes | src/modules/courses/courses.service.ts:228-268 | Every update on any early read: the exact condition of each outcome; each field is the supplied one or the stored one; it holds the slots computed from the early read, or none if it ends up cancelled; every other schedule and its rows are as before |
| ScheduleEffects.CancelDoes | src/modules/courses/courses.service.ts:270-280 | Every cancellation of a stored schedule: it is marked, keeps its other fields, holds no row; every other schedule and its rows are as before; a missing one is not found and nothing changes |
| ScheduleEffects.CancelFreesSlots | src/modules/courses/courses.service.ts:270-280 | A creation that conflicted with one schedule alone succeeds once that one is cancelled |
| ScheduleEffects.DeleteClassDoes | src/modules/courses/courses.service.ts:128-132 | Deleting a class removes it, exactly its schedules and exactly their rows; an unknown class is not found |
| ScheduleService.ScheduleDatabase.CreateMany | src/modules/courses/schedule-resource-lock.ts:82 | All rows are inserted, each under its owner, iff no key is taken; otherwise none is |
| ScheduleService.BuildScheduleResourceLockRows | src/modules/courses/schedule-resource-lock.ts:27-63 | The loop's rows are exactly the coach and venue keys of the booking's slots, each for this schedule, no key twice, none iff the range is empty |
| ScheduleService.ScheduleDatabase.InsertScheduleResourceLocks | src/modules/courses/schedule-resource-lock.ts:68-89 | Takes all the booking's keys, or reports a conflict because one is taken, or an empty range, and changes nothing |
| ScheduleService.ScheduleDatabase.ReleaseScheduleResourceLocks | src/modules/courses/schedule-resource-lock.ts:91-93 | Removes the schedule's rows and no others |
| ScheduleService.ScheduleDatabase.CreateSchedule | src/modules/courses/courses.service.ts:157-193 | The creation in place, with rollback: answer and effect as in CreateDoes in any database; agreement, where it held, is kept |
| ScheduleService.ScheduleDatabase.UpdateTransaction | src/modules/courses/courses.service.ts:238-266 | Release, update, insert, or full rollback, with the coach, venue and times computed before it began |
| ScheduleService.ScheduleDatabase.CommitUpdate | src/modules/courses/courses.service.ts:230-267 | What follows the early read, in any database: answer and effect as in UpdateDoes; agreement, where it held, is kept iff the read is current |
| ScheduleService.ScheduleDatabase.UpdateSchedule | src/modules/courses/courses.service.ts:228-268 | With no commit between read and transaction, in any database: answer and effect as in UpdateDoes, or not found; agreement, where it held, is kept and double booking excluded |
| ScheduleService.ScheduleDatabase.DeleteSchedule | src/modules/courses/courses.service.ts:270-280 | In any database: done, the schedule marked cancelled with its other fields kept, none of its rows left, all else as before; or not found and nothing changed; agreement, where it held, is kept |
| ScheduleService.ScheduleDatabase.DeleteClass | src/modules/courses/courses.service.ts:128-132 | In any database: the class, exactly its schedules and exactly their rows are gone, or it is not found and nothing changed; agreement, where it held, is kept |
| ScheduleRuns.StepDoes | src/modules/courses/courses.service.ts:157-280 | Each step of the runs is the request it stands for, with that request's effect on the tables; a commit uses the row its client read |
| ScheduleRuns.StepKeepsAgreementIff | src/modules/courses/courses.service.ts:157-303 | One step of any request keeps agreement iff it is not the commit of an update on a stale read |
| ScheduleRuns.AgreementThroughoutIff | src/modules/courses/courses.service.ts:157-303 | Over every run from the empty database, agreement holds in all states iff no update committed on a stale read |
| Runs.ThroughoutIffNever | src/modules/courses/courses.service.ts:157-303 | The lifting behind the run theorems: a property that every step keeps iff it is not a bad step holds in all states of a run iff the run has no bad step |
| ScheduleRuns.StepKeepsCancelledIff | src/modules/courses/courses.service.ts:157-303 | One step of any request leaves every cancelled schedule without slots iff it does not create one as CANCELLED |
| ScheduleRuns.CancelledHoldNothingIff | src/modules/courses/courses.service.ts:178-183 | Over every run, no cancelled schedule ever holds a slot iff none was created as CANCELLED |
| ScheduleRuns.ExactThroughoutIff | src/modules/courses/courses.service.ts:157-303 | Over every run, live schedules own exactly their rows and cancelled ones none iff no update committed on a stale read and no schedule was created as CANCELLED |
| ScheduleRuns.NoStaleCommitNoDoubleBooking | src/infrastructure/redis/REDIS_LOCKS.md:7-13 | Without a stale commit no run double-books, no Redis lock assumed |
| ScheduleRuns.OwnersAlwaysExist | prisma/schema.prisma:338 | Every lock row always belongs to a stored schedule |
| ScheduleRuns.StaleCommitDoubleBooks | src/modules/courses/courses.service.ts:229-257 | A run with one stale commit that ends with a double-booked coach |
| BusinessKeys.CheckInKeyInjective | src/common/prisma/lesson-transaction.ts:6-8 | Check-in keys are equal iff student and schedule are, for student ids without colons |
| BusinessKeys.AdjustKeyInjective | src/common/prisma/lesson-transaction.ts:11-13 | Adjustment keys are equal iff card and random part are, for card ids without colons |
| BusinessKeys.StudentsCollideIff | src/common/prisma/lesson-transaction.ts:6-8 | Two students can share a key at some schedules iff one id continues the other with a colon |
| BusinessKeys.KeyKindsDisjoint | src/common/prisma/lesson-transaction.ts:6-13 | A check-in key is never an adjustment key |
| BusinessKeys.ColonsCollide | src/common/prisma/lesson-transaction.ts:7 | The input: two check-ins that share a key |
| Ledger.ChosenIsFirst | src/modules/attendance/attendance-lesson-deduct.ts:65-71 | The loop stops at the first listed card whose balance suffices, and at none iff none does |
| Ledger.DeductionHappensIff | src/modules/attendance/attendance-lesson-deduct.ts:29-114 | On current reads each outcome has its exact condition: already deducted iff a row matches; insufficient iff none matches and no usable card can pay; failed iff none matches, one can pay, and the one that would pay already has a row for this schedule; deducted iff none matches, one can pay, and that one has no such row |
| Ledger.ChosenExpiresFirst | src/modules/attendance/attendance-lesson-deduct.ts:54-71 | The debited card is usable, can pay, and no card that can pay expires earlier |
| Ledger.DeductionCharges | src/modules/attendance/attendance-lesson-deduct.ts:65-89 | On current reads a success charges an active, in-date card of the student by the full amount, leaves the others, and appends one row, given field by field: card, student, schedule, key, reason, minus the amount, the balance before, and the balance now stored |
| Ledger.DeductDoes | src/modules/attendance/attendance-lesson-deduct.ts:29-114 | Every deduction, however stale its reads: the exact condition of each answer; the card debited is the first listed one that suffices; the row appended field by field; otherwise nothing changes |
| Ledger.IndexRefusesIff | prisma/schema.prisma:381-393 | A row is refused iff a stored one has its key, or joins the same card and the same schedule |
| Ledger.OnlyDeductedChanges | src/modules/attendance/attendance-lesson-deduct.ts:90-113 | Tables change iff the outcome is a deduction, however stale the reads; rows stay unique; a deduction leaves a matching row |
| Ledger.AdjustmentAppliedIff | src/modules/memberships/memberships-lesson-adjust.ts:15-54 | Applied iff the version is the one read and the balance stays non-negative; balance moves by delta and version by one; a refusal changes nothing. Its cause is named exactly if the second read is current, and if it sees the snapshot, short iff the first read was short |
| Ledger.AdjustDoes | src/modules/memberships/memberships.service.ts:68-112 | Every adjustment, however stale its reads: the exact condition of each answer; balance plus delta, version plus one, the row field by field; otherwise nothing changes |
| Ledger.AdjustedCardBlocksCheckIn | src/modules/attendance/attendance-lesson-deduct.ts:75-110 | The input of the failure: the first card was adjusted for this schedule, so the check-in fails although the second card could pay |
| Ledger.AdjustmentPosesAsCheckIn | src/modules/memberships/memberships.service.ts:90-105 | After any adjustment for a schedule under the check-in reason, every check-in of the card's owner there answers already deducted and charges nothing |
| Ledger.GiftMakesLessonFree | src/modules/attendance/attendance-lesson-deduct.ts:39-51 | The input: a gift of one lesson makes a lesson of ten free |
| Ledger.SharedKeyIsFree | src/modules/attendance/attendance-lesson-deduct.ts:37-51 | After a debit, every check-in whose key reads the same answers already deducted and charges nothing |
| LedgerService.MembershipStore.TryDecrementMembershipLessons | src/common/prisma/membership-lessons.ts:19-39 | Succeeds iff amount is positive, the balance suffices and the version, if given, matches; then only this card's balance and, if given, version move |
| LedgerService.MembershipStore.IncrementMembershipLessons | src/common/prisma/membership-lessons.ts:42-52 | Adds a positive amount to an existing card and changes nothing else |
| LedgerService.MembershipStore.CreateLessonTransaction | prisma/schema.prisma:381-393 | A row is appended iff none has its key or joins its card and schedule; uniqueness is kept |
| LedgerService.MembershipStore.DeductLessonsForCheckIn | src/modules/attendance/attendance-lesson-deduct.ts:29-114 | The loop with compensation, for any reads: answer, debit and ledger row as in DeductDoes; the tables restored on every other outcome |
| LedgerService.MembershipStore.ApplyMembershipLessonDelta | src/modules/memberships/memberships-lesson-adjust.ts:15-54 | The versioned update, and the cause told from whatever the second read returns when it changes nothing |
| LedgerService.MembershipStore.AdjustLessons | src/modules/memberships/memberships.service.ts:68-112 | The adjustment transaction, for any reads: answer, balance and ledger row as in AdjustDoes; rolled back unless it succeeds |
| LedgerRuns.StepKeepsInv | src/modules/attendance/attendance-lesson-deduct.ts:39-110 | Every call of every interleaved check-in and adjustment keeps the ledger invariant (conservation, version count, row provenance, row locks, unique indexes) |
| LedgerRuns.RunKeepsInv | src/modules/memberships/memberships.service.ts:73-105 | So does every run |
| LedgerRuns.WaitsIff | src/modules/attendance/attendance-lesson-deduct.ts:65-110 | A call whose turn it is waits iff the card it would change, or the index entry it would add, is another open transaction's |
| LedgerRuns.StepIsIsolated | src/modules/memberships/memberships.service.ts:73-105 | No call touches another transaction; only a commit changes what is stored, by its one balance and its one row; a rollback leaves no trace |
| LedgerTheorems.ConservationInEveryRun | src/common/prisma/membership-lessons.ts:15-52 | In every run each balance is its opening balance plus its ledger deltas, corrected by what open transactions have not logged, and never negative |
| LedgerTheorems.OneDebitPerCheckIn | src/modules/attendance/attendance-lesson-deduct.ts:25-28 | In every run one student has at most one check-in row per schedule |
| LedgerTheorems.NetDebitIsOneRow | src/modules/attendance/attendance-lesson-deduct.ts:25-28 | In any traffic the net debit of a student's check-ins at one schedule, over all cards, is nothing or exactly one row's amount on one card |
| LedgerTheorems.ConcurrentCheckInsChargeOnce | src/modules/attendance/attendance-lesson-deduct.ts:25-28 | When nothing else runs, any number of concurrent check-ins of one student at one schedule leave all balances alone or debit one card once |
| LedgerTheorems.AlreadyDeductedIsTruthful | src/modules/attendance/attendance-lesson-deduct.ts:39-51 | With colon-free student ids, a matching row in any run names this student and this schedule |
| LedgerTheorems.RowsAddUp | src/modules/attendance/attendance-lesson-deduct.ts:72-89 | In any run every ledger row ends where it starts plus its delta, and a check-in's row starts at a balance that a card query gave for its card |
| LedgerTheorems.MatchIsDebitIff | src/modules/attendance/attendance-lesson-deduct.ts:39-51 | In any run, every matching row is this student's debit at this schedule iff no adjustment row carries the check-in reason with this student and schedule and no other debit shares the key |
| LedgerTheorems.ColonFreeMatchIsDebitIff | src/modules/attendance/attendance-lesson-deduct.ts:39-51 | With colon-free student ids, the same iff no adjustment row carries the check-in reason with this student and schedule |
| LedgerTheorems.OneAdjustmentPerVersion | src/modules/memberships/memberships-lesson-adjust.ts:11-14 | Of the adjustments that read one version at most one commits, and the version counts the committed ones |
| LedgerSnapshots.SnapshotsAreExact | src/modules/memberships/memberships.service.ts:80-105 | While no check-in debits a card, its rows chain exactly and the last one ends at its balance |
| LedgerSnapshots.BalanceStandsIff | src/modules/attendance/attendance-lesson-deduct.ts:67-70 | Between two states of a run with one version of a card, the balance is the same iff no row of the card was committed in between |
| LedgerSnapshots.CheckedReadIsRightIff | src/modules/memberships/memberships.service.ts:74-87 | In any run, when an adjustment passes its version check, the balance it read is the stored one iff no row of the card was committed since the read |
| LedgerSnapshots.SnapshotIsRightIff | src/modules/memberships/memberships.service.ts:89-105 | In any run, the row an adjustment commits starts at the balance before the commit, and ends at the one after it, each iff no row of the card was committed since the read |
| LedgerSnapshots.CheckInSnapshotIff | src/modules/attendance/attendance-lesson-deduct.ts:65-89 | In any run, the row a check-in commits starts at the balance before the commit iff it ends at the one after it |
| LedgerSnapshots.OvertakenSnapshotIsWrong | src/modules/attendance/attendance-lesson-deduct.ts:67-70 | The input: a run in which a check-in overtakes an adjustment, whose row then claims 11 lessons where 9 are left |
| Attendance.JudgeDoes | src/modules/attendance/attendance.service.ts:69-137 | Every check-in request: each refusal has its exact condition, QR and GPS proof spelled out; leave and absence are recorded free; who arrives in time with proof is late iff after the start plus the grace minutes, otherwise present, and owes the lesson's deduction |
| LedgerRefinement.SoloCheckInIsDeduct | src/modules/attendance/attendance-lesson-deduct.ts:29-114 | A check-in that meets no other transaction gives, call by call, the answer of the deduction function and leaves its tables |
| LedgerRefinement.SoloAdjustmentIsAdjust | src/modules/memberships/memberships.service.ts:68-112 | An adjustment that meets no other transaction reaches its commit iff the adjustment function applies it, and leaves the tables that function computes |
| Attendance.AttendanceService.CheckIn | src/modules/attendance/attendance.service.ts:149-223 | The exact facts under which it answers not found, forbidden and bad request, records leave and absence without a charge, and records late or present with the time of arrival and the lesson's deduction; row and deduction stand or fall together |
| Attendance.SecondCheckInIsFree | src/modules/attendance/attendance.service.ts:163-190 | After a deduction no later one for the same student and schedule changes anything, whatever it read |
| Attendance.CheckInKeepsChargedIff | src/modules/attendance/attendance.service.ts:77-101 | A call keeps "whoever was charged is recorded present or late" iff it does not record absence or leave for someone who was charged |
| Attendance.ChargedShowUpThroughoutIff | src/modules/attendance/attendance.service.ts:165-202 | Over every sequence of calls, the same |
| Attendance.LateReturnErases | src/modules/attendance/attendance.service.ts:91-101 | Every charged student who checks in again after the lesson is recorded absent, and nothing is refunded |
| Orders.CallbackMovesForward | src/modules/billing/billing.service.ts:116-221 | Whatever its queries return, a callback changes at most its own order and only forward |
| Orders.CallbackKeepsUniquePairs | prisma/schema.prisma:465 | Whatever its queries return, no two orders come to hold one (provider, trade number) |
| Orders.ViolationMeansOtherOrder | src/modules/billing/billing.service.ts:245-263 | When the unique index refuses a payment, the order itself does not hold the pair |
| Orders.LostRaceIff | src/modules/billing/billing.service.ts:160-275 | After a lost race, a query that sees the current table accepts iff the event is in effect for this trade; one that sees the transaction's snapshot never accepts |
| Orders.MarkPaidDoes | src/modules/billing/billing.service.ts:116-162 | Every paid callback, whatever its queries return: which reply it gets, and that a pending order without a rival becomes paid with this provider, trade number and time, and nothing else changes |
| Orders.MarkRefundedDoes | src/modules/billing/billing.service.ts:164-221 | The same for every refund |
| Orders.HandleDoes | src/modules/billing/billing.service.ts:94-221 | A paid callback handled alone is accepted iff its order is pending and no other order has the trade, or it is paid by this trade; a refund iff its order is paid and matches, or is refunded of this trade; each other reply has its exact condition, and the table after it |
| Orders.LaterTransitive | src/modules/billing/billing.service.ts:116-221 | The order life cycle PENDING, PAID, REFUNDED with frozen payment fields composes |
| Orders.HandleSettles | src/modules/billing/billing.service.ts:94-221 | An accepted event is in effect, a settled one cannot be applied again, a refused one changes nothing |
| Orders.AcceptedReplyIsStored | src/modules/billing/billing.service.ts:116-275 | An accepted reply is the stored order with the callback's provider and, for a payment, trade number; what changed is status and event time |
| Orders.RepeatsChangeNothing | src/modules/billing/billing.service.ts:223-243 | The induction behind the next row, for any set of events already in effect |
| Orders.AtLeastOnceIsExactlyOnce | src/modules/billing/billing.service.ts:94-275 | Deleting every repetition of an accepted callback from any sequence leaves the same final table |
| BillingService.OrderStore.FindByKey | src/modules/billing/billing.service.ts:44-47 | Finds an order with the key iff there is one |
| BillingService.OrderStore.CreateOrder | src/modules/billing/billing.service.ts:33-76 | Creates iff key and number are free, a pending order with the requested fields, otherwise changes nothing and returns the order with the key if there is one |
| BillingService.OrderStore.MarkOrderPaid | src/modules/billing/billing.service.ts:116-162 | Whatever its first query and the query after a lost race return: the reply, and which order is paid, as in MarkPaidDoes; unique pairs kept; orders move forward |
| BillingService.OrderStore.MarkOrderRefunded | src/modules/billing/billing.service.ts:164-221 | Whatever its first query and the query after a lost race return: the reply, and which order is refunded, as in MarkRefundedDoes; unique pairs kept; orders move forward |
| BillingService.OrderStore.HandlePaymentCallback | src/modules/billing/billing.service.ts:94-106 | Accepted, and refused with each cause, under exactly the conditions of HandleDoes, with the table after it; a repetition leaves the table alone; an acceptance means the event is in effect |
| OrderRuns.StepKeepsInv | src/modules/billing/billing.service.ts:44-221 | Every interleaved step keeps unique keys and pairs, complete payment fields, and that pending reads and receipts are earlier states |
| OrderRuns.RunMovesForward | src/modules/billing/billing.service.ts:119-219 | Over any stretch of any run orders only move forward, payment fields are written once |
| OrderRuns.PairsAndKeysStayUnique | prisma/schema.prisma:456-465 | In every reachable state idempotency keys and (provider, trade number) pairs are unique |
| OrderRuns.EffectiveCallbacksMatch | src/modules/billing/billing.service.ts:186-200 | In any run, a refund that takes effect carries the pair the order was paid with, though it was compared with an older read |
| OrderRuns.BothRereadsPlausible | src/modules/billing/billing.service.ts:249-275 | The runs admit a query after a lost race that sees the current table and one that sees the transaction's snapshot |
| OrderRuns.AcceptedStaysInEffect | src/modules/billing/billing.service.ts:116-275 | In any run, a callback answered with an acceptance is in effect and its order carries the pair, then and in every later state; the order in the answer is a state the stored one has passed through |
| OrderRuns.OneOrderPerKey | src/modules/billing/billing.service.ts:44-75 | In any run all successful creations with one key return the same order, with its first id, title and amount |
| OrderRuns.SoloCreation | src/modules/billing/billing.service.ts:33-76 | A creation that meets no other request stores one pending order with what was asked for, or returns the order that has the key |
| OrderRuns.LostCreation | src/modules/billing/billing.service.ts:68-76 | A creation that loses the race for its key stores nothing and returns the order that won |
| OrderRuns.SoloCallback | src/modules/billing/billing.service.ts:94-221 | The two steps of a callback that meets no other request do what the callback handled alone does |
| Redis.RedisService.Set | src/infrastructure/redis/redis.service.ts:74-80 | The entry, expiring after the given seconds if they are positive, otherwise never |
| Redis.RedisService.Read | src/infrastructure/redis/redis.service.ts:68-72 | The value unless the key is absent or its time has come |
| Redis.RedisService.SetNx | src/infrastructure/redis/redis.service.ts:82-86 | Succeeds iff the key is absent or its time has come, then as Set; otherwise changes nothing |
| Redis.RedisService.Del | src/infrastructure/redis/redis.service.ts:88-91 | Removes the key |
| Redis.RedisService.Incr | src/infrastructure/redis/redis.service.ts:105-111 | A new counter is one and starts the window; a running one gains one and keeps its expiry |
| Redis.RedisService.AcquireLock | src/infrastructure/redis/redis.service.ts:130-133 | Returns the token and stores it for the lease iff the key was free |
| Redis.RedisService.RenewLock | src/infrastructure/redis/redis.service.ts:136-146 | Extends from now iff the stored token is the caller's and live, otherwise changes nothing |
| Redis.RedisService.ReleaseLock | src/infrastructure/redis/redis.service.ts:148-158 | Deletes iff the stored token is the caller's and live, otherwise changes nothing |
| Redis.RedisService.RateLimit | src/infrastructure/redis/redis.service.ts:160-164 | Counts every call, admits iff the count is within the limit, returns the remaining time, the whole window for its first call |
| RateLimit.StepsAreCommands | src/infrastructure/redis/redis.service.ts:105-111 | The limiter's transition steps are the store's INCR and EXPIRE, and admission is the comparison with the value INCR returns |
| RateLimit.EachWindowAdmitsAtMostLimit | src/infrastructure/redis/redis.service.ts:160-164 | Each window admits at most limit calls |
| RateLimit.SlidingIntervalBound | src/infrastructure/redis/redis.service.ts:160-164 | Any interval as long as the window admits at most 2 * limit - 1 calls, however late each EXPIRE arrives |
| RateLimit.SlidingBoundIsTight | src/infrastructure/redis/redis.service.ts:160-164 | For every limit and window of two seconds or more a sequence attains the bound |
| StringOrder.SortUnique | src/infrastructure/redis/redis-business.service.ts:204 | Each resource once, in strictly increasing order |
| StringOrder.LessIff | src/infrastructure/redis/redis-business.service.ts:204 | The order of the sort: a proper prefix, or the smaller character at the first difference |
| Locks.StepKeepsInv | src/infrastructure/redis/redis-business.service.ts:198-258 | Every Redis command of every interleaved call keeps the lock invariant |
| Locks.RunKeepsInv | src/infrastructure/redis/redis-business.service.ts:198-258 | So does every run with expiry |
| Locks.StepDoes | src/infrastructure/redis/redis-business.service.ts:198-258 | What each command does to its call, the store and the leases: an acquire takes a free lock for its full lease, or makes the call busy; releases go in reverse order and delete only the call's own live lock |
| Locks.RenewAndWaitDo | src/infrastructure/redis/redis.service.ts:136-146 | A renewal extends a lock iff it is live under that token; waiting moves only the clock |
| Locks.MutualExclusion | src/infrastructure/redis/redis.service.ts:126-133 | At any time at most one call holds a resource within its lease |
| Locks.ReturnLeavesNothing | src/infrastructure/redis/redis-business.service.ts:248-251 | A call that has returned, by success, error, busy or timeout, owns no live lock |
| Locks.LateRenewIsHarmless | src/infrastructure/redis/redis-business.service.ts:224-234 | A renewal that arrives after its call returned changes nothing |
| Locks.StaleHolderIsHarmless | src/infrastructure/redis/redis.service.ts:136-158 | A release or renewal never touches another call's live lock |
| Locks.NeverBlockedByItself | src/infrastructure/redis/redis-business.service.ts:204-218 | A call's next lock is never one it holds |
| Locks.SomeNextAcquireSucceeds | src/infrastructure/redis/redis-business.service.ts:195-218 | While only acquiring calls hold locks, some call's next acquire succeeds |
| LockService.ReleaseHeldBusinessLocks | src/infrastructure/redis/redis-business.service.ts:254-258 | Locks still live under the caller's token are gone, all other entries are as before |
| LockService.AcquireInOrder | src/infrastructure/redis/redis-business.service.ts:208-218 | Acquires the listed resources, each for the full lease under its own token, up to the first one that is locked; all other keys as before |
| LockService.RunWithBusinessLocks | src/infrastructure/redis/redis-business.service.ts:198-252 | Busy iff a resource is locked, and then every lock and every other key is as before; otherwise the operation runs with all its locks held for the full lease, and whatever happened meanwhile, its own locks that still stand are given back and no other key is touched |
| Idempotency.StepKeepsInv | src/infrastructure/redis/redis-business.service.ts:106-164 | While handlers are in time, every command keeps: one handler per key, markers stored, answers recorded |
| Idempotency.RequestStepDoes | src/infrastructure/redis/redis-business.service.ts:106-164 | What each command of a request does when it is its turn: claim, look, poll, give up, store a 2xx answer, delete the marker otherwise |
| Idempotency.AtMostOneHandler | src/infrastructure/redis/redis-business.service.ts:102-128 | If every handler ends before its marker lapses, at most one handler per key is in flight, and every answer was stored by one |
| Idempotency.LateHandlerIsJoined | src/infrastructure/redis/redis-business.service.ts:111-113 | Once a handler outlives its marker, a next request starts a second one |
| Idempotency.StoredRun | src/common/idempotency/idempotency.interceptor.ts:55-96 | A stored success survives every run until it lapses, and every request of its key keeps to the listed ways: to its replay, or to a refusal from its last SET NX |
| Idempotency.CompletionIsReplayed | src/common/idempotency/idempotency.interceptor.ts:75-80 | After a 2xx completion, until the result lapses, in every run: no handler of the key starts; a request that arrives later is about to send its SET NX or GET, or is answered with the stored status and body; one already there gets no other success, and is refused only if its second SET NX of the second attempt was still to come |
| Idempotency.DuplicateIsAnswered | src/infrastructure/redis/redis-business.service.ts:112-126 | Every duplicate that arrives in that time and sends its SET NX and its GET is answered with the stored status and body, whatever is interleaved |
| Idempotency.LastRetryIsRefused | src/infrastructure/redis/redis-business.service.ts:115-118 | A request at its last SET NX is refused if a success is stored by then |
| Idempotency.ReachesLastRetry | src/common/idempotency/idempotency.interceptor.ts:125-137 | From any state with a handler in time, a duplicate that waits its full time and then meets the handler's failure comes to its last SET NX |
| Idempotency.RefusedDespiteSuccess | src/common/idempotency/idempotency.interceptor.ts:127-145 | The input: for any options whose wait is shorter than the marker, a timely run of three requests in which one is refused though a success is stored |
| Idempotency.BeginRequestIdempotency | src/infrastructure/redis/redis-business.service.ts:106-128 | Whatever other clients do between its commands: proceeds iff the key was free at its first SET NX or at both its GET and its second SET NX, replays iff the GET found a success, otherwise tells to wait; the store it leaves |
| Idempotency.WaitForRequestIdempotencyCompletion | src/infrastructure/redis/redis-business.service.ts:130-146 | Whatever stores the polls meet and however the clock goes: polling ends at the first poll that finds a success or no entry, or at the deadline; a success is returned iff that poll found it |
| Idempotency.Prepare | src/common/idempotency/idempotency.interceptor.ts:125-147 | Each result has its exact condition on the stores its commands meet: a success met by a GET of either attempt, or by the poll that ends the polling, is the answer and the store is left as met; the handler runs iff some SET NX met the key free, with the marker put into that store, so no live success is written over; otherwise still processing |
| Login.KeysAreApart | src/modules/auth/auth-login-security.service.ts:93-99 | The four key families never meet and names are kept apart |
| Login.LockHolds | src/modules/auth/auth-login-security.service.ts:45-49 | Once an account is locked no attempt for it is admitted before the lock expires, whatever else happens |
| Login.StrikesLock | src/modules/auth/auth-login-security.service.ts:77-84 | Reaching the threshold locks the account for the full time; otherwise its lock is left alone |
| Login.ThresholdBlocks | src/modules/auth/auth-login-security.service.ts:68-87 | Over whole runs, a failing attempt whose strike reaches the threshold blocks every later attempt for the account until the lock time is over |
| Login.LimitedRetryIsExact | src/modules/auth/auth-login-security.service.ts:59-62 | The waiting time told to a limited user is exactly how long the user's counter lives |
| Login.FailuresPerWindow | src/modules/auth/auth-login-security.service.ts:51-75 | At most ceil(limit / 2) failing attempts of one user reach the password check in one window, from any addresses and at any pace |
| Login.CheckDoes | src/modules/auth/auth-login-security.service.ts:45-65 | Every check: locked iff the lock lives; otherwise this call counts for the address and is refused iff it is one too many, then the same for the user; the windows; every other key as before |
| Login.RecordDoes | src/modules/auth/auth-login-security.service.ts:68-87 | Every failure counts once more for address, user and strikes, each in its window, and locks the account for the lock time iff the strikes reach the threshold; every other key as before |
| Login.AttemptDoes | src/modules/auth/auth-login-security.service.ts:45-91 | What a whole login leaves: a refusal only its check, a success neither strikes nor lock, a failure one more strike |
| Login.AuthLoginSecurity.CheckCanAttemptLogin | src/modules/auth/auth-login-security.service.ts:45-65 | Verdict, waiting time and counters as in CheckDoes |
| Login.AuthLoginSecurity.RecordLoginFailure | src/modules/auth/auth-login-security.service.ts:68-87 | Counters, strikes and lock as in RecordDoes; the lock stands for the full lock time |
| Login.AuthLoginSecurity.ClearLoginFailures | src/modules/auth/auth-login-security.service.ts:89-91 | Strikes and lock of this user are gone, and nothing else |
| JsText.PrintThenRead | src/common/money/money.ts:4-7 | Printing a number gives digits without a superfluous zero that read back as the number |
| JsText.ReadThenPrint | src/common/money/money.ts:10-20 | Digits without a superfluous zero are what their number prints as |
| JsText.TrimIs | src/common/money/money.ts:11 | Trimming takes the white space off both ends, all of it, and nothing else |
| Money.PrintThenParse | src/common/money/money.ts:4-20 | Every integer number of cents survives printing and parsing, negatives and values under one yuan included |
| Money.PrintedIsCanonical | src/common/money/money.ts:4-7 | The printed form is canonical: normal whole part, exactly two decimals, no negative zero |
| Money.ParseThenPrint | src/common/money/money.ts:10-20 | Any accepted spelling, parsed then printed, is canonical and parses to the same cents |
| Money.CanonicalIsPrinted | src/common/money/money.ts:4-20 | Every canonical spelling is accepted and printed back unchanged |
| Money.SpelledCents | src/common/money/money.ts:15-19 | Sign, whole part and decimals of a spelling give its cents: a single decimal counts tens of cents |
| Money.AcceptedIff | src/common/money/money.ts:11-14 | A string is accepted iff, trimmed, it is an optional minus, digits, and optionally a point with one or two digits |
| Tokens.LifetimesAgree | src/common/config/env.ts:17-34 | For positive integers and digits followed by s, m, h or d the two readings of the lifetime agree |
| Tokens.LifetimeMeans | src/common/config/env.ts:17-34 | Both readings of a documented lifetime give its meaning: a number of seconds, or of seconds, minutes, hours or days by its letter |
| Tokens.TwoWeeksIsAWeek | src/common/config/env.ts:28-29 | The spelling "2w" is blacklisted for a week |
| Tokens.LogoutIsFinal | src/modules/auth/auth.service.ts:165-174 | With a long enough blacklist no token under a logged-out jti is ever accepted again, in any run |
| Tokens.DocumentedLogoutIsFinal | src/modules/auth/jwt/jwt.strategy.ts:30-51 | So it is for every documented lifetime |
| Tokens.NewTokenIsAccepted | src/modules/auth/jwt/jwt.strategy.ts:30-51 | In every run in which nobody logs it out, a new token is accepted exactly before the configured lifetime is over and while the user's password has not been changed |
| Tokens.ShortBlacklistReadmits | src/modules/auth/auth.service.ts:165-174 | With any shorter positive blacklist a logged-out token is accepted again |
| Tokens.PasswordChangeIsFinal | src/modules/auth/auth.service.ts:131-163 | After a password change no token with an earlier version is ever accepted, even one signed later from an older read |
| Tokens.IssuedVersionsAreBound | src/modules/auth/auth.service.ts:176-194 | Issued tokens never carry a version above the user's |
| Tokens.AuthService.ChangePassword | src/modules/auth/auth.service.ts:131-163 | The version moves by one iff the password matches; the returned token carries it and every token with another version fails validation |
| Tokens.AuthService.Logout | src/modules/auth/auth.service.ts:165-174 | The blacklist entry; the jti fails validation at once |

## Left out

- Controllers, DTO decorators, logging, audit columns and the exception filter: no state worth proving.
- Tenant scoping and data-scope filters: a single tenant is modelled, and its queries see every row.
- Internals of Prisma, ioredis, bcrypt, token signing and callback signatures: parameters or opaque facts.
- Redis eviction, connection loss and TTLs below a second: the store keeps every entry until it expires. If an acquire throws, the locks taken before it stay until their TTL; that path is not modelled.
- Serializable blocking: the ledger and schedule runs let a step go on with committed data where the database might make it wait or abort; waiting adds no behaviour and an abort is the rollback step.
- Isolation levels beyond what a query may return: the queries after a lost race are parameters, so both the transaction's snapshot and the current table are covered; which of the two the database gives is not modelled.
- Atomicity of a cancellation: `deleteSchedule` runs at the default isolation level and is one step of the schedule runs, because its DELETE keeps the locks of the scheduleId index, gaps included, until its UPDATE has committed.
- Coach and venue rows and their foreign keys, and changes of the enrolment, leave and course-type tables: facts given to a check-in.
- `MembershipsService.update` as a writer of balances: its documented use is validity and status (memberships.controller.ts:62).
- The work function that goes on after a lock timeout: `Promise.race` does not cancel it, and the code treats the lock as advisory.
- Integer width: cents, balances, versions and times are unbounded integers; 32-bit columns and the rounding of numbers beyond 2^53 are not modelled. `toFixed` and `Number` are modelled on amounts where doubles are exact enough to print two decimals.
- Decimal spelling of slot keys: slots are compared as integers, which the spelling preserves.
- Characters outside the basic plane: strings are compared by character, JavaScript compares by UTF-16 unit; any total order serves the lock proofs.
- Concurrent login attempts: attempts are sequential, so what two overlapping checks of one user can do is not stated.
- QR tokens and distances: the outcome of each check is a fact given to `Attendance.Judge`.
- Other services, the revenue aggregate, caches, scripts, migrations and seed data: plain reads and writes.
- LockService.RunWithBusinessLocks: other clients and renewals act only between acquisition and release; `Locks` lets them act between any two commands.
- Tokens.DocumentedLogoutIsFinal: spellings of a lifetime that are neither documented nor plain numbers are read by the signing library, whose result is a parameter.
