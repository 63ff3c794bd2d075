# Kairos, modelled in Dafny

Kairos books shared resources. Its guarantees rest on one PostgreSQL table of bookings, under one exclusion
constraint, and on the protocols layered over it. This project models those protocols and proves what they
guarantee over every run, every input and every interleaving of committed transactions.

| module | models |
|---|---|
| `Tables`, `Transactions` | booking, offer and entry rows, their constraints, and what each committed transaction does to them |
| `Preservation`, `Interleaving`, `RunTheorems` | any interleaving of transactions with cascade workers whose commits are separate steps |
| `Queue`, `QueueTheorems`, `CascadeTheorems` | the waitlist queue with the cascade as one step; whom it serves and when it fails |
| `SettledEntries`, `LastCommit` | what can become of an entry that has left the queue, over every event; and what a worker's last commit does to one |
| `CounterRuns` | concrete runs from empty tables for what the code gets wrong |
| `RowHistory` | where every booking of a run comes from, what each event may make of it, and when it goes |
| `FirstCome` | first come, first served over whole runs, for the cascade and for the workers |
| `BookingService`, `WaitlistService` | the write path as methods over a database object, the cascade loop and the reaper loop |
| `Sweep`, `SweepReachability` | when a reaper sweep run alone reclaims every expired hold, and which runs, with real workers, lead up to it |
| `TimeZones`, `Recurrence` | zones as transition lists, `fold` as in PEP 495, weekly expansion with gap shifting |
| `RollingWindows`, `SeriesTasks`, `RollingJob`, `Rematerialization` | the two background jobs over recurring series |
| `RecurringSeries` | preview, acknowledgment and confirm |
| `Idempotency`, `IdempotencyTheorems`, `IdempotencyService`, `Client` | the key protocol, its crashes, replays and cleanup, and the browser's retry loop |
| `RateLimit` | the token bucket |
| `Columns`, `SeriesColumns`, `OffboardingColumns` | what transactions, series and offboarding mean in the columns of the rows, in dates and in clock readings, without the functions that compute them |
| `Offboarding`, `Pagination`, `KeyOrder` | deactivating a user, and keyset paging |

Each method is proved to compute a specification function on the tables (`Transactions.Create`, `Queue.Cascade`,
`Idempotency.Step` and so on); the lemmas are about those functions. So that the functions answer to something else than
themselves, what each of them does is also proved in plain terms: the `InColumns` lemmas, `OccurrencesAreWeekly`,
`EarlierJoinersAreServedFirst`, `GrantedPerWindow` and `WriteIsRepeated` name columns, dates, clock readings, capacity and
window only. A refused transaction leaves the tables as they
were. Instants are microseconds; ids are numbers that are never handed out twice; every time of day, window and
clock reading is a parameter.

## What the code does that its documentation does not say

- **An expired hold that was offered does block a booking.** Cleanup-on-write deletes expired holds, but an offer row
  keeps a restricting reference to its hold, so the delete cannot commit. `docs/01-prd.md:244` and
  `docs/04-test-plan.md:236-246` promise the opposite. `CounterRuns.ExpiredOfferBlocksBooking` is a run that gets
  there; `BookingService.ExpiredHoldYieldsExactlyWhenUnoffered` gives the exact condition: the hold yields if and only
  if no offer row refers to it.
- **A cascade can fail with somebody bookable in line.** Only a conflict makes it try the next candidate. It fails if
  and only if the first in line wants a range with such a hold in it, or already has an active offer
  (`CascadeTheorems.CascadeServesUnlessItFails`). `CounterRuns.PinnedContenderStopsCascade` and
  `CounterRuns.LateOfferStopsCascade` are runs to either; the second leaves a hold nobody was offered.
- **That can end a sweep early**, with holds still to reclaim. With no held range edited, a sweep run alone completes
  if and only if none of the expired holds it finds halts it: has an active offer, and behind that offer, first in line
  for its range, an entry that has an active offer itself (`WaitlistService.ReapExpiredHolds`, whatever the order of the
  holds). `CounterRuns.LateOfferEndsSweep` is a run to such a sweep. If every offer was written before its hold ran out,
  nothing halts (`SweepReachability.TimelyRunsHaltNothing`). An edit of a held row can end a sweep too: its offer still
  frees the range the hold has left (`CounterRuns.EditedHoldEndsSweep`).
- **A withdrawal can be overwritten**, and so can any other status an entry has settled in. Only the withdrawal is
  guarded; an acceptance, a decline, the reaper and the worker's last commit update the entry by its id. An entry's
  status moves other than on if and only if the event is a last commit on an entry that has left the queue, whose user
  has no other live entry for the slot, or the end of an outstanding offer of an entry that has settled otherwise
  meanwhile (`SettledEntries.MovesBackExactlyWhenOverwritten`, and over runs `SettledStaysExactlyWhen`). A withdrawal
  stands for good once no worker has the entry in hand and no offer to it is outstanding (`SettledForGood`).
  `CounterRuns.WithdrawalCanBeOverwritten` is a run for the last commit, with its history in
  `LastCommit.LastCommitOverwritesExactlyWhenLeft`; `CounterRuns.ReapOverwritesWithdrawal` is one for the reaper, the
  worker having crashed. If the user has joined for the same slot again, the unique index refuses the last commit; the
  offer stands on a withdrawn entry, which lapses when it is declined (`CounterRuns.TwinRefusesLastCommit`).
- **A rolling run stops** at an occurrence whose slot holds an expired offered hold, since only a conflict is caught:
  `CounterRuns.RollingRunStops` leads a run there. The exact condition is in the contracts of `SeriesTasks.RollSeries`
  and `RollingJob.RollingMaterializeSeries`, in terms of the tables it starts from and the order of the series. A
  confirm is interrupted in the same way, exactly when one of the slots its preview promised holds such a hold and no
  booking (`RecurringSeries.ConfirmRecurringSeries`).
- **A recurring confirm that outlives its key's retention can overwrite another request's response**
  (`IdempotencyTheorems.LateFinishOverwrites`, with the exact condition in `FinishIsSafeExactlyWhenItsOwn`).
- **A recurring confirm's unfinished key makes a one-transaction endpoint fail an assertion** when it is given the
  same key and body, because the fingerprint leaves out the endpoint. `IdempotencyTheorems.ConfirmsKeyFailsWrite` is
  a run, and `AssertionFailsExactlyWhen` the exact condition.
- **A commit can be answered with a 500**, when the connection is lost while it is acknowledged: a write's, a recorded
  conflict's, a confirm's claim or its last update. Of these transactions, those are exactly the ones that fail and
  leave something behind (`IdempotencyTheorems.FailuresLeaveNothing`). Repeating the request finds the answer
  (`LostAcknowledgmentIsReplayed`); after a lost claim it finds a confirm in progress that nobody carries on.
- **Re-materialization moves a user's own edit back.** `Rematerialization.EditIsMovedBack` is an input. A booking is
  moved if and only if it starts within two days of an occurrence it does not coincide with
  (`Rematerialization.MovedExactlyWhenNearAnother`).
- **Offboarding can transfer a booking back to the user who leaves** (`Offboarding.TransferredBackToTheLeaver`),
  if and only if the policy transfers and the resource's earliest grant is theirs (`Offboarding.StillTheirsExactlyWhen`).

## Model

| member | source | states |
|---|---|---|
| `RunTheorems.NeverDoubleBooked` | backend/kairos/bookings/migrations/0002_exclusion_constraint.py:34-39 | in every state any interleaving can reach, no two confirmed-or-held rows of a resource overlap, and expires_at is set exactly on held rows |
| `RunTheorems.OffersReserve` | backend/kairos/waitlist/services.py:280-319 | under every interleaving an offer's hold row exists; while the hold stands the offer is active and expires with it; an accepted offer's hold is no longer held; an active offer written before its hold ran out still has its hold |
| `RunTheorems.OwnerCanAcceptExactlyWhenLive` | backend/kairos/waitlist/services.py:383-397 | the entry's owner can accept an offer written in time if and only if it is active and has not expired |
| `RunTheorems.HoldNeverReturns` | backend/kairos/waitlist/services.py:529-535 | a row that has left held never becomes held again, over any run |
| `RunTheorems.HoldResolvedAtMostOnce` | backend/kairos/waitlist/services.py:383-391 | over any run at most one event takes a given row out of held |
| `RunTheorems.ResolutionIsOneOfFour` | backend/kairos/bookings/services.py:197-201 | whatever takes a row out of held is exactly one of an acceptance, which keeps the row and its user, a decline, a reap, or the deletion of an expired hold no offer refers to |
| `RunTheorems.AcceptAndReapAreComplementary` | backend/kairos/waitlist/services.py:529-535 | at any clock value, on any hold of any reachable state, exactly one of the accept guard and the reap guard holds |
| `RunTheorems.IndexesHold` | backend/kairos/waitlist/migrations/0002_uniq_live_waitlist_per_user_slot.py:26-30 | in every reachable state no hold has two offers, no entry two active ones, and no user is twice in the queue for a slot |
| `RowHistory.EveryBookingWasMade` | backend/kairos/bookings/services.py:132-245 | over any run, every booking row was made by one event, a create for its user or a hold for an entry in the queue, at that event's clock; since then it has been there, and each event has made of it only what that event may |
| `RowHistory.EventChanges` | backend/kairos/bookings/services.py:316-411 | any event in any reachable state either makes one row, for which only expired, unoffered holds in its way go, or leaves all rows there, each unchanged or edited, transferred, cancelled in its actor's name, accepted or released as that event may, at its clock |
| `RowHistory.BookedExactlyWhen` | backend/kairos/bookings/services.py:197-239 | in any reachable state a create makes a confirmed booking for its user if and only if its range is non-empty and only expired, unoffered holds are in the way, and otherwise changes nothing |
| `Interleaving.StepKeepsInv` | backend/kairos/waitlist/services.py:280-319 | every committed step, the worker's separate commits and crashes included, keeps the row, reference and worker invariants and one live entry per user, resource and range, and never revives or hands over a hold |
| `Interleaving.RunKeepsInv` | backend/kairos/waitlist/migrations/0002_uniq_live_waitlist_per_user_slot.py:26-30 | the invariant, the unique live entry per slot included, holds after every run |
| `Preservation.CreateKeepsBookingsSound` | backend/kairos/bookings/services.py:132-245 | a create with its cleanup keeps non-overlap and the row checks |
| `Preservation.EditKeepsBookingsSound` | backend/kairos/bookings/services.py:261-298 | an edit keeps non-overlap and the row checks, though it has no status guard |
| `Preservation.AcceptKeepsSound` | backend/kairos/waitlist/services.py:358-401 | an acceptance keeps every booking and offer constraint |
| `Preservation.DeclineKeepsSound` | backend/kairos/waitlist/services.py:416-485 | a decline keeps every booking and offer constraint |
| `Preservation.ReapKeepsSound` | backend/kairos/waitlist/services.py:510-549 | a reclaim keeps every booking and offer constraint |
| `QueueTheorems.StatusOnlyMovesForward` | backend/kairos/waitlist/services.py:231-233 | with the cascade as one step, an entry goes from waiting to offered or withdrawn, from offered to fulfilled or lapsed, and nowhere else, between any two moments of any run |
| `QueueTheorems.AtMostOneOfferPerEntry` | backend/kairos/waitlist/services.py:297-319 | no two offers ever made are for the same entry, so offers never outnumber entries |
| `QueueTheorems.ChainEndsWithinTheQueue` | backend/kairos/waitlist/services.py:467-483 | over any run, the offers made on a resource are at most the entries that waited on it at the start plus those that joined since |
| `QueueTheorems.OfferToSucceeds` | backend/kairos/waitlist/services.py:280-319 | once the hold of a waiting entry without an active offer is created, the offer row and the entry update cannot fail, and these are the rows written |
| `CascadeTheorems.CascadeServesUnlessItFails` | backend/kairos/waitlist/services.py:260-348 | the cascade fails if and only if the first in line wants a range with an expired offered hold in it or already has an active offer; otherwise it offers to the least entry by (joined_at, id) among the eligible ones that can be had, and to nobody if and only if there is none |
| `CascadeTheorems.CascadeWithoutOffer` | backend/kairos/waitlist/services.py:280-318 | a cascade that makes no offer changes nothing, or leaves the hold of an entry that had an offer already |
| `Columns.FirstComeFirstServed` | backend/kairos/waitlist/services.py:84-101 | whoever a cascade makes an offer to waits within the freed range and joined before every other such waiter whose own slot could be booked, the lower id deciding between two who joined at once; nobody is offered anything only when there is no such waiter |
| `Columns.OfferInColumns` | backend/kairos/waitlist/services.py:280-319 | an offer writes a hold of the waiter's own slot until the window has passed, an active offer of it on the same terms, and the entry as offered; of the other rows only expired holds in the slot are gone |
| `FirstCome.JoinedAtItsTime` | backend/kairos/waitlist/services.py:113-176 | over any run, every entry comes from a join for its own resource, user and range, at the clock reading it carries |
| `FirstCome.EarlierJoinersAreServedFirst` | backend/kairos/waitlist/services.py:84-101 | over any run, whoever a cascade serves joined, on the clock, no later than any other who was waiting within the freed range and could be served |
| `FirstCome.WorkerReadsInOrder` | backend/kairos/waitlist/services.py:260-348 | a worker's candidate list is exactly the entries waiting within the freed range, in the order they joined |
| `FirstCome.WorkerAloneIsCascade` | backend/kairos/waitlist/services.py:260-348 | a worker whose separate commits nothing comes between does what the one-step cascade does |
| `CounterRuns.PinnedContenderStopsCascade` | backend/kairos/waitlist/services.py:280-304 | a run after which a cascade fails and serves nobody, though a waiter's range can be had |
| `CounterRuns.LateOfferStopsCascade` | backend/kairos/waitlist/services.py:310-318 | a run after which a cascade creates a hold for the first in line, fails on the offer row, and leaves the hold |
| `CounterRuns.LateOfferEndsSweep` | backend/kairos/waitlist/services.py:550-561 | a run after which two holds have expired, and in the turn of one of them the sweep's own cascade fails, leaving the other expired |
| `CounterRuns.EditedHoldEndsSweep` | backend/kairos/bookings/services.py:292-292 | a run in which a held row is edited, with the same end |
| `CounterRuns.ExpiredOfferBlocksBooking` | backend/kairos/waitlist/models.py:138-143 | a run after which a booking is refused only because an expired hold was offered |
| `CounterRuns.WithdrawalCanBeOverwritten` | backend/kairos/waitlist/services.py:319-319 | a run in which an entry withdrawn during a cascade is set back to offered |
| `CounterRuns.ReapOverwritesWithdrawal` | backend/kairos/waitlist/services.py:537-543 | a run in which the worker has crashed, and the reaper makes a withdrawn entry lapse |
| `CounterRuns.TwinRefusesLastCommit` | backend/kairos/waitlist/migrations/0002_uniq_live_waitlist_per_user_slot.py:26-30 | a run in which the index refuses the worker's last update, and an active offer stands on a withdrawn entry, which a decline makes lapse |
| `SettledEntries.MovesBackExactlyWhenOverwritten` | backend/kairos/waitlist/services.py:395-397 | over every reachable state and every event, an entry's status moves other than on if and only if the event is a last commit on an entry out of the queue without a twin, or ends an outstanding offer of an entry that has settled otherwise |
| `SettledEntries.MovesOnUnlessOverwritten` | backend/kairos/waitlist/services.py:231-233 | between two moments of any run, workers and crashes included, with no such event between them, an entry's status has only moved on |
| `SettledEntries.SettledStaysExactlyWhen` | backend/kairos/waitlist/services.py:467-469 | over any run, an entry that is withdrawn, fulfilled or lapsed stays so if and only if no event overwrites it |
| `SettledEntries.SettledForGood` | backend/kairos/waitlist/services.py:196-240 | once an entry has settled with no worker having it in hand and no offer to it outstanding, it stays so through any run |
| `LastCommit.LastCommitOverwritesExactlyWhenLeft` | backend/kairos/waitlist/services.py:319-319 | over any run, a worker's last commit moves its entry other than forward if and only if the entry left the queue between the worker's read and that commit, by a withdrawal or the end of an offer, and its user has no other live entry for the slot; with one, the commit is refused and changes nothing |
| `LastCommit.TwinCameAfter` | backend/kairos/waitlist/migrations/0002_uniq_live_waitlist_per_user_slot.py:26-30 | whichever entry makes the index refuse joined, or was brought back by a last commit, after the worker's entry had left the queue |
| `LastCommit.WayOutOfQueue` | backend/kairos/waitlist/services.py:231-233 | an entry leaves the queue only by a withdrawal, an acceptance, a decline or a reap |
| `LastCommit.WayIntoQueue` | backend/kairos/waitlist/services.py:113-176 | an entry comes into the queue only by joining it or by a worker's last commit |
| `BookingService.CreateBooking` | backend/kairos/bookings/services.py:132-245 | delete, insert and deferred reference check compute the create transaction; anything but success leaves the tables as they were, the undone cleanup included |
| `BookingService.CreateSucceedsExactlyWhenNothingIsInTheWay` | backend/kairos/bookings/services.py:197-239 | a create succeeds if and only if the range is non-empty and every row in its way is an expired hold no offer refers to |
| `BookingService.CreateCommitsExactlyWhenSound` | backend/kairos/bookings/services.py:157-239 | a create commits if and only if the cleaned-up tables with the new row meet all constraints; then those are the tables, otherwise nothing changed |
| `Columns.CreateInColumns` | backend/kairos/bookings/services.py:132-245 | each outcome of a create has its exact condition on the rows in the way; the new row has the request's resource, user, series and range, no cancellation, and is confirmed without expiry, or held until now plus the window; of the others exactly the holds in the way are gone |
| `BookingService.EditBooking` | backend/kairos/bookings/services.py:261-298 | the update computes the edit transaction |
| `BookingService.EditCommitsExactlyWhenSound` | backend/kairos/bookings/services.py:286-298 | an edit commits if and only if the tables with the new range meet the constraints, otherwise nothing changed |
| `Columns.EditInColumns` | backend/kairos/bookings/services.py:261-298 | each outcome of an edit has its exact condition; a done one changes the row's range and nothing else |
| `BookingService.CancelBooking` | backend/kairos/bookings/services.py:316-411 | the guarded update computes the cancel transaction: only a confirmed row changes, and only then is a range freed |
| `Columns.CancelInColumns` | backend/kairos/bookings/services.py:316-411 | a cancellation is done exactly for a confirmed row, writes status, time, actor and reason and leaves the rest, and frees the row's whole range |
| `BookingService.TransferBookingOwnership` | backend/kairos/bookings/services.py:421-446 | only the owner of the one row changes |
| `Columns.TransferInColumns` | backend/kairos/bookings/services.py:421-446 | after a transfer the row has the new user, and every other column and row is as before |
| `BookingService.CancelRecurringSeries` | backend/kairos/bookings/services.py:464-528 | exactly the confirmed future rows of the series are cancelled and returned; the past ones are counted |
| `Columns.CancelSeriesInColumns` | backend/kairos/bookings/services.py:464-528 | exactly the confirmed rows of the series that start at or after now are cancelled, by this actor, for this reason, now |
| `Columns.SeriesCountsInColumns` | backend/kairos/bookings/services.py:464-528 | the rows reported as cancelled are those, and the rows counted as past are those of the series that began before now |
| `BookingService.FreeSlotCanBeBooked` | backend/kairos/waitlist/services.py:66-81 | a slot the advisory read reports free is booked by a create, with no other row touched |
| `BookingService.ExpiredHoldYieldsExactlyWhenUnoffered` | backend/kairos/waitlist/models.py:138-143 | an expired hold alone in the way yields to a booking if and only if no offer row refers to it; otherwise nothing changes |
| `WaitlistService.JoinWaitlist` | backend/kairos/waitlist/services.py:113-176 | joining computes the join transaction, refused for a duplicate live entry |
| `Columns.JoinInColumns` | backend/kairos/waitlist/services.py:113-176 | a join succeeds exactly for a new id, a non-empty range, and a user not waiting or offered for that very slot; the entry waits for what was asked for, from now on |
| `WaitlistService.CancelWaitlistEntry` | backend/kairos/waitlist/services.py:196-240 | only a waiting entry is withdrawn |
| `Columns.WithdrawInColumns` | backend/kairos/waitlist/services.py:196-240 | a withdrawal succeeds exactly for a waiting entry, and changes its status alone |
| `WaitlistService.AcceptOffer` | backend/kairos/waitlist/services.py:358-401 | the guarded updates compute the accept transaction |
| `Columns.AcceptInColumns` | backend/kairos/waitlist/services.py:358-401 | an acceptance succeeds exactly for the user of a hold that stands and has not run out; the hold becomes confirmed without expiry, the offer accepted, the entry fulfilled, nothing else |
| `WaitlistService.DeclineOffer` | backend/kairos/waitlist/services.py:416-485 | the guarded updates compute the decline transaction |
| `Columns.DeclineInColumns` | backend/kairos/waitlist/services.py:416-485 | a decline succeeds exactly for an active offer: its hold, if it stands, is cancelled, the offer declined, the entry lapsed, the offer's range freed |
| `WaitlistService.CreateOfferForFreedRange` | backend/kairos/waitlist/services.py:260-348 | the candidate loop, run alone, refines the one-line cascade: skipped candidates leave the tables unchanged |
| `Queue.Winner` | backend/kairos/waitlist/services.py:84-101 | the winner is a waiting entry of the resource inside the freed range |
| `WaitlistService.ReapHold` | backend/kairos/waitlist/services.py:510-549 | one turn of the sweep computes the reap transaction |
| `Columns.ReapInColumns` | backend/kairos/waitlist/services.py:523-549 | a reclaim happens exactly for a hold that has run out; the hold is cancelled, and an active offer on it expires, its entry lapses and its range is freed |
| `WaitlistService.ReapExpiredHolds` | backend/kairos/waitlist/services.py:488-571 | a sweep is a turn for each hold expired at the start, at most one each and all of them if it completes, a turn being a reclaim and then a cascade over the freed range; run alone with a positive window on tables where no held range was edited, the sweep completes if and only if no hold expired at the start has an active offer behind which the first in line has an active offer. Then no hold is left expired at its `now`, holds_reclaimed is the number of holds expired at the start, cascades_triggered the offers made, entries_returned the offers expired. Otherwise it ended in the turn of such a hold, and every other one is still there. Confirmed rows are unchanged either way |
| `Sweep.HaltsExactlyWhenWinnerHasOffer` | backend/kairos/waitlist/services.py:280-318 | the cascade after reclaiming a hold picks the next in line behind its offer, and so fails if and only if the hold halts |
| `Sweep.ReapKeepsHalts` | backend/kairos/waitlist/services.py:523-549 | reclaiming a hold changes for no other hold whether it halts the sweep, so the order does not matter |
| `Sweep.CascadeKeepsHalts` | backend/kairos/waitlist/services.py:280-319 | nor does a cascade over a free range |
| `Sweep.BackedOffersHaltNothing` | backend/kairos/waitlist/services.py:280-318 | while every active offer has its hold, no hold halts a sweep |
| `Sweep.CascadeAdvances` | backend/kairos/waitlist/services.py:550-561 | the cascade inside a sweep, when it does not fail, adds at most one hold, outliving the sweep, and touches no hold still to come |
| `SweepReachability.RunsLeaveTablesSweepable` | backend/kairos/waitlist/services.py:260-348 | after any run, with workers committing separately, late and crashing, in which no held row is edited, the tables are such as a sweep relies on |
| `SweepReachability.TimelyRunsHaltNothing` | backend/kairos/waitlist/services.py:310-318 | if moreover every offer was written before its hold ran out, no hold halts a sweep, whenever it is started |
| `TimeZones.NonexistentExactlyWhenNoInstant` | backend/kairos/core/timezones.py:50-59 | a local time is reported nonexistent if and only if no instant reads as it |
| `TimeZones.AmbiguousExactlyWhenTwoInstants` | backend/kairos/core/timezones.py:62-75 | it is reported ambiguous if and only if two instants read as it; they are its two readings, fold 0 the earlier, and there is no third |
| `TimeZones.OnDateIsAuthoritative` | backend/kairos/core/timezones.py:33-47 | the date argument alone decides the date; on its own date a local time gets its fold-0 reading |
| `TimeZones.ClockFollowsTransitions` | backend/kairos/core/timezones.py:33-47 | the clock shows the offset of the last transition at or before the instant, and the initial one before them all |
| `TimeZones.SkippedTimeIsReadByFold` | backend/kairos/core/timezones.py:50-59 | a local time the clocks skip lies in one transition's gap; fold 0 reads it by the offset before, fold 1 by the one after |
| `Recurrence.GapShift` | backend/kairos/bookings/recurrence.py:67-73 | the gap shift keeps the start at the fold-0 reading of the requested time and end minus start at the requested local duration |
| `Recurrence.ShiftedTimeExists` | backend/kairos/bookings/recurrence.py:46-57 | the shift is forward and leads to a local time that exists |
| `Recurrence.OccurrenceWellOrdered` | backend/kairos/bookings/recurrence.py:60-99 | every occurrence starts before it ends in UTC, at the fold-0 reading of its requested start; in a gap it keeps its requested duration |
| `Recurrence.AdjustmentDisclosesDst` | backend/kairos/bookings/recurrence.py:67-95 | an adjustment is disclosed exactly when the requested time has no instant, respectively two; without one the start is the only instant with that reading |
| `Recurrence.AdjustmentShowsTheClock` | backend/kairos/bookings/recurrence.py:74-95 | the adjusted time disclosed is the time of day the clock shows when the occurrence starts, and the requested one is the series' own |
| `Recurrence.EndMustShiftWithStart` | backend/kairos/bookings/recurrence.py:68-73 | a zone and a series for which shifting the start alone would end an occurrence before it starts |
| `Recurrence.OccurrencesInOrder` | backend/kairos/bookings/recurrence.py:102-132 | occurrences of one series follow each other in UTC with more than four days between, under any zone rules |
| `Recurrence.ExpansionInOrder` | backend/kairos/bookings/recurrence.py:126-132 | an expansion is in the order of its dates, with strictly increasing instants |
| `Recurrence.OccurrencesAreWeekly` | backend/kairos/bookings/recurrence.py:102-132 | occurrence i of a series falls i times seven days after the start date and starts at the fold-0 reading of the series' start time on that date; where that time exists it ends at the reading of the end time, and otherwise it lasts as long as asked for |
| `Recurrence.ClockShowsItsStart` | backend/kairos/bookings/recurrence.py:60-99 | so the clock shows the series' own start time when an occurrence starts, on every date that has it |
| `Recurrence.ClockShowsItsEnd` | backend/kairos/bookings/recurrence.py:60-99 | and its own end time when it ends, on every date that has both |
| `Recurrence.RulesMoveOccurrencesLittle` | backend/kairos/bookings/tasks.py:188-198 | between any two sets of rules an occurrence moves by less than 48 hours, and every other one is more than 120 hours away |
| `RollingWindows.HorizonSelectsBlock` | backend/kairos/bookings/tasks.py:91-95 | the horizon filter selects one contiguous block of occurrences, from the first date after the watermark |
| `RollingWindows.RunAdvances` | backend/kairos/bookings/tasks.py:99-129 | a run moves the watermark exactly past its block, never back and never past the last date |
| `RollingWindows.EveryOccurrenceAttemptedOnce` | backend/kairos/bookings/tasks.py:75-129 | over any sequence of uninterrupted runs, with any clock readings and zone rules, the attempts are exactly the occurrences between the initial and the final watermark, each once and in order |
| `RollingWindows.NoOccurrenceSkipped` | backend/kairos/bookings/tasks.py:91-95 | every occurrence after the initial watermark that came within some run's horizon was attempted |
| `RollingWindows.EveryRunIsOfSeries` | backend/kairos/bookings/tasks.py:84-90 | every real run, whatever its clock and rules, is one the two history theorems cover |
| `SeriesTasks.RollSeries` | backend/kairos/bookings/tasks.py:99-129 | the loop over one series: each attempt is either a new row in a slot that was free or a conflict with a taken slot; it completes if and only if its lifetime allows all selected occurrences and none of them, in the tables at the start, has an expired offered hold in its slot and no booking; the watermark moves only then |
| `RollingJob.RollingMaterializeSeries` | backend/kairos/bookings/tasks.py:48-142 | over all active series, in the order the query lists them: each finished one has its selected occurrences split between created and conflicts and its watermark moved, all others are unchanged, and of the bookings only expired holds are gone; a run that completes books exactly the selected slots not taken at the start nor overlapped by one booked for an earlier series; it completes if and only if its lifetime allows everything selected and no series, when its turn comes, has a slot with an expired offered hold and no booking in it |
| `SeriesColumns.RolledRows` | backend/kairos/bookings/tasks.py:99-121 | every row a run creates is confirmed, for its series' owner, on its resource, in the series, at one of its weekly occurrences; otherwise only expired holds are gone |
| `SeriesColumns.ToRollInColumns` | backend/kairos/bookings/tasks.py:84-95 | a run attempts exactly the occurrences dated after the watermark that start within 365 days |
| `SeriesColumns.WatermarkInColumns` | backend/kairos/bookings/tasks.py:127-129 | a finished series' watermark is the date of the latest of them, or where it was if there were none |
| `RollingJob.TakenSinceExactlyWhen` | backend/kairos/bookings/tasks.py:101-127 | in the tables a run has come to, a slot is taken if and only if it was at the start or overlaps one the run has booked |
| `RollingJob.TurnStuckExactlyWhen` | backend/kairos/bookings/tasks.py:101-121 | whether a series is stuck when its turn comes can be told from the tables at the start and the series before it |
| `RollingJob.CompletionForeseen` | backend/kairos/bookings/tasks.py:99-127 | nothing stuck at the start means no series stuck in its turn, whatever the order; and conversely when no two selected slots of one resource overlap |
| `SeriesTasks.TriedWasNotStuck` | backend/kairos/bookings/tasks.py:101-121 | an occurrence that was booked or reported as a conflict was not stuck in the tables the loop started from |
| `SeriesTasks.CreatedExactlyWhenNotTaken` | backend/kairos/bookings/tasks.py:101-121 | of the occurrences a loop tried, exactly those are booked whose slots were not taken when it started |
| `CounterRuns.RollingRunStops` | backend/kairos/bookings/tasks.py:101-121 | a run after which a rolling run with one occurrence to attempt cannot complete |
| `CounterRuns.OneDateExists` | backend/kairos/bookings/tasks.py:84-95 | there is a valid series with the one occurrence that run is about |
| `RollingJob.RerunCreatesNoSecondBooking` | backend/kairos/bookings/tasks.py:101-127 | in any later run, whatever watermarks have moved, an occurrence that asks for the same booking as before is not created again while the first one stands unchanged |
| `RollingJob.RerunAsksForTheSame` | backend/kairos/bookings/tasks.py:127-129 | after a run, interrupted or not, every occurrence of every series asks for the same booking as before under the same rules |
| `Rematerialization.Nearest` | backend/kairos/bookings/tasks.py:194-197 | the chosen occurrence is at least as close as every other |
| `Rematerialization.OwnOccurrenceIsNearest` | backend/kairos/bookings/tasks.py:188-205 | a booking made from occurrence k under any earlier rules is matched to occurrence k, within the threshold |
| `Rematerialization.MovedExactlyWhenNearAnother` | backend/kairos/bookings/tasks.py:198-204 | a booking is moved if and only if it starts within two days of an occurrence it does not coincide with |
| `Rematerialization.WithinTwoDaysIsMoved` | backend/kairos/bookings/tasks.py:194-199 | a booking starting within two days of an occurrence belongs at exactly that one |
| `Rematerialization.NearbyEditIsUndone` | backend/kairos/bookings/tasks.py:194-216 | any edit that leaves a booking within two days of where its series put it is undone |
| `Rematerialization.EditIsMovedBack` | backend/kairos/bookings/tasks.py:194-216 | an input: a user moves a booking by an hour, and the next run moves it back |
| `Rematerialization.RetargetSettles` | backend/kairos/bookings/tasks.py:200-204 | a booking already moved is left where it is |
| `Rematerialization.RematerializeBooking` | backend/kairos/bookings/tasks.py:194-251 | one booking is skipped, moved, or reported as a conflict and left |
| `Rematerialization.RematerializeStaleSeries` | backend/kairos/bookings/tasks.py:145-305 | of the future bookings of stale series exactly those out of place are moved or in conflict, nothing else changes, and a series is marked current if and only if it had no conflict |
| `SeriesColumns.CandidatesInColumns` | backend/kairos/bookings/tasks.py:166-186 | a run considers exactly the confirmed bookings to come of active series marked with another version |
| `SeriesColumns.RematerializedInColumns` | backend/kairos/bookings/tasks.py:145-305 | of each booking, only its range can change: to that of the occurrence starting closest to it, when that is within two days, unless it is reported as a conflict |
| `SeriesColumns.MarkedInColumns` | backend/kairos/bookings/tasks.py:145-305 | a series gets the installed version exactly if it was active and has no conflict; nothing else about a series changes |
| `Rematerialization.RunRestoresOccurrences` | backend/kairos/bookings/tasks.py:145-305 | after a run an unedited booking equals its occurrence under the installed rules, unless reported as a conflict, and then it is unchanged |
| `Rematerialization.NextRunRetriesExactlyTheConflicts` | backend/kairos/bookings/tasks.py:152-162 | from two runs' contracts: the next run under the same version moves or reports exactly the bookings that were in conflict and are still upcoming |
| `Rematerialization.ConflictFreeRunSettles` | backend/kairos/bookings/tasks.py:166-170 | after a run without conflicts the next one changes no booking and no series under the same version, and no booking under another version with the same rules and no further stale series |
| `Rematerialization.SecondRunChangesNothing` | backend/kairos/bookings/tasks.py:200-204 | after a run without conflicts another one under the same rules changes none of the bookings it considered |
| `RecurringSeries.OccurrenceConflicts` | backend/kairos/bookings/recurring_series.py:35-51 | the read-only pass returns exactly the dates whose slot some occupying row overlaps |
| `RecurringSeries.PreviewRecurringSeries` | backend/kairos/bookings/recurring_series.py:66-156 | a preview is refused exactly outside the count limits or beyond the horizon; otherwise it lists the free dates, the conflicts and the adjustments in order, and its token carries those sets |
| `SeriesColumns.PreviewInColumns` | backend/kairos/bookings/recurring_series.py:66-156 | an occurrence is under would_create exactly if no occupying row overlaps it, else under conflicts; the token is for the previewer, the resource and the series asked for, and carries the dates of the conflicts and adjustments |
| `SeriesColumns.PreviewInTime` | backend/kairos/bookings/recurring_series.py:66-156 | a preview is refused exactly if the last occurrence starts more than 365 days from now; the token lasts fifteen minutes from the last whole second |
| `SeriesColumns.PreviewInOrder` | backend/kairos/bookings/recurring_series.py:66-156 | each list of the preview is in order of date |
| `SeriesColumns.PreviewIsWeekly` | backend/kairos/bookings/recurring_series.py:66-156 | every week of the series is in the preview, on its date and at its time |
| `RecurringSeries.ConfirmRecurringSeries` | backend/kairos/bookings/recurring_series.py:251-331 | confirm refuses exactly for a bad token or a missing acknowledgment, and then writes nothing; otherwise it books exactly the promised occurrences whose slots are not taken, in order, and accounts for every date; it is interrupted if and only if a promised slot has an expired offered hold in it and no booking, and then the series row and the bookings before the first such slot remain |
| `SeriesColumns.LeftOutAcknowledgmentBooksNothing` | backend/kairos/bookings/views.py:488-491 | from a preview and a confirm of its token: leaving out any one conflict or adjustment the preview listed leaves all bookings as they were, and in time and by the previewer it is told so |
| `SeriesColumns.ReportedIsBooked` | backend/kairos/bookings/recurring_series.py:300-327 | every booking a confirm reports is a confirmed row for the token's user, on its resource, in the new series, at the occurrence reported |
| `SeriesColumns.ConfirmOnlyAdds` | backend/kairos/bookings/recurring_series.py:300-327 | a confirm that reports adds exactly as many rows as it reports created; of those before only expired holds are gone |
| `SeriesColumns.LeftBehindIsBooked` | backend/kairos/bookings/recurring_series.py:300-327 | so is every booking an interrupted one leaves behind |
| `SeriesColumns.SeriesRowInColumns` | backend/kairos/bookings/recurring_series.py:278-289 | the series row is the previewer's, as previewed, active, and materialized through its last weekly date |
| `RecurringSeries.ConfirmOccurrence` | backend/kairos/bookings/recurring_series.py:290-329 | one turn of the loop: a known conflict is noted without an attempt; anything else is booked if and only if its slot was neither taken nor stuck when the confirm began, noted if it was taken, and left unsettled exactly when it was stuck |
| `RecurringSeries.PromisedOutcome` | backend/kairos/bookings/recurring_series.py:300-327 | what becomes of each attempt can be told from the tables before the first one, whatever was booked before it |
| `RecurringSeries.EveryDateReportedOnce` | backend/kairos/bookings/recurring_series.py:288-331 | each date is in exactly one of created, acknowledged conflict and unacknowledged conflict, and the acknowledged ones are the preview's |
| `RecurringSeries.ConfirmCreatesWhatWasPreviewed` | backend/kairos/bookings/recurring_series.py:66-331 | preview followed by a confirm in time, fully acknowledged, under the same rules, with every promised slot still free: a report whose bookings are the preview's would_create, in its order, and whose conflicts are the preview's, all acknowledged |
| `RecurringSeries.PreviewedTablesAreUndisturbed` | backend/kairos/bookings/recurring_series.py:90-91 | while no booking has changed since the preview, every slot it promised is free |
| `Idempotency.RowIsLogged` | backend/kairos/core/idempotency.py:348-363 | while the retention of an inserted row lasts, that row is the key's row |
| `Idempotency.CleanupKeepsInv` | backend/kairos/core/idempotency.py:361-364 | the cleanup keeps all protocol invariants |
| `IdempotencyTheorems.StepKeepsInv` | backend/kairos/core/idempotency.py:77-184 | every step of the protocol, crashes, lost acknowledgments and cleanups included, keeps its invariants, provided a confirm's last update finds its own row or none |
| `IdempotencyTheorems.PunctualFinishIsItsOwn` | backend/kairos/core/idempotency.py:278-292 | as it does whenever it comes within the retention period of its own claim |
| `IdempotencyTheorems.CommitsOfOneRetention` | backend/kairos/core/idempotency.py:114-184 | two commits under one key within retention come from the same request, and a one-transaction request commits once; so occurrences of one key come from one execution |
| `IdempotencyTheorems.CommittedExactlyWhenRecorded` | backend/kairos/core/idempotency.py:135-147 | within retention, a write is committed for a key if and only if its row holds a write's success response |
| `IdempotencyTheorems.CommittedWriteIsRecorded` | backend/kairos/core/idempotency.py:141-147 | within retention, the row holds that very write's response, body and claim time |
| `IdempotencyTheorems.RecordedWriteIsCommitted` | backend/kairos/core/idempotency.py:141-147 | a row that holds a success response holds it for a write that was committed, with that receipt |
| `IdempotencyTheorems.ReplaysAreVerbatim` | backend/kairos/core/idempotency.py:187-200 | within retention every later request under an answered key gets the stored response with the same body, and a key conflict with another |
| `IdempotencyTheorems.AnswerIsRepeated` | backend/kairos/core/idempotency.py:187-200 | once a request has been answered, whether it heard so or not, every repetition under its key and body within retention is told that answer, whatever happens in between |
| `IdempotencyTheorems.WriteIsRepeated` | backend/kairos/core/idempotency.py:112-200 | a write that succeeds is committed once, with its own receipt, and for 24 hours from its claim every request under its key is told that receipt with the same body, and of a key conflict with another |
| `IdempotencyTheorems.RefusalsInColumns` | backend/kairos/core/idempotency.py:112-184 | a contended, unavailable or raising request leaves nothing and is told in_progress, 503 or 500; a conflict leaves nothing but its own record to be made |
| `IdempotencyTheorems.RecordInColumns` | backend/kairos/core/idempotency.py:315-345 | a conflict is recorded under its own key, body and code, unless the key has a row again |
| `IdempotencyTheorems.ClaimInColumns` | backend/kairos/core/idempotency.py:249-275 | a recurring confirm claims a free key for its own body, now, with no response yet |
| `IdempotencyTheorems.OccurrenceInColumns` | backend/kairos/core/idempotency.py:277-277 | what it books is committed under the key and body it claimed, and changes no key |
| `IdempotencyTheorems.FinishInColumns` | backend/kairos/core/idempotency.py:278-294 | its last update puts its report in the row its key has by then, and in no other |
| `IdempotencyTheorems.OutcomeIsRepeated` | backend/kairos/core/idempotency.py:187-200 | so it is told what the request was first told as its final outcome |
| `IdempotencyTheorems.LostAcknowledgmentIsReplayed` | backend/kairos/core/idempotency.py:148-162 | a request told of an internal error because its commit was not acknowledged finds its own write, conflict or series report when repeated within retention |
| `IdempotencyTheorems.FailuresLeaveNothing` | backend/kairos/core/idempotency.py:148-162 | a step that tells its request of a failure, on either kind of endpoint, has changed nothing in the key table, the writes and the answers if and only if it is not one that committed without being acknowledged; nor has a write that died before its commit |
| `IdempotencyTheorems.UnansweredClaimIsInProgress` | backend/kairos/core/idempotency.py:297-312 | while a recurring confirm is unanswered, running or crashed, its key answers request_in_progress on that endpoint; on the others it fails the assertion or reports a key conflict |
| `IdempotencyTheorems.AssertionFailsExactlyWhen` | backend/kairos/core/idempotency.py:187-200 | a one-transaction write fails the assertion if and only if its key's row is of a confirm not answered yet, with the same body |
| `IdempotencyTheorems.ConfirmsKeyFailsWrite` | backend/kairos/core/idempotency.py:187-200 | a run of two requests that fails the assertion |
| `IdempotencyTheorems.FinishIsSafeExactlyWhenItsOwn` | backend/kairos/core/idempotency.py:278-292 | the final update leaves every row with its own request's answer if and only if it finds its own row, none, or one that already says the same |
| `IdempotencyTheorems.LateFinishOverwrites` | backend/kairos/core/idempotency.py:278-292 | a run in which a confirm that outlived its key's retention replaces the response of a committed write |
| `IdempotencyService.RunIdempotentWrite` | backend/kairos/core/idempotency.py:112-184 | claim, write and outcome in one transaction compute the protocol's step and reply, with the claim undone on every failure |
| `IdempotencyService.RecordConflictOutcome` | backend/kairos/core/idempotency.py:315-345 | the separate record of a conflict computes the protocol's step, and fails when another request has completed meanwhile |
| `IdempotencyService.ClaimForConfirm` | backend/kairos/core/idempotency.py:249-275 | the first transaction of a recurring confirm computes the protocol's step and reply |
| `IdempotencyService.RecordConfirmed` | backend/kairos/core/idempotency.py:278-294 | the last one completes whatever row the key has by then |
| `IdempotencyService.CleanupExpiredKeys` | backend/kairos/core/idempotency.py:348-370 | exactly the rows created more than 24 hours ago are deleted, and counted |
| `IdempotencyTheorems.CleanupInColumns` | backend/kairos/core/idempotency.py:348-370 | a row is deleted exactly if its key was claimed more than 24 hours ago, answered or not |
| `Client.Request` | frontend/src/api/client.ts:140-197 | at most four attempts under one key, another only after a 503; within retention a returned write means exactly one write was committed under the key, and any final response, a series report or a conflict included, is the recorded answer of one request, to which everything committed under the key belongs |
| `Client.PerformFetch` | frontend/src/api/client.ts:59-107 | a response that does not arrive is a network error; one that does is the recorded answer of one request under the key and body, and a reported write has exactly one committed write behind it |
| `Client.VerdictInColumns` | frontend/src/api/client.ts:59-107 | a call returns a success it is told of, throws the conflict or error it is told of, and a network error exactly when told nothing |
| `Client.AnswerIsTheOnlyOne` | backend/kairos/core/idempotency.py:114-184 | while every row of the key is within retention, a recorded answer is the only one, and every commit under the key is of the request that got it |
| `RateLimit.TokenBucket.Check` | backend/kairos/core/rate_limit.py:122-147 | the check decides, charges and tells the wait as if keys were never dropped; when Redis is away it allows and records nothing |
| `RateLimit.RunScript` | backend/kairos/core/rate_limit.py:61-99 | the script refills, decides, charges and computes retry_after as specified |
| `RateLimit.StateIsSound` | backend/kairos/core/rate_limit.py:72-88 | tokens stay between zero and the capacity over any calls at any clock readings |
| `RateLimit.GrantedInAnyInterval` | backend/kairos/core/rate_limit.py:76-88 | with a monotone clock, the tokens granted over any stretch of any history are at most the capacity plus the refill of its length |
| `RateLimit.GrantedPerWindow` | backend/kairos/core/rate_limit.py:112-120 | that is: granted times window is at most capacity times window plus length |
| `RateLimit.AllowsExactlyWhen` | backend/kairos/core/rate_limit.py:76-88 | a request is allowed if and only if it is within the capacity, and times window within tokens times window plus the time passed times capacity |
| `RateLimit.TokensLeft` | backend/kairos/core/rate_limit.py:76-88 | what is left, times window, is that stock up to capacity times window, less what was taken |
| `RateLimit.RetryAfterIsExact` | backend/kairos/core/rate_limit.py:93-97 | after a denial, waiting m whole seconds alone suffices if and only if the request fits the capacity and m is at least the retry_after given |
| `RateLimit.WaitingIsEnoughExactlyWhen` | backend/kairos/core/rate_limit.py:93-97 | that is: m seconds are enough if and only if the request times window is at most the tokens times window plus m times capacity, and retry_after is the least such m |
| `RateLimit.DroppedTellsTheSame` | backend/kairos/core/rate_limit.py:117-120 | a key idle for two windows cannot be told from one that was dropped |
| `Offboarding.ResourceAdminFor` | backend/kairos/identity/services.py:61-75 | the administrator is the holder of the earliest grant by (granted_at, id), absent exactly when there is none |
| `Offboarding.DeactivateUser` | backend/kairos/identity/services.py:98-286 | only the first call does anything; it settles bookings, releases offers and withdraws entries as specified, and the counters count exactly those rows |
| `Offboarding.CountsAddUp` | backend/kairos/identity/services.py:143-198 | transferred plus cancelled plus retained is the number of the target's future one-off confirmed bookings |
| `OffboardingColumns.CountsInColumns` | backend/kairos/identity/services.py:143-239 | each counter is the number of rows it speaks of, told from the tables before |
| `OffboardingColumns.FlaggedInColumns` | backend/kairos/identity/services.py:240-265 | the series flagged are the target's active ones, each with the number of its confirmed bookings to come |
| `Offboarding.BookingsAfterwards` | backend/kairos/identity/services.py:143-198 | every booking row is left in one stated way: a transfer changes only the owner, rows not concerned change only as released holds |
| `OffboardingColumns.BookingsInColumns` | backend/kairos/identity/services.py:143-239 | a confirmed one-off booking of the target that has not begun is settled by its resource's policy, to the user of the earliest grant if it is to transfer; a hold with an active offer to the target is cancelled; every other row is as before, bookings of a series included |
| `Offboarding.StillTheirsExactlyWhen` | backend/kairos/identity/services.py:148-166 | the target keeps a concerned booking if and only if the resource's policy retains it, or would transfer it and nobody administers the resource or the earliest grant is the target's own |
| `Offboarding.TransferGoesTo` | backend/kairos/identity/services.py:61-75 | a transfer goes to a user if and only if the resource's earliest grant by (granted_at, id) is theirs |
| `Offboarding.TransferredBackToTheLeaver` | backend/kairos/identity/services.py:148-166 | an input on which offboarding transfers a booking to the user it deactivates |
| `Offboarding.NothingLeftInTheQueue` | backend/kairos/identity/services.py:200-239 | afterwards the target has no active offer and no waiting entry |
| `OffboardingColumns.OffersInColumns` | backend/kairos/identity/services.py:200-225 | exactly the active offers to the target are declined |
| `OffboardingColumns.EntriesInColumns` | backend/kairos/identity/services.py:200-239 | exactly the entries of those offers lapse, exactly the target's other waiting entries are withdrawn |
| `Offboarding.CascadesPassThemBy` | backend/kairos/waitlist/services.py:84-101 | no cascade, in whatever order they run, offers anything to a user without waiting entries |
| `Pagination.ListBookings` | backend/kairos/bookings/views.py:198-235 | the list view returns the page of its filtered rows in either direction, with the cursor that continues it |
| `Pagination.PageInColumns` | backend/kairos/bookings/views.py:198-235 | every row on a page passes the filter and comes after the cursor, in order, at most 20, or as many as asked for up to 100; a row that passes, after the cursor, is on it unless the page hands on a cursor before that row |
| `Pagination.CursorMeansMore` | backend/kairos/bookings/views.py:205-228 | a cursor is handed on only when a row is left to list |
| `Pagination.RowsInOrder` | backend/kairos/bookings/views.py:205-228 | the rows of a page are by start, past ones latest first, the lower id first among equals |
| `Pagination.PageIsTheStretch` | backend/kairos/bookings/views.py:205-228 | a page holds exactly the rows between its cursor and the next; with a next cursor it is non-empty, ends there, and advances strictly |
| `Pagination.PagesConcatenate` | backend/kairos/bookings/views.py:219-228 | on unchanging rows the pages concatenate to the sorted list |
| `Pagination.StableRowsReturnedOnce` | backend/kairos/core/pagination.py:1-8 | under arbitrary changes between pages, a row there with the same key throughout a completed walk is returned exactly once |
| `Pagination.NoKeyTwice` | backend/kairos/core/pagination.py:1-8 | under arbitrary changes no key is on two pages of a walk, completed or not |
| `Pagination.ParseLimit` | backend/kairos/core/pagination.py:44-55 | the limit is refused exactly when not an integer or below one, and is otherwise between 1 and 100 |

## Left out

- HTTP views, serializers, routing, authorization, settings, Celery and Redis wiring, e-mail, logging, heartbeats and metrics: plumbing around the modelled functions.
- JWT and OIDC, token signing and SHA-256: a token comes back as issued, and a request body stands for its own hash.
- PostgreSQL's own mechanisms (GiST, lock waits, deadlock detection): a transaction commits in one step, is refused by a constraint, or is rolled back; which of them lock timeouts cause is not modelled.
- Delivery of cascades after a commit: a cascade is an event that may or may not follow, so nothing is promised about liveness.
- The audit trigger and the history view: their order depends on transaction timestamps.
- Cursor text: a cursor is the pair it encodes.
- The React interface and the scripts.
- RunTheorems.OffersReserve: says nothing of an offer's range against its hold's range, which an edit of a held row can change.
- WaitlistService.ReapExpiredHolds: the last clause is for a sweep run alone, with a positive window, on tables where no held range was edited; CounterRuns.EditedHoldEndsSweep shows what an edit does, where the outcome depends on the order of the holds.
- WaitlistService.CreateOfferForFreedRange: run alone the whole loop reads one clock value and one candidate list; as separate commits with a stale list it is in Interleaving.
- RollingJob.RollingMaterializeSeries: one clock reading serves all attempts of a run, the run is alone on the tables, and the number of series extended is not counted.
- Rematerialization.RematerializeStaleSeries: runs to completion and alone; a 503 in the middle is not modelled, nor are the notifications.
- RecurringSeries.ConfirmRecurringSeries: the weekday travels in the token but decides nothing, so it is not modelled; all attempts read one clock value, and nothing else writes between them.
- IdempotencyTheorems.CommitsOfOneRetention: runs are those in which a recurring confirm's last update finds its own row or none; LateFinishOverwrites shows why.
- Client.Request: the server side of an attempt is a one-transaction write, so a series report can only be a replay; waits between attempts, abort signals and the unauthorized handler are not modelled.
- RateLimit.TokenBucket.Check: tokens are exact reals, not the decimal text Redis stores, and Redis expires keys by the clock the caller passes.
- Offboarding.DeactivateUser: run alone, in one transaction; notifications and the order of rows within a loop are not modelled.
- Pagination.ListBookings: the filter is fixed during a walk, although the upcoming and past filters move with the clock.
- Transfers of held rows: the only caller transfers confirmed bookings, so a transfer in Interleaving leaves held rows alone.
- Zones: offsets are under 24 hours and transitions at least a week apart; dates have no smallest or largest value.
