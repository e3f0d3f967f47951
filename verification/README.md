# Booking core: a Dafny model

This project models the booking core of a coaching calendar and proves properties of it. Coaches publish
weekly hours and date overrides; clients see free slots, book them, move them and cancel them; bookings held
over Google Meet get a calendar event from a queued job; coaches sign in with tokens that can be revoked.

Instants are integer milliseconds. A business timezone is a fixed offset per coach, so every day has 1440
minutes. A day is the number of days after 0000-01-01; its ISO text is built from the civil date.

| file | what it holds |
|---|---|
| `Domain.dfy` | instants, business days, intervals, the stored rows |
| `Calendar.dfy` | civil dates, ISO text, JavaScript string order, the test of the batched day loop |
| `Availability.dfy` | the single-date and the batched schedule lookup, the schedule check of a request |
| `AvailabilityAdmin.dfy` | creating and partially updating override and weekly rows |
| `Slots.dfy` | the slot calculator and the declarative meaning of its answer |
| `BookingRules.dfy` | the checks of a create and a reschedule, and their agreement with the slots on offer |
| `SerializableRetry.dfy` | the retry loop around a serializable transaction |
| `BookingProtocol.dfy` | any number of concurrent requests as interleaved steps; no double booking |
| `RequestOutcomes.dfy` | the attempts of a request in the protocol are a run of that retry loop |
| `ScheduleRaces.dfy` | exactly what the schedule check of a booking does not promise |
| `CommittedRows.dfy` | what a committed request stores, over every run; requests that meet no other |
| `MeetJobs.dfy` | booking rows, calendar events and notification jobs as one state machine |
| `BookingDesk.dfy` | the same as an object updated in place, tied to the state machine |
| `Sessions.dfy` | session revocation and password reset |
| `OriginCache.dfy` | the allowed-origin cache of many instances over one table |
| `Catalogue.dfy` | the display order of event types |

## What the proofs say

- No double booking. The protocol lets requests, cancellations, Meet-field updates, schedule edits and
  event-type edits interleave in any order. All that is assumed of the database is that an abort has no effect
  and that two concurrent committed serializable transactions never each wrote a row matching the other's
  overlap query, nor the same row. A write "matches" when its new row version satisfies the query.
- A create that commits leaves the confirmed booking that was asked for, and a reschedule moves its booking and
  changes nothing else of it, whatever happened in between. A request that meets no other decides exactly as the
  checks of `BookingRules.dfy` say.
- Slots and bookings agree. The calculator's answer is exactly the set of grid slots a reader would define
  without its pre-filter, and create accepts exactly those of them that do not end at 24:00.
- The batched schedule lookup refines the single-date one, for every order in which queries return rows.
- A request of the protocol is active, committed or failed exactly as the retry loop is running, has returned or
  has thrown.
- A booking has exactly one live event more than steps leaked one of its own, or exactly as many when its row
  holds none, over every run.
- Meet events, jobs, sessions, the origin cache and the catalogue have their own theorems over whole runs.

## Where the code does less than it seems to

Each point names a lemma with a concrete input or run, and one that says for every input when the property holds.

- `README.md:301-304` of the repository says the availability check is inside the serializable transaction.
  The code passes it no transaction client, so any request can commit outside the schedule of its commit state
  (`CommitCanBeOutsideCurrentSchedule`). The check is also two queries: a request can commit although no state
  since its start offered its interval (`CommitFittingNoState`), if and only if its interval does not fit the
  schedule at its start (`CommitFittingNoStateIff`). `CommitWasScheduled` says what every commit does rest on.
- A slot that ends at 24:00 is offered and then refused (`LastSlotOfDayIsRefused`, `OfferedSlotIsAcceptedIff`). A
  slot offered for a reschedule vouches for the event type's current duration only; a booking made when it was
  longer can be refused there (`ShortenedDurationRefusesOffer`), exactly when it leaves its day, its range or the
  free time (`OfferedSlotAcceptsReschedule`).
- `src/slots/slots.service.ts:61-63` means to keep clients from booking inside the notice window, but create does
  not test it (`CreateInsideNoticeIsAccepted`). What create accepts is a slot on offer exactly when it is on the
  grid and not before the cutoff (`AcceptedIsOfferedIff`).
- Overlapping or identical schedule rows are accepted, and then a slot can be listed twice
  (`IdenticalRowsListSlotTwice`), exactly when two ranges of a day share a kept slot (`AllSlotsDistinctIff`).
- `deleteEvent` is documented as never failing a reschedule, but obtaining the calendar client is outside its
  error handling. Then the new time is committed, the old event stays, and no job is queued
  (`LostClientLeavesStaleEvent`, exactly when: `EventFollowsBookingIff`).
- A queued job does not look at the booking's status, so a cancelled booking can still get an event
  (`CancelledBookingGetsEvent`, exactly when: `CancelledCanGetEventIff`).
- The batched day loop compares ISO texts. It stops after the last requested day if and only if that day is not
  9999-12-31 (`LoopPassesLastFourDigitDay`, `LoopStopsAfterLastDayIff`). Past that year it finds no overrides,
  because their keys are cut to ten characters (`LaterDayOffIsMissed`, `BatchedRowsAreSingleRows`), and a range
  that crosses into the year 10000 has no slots (`CrossingRangeHasNoSlots`, `SlotsOfKind`).
- A revocation stamped before an earlier one can revive a token (`OlderStampRevivesToken`, exactly when:
  `StaysRevokedIff`).
- A session opened by a password reset survives a revocation up to the end of the second after it
  (`PinnedTokenSurvivesQuickRevocation`, `PinnedTokenRevokedIff`); a login in the same second as a revocation,
  after it, is rejected (`LoginInRevocationSecondIsRejected`, `DefaultTokenRejectedIff`).

## Model

| member | source | states |
|---|---|---|
| Domain.OverlapIsSharedInstant | src/bookings/bookings.service.ts:412-420 | the overlap query's condition is exactly a shared instant of two half-open intervals, and is symmetric |
| Calendar.WeekdaysFollow | src/availability/availability.service.ts:17-19 | the weekday of the next day is the next weekday, Sunday being followed by Monday |
| Calendar.WeekdayAnchor | src/availability/availability.service.ts:17-19 | 1 January 1970 was a Thursday, which fixes the weekday of every date |
| Calendar.DayNumberOfCivil | src/availability/availability.service.ts:105-110 | counting dates day by day gives the closed form of the Gregorian day number, leap years included |
| Calendar.CivilOfDayNumber | src/availability/availability.service.ts:105-110 | the round trip back: each date is that of its number |
| Calendar.TextExamples | src/availability/availability.service.ts:105-112 | the ISO texts of 1 January 1970 and of 1 January 10000 |
| Calendar.LoopTestExact | src/availability/availability.service.ts:105-110 | the text comparison of the day loop is chronological between two four-digit years and between two later ones; a later day passes any four-digit bound and no four-digit day passes a later one |
| Calendar.LoopStopsAfterLastDayIff | src/availability/availability.service.ts:105-110 | the day loop's test fails on the day after `to` if and only if `to` is not 9999-12-31 |
| Calendar.LoopPassesLastFourDigitDay | src/availability/availability.service.ts:105-110 | there is a day 9999-12-31, and with it as the last day the loop goes on |
| Calendar.IsoTextInjective | src/availability/availability.service.ts:82-91 | two dates with the same map key are the same date |
| Availability.EffectiveRangesMeaning | src/availability/availability.service.ts:30-58 | overrides of a date hide the weekly schedule, one unavailable override hides everything, and every range is well formed |
| Availability.SingleLookup | src/availability/availability.service.ts:30-58 | the single-date lookup yields the coach's effective ranges as a multiset, in whatever order its queries return rows |
| Availability.GroupBy | src/availability/availability.service.ts:82-102 | the grouping loops collect under each key exactly the rows with that key, in row order |
| Availability.BatchedRowsAreSingleRows | src/availability/availability.service.ts:72-102 | a date range query followed by grouping selects exactly the rows of the single-date queries, except that no override is found past the year 9999 |
| Availability.LaterDayOffIsMissed | src/availability/availability.service.ts:82-91 | a day off past the year 9999 hides the weekly hours from the single-date lookup and not from the batched one |
| Availability.GetEffectiveRangesForDateRange | src/availability/availability.service.ts:66-128 | for every pair of dates, the keys are exactly the dates the loop visits (first to last, past 9999-12-31 when that is the last), and each date up to the year 9999 holds the same multiset of ranges as the single-date lookup |
| Availability.WithinRangeIsContainment | src/availability/availability.service.ts:137-146 | comparing the truncated start minute and the fractional end minute is containment of the exact millisecond interval |
| AvailabilityAdmin.ChecksAreExact | src/availability/availability-override.service.ts:24-73 | create and update refuse exactly the rows that would break the row invariant, and so does the weekly check |
| AvailabilityAdmin.NewOverrideFields | src/availability/availability-override.service.ts:24-45 | a created override holds the fields of the body, "available" by default and without minutes when unavailable |
| AvailabilityAdmin.OverrideMerge | src/availability/availability-override.service.ts:55-62 | field by field, what the body of an update says wins and the stored value stays otherwise; an unavailable row has no minutes |
| AvailabilityAdmin.WeeklyMerge | src/availability/weekly-availability.service.ts:36-44 | the same for a weekly row |
| AvailabilityAdmin.AvailabilityOverrideService.Create | src/availability/availability-override.service.ts:20-46 | accepts exactly the bodies that make a valid row, and then adds that row and nothing else |
| AvailabilityAdmin.AvailabilityOverrideService.Update | src/availability/availability-override.service.ts:48-84 | merges the body into the stored row exactly when the caller owns it or is an admin and the merged row is valid |
| AvailabilityAdmin.WeeklyAvailabilityService.Create | src/availability/weekly-availability.service.ts:19-27 | accepts exactly the valid weekly rows |
| AvailabilityAdmin.WeeklyAvailabilityService.Update | src/availability/weekly-availability.service.ts:29-45 | merges the body into the stored row exactly when the caller may and the merged range is valid |
| AvailabilityAdmin.RunKeepsRowsValid | src/availability/availability-override.service.ts:48-84 | every stored row keeps the row invariant through any interleaving, an update's read and write being separate steps |
| AvailabilityAdmin.LaterWriteLosesEarlier | src/availability/availability-override.service.ts:53-83 | of two updates that both read the row first, the later write leaves nothing of the earlier |
| AvailabilityAdmin.LaterWeeklyWriteLosesEarlier | src/availability/weekly-availability.service.ts:34-44 | the same for weekly rows |
| AvailabilityAdmin.CreatesAndRemoves | src/availability/weekly-availability.service.ts:19-50 | a create stores a valid row and a removal takes it away, and no other row changes |
| AvailabilityAdmin.ReachableLookupsAreWellFormed | src/availability/availability.service.ts:44-47 | after any sequence of requests both lookups are defined and yield only well-formed ranges, so the non-null assertions are safe |
| Slots.GridShape | src/slots/slots.service.ts:93-98 | the grid of a range has floor((end - start) / duration) slots, one after the other, disjoint, leaving less than one duration |
| Slots.OnGridIff | src/slots/slots.service.ts:93-109 | a grid slot starts a whole number of durations after the range's start, lasts one duration and ends within the range |
| Slots.PrefilterLosesNothing | src/slots/slots.service.ts:67-78 | a booking that overlaps a slot of a queried day always passes the date pre-filter |
| Slots.FreeMeansNoSharedInstant | src/bookings/bookings.service.ts:412-420 | an interval is free exactly when it shares no instant with a confirmed booking of that coach, other than the excluded one |
| Slots.AllSlotsMeaning | src/slots/slots.service.ts:88-131 | the loops emit exactly the grid slots of the queried days that survive the cutoff and conflict tests |
| Slots.AllSlotsInDayOrder | src/slots/slots.service.ts:88-131 | slots are listed in the order of their days |
| Slots.RangeSlotsAscend | src/slots/slots.service.ts:93-131 | and inside a range each starts at or after the end of the one before |
| Slots.AllSlotsDistinctIff | src/slots/slots.service.ts:88-131 | no slot is listed twice if and only if on no queried day two ranges share a slot that passes the filters |
| Slots.AllSlotsDistinct | src/slots/slots.service.ts:88-131 | in particular when the ranges of each day do not overlap |
| Slots.IdenticalRowsListSlotTwice | src/availability/weekly-availability.service.ts:19-27 | two identical weekly rows, which the service accepts, make the list hold a slot twice |
| Slots.CollectSlots | src/slots/slots.service.ts:88-133 | the nested loops produce the specified sequence, in day, range and grid order |
| Slots.SlotsOfKind | src/slots/slots.service.ts:64-133 | the answer is exactly the offered slots: on the grid, not before the cutoff, disjoint from every confirmed booking of the coach at any time; past the year 9999 with the rows the lookup still sees |
| Slots.CrossingRangeHasNoSlots | src/slots/slots.service.ts:80-91 | a range of dates from the year 9999 or before into a later one yields no slot |
| Slots.ComputeSlots | src/slots/slots.service.ts:31-134 | each error exactly when its check fails, and otherwise exactly the offered slots |
| BookingRules.ScheduleCheckIsExact | src/bookings/bookings.service.ts:391-410 | the schedule check passes if and only if the millisecond interval lies inside an effective range of its day |
| BookingRules.CreateAcceptsIff | src/bookings/bookings.service.ts:95-134 | create accepts exactly the requests that are active, offered, not past, inside one day, inside the schedule and disjoint from confirmed bookings, and books the requested interval |
| BookingRules.CreateErrors | src/bookings/bookings.service.ts:95-124 | which check a refused create failed: each error holds exactly when its check is the first to fail |
| BookingRules.OfferedSlotIsAcceptedIff | src/bookings/bookings.service.ts:118-134 | in an unchanged state, an offered slot is accepted as offered unless it ends at 24:00, when it is refused as spanning two days |
| BookingRules.LastSlotOfDayIsRefused | src/bookings/bookings.service.ts:366-379 | a slot from 23:30 to 24:00 that is on offer and that create refuses |
| BookingRules.AcceptedIsOfferedIff | src/slots/slots.service.ts:61-66 | what create accepts is a slot on offer exactly when it is on the grid of an effective range and not before the cutoff |
| BookingRules.CreateInsideNoticeIsAccepted | src/bookings/bookings.service.ts:95-134 | a create inside the notice window, at a grid slot that is not on offer, is accepted |
| BookingRules.RescheduleAcceptsIff | src/bookings/bookings.service.ts:231-280 | a reschedule accepts exactly the confirmed bookings outside the notice window whose moved interval is not past, inside one day, inside the schedule and disjoint from other confirmed bookings, and keeps the length |
| BookingRules.RescheduleErrors | src/bookings/bookings.service.ts:231-262 | likewise for a refused reschedule |
| BookingRules.CheckSlotDecides | src/bookings/bookings.service.ts:399-423 | inside the transaction: outside the schedule, else already booked, else accepted |
| BookingRules.OfferedSlotAcceptsReschedule | src/bookings/bookings.service.ts:257-280 | what moving a booking of any length to a slot offered for it decides: accepted exactly when it stays in its day, fits a range and nothing else starts between the slot's end and its own; up to the current duration only the end at 24:00 refuses it |
| BookingRules.ShortenedDurationRefusesOffer | src/bookings/bookings.service.ts:257-262 | with a duration shortened after booking, a concrete offered slot is refused |
| SerializableRetry.RunSerializable | src/common/serializable-transaction.util.ts:14-34 | at most 3 attempts, retries only after P2034, returns exactly when an attempt committed and then keeps exactly that effect, never reaches its closing throw |
| RequestOutcomes.RequestFollowsRetryLoop | src/bookings/bookings.service.ts:126-153 | over every run, the attempts of a request are a run of the retry loop, and it is committed, with the loop's effect in the log, exactly when the loop returned |
| BookingProtocol.CommitIsDisjoint | src/bookings/bookings.service.ts:412-423 | a committing request's interval is disjoint from every other confirmed booking of the coach, by the two-way conflict rule |
| BookingProtocol.StepKeepsInv | src/bookings/bookings.service.ts:126-153 | every step of every request, and every plain write, keeps the protocol invariant |
| BookingProtocol.NeverDoubleBooked | src/bookings/bookings.service.ts:264-280 | in every reachable state no two confirmed bookings of one coach share an instant |
| BookingProtocol.BookingsKeepDayAndLength | src/bookings/bookings.service.ts:366-379 | in every reachable state each booking lies inside one business day, was made by exactly one create and has the length that create was given |
| BookingProtocol.MinutesAreThoseAtStart | src/bookings/bookings.service.ts:123-124 | that length is the event type's duration when the create started, whatever edits follow |
| BookingProtocol.QueryOverridesDecides | src/availability/availability.service.ts:36-48 | the first schedule query ends the check exactly when the date has an override, and then accepts exactly what fits |
| BookingProtocol.QueryWeeklyDecides | src/availability/availability.service.ts:50-57 | the second accepts exactly what fits the overrides of the first with the weekly rows of now |
| CommittedRows.CommitWrites | src/bookings/bookings.service.ts:136-152 | a commit changes one row: a create adds a confirmed one, a reschedule replaces the interval of its booking and nothing else of it |
| CommittedRows.CommitLogs | src/bookings/bookings.service.ts:275-279 | the logged entry of a commit is the row it wrote |
| CommittedRows.CreateStores | src/bookings/bookings.service.ts:126-153 | over every run, an entry of a create is the confirmed booking asked for: coach, interval and duration of the event type at its start, and the requested location |
| CommittedRows.RescheduleStores | src/bookings/bookings.service.ts:257-280 | over every run, an entry of a reschedule moves its booking to the requested start with the length it had |
| CommittedRows.PlainWrites | src/bookings/bookings.service.ts:293-301 | a cancellation sets only the status of its row, a Meet-field update only the Meet fields |
| CommittedRows.AbortsStartOver | src/common/serializable-transaction.util.ts:19-32 | an attempt ended by P2034 leaves nothing but its number; after the third, or any other error, the request has failed |
| CommittedRows.CreateAloneDecides | src/bookings/bookings.service.ts:91-153 | from any reachable state, a create that meets no other request stores its booking exactly when its checks accept it, and changes no row otherwise |
| CommittedRows.RescheduleAloneDecides | src/bookings/bookings.service.ts:231-280 | likewise a reschedule that meets no other request |
| BookingProtocol.CommitsAtMostOnce | src/common/serializable-transaction.util.ts:19-32 | through retries and failures each request commits at most once, and the log holds exactly the committed requests |
| BookingProtocol.ReachableBookingsStayInDays | src/slots/slots.service.ts:67-78 | what the slot pre-filter relies on holds in every reachable state |
| BookingProtocol.CommitWasScheduled | src/bookings/bookings.service.ts:399-410 | every commit fitted the overrides and weekly rows its two queries read; if it fitted no state since its start, an override appeared and the weekly rows changed between them; it fits the commit state unless those rows of its coach and day changed |
| ScheduleRaces.CommitFittingNoStateIff | src/availability/availability.service.ts:131-141 | from any reachable state, a request that starts there can commit with no state since its start offering its interval, if and only if its interval does not fit the schedule at its start; edits of one row at a time by its coach are enough |
| ScheduleRaces.CommitFittingNoState | src/availability/availability.service.ts:131-141 | a run from an empty calendar whose booking commits although no state of the schedule ever offered it |
| ScheduleRaces.CommitCanBeOutsideCurrentSchedule | src/availability/availability.service.ts:131-141 | from any reachable state, every request that starts there can commit outside the schedule of the state it commits in, by edits of one row at a time by its coach |
| MeetJobs.CreateWrites | src/bookings/bookings.service.ts:136-163 | a create adds its confirmed row without Meet fields and one pending confirmed job |
| MeetJobs.RescheduleWrites | src/bookings/bookings.service.ts:264-307 | a reschedule moves the row for every location and deletion outcome; Meet fields are cleared, the event dropped and the job queued exactly when the code gets there |
| MeetJobs.CancelWrites | src/bookings/bookings.service.ts:315-335 | a cancellation whose deletion succeeds takes exactly that event away, marks the row and queues the job; without a client it changes nothing |
| MeetJobs.AttemptSettles | src/jobs/notification-jobs.service.ts:80-130 | an attempt completes its job exactly when the booking is gone or link step and mail both succeeded; else it is retried, up to three times |
| MeetJobs.AttemptWrites | src/jobs/notification-jobs.service.ts:141-164 | an event is created at the booking's current interval exactly for a Meet booking without a link, and saved on its row unless the attempt died |
| MeetJobs.StepIsCoherentIff | src/bookings/bookings.service.ts:282-301 | a request or job attempt keeps rows and events coherent if and only if it is not a reschedule to another interval that finds no calendar client |
| MeetJobs.EventFollowsBookingIff | src/bookings/bookings.service.ts:282-301 | booking by booking, over every run: the event a confirmed booking names is at its current interval in all states if and only if no step of the run was such a reschedule of that booking |
| MeetJobs.ReachableEvents | src/jobs/notification-jobs.service.ts:141-164 | over every run, a booking has exactly as many live events as its own swallowed deletes and attempts that died unsaved, plus one if its row holds one; a confirmed booking with an event id always holds it |
| MeetJobs.LostClientLeavesStaleEvent | src/bookings/bookings.service.ts:292-301 | a run that leaves a confirmed booking with an event at its old interval and no job to repair it |
| MeetJobs.StepKeepsPromises | src/jobs/notification-jobs.service.ts:100-129 | a confirmed Meet booking without a link always has a confirmed or rescheduled job pending or exhausted |
| MeetJobs.DrainedQueueMeansLinks | src/jobs/notification-jobs.service.ts:46-78 | a confirmed Meet booking none of whose confirmed and rescheduled jobs is pending or exhausted has its link |
| MeetJobs.CancelledCanGetEventIff | src/jobs/notification-jobs.service.ts:88-104 | a cancelled booking without a live event can get one later exactly when it has no link and such a job is still pending |
| MeetJobs.CancelledBookingGetsEvent | src/jobs/notification-jobs.service.ts:88-104 | a run from the empty world that gives a cancelled booking a live event |
| MeetJobs.CancelledEvents | src/bookings/bookings.service.ts:320-325 | over every run, the live events of a cancelled booking are as many as were leaked plus those an attempt saved after its cancellation |
| MeetJobs.ReachableAnnouncements | src/bookings/bookings.service.ts:159-163 | in every reachable world each booking has exactly one confirmed job, and exactly one cancelled job if and only if it is cancelled |
| MeetJobs.AttemptsAreBounded | src/jobs/notification-jobs.service.ts:46-63 | over any run a job is attempted at most as often as it has attempts left, and is exhausted only after all of them |
| MeetJobs.NewJobGetsFourAttempts | src/jobs/notification-jobs.service.ts:48-52 | from its queueing on, a job is attempted at most 4 times over any run, and exhausted only by the fourth |
| BookingDesk.Desk.Create | src/bookings/bookings.service.ts:91-169 | decides as specified, and on acceptance adds the confirmed row and its job, nothing else |
| BookingDesk.Desk.CancelByClient | src/bookings/bookings.service.ts:171-197 | cancels exactly the confirmed bookings outside the notice window, or changes nothing |
| BookingDesk.Desk.CancelByCoach | src/bookings/bookings.service.ts:199-229 | cancels exactly the confirmed bookings the caller owns or administers, or changes nothing |
| BookingDesk.Desk.RescheduleByClient | src/bookings/bookings.service.ts:231-313 | decides as specified, moves the row to the requested start with its length, drops the old event and queues the job; without a calendar client it fails with the move committed |
| BookingDesk.Desk.ApplyCancellation | src/bookings/bookings.service.ts:315-335 | a deletion that succeeds removes the event; the row is marked cancelled and the job queued, or the call fails with nothing changed |
| BookingDesk.Desk.AssertSlotIsBookable | src/bookings/bookings.service.ts:381-424 | the schedule test first, then the overlap test, with their two errors |
| BookingDesk.Desk.EnsureMeetLink | src/jobs/notification-jobs.service.ts:141-164 | creates and saves an event only for a Meet booking without a link, and says what each failure leaves behind |
| BookingDesk.Desk.Process | src/jobs/notification-jobs.service.ts:80-130 | one attempt is one step: link, then email, then completed, retried or exhausted |
| BookingDesk.Desk.Enqueue | src/jobs/notification-jobs.service.ts:65-78 | adds one pending job under a fresh id |
| Sessions.CoachAccount.RevokeSessions | src/coaches/coaches.service.ts:161-168 | stamps the account with the current millisecond |
| Sessions.CoachAccount.CanActivate | src/auth/jwt-auth.guard.ts:18-47 | passes exactly the present, unexpired tokens not issued before the stamp |
| Sessions.CoachAccount.ResetPassword | src/auth/auth.service.ts:97-140 | succeeds exactly for a redeemable reset token, then sets the new hash and the stamp and returns the pinned token; otherwise nothing changes |
| Sessions.PasswordIsLastSet | src/auth/auth.service.ts:115-120 | over any run, the password is that of the last successful redemption or password change |
| Sessions.TokenLife | src/auth/token.service.ts:16-27 | an access token lives 30 days and a reset token one hour, in whole seconds from its issue |
| Sessions.FreshTokenRedeemsIff | src/auth/token.service.ts:162-182 | on an account never revoked, exactly reset tokens redeem, and only within their hour |
| Sessions.StampNeverDecreases | src/auth/auth.service.ts:116-120 | with a monotone clock the revocation stamp never decreases, over any run |
| Sessions.RevokedForever | src/auth/jwt-auth.guard.ts:35-43 | a token signed before a revocation is rejected ever after |
| Sessions.RejectedStaysRejected | src/auth/jwt-auth.guard.ts:35-43 | a rejected token never becomes accepted again |
| Sessions.StaysRevokedIff | src/auth/jwt-auth.guard.ts:35-43 | whatever the order of the stamps, a revoked token stays revoked throughout a run if and only if every stamp the run writes is past its issue second |
| Sessions.OlderStampRevivesToken | src/coaches/coaches.service.ts:161-166 | without the order of stamps, a rejected token is accepted again: two revocations written in the opposite order of their stamps |
| Sessions.DefaultTokenRejectedIff | src/auth/jwt-auth.guard.ts:35-43 | a default token is rejected exactly when the revocation came after the start of its second |
| Sessions.LoginInRevocationSecondIsRejected | src/auth/jwt-auth.guard.ts:35-43 | a login 100 ms after a revocation gets a token that is already rejected |
| Sessions.ResetTokenPasses | src/auth/auth.service.ts:133-139 | the token of a reset passes the guard and its pinned time exceeds the stamp by 1 to 1000 ms |
| Sessions.PinnedTokenRevokedIff | src/auth/auth.service.ts:124-138 | a later revocation rejects the pinned token exactly when it is stamped past the next second |
| Sessions.PinnedTokenSurvivesQuickRevocation | src/auth/auth.service.ts:124-138 | a revocation half a second after a reset leaves the reset's session alive |
| Sessions.RedeemsAtMostOnce | src/auth/auth.service.ts:100-120 | over any run whose redemptions of it come after the first millisecond of its signing second, whatever else happens when, a reset token redeems at most once |
| Sessions.ReplayPossibleIff | src/auth/auth.service.ts:109-114 | a redeemed token is redeemable again, at any later time before it expires, exactly when it was redeemed in the first millisecond of its own second |
| OriginCache.AllowedOriginsService.Check | src/allowed-origins/allowed-origins.service.ts:57-58 | answers from the copy exactly when the machine's instance does, with the same answer |
| OriginCache.AllowedOriginsService.Read | src/allowed-origins/allowed-origins.service.ts:59-61 | the query is the machine's read step, and changes no copy |
| OriginCache.AllowedOriginsService.Install | src/allowed-origins/allowed-origins.service.ts:62-65 | replaces the copy as the machine's install step does, and gives the answer that step records |
| OriginCache.AllowedOriginsService.Invalidate | src/allowed-origins/allowed-origins.service.ts:45-52 | drops the copy as the machine's step after an own write does |
| OriginCache.StepKeepsInv | src/allowed-origins/allowed-origins.service.ts:35-66 | every copy was the table within the query latency before its install, and every answer stays justified |
| OriginCache.AnswersAreRecent | src/allowed-origins/allowed-origins.service.ts:57-66 | across any number of instances, every answer is the table's membership at an instant at most 60000 ms plus the latency earlier |
| OriginCache.AnswersCanBeThatOld | src/allowed-origins/allowed-origins.service.ts:57-66 | the bound is tight for every latency: a run whose answer matches no table later than exactly 60000 ms plus the latency before it |
| OriginCache.OwnWriteIsSeenIff | src/allowed-origins/allowed-origins.service.ts:45-52 | after its own write an instance can still answer from before it exactly when one of its queries was in flight across the write |
| OriginCache.OwnAddTakesEffect | src/allowed-origins/allowed-origins.service.ts:35-48 | an instance that adds an origin and, after whatever happens meanwhile, drops its copy with no query from before the write still in flight, answers "allowed" for it from then on, until someone removes it |
| OriginCache.OwnRemoveTakesEffect | src/allowed-origins/allowed-origins.service.ts:50-54 | likewise an instance that removes an origin answers "not allowed" for it from then on, until someone adds it |
| Catalogue.LengthTestIff | src/event-types/event-types.service.ts:114-123 | the length test accepts exactly the lists of pairwise distinct, owned ids |
| Catalogue.EventTypes.Create | src/event-types/event-types.service.ts:34-52 | a default position is past every position of the coach |
| Catalogue.EventTypes.Reorder | src/event-types/event-types.service.ts:114-135 | an accepted list places each id at its index and changes nothing else; a refused one changes nothing |
| Catalogue.DefaultCreateListsLast | src/event-types/event-types.service.ts:27-52 | after a default create, every listing ends with the new event type |
| Catalogue.ListingFollowsReorder | src/event-types/event-types.service.ts:27-32 | after a reorder, every listing shows the listed ids in the given order, and is exactly the list when it covers the catalogue |

## Left out

- Availability.GetEffectiveRangesForDateRange: dates before the year 0 and past the last the platform can represent are not modelled, nor is a limit on the size of a map.
- Sessions.RevokedForever: for runs that write their stamps in clock order, which two revocations on different instances need not do (`StaysRevokedIff` says when any run keeps a token revoked).
- Sessions.RedeemsAtMostOnce: two redemptions of one token at the same time are not modelled, the check and the write being separate there.
- MeetJobs.ReachableEvents: a request body is one step and a job attempt is another; interleavings inside them, and a process that dies between a commit and its enqueue, are not modelled.
- Days on which the timezone's offset changes, zones that skip dates and changes of a coach's timezone between requests: wall-clock and elapsed time differ there.
- The database, the ORM and the job queue: only the commit rule, "an abort has no effect" and the attempt counter are kept; a query's rows come as parameters in any order.
- When a cache query is issued: any instance may read the table at any moment, which covers every moment the code would.
- Google Calendar, mail and their content: operations that succeed or fail, as step parameters.
- Token signatures, password hashing, the lookup of the account behind a token, and random tokens: opaque.
- Parsing of ISO input, request validation by decorators, localisation, email templates, controllers and modules: plumbing without a hard property.
- Removing rows, archiving and deleting event types, ownership helpers, the site and invite checks: single branches that would only add easy members.
- `rangesOverlap` is used here only as the reference notion of overlapping ranges, as nothing in the services calls it.
