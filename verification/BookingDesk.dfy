/** The booking service and its notification worker as one object whose rows, calendar events and jobs
    are updated in place, each method tied to a step of `MeetJobs` and to the decisions of `BookingRules`. */
module BookingDesk {
  import opened Domain
  import Availability
  import opened BookingRules
  import Slots
  import MeetJobs

  datatype Failure = Rejected(why: Rejection) | CalendarUnavailable

  class Desk {
    var bookings: map<BookingId, Booking>
    var live: map<EventId, MeetJobs.LiveEvent>
    var jobs: map<MeetJobs.JobId, MeetJobs.Job>
    var nextBooking: BookingId
    var nextEvent: EventId
    var nextJob: MeetJobs.JobId
    ghost var orphans: set<EventId>

    ghost predicate Valid() reads this {
      (forall id :: id in bookings ==> id < nextBooking) && (forall j :: j in jobs ==> j < nextJob)
    }

    ghost function World(): MeetJobs.World reads this {
      MeetJobs.World(bookings, live, jobs, nextEvent, orphans)
    }

    constructor ()
      ensures Valid() && World() == MeetJobs.EMPTY
    {
      bookings, live, jobs := map[], map[], map[];
      nextBooking, nextEvent, nextJob := 0, 0, 0;
      orphans := {};
    }

    method Enqueue(id: BookingId, kind: MeetJobs.JobKind)
      requires Valid()
      modifies this`jobs, this`nextJob
      ensures Valid() && old(nextJob) !in old(jobs)
      ensures World() == MeetJobs.Enqueue(old(World()), old(nextJob), id, kind)
    {
      jobs := jobs[nextJob := MeetJobs.Job(id, kind, 0, MeetJobs.Pending)];
      nextJob := nextJob + 1;
    }

    /** The calendar deletion, best effort once a client is there. */
    method DeleteEvent(e: EventId, deletion: MeetJobs.DeleteOutcome) returns (threw: bool)
      modifies this`live, this`orphans
      ensures threw <==> deletion == MeetJobs.ClientUnavailable
      ensures World() == if threw then old(World()) else MeetJobs.Drop(old(World()), e, deletion)
    {
      match deletion {
        case ClientUnavailable => threw := true;
        case Deleted => live, threw := live - {e}, false;
        case Swallowed => orphans, threw := orphans + {e}, false;
      }
    }

    method AssertSlotIsBookable(ranges: seq<Availability.MinuteRange>, coach: CoachId, slot: Interval, offset: int,
                                exclude: Option<BookingId>) returns (r: Result<Interval, Rejection>)
      ensures r == CheckSlot(ranges, bookings, coach, slot, offset, exclude)
    {
      var candidate := Availability.CandidateOf(slot, offset);
      var withinSchedule := exists range :: range in ranges && Availability.IsWithinRange(range, candidate);
      if !withinSchedule {
        return Err(OutsideAvailability);
      }
      var overlapping := exists id :: id in bookings && Slots.Competes(bookings, id, coach, exclude)
                                      && Overlaps(bookings[id].slot, slot);
      if overlapping {
        return Err(SlotJustBooked);
      }
      r := Ok(slot);
    }

    method Create(types: map<TypeId, EventType>, offset: int, lookup: Lookup, req: CreateRequest, now: int)
      returns (r: Result<BookingId, Rejection>)
      requires Valid()
      modifies this
      ensures Valid()
      ensures match DecideCreate(types, offset, lookup, old(bookings), req, now)
              case Err(why) => r == Err(why) && World() == old(World())
              case Ok(slot) =>
                && r.Ok? && r.value !in old(bookings) && req.typeId in types
                && World() == MeetJobs.Apply(
                     old(World()),
                     MeetJobs.Create(r.value, types[req.typeId].coach, slot, req.location, old(nextJob)))
                && req.startAt.Some?
                && bookings == old(bookings)[r.value :=
                     Booking(types[req.typeId].coach, RequestedSlot(types[req.typeId], req.startAt.value), req.location,
                             Confirmed, None, None)]
    {
      if req.typeId !in types || !types[req.typeId].isActive {
        return Err(TypeNotFound);
      }
      var eventType := types[req.typeId];
      if req.location !in eventType.locations {
        return Err(LocationNotOffered);
      }
      if req.startAt.None? {
        return Err(InvalidStart);
      }
      if req.startAt.value < now {
        return Err(PastStart);
      }
      var slot := Interval(req.startAt.value, req.startAt.value + eventType.durationMinutes * MINUTE);
      if DayOf(slot.start, offset) != DayOf(slot.end, offset) {
        return Err(SpansMultipleDays);
      }
      var check := AssertSlotIsBookable(lookup(DayOf(slot.start, offset)), eventType.coach, slot, offset, None);
      if check.Err? {
        return Err(check.error);
      }
      var id := nextBooking;
      bookings := bookings[id := Booking(eventType.coach, slot, req.location, Confirmed, None, None)];
      nextBooking := nextBooking + 1;
      Enqueue(id, MeetJobs.ConfirmedJob);
      r := Ok(id);
    }

    method ApplyCancellation(id: BookingId, deletion: MeetJobs.DeleteOutcome) returns (threw: bool)
      requires Valid() && id in bookings && bookings[id].status == Confirmed
      modifies this
      ensures Valid()
      ensures threw <==> old(bookings)[id].googleEventId.Some? && deletion == MeetJobs.ClientUnavailable
      ensures World() == MeetJobs.Apply(old(World()), MeetJobs.Cancel(id, deletion, old(nextJob)))
      ensures !threw ==> bookings == old(bookings)[id := old(bookings)[id].(status := Cancelled)]
      ensures !threw && old(bookings)[id].googleEventId.Some? && deletion == MeetJobs.Deleted ==>
                live == old(live) - {old(bookings)[id].googleEventId.value}
      ensures threw ==> World() == old(World())
    {
      var booking := bookings[id];
      if booking.googleEventId.Some? {
        threw := DeleteEvent(booking.googleEventId.value, deletion);
        if threw {
          return;
        }
      }
      bookings := bookings[id := booking.(status := Cancelled)];
      Enqueue(id, MeetJobs.CancelledJob);
      threw := false;
    }

    /** A client cancels only outside the notice window. */
    method CancelByClient(id: BookingId, noticeMs: nat, now: int, deletion: MeetJobs.DeleteOutcome)
      returns (r: Result<(), Failure>)
      requires Valid()
      modifies this
      ensures Valid()
      ensures r.Err? ==> World() == old(World())
      ensures r.Ok? <==> && MeetJobs.IsActive(old(World()), id)
                         && now + noticeMs <= old(bookings)[id].slot.start
                         && !(old(bookings)[id].googleEventId.Some? && deletion == MeetJobs.ClientUnavailable)
      ensures r.Ok? ==> World() == MeetJobs.Apply(old(World()), MeetJobs.Cancel(id, deletion, old(nextJob)))
    {
      if id !in bookings {
        return Err(Rejected(BookingNotFound));
      }
      if bookings[id].status != Confirmed {
        return Err(Rejected(BookingNotActive));
      }
      if bookings[id].slot.start < now + noticeMs {
        return Err(Rejected(InsideNoticeWindow));
      }
      var threw := ApplyCancellation(id, deletion);
      r := if threw then Err(CalendarUnavailable) else Ok(());
    }

    /** A coach cancels their own bookings, an admin any, whatever the notice. */
    method CancelByCoach(caller: CoachId, isAdmin: bool, id: BookingId, deletion: MeetJobs.DeleteOutcome)
      returns (r: Result<(), Failure>)
      requires Valid()
      modifies this
      ensures Valid()
      ensures r.Err? ==> World() == old(World())
      ensures r.Ok? <==> && MeetJobs.IsActive(old(World()), id)
                         && (old(bookings)[id].coach == caller || isAdmin)
                         && !(old(bookings)[id].googleEventId.Some? && deletion == MeetJobs.ClientUnavailable)
      ensures r.Ok? ==> World() == MeetJobs.Apply(old(World()), MeetJobs.Cancel(id, deletion, old(nextJob)))
    {
      if id !in bookings || (bookings[id].coach != caller && !isAdmin) {
        return Err(Rejected(BookingNotFound));
      }
      if bookings[id].status != Confirmed {
        return Err(Rejected(BookingNotActive));
      }
      var threw := ApplyCancellation(id, deletion);
      r := if threw then Err(CalendarUnavailable) else Ok(());
    }

    /** The checks of a reschedule before its transaction. */
    method ValidateMove(id: BookingId, settings: Settings, startAt: Option<int>, now: int)
      returns (r: Result<Interval, Rejection>)
      ensures r == ValidateReschedule(bookings, settings, id, startAt, now)
    {
      if id !in bookings {
        return Err(BookingNotFound);
      }
      var booking := bookings[id];
      if booking.status != Confirmed {
        return Err(BookingNotActive);
      }
      if booking.slot.start < now + settings.noticeMs {
        return Err(InsideNoticeWindow);
      }
      if startAt.None? {
        return Err(InvalidStart);
      }
      if startAt.value < now {
        return Err(PastStart);
      }
      var slot := Interval(startAt.value, startAt.value + (booking.slot.end - booking.slot.start));
      if DayOf(slot.start, settings.offset) != DayOf(slot.end, settings.offset) {
        return Err(SpansMultipleDays);
      }
      r := Ok(slot);
    }

    /** When the calendar client is missing, the request fails although the new interval is committed. */
    method RescheduleByClient(id: BookingId, settings: Settings, lookup: Lookup, startAt: Option<int>, now: int,
                              deletion: MeetJobs.DeleteOutcome) returns (r: Result<(), Failure>)
      requires Valid()
      modifies this
      ensures Valid()
      ensures match DecideReschedule(old(bookings), settings, lookup, id, startAt, now)
              case Err(why) => r == Err(Rejected(why)) && World() == old(World())
              case Ok(slot) =>
                && World() == MeetJobs.Apply(old(World()), MeetJobs.Reschedule(id, slot, deletion, old(nextJob)))
                && id in old(bookings) && id in bookings && startAt.Some?
                && bookings[id].slot == slot == MovedSlot(old(bookings)[id], startAt.value)
                && (r.Err? <==> && old(bookings)[id].location == GoogleMeet && old(bookings)[id].googleEventId.Some?
                                && deletion == MeetJobs.ClientUnavailable)
    {
      var valid := ValidateMove(id, settings, startAt, now);
      if valid.Err? {
        return Err(Rejected(valid.error));
      }
      var booking, slot := bookings[id], valid.value;
      var ranges := lookup(DayOf(slot.start, settings.offset));
      var check := AssertSlotIsBookable(ranges, booking.coach, slot, settings.offset, Some(id));
      if check.Err? {
        return Err(Rejected(check.error));
      }
      var updated := booking.(slot := slot);
      bookings := bookings[id := updated];
      if updated.location == GoogleMeet && updated.googleEventId.Some? {
        var threw := DeleteEvent(updated.googleEventId.value, deletion);
        if threw {
          return Err(CalendarUnavailable);
        }
        updated := updated.(meetLink := None, googleEventId := None);
        bookings := bookings[id := updated];
      }
      Enqueue(id, MeetJobs.RescheduledJob);
      r := Ok(());
    }

    /** Creates and saves the event if the booking needs one; `failed` ends the attempt. */
    method EnsureMeetLink(id: BookingId, insert: MeetJobs.InsertOutcome) returns (failed: bool)
      requires id in bookings
      modifies this`bookings, this`live, this`nextEvent, this`orphans
      ensures old(Valid()) ==> Valid()
      ensures var b := old(bookings)[id];
              var event := MeetJobs.LiveEvent(id, b.slot);
              if b.location != GoogleMeet || b.meetLink.Some? then !failed && World() == old(World())
              else
                match insert
                case Refused => failed && World() == old(World())
                case InsertedNotSaved =>
                  && failed
                  && World() == old(World()).(live := old(live)[old(nextEvent) := event],
                                              nextEvent := old(nextEvent) + 1,
                                              orphans := old(orphans) + {old(nextEvent)})
                case Saved(link) =>
                  && !failed
                  && World() == old(World()).(live := old(live)[old(nextEvent) := event],
                                              nextEvent := old(nextEvent) + 1,
                                              bookings := old(bookings)[id :=
                                                b.(googleEventId := Some(old(nextEvent)), meetLink := Some(link))])
    {
      var booking := bookings[id];
      if booking.location != GoogleMeet || booking.meetLink.Some? {
        return false;
      }
      if insert.Refused? {
        return true;
      }
      var event := nextEvent;
      live := live[event := MeetJobs.LiveEvent(id, booking.slot)];
      nextEvent := nextEvent + 1;
      if insert.InsertedNotSaved? {
        orphans := orphans + {event};
        return true;
      }
      bookings := bookings[id := booking.(meetLink := Some(insert.link), googleEventId := Some(event))];
      failed := false;
    }

    method Process(job: MeetJobs.JobId, insert: MeetJobs.InsertOutcome, emailSent: bool)
      requires Valid() && job in jobs && jobs[job].state == MeetJobs.Pending
      modifies this
      ensures Valid()
      ensures World() == MeetJobs.Apply(old(World()), MeetJobs.Attempt(job, insert, emailSent))
    {
      var data := jobs[job];
      if data.booking !in bookings {
        jobs := jobs[job := data.(state := MeetJobs.Completed)];
        return;
      }
      var failed := false;
      if data.kind != MeetJobs.CancelledJob {
        failed := EnsureMeetLink(data.booking, insert);
      }
      if !failed {
        failed := !emailSent;
      }
      if !failed {
        jobs := jobs[job := data.(state := MeetJobs.Completed)];
      } else if data.retryCount < MeetJobs.RETRY_LIMIT {
        jobs := jobs[job := data.(retryCount := data.retryCount + 1)];
      } else {
        jobs := jobs[job := data.(state := MeetJobs.Exhausted)];
      }
    }
  }
}
