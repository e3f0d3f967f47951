/** The checks of a create and of a reschedule, in the order the code makes them, what they accept,
    and how that agrees with the slots on offer. */
module BookingRules {
  import opened Domain
  import Calendar
  import opened Availability
  import opened Slots

  datatype Rejection =
    | TypeNotFound | LocationNotOffered | InvalidStart | PastStart | SpansMultipleDays
    | OutsideAvailability | SlotJustBooked
    | BookingNotFound | BookingNotActive | InsideNoticeWindow

  datatype CreateRequest = CreateRequest(typeId: TypeId, startAt: Option<int>, location: Location)

  /** The single-date lookup of one coach, by business day. */
  type Lookup = int -> seq<MinuteRange>

  function SlotFor(startAt: Option<int>, lengthMs: int, offset: int, now: int): Result<Interval, Rejection> {
    if startAt.None? then Err(InvalidStart)
    else if startAt.value < now then Err(PastStart)
    else
      var slot := Interval(startAt.value, startAt.value + lengthMs);
      if DayOf(slot.start, offset) != DayOf(slot.end, offset) then Err(SpansMultipleDays) else Ok(slot)
  }

  /** The checks made before the transaction. */
  function ValidateCreate(types: map<TypeId, EventType>, offset: int, req: CreateRequest, now: int):
    Result<Interval, Rejection>
  {
    if req.typeId !in types || !types[req.typeId].isActive then Err(TypeNotFound)
    else if req.location !in types[req.typeId].locations then Err(LocationNotOffered)
    else SlotFor(req.startAt, types[req.typeId].durationMinutes * MINUTE, offset, now)
  }

  /** The checks made inside the transaction. */
  function CheckSlot(ranges: seq<MinuteRange>, bookings: map<BookingId, Booking>, coach: CoachId, slot: Interval,
                     offset: int, exclude: Option<BookingId>): Result<Interval, Rejection>
  {
    if !IsWithinEffectiveRange(ranges, CandidateOf(slot, offset)) then Err(OutsideAvailability)
    else if !DisjointFromCompetitors(slot, bookings, coach, exclude) then Err(SlotJustBooked)
    else Ok(slot)
  }

  function DecideCreate(types: map<TypeId, EventType>, offset: int, lookup: Lookup,
                        bookings: map<BookingId, Booking>, req: CreateRequest, now: int):
    Result<Interval, Rejection>
  {
    var slot := ValidateCreate(types, offset, req, now);
    if slot.Err? then slot
    else CheckSlot(lookup(DayOf(slot.value.start, offset)), bookings, types[req.typeId].coach, slot.value, offset, None)
  }

  function ValidateReschedule(bookings: map<BookingId, Booking>, settings: Settings, id: BookingId,
                              startAt: Option<int>, now: int): Result<Interval, Rejection>
  {
    if id !in bookings then Err(BookingNotFound)
    else
      var b := bookings[id];
      if b.status != Confirmed then Err(BookingNotActive)
      else if b.slot.start < now + settings.noticeMs then Err(InsideNoticeWindow)
      else SlotFor(startAt, b.slot.end - b.slot.start, settings.offset, now)
  }

  function DecideReschedule(bookings: map<BookingId, Booking>, settings: Settings, lookup: Lookup,
                            id: BookingId, startAt: Option<int>, now: int): Result<Interval, Rejection>
  {
    var slot := ValidateReschedule(bookings, settings, id, startAt, now);
    if slot.Err? then slot
    else CheckSlot(lookup(DayOf(slot.value.start, settings.offset)), bookings, bookings[id].coach, slot.value,
                   settings.offset, Some(id))
  }

  // ---------- what is accepted

  ghost predicate LookupAgrees(lookup: Lookup, t: Tables, coach: CoachId)
    requires ValidTables(t)
  {
    forall day: nat :: multiset(lookup(day)) == EffectiveRanges(t, coach, day)
  }

  /** The exact millisecond interval lies inside an effective range of its day. */
  ghost predicate FitsSchedule(slot: Interval, t: Tables, coach: CoachId, offset: int)
    requires ValidTables(t) && DayOf(slot.start, offset) >= 0
  {
    var day := DayOf(slot.start, offset);
    exists r :: r in EffectiveRanges(t, coach, day)
                && RangeInterval(r, day, offset).start <= slot.start
                && slot.end <= RangeInterval(r, day, offset).end
  }

  /** The schedule check of a request is `FitsSchedule`. */
  lemma ScheduleCheckIsExact(ranges: seq<MinuteRange>, slot: Interval, t: Tables, coach: CoachId, offset: int)
    requires ValidTables(t) && DayOf(slot.start, offset) >= 0
    requires multiset(ranges) == EffectiveRanges(t, coach, DayOf(slot.start, offset))
    ensures IsWithinEffectiveRange(ranges, CandidateOf(slot, offset)) <==> FitsSchedule(slot, t, coach, offset)
  {
    forall r | r in ranges || r in EffectiveRanges(t, coach, DayOf(slot.start, offset))
      ensures r in ranges && r in EffectiveRanges(t, coach, DayOf(slot.start, offset))
      ensures IsWithinRange(r, CandidateOf(slot, offset)) <==>
              var bounds := RangeInterval(r, DayOf(slot.start, offset), offset);
              bounds.start <= slot.start && slot.end <= bounds.end
    {
      assert r in multiset(ranges);
      WithinRangeIsContainment(r, slot, offset);
    }
  }

  lemma CheckSlotAcceptsIff(lookup: Lookup, bookings: map<BookingId, Booking>, t: Tables, coach: CoachId,
                            slot: Interval, offset: int, exclude: Option<BookingId>)
    requires ValidTables(t) && LookupAgrees(lookup, t, coach) && DayOf(slot.start, offset) >= 0
    ensures CheckSlot(lookup(DayOf(slot.start, offset)), bookings, coach, slot, offset, exclude) == Ok(slot) <==>
            FitsSchedule(slot, t, coach, offset) && DisjointFromCompetitors(slot, bookings, coach, exclude)
  {
    ScheduleCheckIsExact(lookup(DayOf(slot.start, offset)), slot, t, coach, offset);
  }

  /** The checks before the transaction accept exactly these, and yield the requested interval. */
  lemma ValidateCreateIff(types: map<TypeId, EventType>, offset: int, req: CreateRequest, now: int)
    requires req.typeId in types ==> ValidEventType(types[req.typeId])
    ensures var v := ValidateCreate(types, offset, req, now);
            && (v.Ok? <==>
                && req.typeId in types && types[req.typeId].isActive && req.location in types[req.typeId].locations
                && req.startAt.Some? && now <= req.startAt.value
                && InsideOneDay(RequestedSlot(types[req.typeId], req.startAt.value), offset))
            && (v.Ok? ==> v.value == RequestedSlot(types[req.typeId], req.startAt.value))
  {
  }

  /** Which check a refused create failed: each error stands for the first one in this order. */
  lemma CreateErrors(types: map<TypeId, EventType>, offset: int, req: CreateRequest, now: int)
    requires req.typeId in types ==> ValidEventType(types[req.typeId])
    ensures var v := ValidateCreate(types, offset, req, now);
            var found := req.typeId in types && types[req.typeId].isActive;
            var offered := found && req.location in types[req.typeId].locations;
            var future := offered && req.startAt.Some? && now <= req.startAt.value;
            && (v == Err(TypeNotFound) <==> !found)
            && (v == Err(LocationNotOffered) <==> found && !offered)
            && (v == Err(InvalidStart) <==> offered && req.startAt.None?)
            && (v == Err(PastStart) <==> offered && req.startAt.Some? && req.startAt.value < now)
            && (v == Err(SpansMultipleDays) <==>
                future && !InsideOneDay(RequestedSlot(types[req.typeId], req.startAt.value), offset))
  {
  }

  /** And a refused reschedule. */
  lemma RescheduleErrors(bookings: map<BookingId, Booking>, settings: Settings, id: BookingId,
                         startAt: Option<int>, now: int)
    requires id in bookings ==> bookings[id].slot.start < bookings[id].slot.end
    ensures var v := ValidateReschedule(bookings, settings, id, startAt, now);
            var active := id in bookings && bookings[id].status == Confirmed;
            var movable := active && now + settings.noticeMs <= bookings[id].slot.start;
            && (v == Err(BookingNotFound) <==> id !in bookings)
            && (v == Err(BookingNotActive) <==> id in bookings && !active)
            && (v == Err(InsideNoticeWindow) <==> active && !movable)
            && (v == Err(InvalidStart) <==> movable && startAt.None?)
            && (v == Err(PastStart) <==> movable && startAt.Some? && startAt.value < now)
            && (v == Err(SpansMultipleDays) <==>
                && movable && startAt.Some? && now <= startAt.value
                && !InsideOneDay(MovedSlot(bookings[id], startAt.value), settings.offset))
  {
  }

  function RequestedSlot(e: EventType, startAt: int): Interval {
    Interval(startAt, startAt + e.durationMinutes * MINUTE)
  }

  /** Create accepts exactly these requests, and books exactly the requested interval. */
  lemma CreateAcceptsIff(types: map<TypeId, EventType>, offset: int, lookup: Lookup, t: Tables,
                         bookings: map<BookingId, Booking>, req: CreateRequest, now: int)
    requires ValidTables(t) && now + offset >= 0
    requires req.typeId in types ==>
               ValidEventType(types[req.typeId]) && LookupAgrees(lookup, t, types[req.typeId].coach)
    ensures var decision := DecideCreate(types, offset, lookup, bookings, req, now);
            && (decision.Ok? <==>
                && req.typeId in types && types[req.typeId].isActive && req.location in types[req.typeId].locations
                && req.startAt.Some? && now <= req.startAt.value
                && var slot := RequestedSlot(types[req.typeId], req.startAt.value);
                   && InsideOneDay(slot, offset)
                   && FitsSchedule(slot, t, types[req.typeId].coach, offset)
                   && DisjointFromCompetitors(slot, bookings, types[req.typeId].coach, None))
            && (decision.Ok? ==> decision.value == RequestedSlot(types[req.typeId], req.startAt.value))
  {
    ValidateCreateIff(types, offset, req, now);
    var v := ValidateCreate(types, offset, req, now);
    if v.Ok? {
      CheckSlotAcceptsIff(lookup, bookings, t, types[req.typeId].coach, v.value, offset, None);
    }
  }

  function MovedSlot(b: Booking, startAt: int): Interval {
    Interval(startAt, startAt + (b.slot.end - b.slot.start))
  }

  lemma ValidateRescheduleIff(bookings: map<BookingId, Booking>, settings: Settings, id: BookingId,
                              startAt: Option<int>, now: int)
    requires id in bookings ==> bookings[id].slot.start < bookings[id].slot.end
    ensures var v := ValidateReschedule(bookings, settings, id, startAt, now);
            && (v.Ok? <==>
                && id in bookings && bookings[id].status == Confirmed
                && now + settings.noticeMs <= bookings[id].slot.start
                && startAt.Some? && now <= startAt.value
                && InsideOneDay(MovedSlot(bookings[id], startAt.value), settings.offset))
            && (v.Ok? ==> v.value == MovedSlot(bookings[id], startAt.value))
  {
  }

  /** A reschedule accepts exactly these requests, and moves the booking with the length it has. */
  lemma RescheduleAcceptsIff(bookings: map<BookingId, Booking>, settings: Settings, lookup: Lookup, t: Tables,
                             id: BookingId, startAt: Option<int>, now: int)
    requires ValidTables(t) && now + settings.offset >= 0
    requires id in bookings ==>
               bookings[id].slot.start < bookings[id].slot.end && LookupAgrees(lookup, t, bookings[id].coach)
    ensures var decision := DecideReschedule(bookings, settings, lookup, id, startAt, now);
            && (decision.Ok? <==>
                && id in bookings && bookings[id].status == Confirmed
                && now + settings.noticeMs <= bookings[id].slot.start
                && startAt.Some? && now <= startAt.value
                && var moved := MovedSlot(bookings[id], startAt.value);
                   && InsideOneDay(moved, settings.offset)
                   && FitsSchedule(moved, t, bookings[id].coach, settings.offset)
                   && DisjointFromCompetitors(moved, bookings, bookings[id].coach, Some(id)))
            && (decision.Ok? ==> decision.value == MovedSlot(bookings[id], startAt.value))
  {
    ValidateRescheduleIff(bookings, settings, id, startAt, now);
    var v := ValidateReschedule(bookings, settings, id, startAt, now);
    if v.Ok? {
      CheckSlotAcceptsIff(lookup, bookings, t, bookings[id].coach, v.value, settings.offset, Some(id));
    }
  }

  // ---------- agreement with the slots on offer

  /** A slot whose end is the next midnight. */
  predicate EndsAtMidnight(i: Interval, offset: int) {
    i.end == Midnight(DayOf(i.start, offset) + 1, offset)
  }

  lemma GridSlotFits(s: Slot, kind: Kind, day: nat, r: MinuteRange, lengthMs: int)
    requires kind.duration > 0 && WellFormed(r) && OnGrid(s, kind, day, r)
    requires 0 < lengthMs <= kind.duration * MINUTE
    ensures s.coach == kind.coach && s.when.end == s.when.start + kind.duration * MINUTE
    ensures RangeInterval(r, day, kind.offset).start <= s.when.start
    ensures s.when.start + lengthMs <= RangeInterval(r, day, kind.offset).end
    ensures InsideOneDay(Interval(s.when.start, s.when.start + lengthMs), kind.offset) <==>
            !EndsAtMidnight(Interval(s.when.start, s.when.start + lengthMs), kind.offset)
  {
    GridSlotStaysInItsDay(s, kind, day, r);
    var m :| m in Grid(r.startMinute, r.endMinute, kind.duration) && s == SlotAt(kind, day, m);
    GridWithinRange(r.startMinute, r.endMinute, kind.duration, m);
    DayOfBounds(s.when.start + lengthMs, kind.offset, day);
  }

  lemma OfferedSlotFits(s: Slot, t: Tables, kind: Kind, first: nat, last: nat, lengthMs: int)
    requires ValidTables(t) && kind.duration > 0 && OnEffectiveGrid(s, t, kind, first, last)
    requires 0 < lengthMs <= kind.duration * MINUTE
    ensures s.coach == kind.coach && s.when.end == s.when.start + kind.duration * MINUTE
    ensures DayOf(s.when.start, kind.offset) >= 0
    ensures FitsSchedule(Interval(s.when.start, s.when.start + lengthMs), t, kind.coach, kind.offset)
    ensures InsideOneDay(Interval(s.when.start, s.when.start + lengthMs), kind.offset) <==>
            !EndsAtMidnight(Interval(s.when.start, s.when.start + lengthMs), kind.offset)
  {
    var day: nat, r :|
      first <= day <= last && r in EffectiveRanges(t, kind.coach, day) && OnGrid(s, kind, day, r);
    EffectiveRangesMeaning(t, kind.coach, day, r);
    GridSlotStaysInItsDay(s, kind, day, r);
    GridSlotFits(s, kind, day, r, lengthMs);
  }

  /** In an unchanged state and not past its start, an offered slot is accepted by create exactly when it
      does not end at 24:00, and then it is booked as offered. One ending at 24:00 is refused as spanning
      two days. */
  lemma OfferedSlotIsAcceptedIff(
    s: Slot, types: map<TypeId, EventType>, typeId: TypeId, settings: Settings, t: Tables, lookup: Lookup,
    bookings: map<BookingId, Booking>, location: Location, cutoff: int, first: nat, last: nat, now: int)
    requires ValidTables(t) && typeId in types && ValidEventType(types[typeId]) && types[typeId].isActive
    requires location in types[typeId].locations && LookupAgrees(lookup, t, types[typeId].coach)
    requires IsOffered(s, t, bookings, KindOf(types[typeId], settings), cutoff, None, first, last)
    requires now <= s.when.start
    ensures var decision := DecideCreate(types, settings.offset, lookup, bookings,
                                         CreateRequest(typeId, Some(s.when.start), location), now);
            decision == if EndsAtMidnight(s.when, settings.offset) then Err(SpansMultipleDays) else Ok(s.when)
  {
    var kind := KindOf(types[typeId], settings);
    OfferedSlotFits(s, t, kind, first, last, kind.duration * MINUTE);
    assert s.when == RequestedSlot(types[typeId], s.when.start);
    FittingRequestDecision(types, typeId, settings.offset, t, lookup, bookings, location, s.when, now);
  }

  // A 30-minute type, and the one range 23:30-24:00.
  const HALF_HOUR := EventType(0, 30, {Phone}, true)
  const LATE := Tables([], [WeeklyRow(0, Calendar.IsoWeekday(0), 1410, 1440)])
  const LAST_SLOT := SlotAt(Kind(0, 30, 0), 0, 1410)

  lemma LateRanges(r: MinuteRange)
    ensures ValidTables(LATE)
    ensures r in EffectiveRanges(LATE, 0, 0) <==> r == MinuteRange(1410, 1440)
  {
  }

  /** The last slot of a day is on offer, and create refuses it. */
  lemma LastSlotOfDayIsRefused(lookup: Lookup)
    requires ValidTables(LATE) && LookupAgrees(lookup, LATE, 0)
    ensures IsOffered(LAST_SLOT, LATE, map[], KindOf(HALF_HOUR, Settings(0, 0)), 0, None, 0, 0)
    ensures DecideCreate(map[0 := HALF_HOUR], 0, lookup, map[], CreateRequest(0, Some(LAST_SLOT.when.start), Phone), 0)
            == Err(SpansMultipleDays)
  {
    var r := MinuteRange(1410, 1440);
    LateRanges(r);
    GridShape(1410, 1440, 30);
    assert Grid(1410, 1440, 30)[0] == 1410;
    assert OnGrid(LAST_SLOT, Kind(0, 30, 0), 0, r);
    assert OnEffectiveGrid(LAST_SLOT, LATE, Kind(0, 30, 0), 0, 0);
    OfferedSlotIsAcceptedIff(LAST_SLOT, map[0 := HALF_HOUR], 0, Settings(0, 0), LATE, lookup, map[], Phone,
                             0, 0, 0, 0);
  }

  /** The other way round: what create accepts is an offered slot exactly when it is on the grid and not
      before the cutoff. Create tests neither. */
  lemma AcceptedIsOfferedIff(
    types: map<TypeId, EventType>, settings: Settings, t: Tables, lookup: Lookup,
    bookings: map<BookingId, Booking>, req: CreateRequest, now: int, first: nat, last: nat)
    requires ValidTables(t) && now + settings.offset >= 0
    requires req.typeId in types ==>
               ValidEventType(types[req.typeId]) && LookupAgrees(lookup, t, types[req.typeId].coach)
    requires DecideCreate(types, settings.offset, lookup, bookings, req, now).Ok?
    ensures var kind := KindOf(types[req.typeId], settings);
            var s := Slot(kind.coach, RequestedSlot(types[req.typeId], req.startAt.value));
            IsOffered(s, t, bookings, kind, now + settings.noticeMs, None, first, last) <==>
            OnEffectiveGrid(s, t, kind, first, last) && now + settings.noticeMs <= s.when.start
  {
    CreateAcceptsIff(types, settings.offset, lookup, t, bookings, req, now);
  }

  /** With an hour's notice, a create half an hour ahead is accepted at a grid slot that is not on offer. */
  lemma CreateInsideNoticeIsAccepted(lookup: Lookup)
    requires ValidTables(ONE_HOUR) && LookupAgrees(lookup, ONE_HOUR, 0)
    ensures DecideCreate(map[0 := HALF_HOUR], 0, lookup, map[], CreateRequest(0, Some(HALF_PAST.when.start), Phone), 0)
            == Ok(HALF_PAST.when)
    ensures OnEffectiveGrid(HALF_PAST, ONE_HOUR, KindOf(HALF_HOUR, Settings(0, 60 * MINUTE)), 0, 0)
    ensures !IsOffered(HALF_PAST, ONE_HOUR, map[], KindOf(HALF_HOUR, Settings(0, 60 * MINUTE)), 60 * MINUTE, None, 0, 0)
  {
    HalfPastIsOffered(map[], None);
    OfferedSlotIsAcceptedIff(HALF_PAST, map[0 := HALF_HOUR], 0, Settings(0, 0), ONE_HOUR, lookup, map[], Phone,
                             0, 0, 0, 0);
  }

  lemma FittingRequestDecision(
    types: map<TypeId, EventType>, typeId: TypeId, offset: int, t: Tables, lookup: Lookup,
    bookings: map<BookingId, Booking>, location: Location, slot: Interval, now: int)
    requires ValidTables(t) && typeId in types && ValidEventType(types[typeId]) && types[typeId].isActive
    requires location in types[typeId].locations && LookupAgrees(lookup, t, types[typeId].coach)
    requires now <= slot.start && slot == RequestedSlot(types[typeId], slot.start) && DayOf(slot.start, offset) >= 0
    requires FitsSchedule(slot, t, types[typeId].coach, offset)
    requires DisjointFromCompetitors(slot, bookings, types[typeId].coach, None)
    ensures DecideCreate(types, offset, lookup, bookings, CreateRequest(typeId, Some(slot.start), location), now)
            == if InsideOneDay(slot, offset) then Ok(slot) else Err(SpansMultipleDays)
  {
    SlotForLaterStart(slot.start, types[typeId].durationMinutes * MINUTE, offset, now);
    CheckSlotAcceptsIff(lookup, bookings, t, types[typeId].coach, slot, offset, None);
  }

  lemma SlotForLaterStart(start: int, lengthMs: int, offset: int, now: int)
    requires now <= start && lengthMs > 0
    ensures var slot := Interval(start, start + lengthMs);
            SlotFor(Some(start), lengthMs, offset, now)
            == if InsideOneDay(slot, offset) then Ok(slot) else Err(SpansMultipleDays)
  {
  }

  /** No competing booking starts between `from` and `to`. */
  ghost predicate NoneStartsWithin(from: int, to: int, bookings: map<BookingId, Booking>, coach: CoachId,
                                   exclude: Option<BookingId>)
  {
    forall id :: id in bookings && Competes(bookings, id, coach, exclude) ==> !(from <= bookings[id].slot.start < to)
  }

  /** A move into a free interval is free exactly when nothing starts in the part that sticks out. */
  lemma FreePastEnd(free: Interval, moved: Interval, bookings: map<BookingId, Booking>, coach: CoachId, offset: int,
                    exclude: Option<BookingId>)
    requires StaysInDays(bookings, coach, offset) && DisjointFromCompetitors(free, bookings, coach, exclude)
    requires free.start == moved.start && free.start < free.end && moved.start < moved.end
    ensures DisjointFromCompetitors(moved, bookings, coach, exclude) <==>
            NoneStartsWithin(free.end, moved.end, bookings, coach, exclude)
  {
    forall id | id in bookings && Competes(bookings, id, coach, exclude)
      ensures Overlaps(bookings[id].slot, moved) <==> free.end <= bookings[id].slot.start < moved.end
    {
      assert !Overlaps(bookings[id].slot, free) && InsideOneDay(bookings[id].slot, offset);
    }
  }

  /** What a reschedule of a booking to the start of a slot offered for it decides, whatever length the
      booking has. The slot only vouches for one current duration of its event type: the moved booking,
      which keeps its own length, is accepted exactly when it stays in its day, fits a range, and nothing
      else starts between the slot's end and its own. With a length up to the current duration only the
      end at 24:00 is left. */
  lemma OfferedSlotAcceptsReschedule(
    s: Slot, e: EventType, settings: Settings, t: Tables, lookup: Lookup,
    bookings: map<BookingId, Booking>, id: BookingId, cutoff: int, first: nat, last: nat, now: int)
    requires ValidTables(t) && ValidEventType(e) && LookupAgrees(lookup, t, e.coach)
    requires id in bookings && bookings[id].coach == e.coach && bookings[id].status == Confirmed
    requires now + settings.noticeMs <= bookings[id].slot.start
    requires StaysInDays(bookings, e.coach, settings.offset)
    requires IsOffered(s, t, bookings, KindOf(e, settings), cutoff, Some(id), first, last)
    requires now <= s.when.start
    ensures DayOf(s.when.start, settings.offset) >= 0
    ensures var moved := MovedSlot(bookings[id], s.when.start);
            var decision := DecideReschedule(bookings, settings, lookup, id, Some(s.when.start), now);
            && decision == (
                 if !InsideOneDay(moved, settings.offset) then Err(SpansMultipleDays)
                 else if !FitsSchedule(moved, t, e.coach, settings.offset) then Err(OutsideAvailability)
                 else if !NoneStartsWithin(s.when.end, moved.end, bookings, e.coach, Some(id)) then Err(SlotJustBooked)
                 else Ok(moved))
            && (moved.end <= s.when.end ==>
                  decision == if EndsAtMidnight(moved, settings.offset) then Err(SpansMultipleDays) else Ok(moved))
  {
    var moved := MovedSlot(bookings[id], s.when.start);
    assert InsideOneDay(bookings[id].slot, settings.offset);
    OfferedSlotFits(s, t, KindOf(e, settings), first, last, e.durationMinutes * MINUTE);
    FreePastEnd(s.when, moved, bookings, e.coach, settings.offset, Some(id));
    MoveDecision(settings, t, lookup, bookings, id, moved.start, now);
    if moved.end <= s.when.end {
      OfferedSlotFits(s, t, KindOf(e, settings), first, last, moved.end - moved.start);
    }
  }

  /** The checks of a reschedule past its notice window, in their order. */
  lemma MoveDecision(settings: Settings, t: Tables, lookup: Lookup, bookings: map<BookingId, Booking>,
                     id: BookingId, start: int, now: int)
    requires ValidTables(t) && id in bookings && LookupAgrees(lookup, t, bookings[id].coach)
    requires bookings[id].status == Confirmed && now + settings.noticeMs <= bookings[id].slot.start
    requires now <= start && bookings[id].slot.start < bookings[id].slot.end && DayOf(start, settings.offset) >= 0
    ensures var moved := MovedSlot(bookings[id], start);
            DecideReschedule(bookings, settings, lookup, id, Some(start), now)
            == if !InsideOneDay(moved, settings.offset) then Err(SpansMultipleDays)
               else if !FitsSchedule(moved, t, bookings[id].coach, settings.offset) then Err(OutsideAvailability)
               else if !DisjointFromCompetitors(moved, bookings, bookings[id].coach, Some(id)) then Err(SlotJustBooked)
               else Ok(moved)
  {
    var moved := MovedSlot(bookings[id], start);
    SlotForLaterStart(start, moved.end - moved.start, settings.offset, now);
    assert ValidateReschedule(bookings, settings, id, Some(start), now)
           == if InsideOneDay(moved, settings.offset) then Ok(moved) else Err(SpansMultipleDays);
    CheckSlotDecides(lookup, bookings, t, bookings[id].coach, moved, settings.offset, Some(id));
  }

  /** Inside the transaction, the schedule comes first. */
  lemma CheckSlotDecides(lookup: Lookup, bookings: map<BookingId, Booking>, t: Tables, coach: CoachId,
                         slot: Interval, offset: int, exclude: Option<BookingId>)
    requires ValidTables(t) && LookupAgrees(lookup, t, coach) && DayOf(slot.start, offset) >= 0
    ensures CheckSlot(lookup(DayOf(slot.start, offset)), bookings, coach, slot, offset, exclude)
            == if !FitsSchedule(slot, t, coach, offset) then Err(OutsideAvailability)
               else if !DisjointFromCompetitors(slot, bookings, coach, exclude) then Err(SlotJustBooked)
               else Ok(slot)
  {
    ScheduleCheckIsExact(lookup(DayOf(slot.start, offset)), slot, t, coach, offset);
  }

  // A 60-minute booking at 00:00, a duration of 30 minutes now, and the range 00:00-01:00.
  const SHORTENED := EventType(0, 30, {Phone}, true)
  const LONG_BOOKING := map[0 := Booking(0, Interval(0, 60 * MINUTE), Phone, Confirmed, None, None)]
  const ONE_HOUR := Tables([], [WeeklyRow(0, Calendar.IsoWeekday(0), 0, 60)])
  const HALF_PAST := SlotAt(Kind(0, 30, 0), 0, 30)

  lemma OneHourRanges(r: MinuteRange)
    ensures ValidTables(ONE_HOUR)
    ensures r in EffectiveRanges(ONE_HOUR, 0, 0) <==> r == MinuteRange(0, 60)
  {
  }

  lemma HalfPastIsOffered(bookings: map<BookingId, Booking>, exclude: Option<BookingId>)
    requires forall id :: id in bookings ==> exclude == Some(id)
    ensures ValidTables(ONE_HOUR)
    ensures IsOffered(HALF_PAST, ONE_HOUR, bookings, Kind(0, 30, 0), 0, exclude, 0, 0)
  {
    var r := MinuteRange(0, 60);
    OneHourRanges(r);
    GridShape(0, 60, 30);
    assert Grid(0, 60, 30)[1] == 30;
    assert 30 in Grid(0, 60, 30);
    assert OnGrid(HALF_PAST, Kind(0, 30, 0), 0, r);
    assert OnEffectiveGrid(HALF_PAST, ONE_HOUR, Kind(0, 30, 0), 0, 0);
  }

  lemma LongMoveDoesNotFit()
    ensures ValidTables(ONE_HOUR)
    ensures !FitsSchedule(Interval(30 * MINUTE, 90 * MINUTE), ONE_HOUR, 0, 0)
  {
    forall r | r in EffectiveRanges(ONE_HOUR, 0, 0) ensures r == MinuteRange(0, 60) {
      OneHourRanges(r);
    }
  }

  /** When the duration was shortened after the booking was made, an offered slot can be refused: the slot
      00:30 is on offer for moving the booking above, which would then end at 01:30. */
  lemma ShortenedDurationRefusesOffer(lookup: Lookup)
    requires ValidTables(ONE_HOUR) && LookupAgrees(lookup, ONE_HOUR, 0)
    ensures ValidEventType(SHORTENED) && KindOf(SHORTENED, Settings(0, 0)) == Kind(0, 30, 0)
    ensures InsideOneDay(LONG_BOOKING[0].slot, 0)
    ensures IsOffered(HALF_PAST, ONE_HOUR, LONG_BOOKING, Kind(0, 30, 0), 0, Some(0), 0, 0)
    ensures DecideReschedule(LONG_BOOKING, Settings(0, 0), lookup, 0, Some(HALF_PAST.when.start), 0)
            == Err(OutsideAvailability)
  {
    HalfPastIsOffered(LONG_BOOKING, Some(0));
    LongMoveDoesNotFit();
    MoveDecision(Settings(0, 0), ONE_HOUR, lookup, LONG_BOOKING, 0, HALF_PAST.when.start, 0);
  }
}
