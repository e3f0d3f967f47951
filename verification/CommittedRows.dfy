/** What a committed request leaves in the table, over every run; and that requests which meet no other
    decide as `BookingRules` says. */
module CommittedRows {
  import opened Domain
  import opened Availability
  import opened BookingRules
  import opened BookingProtocol
  import ScheduleRaces
  import Slots

  // ---------- one commit

  /** A commit changes one row: a create adds a confirmed one with what was asked for, a reschedule replaces
      the interval of its booking and nothing else of it. */
  lemma CommitWrites(s: State, q: RequestId, newId: BookingId)
    requires ReadyToCommit(s, q, newId)
    ensures var s' := DoCommit(s, q, newId);
            var r := s.requests[q];
            && s'.requests[q].phase == Committed && |s'.log| == |s.log| + 1
            && match r.target
               case None =>
                 && newId !in s.bookings
                 && s'.bookings == s.bookings[newId := Booking(r.coach, r.slot, r.location, Confirmed, None, None)]
               case Some(id) =>
                 && id in s.bookings && s'.bookings == s.bookings[id := s'.bookings[id]]
                 && s'.bookings[id].slot == r.slot && s'.bookings[id].coach == s.bookings[id].coach
                 && s'.bookings[id].location == s.bookings[id].location
                 && s'.bookings[id].status == s.bookings[id].status
                 && s'.bookings[id].googleEventId == s.bookings[id].googleEventId
                 && s'.bookings[id].meetLink == s.bookings[id].meetLink
  {
  }

  /** The entry it adds to the log is the row it wrote. */
  lemma CommitLogs(s: State, q: RequestId, newId: BookingId)
    requires ReadyToCommit(s, q, newId)
    ensures var s' := DoCommit(s, q, newId);
            var e := s'.log[|s.log|];
            s'.log == s.log + [e] && e.request == q && e.id in s'.bookings && e.row == s'.bookings[e.id]
  {
  }

  /** A cancellation sets the status of its row and nothing else, a Meet-field update the Meet fields. */
  lemma PlainWrites(s: State, zone: Zones, id: BookingId, event: Option<EventId>, link: Option<nat>)
    requires id in s.bookings
    ensures var b, c := s.bookings[id], Apply(s, zone, CancelWrite(id));
            && c == s.(bookings := s.bookings[id := c.bookings[id]])
            && c.bookings[id] == Booking(b.coach, b.slot, b.location, Cancelled, b.googleEventId, b.meetLink)
    ensures var b, m := s.bookings[id], Apply(s, zone, MeetWrite(id, event, link));
            && m == s.(bookings := s.bookings[id := m.bookings[id]])
            && m.bookings[id] == Booking(b.coach, b.slot, b.location, b.status, event, link)
  {
  }

  /** An attempt that P2034 ends leaves nothing behind but its number: the next one reads everything again.
      After the third, and after any other error, the request has failed. */
  lemma AbortsStartOver(s: State, zone: Zones, q: RequestId)
    requires IsActive(s, q)
    ensures var s', r := Apply(s, zone, AbortSerialization(q)), s.requests[q];
            && s' == s.(requests := s.requests[q := s'.requests[q]]) && SameAsk(s'.requests[q], r)
            && if r.attempt == 3 then s'.requests[q].phase == Failed
               else && IsActive(s', q) && s'.requests[q].attempt == r.attempt + 1
                    && s'.requests[q].schedule == Unread && s'.requests[q].snapshot == None && !s'.requests[q].clear
    ensures var s' := Apply(s, zone, AbortOther(q));
            s' == s.(requests := s.requests[q := s'.requests[q]]) && s'.requests[q].phase == Failed
  {
  }

  /** Edits of an event type and of the schedule tables change only those. */
  lemma EditsWrite(s: State, zone: Zones, typeId: TypeId, e: KnownType, t: RowTables)
    ensures Apply(s, zone, EditType(typeId, e)) == s.(types := s.types[typeId := e])
    ensures var s' := Apply(s, zone, EditTables(t));
            && s' == s.(history := s'.history) && Latest(s'.history) == Latest(s.history) + 1
            && s'.history.current == t && At(s'.history, Latest(s.history)) == s.history.current
  {
  }

  // ---------- from the request to its entry

  /** A create starts exactly when its first checks pass, and asks for the interval they yield. */
  lemma CreateStarts(s: State, zone: Zones, q: RequestId, req: CreateRequest, now: int)
    requires q !in s.requests && req.typeId in s.types && now + zone(s.types[req.typeId].coach) >= 0
    ensures var e := s.types[req.typeId];
            var s' := Apply(s, zone, StartCreate(q, req, now));
            match ValidateCreate(s.types, zone(e.coach), req, now)
            case Err(_) => s' == s
            case Ok(slot) =>
              && ScheduleRaces.JustStarted(s', q) && s' == s.(requests := s.requests[q := s'.requests[q]])
              && var r := s'.requests[q];
                 && r.coach == e.coach && r.slot == slot && r.location == req.location && r.target == None
                 && r.minutes == e.durationMinutes && r.day == DayOf(slot.start, zone(e.coach))
  {
  }

  /** And a reschedule likewise. */
  lemma RescheduleStarts(s: State, zone: Zones, q: RequestId, id: BookingId, startAt: Option<int>, now: int,
                         noticeMs: nat)
    requires q !in s.requests && id in s.bookings && now + zone(s.bookings[id].coach) >= 0
    ensures var b := s.bookings[id];
            var s' := Apply(s, zone, StartReschedule(q, id, startAt, now, noticeMs));
            match ValidateReschedule(s.bookings, Settings(zone(b.coach), noticeMs), id, startAt, now)
            case Err(_) => s' == s
            case Ok(slot) =>
              && ScheduleRaces.JustStarted(s', q) && s' == s.(requests := s.requests[q := s'.requests[q]])
              && var r := s'.requests[q];
                 && r.coach == b.coach && r.slot == slot && r.location == b.location && r.target == Some(id)
                 && r.day == DayOf(slot.start, zone(b.coach))
  {
  }

  /** Whatever happens after its start, an entry of a create stores the confirmed booking that was asked for:
      the coach and the interval of its event type at that start, and the requested location. */
  lemma CreateStores(types: map<TypeId, KnownType>, tables: RowTables, zone: Zones, before: seq<Step>,
                     q: RequestId, req: CreateRequest, now: int, after: seq<Step>, k: nat)
    requires var s := Run(Initial(types, tables), zone, before);
             && q !in s.requests && req.typeId in s.types && now + zone(s.types[req.typeId].coach) >= 0
             && ValidateCreate(s.types, zone(s.types[req.typeId].coach), req, now).Ok?
             && var end := Run(Apply(s, zone, StartCreate(q, req, now)), zone, after);
                k < |end.log| && end.log[k].request == q
    ensures var s := Run(Initial(types, tables), zone, before);
            var e := s.types[req.typeId];
            && req.startAt.Some?
            && Run(Apply(s, zone, StartCreate(q, req, now)), zone, after).log[k].row
               == Booking(e.coach, RequestedSlot(e, req.startAt.value), req.location, Confirmed, None, None)
  {
    ReachableInv(types, tables, zone, before);
    var s := Run(Initial(types, tables), zone, before);
    CreateStarts(s, zone, q, req, now);
    ValidateCreateIff(s.types, zone(s.types[req.typeId].coach), req, now);
    EntryAnswers(s, zone, StartCreate(q, req, now), q, after, k);
  }

  /** And an entry of a reschedule moves its booking, with the length it had, to the requested start. */
  lemma RescheduleStores(types: map<TypeId, KnownType>, tables: RowTables, zone: Zones, before: seq<Step>,
                         q: RequestId, id: BookingId, startAt: Option<int>, now: int, noticeMs: nat,
                         after: seq<Step>, k: nat)
    requires var s := Run(Initial(types, tables), zone, before);
             && q !in s.requests && id in s.bookings && now + zone(s.bookings[id].coach) >= 0
             && ValidateReschedule(s.bookings, Settings(zone(s.bookings[id].coach), noticeMs), id, startAt, now).Ok?
             && var end := Run(Apply(s, zone, StartReschedule(q, id, startAt, now, noticeMs)), zone, after);
                k < |end.log| && end.log[k].request == q
    ensures var s := Run(Initial(types, tables), zone, before);
            var e := Run(Apply(s, zone, StartReschedule(q, id, startAt, now, noticeMs)), zone, after).log[k];
            startAt.Some? && e.id == id && e.row.slot == MovedSlot(s.bookings[id], startAt.value)
  {
    ReachableInv(types, tables, zone, before);
    var s := Run(Initial(types, tables), zone, before);
    assert BookingOk(id, s.bookings[id], s.log, zone(s.bookings[id].coach));
    RescheduleStarts(s, zone, q, id, startAt, now, noticeMs);
    ValidateRescheduleIff(s.bookings, Settings(zone(s.bookings[id].coach), noticeMs), id, startAt, now);
    EntryAnswers(s, zone, StartReschedule(q, id, startAt, now, noticeMs), q, after, k);
  }

  lemma EntryAnswers(s: State, zone: Zones, start: Step, q: RequestId, after: seq<Step>, k: nat)
    requires Inv(s, zone) && q !in s.requests
    requires q in Apply(s, zone, start).requests && Apply(s, zone, start).log == s.log
    requires var end := Run(Apply(s, zone, start), zone, after); k < |end.log| && end.log[k].request == q
    ensures Answers(Run(Apply(s, zone, start), zone, after).log[k], Apply(s, zone, start).requests[q])
  {
    var started := Apply(s, zone, start);
    assert Carries(started, q, started.requests[q]);
    RunCarries(started, zone, after, q, started.requests[q]);
  }

  // ---------- a request that meets no other

  /** The steps of a request one after the other, with nothing in between. */
  function Alone(q: RequestId, newId: BookingId): seq<Step> {
    [TakeSnapshot(q)] + ([QueryOverrides(q)] + ([QueryWeekly(q)] + ([QueryOverlap(q)] + ([Commit(q, newId)] + []))))
  }

  predicate Refused(s: State, end: State, q: RequestId) {
    end.bookings == s.bookings && end.log == s.log && q in end.requests && end.requests[q].phase == Failed
  }

  lemma OverridesAlone(s: State, zone: Zones, q: RequestId)
    requires IsActive(s, q) && s.requests[q].schedule == Unread
    requires ScheduleRaces.WellPlaced(s.requests[q], zone(s.requests[q].coach))
    requires HasOverride(s.history.current, s.requests[q].coach, s.requests[q].day)
    ensures var r, n := s.requests[q], Latest(s.history);
            var end := Apply(Apply(s, zone, QueryOverrides(q)), zone, QueryWeekly(q));
            if FitsSchedule(r.slot, s.history.current, r.coach, zone(r.coach))
            then end == Update(s, q, r.(schedule := Fits(n, n))) else Refused(s, end, q)
  {
    QueryOverridesDecides(s, zone, q);
  }

  lemma WeeklyAlone(s: State, zone: Zones, q: RequestId)
    requires IsActive(s, q) && s.requests[q].schedule == Unread
    requires ScheduleRaces.WellPlaced(s.requests[q], zone(s.requests[q].coach))
    requires !HasOverride(s.history.current, s.requests[q].coach, s.requests[q].day)
    ensures var r, n := s.requests[q], Latest(s.history);
            var end := Apply(Apply(s, zone, QueryOverrides(q)), zone, QueryWeekly(q));
            if FitsSchedule(r.slot, s.history.current, r.coach, zone(r.coach))
            then end == Update(s, q, r.(schedule := Fits(n, n))) else Refused(s, end, q)
  {
    var r, n := s.requests[q], Latest(s.history);
    QueryOverridesDecides(s, zone, q);
    var waiting := r.(schedule := NoOverrides(n));
    var s1 := Update(s, q, waiting);
    WeeklyNow(s1, zone, q);
    UpdateTwice(s, q, waiting, waiting.(schedule := Fits(n, n)));
  }

  lemma UpdateTwice(s: State, q: RequestId, first: Request, second: Request)
    ensures Update(Update(s, q, first), q, second) == Update(s, q, second)
  {
    assert s.requests[q := first][q := second] == s.requests[q := second];
  }

  lemma WeeklyNow(s: State, zone: Zones, q: RequestId)
    requires IsActive(s, q) && s.requests[q].schedule == NoOverrides(Latest(s.history))
    requires ScheduleRaces.WellPlaced(s.requests[q], zone(s.requests[q].coach))
    requires !HasOverride(s.history.current, s.requests[q].coach, s.requests[q].day)
    ensures var r, n := s.requests[q], Latest(s.history);
            DoQueryWeekly(s, zone, q)
            == if FitsSchedule(r.slot, s.history.current, r.coach, zone(r.coach))
               then Update(s, q, r.(schedule := Fits(n, n))) else Fail(s, q)
  {
    assert Mixed(s.history.current, s.history.current) == s.history.current;
    QueryWeeklyDecides(s, zone, q);
  }

  /** The two schedule queries with nothing in between accept exactly what fits the current schedule. */
  lemma QueriesAlone(s: State, zone: Zones, q: RequestId)
    requires IsActive(s, q) && s.requests[q].schedule == Unread
    requires ScheduleRaces.WellPlaced(s.requests[q], zone(s.requests[q].coach))
    ensures var r, n := s.requests[q], Latest(s.history);
            var end := Apply(Apply(s, zone, QueryOverrides(q)), zone, QueryWeekly(q));
            if FitsSchedule(r.slot, s.history.current, r.coach, zone(r.coach))
            then end == Update(s, q, r.(schedule := Fits(n, n))) else Refused(s, end, q)
  {
    if HasOverride(s.history.current, s.requests[q].coach, s.requests[q].day) {
      OverridesAlone(s, zone, q);
    } else {
      WeeklyAlone(s, zone, q);
    }
  }

  ghost predicate Accepts(s: State, zone: Zones, q: RequestId)
    requires q in s.requests && ScheduleRaces.WellPlaced(s.requests[q], zone(s.requests[q].coach))
  {
    var r := s.requests[q];
    && FitsSchedule(r.slot, s.history.current, r.coach, zone(r.coach))
    && Slots.DisjointFromCompetitors(r.slot, s.bookings, r.coach, r.target)
  }

  lemma FailedStaysOut(s: State, zone: Zones, q: RequestId, newId: BookingId)
    requires q in s.requests && s.requests[q].phase == Failed
    ensures Run(s, zone, [QueryOverlap(q)] + ([Commit(q, newId)] + [])) == s
  {
    ScheduleRaces.RunStep(s, zone, QueryOverlap(q), [Commit(q, newId)] + []);
    ScheduleRaces.RunStep(s, zone, Commit(q, newId), []);
  }

  predicate Stored(s: State, end: State, q: RequestId, id: BookingId, row: Booking) {
    end.bookings == s.bookings[id := row] && q in end.requests && end.requests[q].phase == Committed
  }

  lemma ChecksAlone(s: State, zone: Zones, q: RequestId, newId: BookingId)
    requires IsActive(s, q) && s.requests[q].schedule.Fits? && !s.requests[q].clear
    requires s.requests[q].snapshot == Some(Snapshot(s.bookings, |s.log|))
    requires var r := s.requests[q]; if r.target.Some? then r.target.value in s.bookings else newId !in s.bookings
    ensures var end := Run(s, zone, [QueryOverlap(q)] + ([Commit(q, newId)] + []));
            var r := s.requests[q];
            if Slots.DisjointFromCompetitors(r.slot, s.bookings, r.coach, r.target)
            then Stored(s, end, q, WrittenId(r, newId), WrittenRow(s, r)) else Refused(s, end, q)
  {
    var r := s.requests[q];
    ScheduleRaces.RunStep(s, zone, QueryOverlap(q), [Commit(q, newId)] + []);
    if Slots.DisjointFromCompetitors(r.slot, s.bookings, r.coach, r.target) {
      var s1 := Update(s, q, r.(clear := true));
      ScheduleRaces.RunStep(s1, zone, Commit(q, newId), []);
      assert ReadyToCommit(s1, q, newId);
    } else {
      ScheduleRaces.RunStep(Fail(s, q), zone, Commit(q, newId), []);
    }
  }

  lemma QueriesFirst(s: State, zone: Zones, q: RequestId, newId: BookingId)
    requires IsActive(s, q) && s.requests[q].snapshot == None
    ensures var r := s.requests[q];
            var s1 := Update(s, q, r.(snapshot := Some(Snapshot(s.bookings, |s.log|))));
            Run(s, zone, Alone(q, newId))
            == Run(Apply(Apply(s1, zone, QueryOverrides(q)), zone, QueryWeekly(q)), zone,
                   [QueryOverlap(q)] + ([Commit(q, newId)] + []))
  {
    var r := s.requests[q];
    var rest := [QueryOverlap(q)] + ([Commit(q, newId)] + []);
    var s1 := Update(s, q, r.(snapshot := Some(Snapshot(s.bookings, |s.log|))));
    assert Apply(s, zone, TakeSnapshot(q)) == s1;
    ScheduleRaces.RunStep(s, zone, TakeSnapshot(q), [QueryOverrides(q)] + ([QueryWeekly(q)] + rest));
    ScheduleRaces.RunStep(s1, zone, QueryOverrides(q), [QueryWeekly(q)] + rest);
    ScheduleRaces.RunStep(Apply(s1, zone, QueryOverrides(q)), zone, QueryWeekly(q), rest);
  }

  /** It commits its row exactly if its interval fits the schedule and is free, and otherwise changes none. */
  lemma AloneCommitsIff(s: State, zone: Zones, q: RequestId, newId: BookingId)
    requires Inv(s, zone) && ScheduleRaces.JustStarted(s, q) && newId !in s.bookings
    ensures ScheduleRaces.WellPlaced(s.requests[q], zone(s.requests[q].coach))
    ensures var r := s.requests[q];
            r.target.Some? ==> r.target.value in s.bookings
    ensures var end := Run(s, zone, Alone(q, newId));
            var r := s.requests[q];
            if Accepts(s, zone, q) then Stored(s, end, q, WrittenId(r, newId), WrittenRow(s, r)) else Refused(s, end, q)
  {
    ActiveRequestOk(s, zone, q);
    PlacedCommitsIff(s, zone, q, newId);
  }

  lemma PlacedCommitsIff(s: State, zone: Zones, q: RequestId, newId: BookingId)
    requires ScheduleRaces.JustStarted(s, q) && newId !in s.bookings
    requires ScheduleRaces.WellPlaced(s.requests[q], zone(s.requests[q].coach))
    requires s.requests[q].target.Some? ==> s.requests[q].target.value in s.bookings
    ensures var end := Run(s, zone, Alone(q, newId));
            var r := s.requests[q];
            if Accepts(s, zone, q) then Stored(s, end, q, WrittenId(r, newId), WrittenRow(s, r)) else Refused(s, end, q)
  {
    var r := s.requests[q];
    var s1 := Update(s, q, r.(snapshot := Some(Snapshot(s.bookings, |s.log|))));
    QueriesFirst(s, zone, q, newId);
    QueriesAlone(s1, zone, q);
    var s2 := Apply(Apply(s1, zone, QueryOverrides(q)), zone, QueryWeekly(q));
    if FitsSchedule(r.slot, s.history.current, r.coach, zone(r.coach)) {
      ChecksAlone(s2, zone, q, newId);
    } else {
      FailedStaysOut(s2, zone, q, newId);
    }
  }

  /** A create that meets no other request, from any reachable state: it decides as `DecideCreate` does, stores
      the booking if that accepts, and changes no row if it refuses. */
  lemma CreateAloneDecides(s: State, zone: Zones, lookup: Lookup, q: RequestId, req: CreateRequest, now: int,
                           newId: BookingId)
    requires Inv(s, zone) && q !in s.requests && newId !in s.bookings && req.typeId in s.types
    requires now + zone(s.types[req.typeId].coach) >= 0
    requires LookupAgrees(lookup, s.history.current, s.types[req.typeId].coach)
    ensures var e := s.types[req.typeId];
            Run(s, zone, [StartCreate(q, req, now)] + Alone(q, newId)).bookings
            == match DecideCreate(s.types, zone(e.coach), lookup, s.bookings, req, now)
               case Ok(slot) => s.bookings[newId := Booking(e.coach, slot, req.location, Confirmed, None, None)]
               case Err(_) => s.bookings
  {
    var e := s.types[req.typeId];
    var start := StartCreate(q, req, now);
    var s1 := Apply(s, zone, start);
    ScheduleRaces.RunStep(s, zone, start, Alone(q, newId));
    CreateStarts(s, zone, q, req, now);
    StepKeepsInv(s, zone, start);
    var v := ValidateCreate(s.types, zone(e.coach), req, now);
    if v.Ok? {
      AloneCommitsIff(s1, zone, q, newId);
      CheckSlotAcceptsIff(lookup, s.bookings, s.history.current, e.coach, v.value, zone(e.coach), None);
    } else {
      NothingAlone(s, zone, q, newId);
    }
  }

  lemma NothingAlone(s: State, zone: Zones, q: RequestId, newId: BookingId)
    requires q !in s.requests
    ensures Run(s, zone, Alone(q, newId)) == s
  {
    var c := [QueryOverlap(q)] + ([Commit(q, newId)] + []);
    ScheduleRaces.RunStep(s, zone, TakeSnapshot(q), [QueryOverrides(q)] + ([QueryWeekly(q)] + c));
    ScheduleRaces.RunStep(s, zone, QueryOverrides(q), [QueryWeekly(q)] + c);
    ScheduleRaces.RunStep(s, zone, QueryWeekly(q), c);
    ScheduleRaces.RunStep(s, zone, QueryOverlap(q), [Commit(q, newId)] + []);
    ScheduleRaces.RunStep(s, zone, Commit(q, newId), []);
  }

  /** What a started reschedule does alone, in terms of the checks inside its transaction. */
  lemma MoveAlone(s: State, zone: Zones, lookup: Lookup, q: RequestId, id: BookingId, newId: BookingId)
    requires Inv(s, zone) && ScheduleRaces.JustStarted(s, q) && newId !in s.bookings
    requires s.requests[q].target == Some(id)
    requires LookupAgrees(lookup, s.history.current, s.requests[q].coach)
    ensures id in s.bookings
    ensures var r := s.requests[q];
            var offset := zone(r.coach);
            Run(s, zone, Alone(q, newId)).bookings
            == match CheckSlot(lookup(DayOf(r.slot.start, offset)), s.bookings, r.coach, r.slot, offset, Some(id))
               case Ok(_) => s.bookings[id := s.bookings[id].(slot := r.slot)]
               case Err(_) => s.bookings
  {
    var r := s.requests[q];
    AloneCommitsIff(s, zone, q, newId);
    CheckSlotAcceptsIff(lookup, s.bookings, s.history.current, r.coach, r.slot, zone(r.coach), Some(id));
  }

  lemma StartsAccepted(s: State, zone: Zones, q: RequestId, id: BookingId, startAt: Option<int>, now: int,
                       noticeMs: nat)
    requires Inv(s, zone) && q !in s.requests && id in s.bookings && now + zone(s.bookings[id].coach) >= 0
    requires ValidateReschedule(s.bookings, Settings(zone(s.bookings[id].coach), noticeMs), id, startAt, now).Ok?
    ensures var s' := Apply(s, zone, StartReschedule(q, id, startAt, now, noticeMs));
            var settings := Settings(zone(s.bookings[id].coach), noticeMs);
            var slot := ValidateReschedule(s.bookings, settings, id, startAt, now);
            && Inv(s', zone) && ScheduleRaces.JustStarted(s', q)
            && s'.bookings == s.bookings && s'.history == s.history
            && s'.requests[q].target == Some(id) && s'.requests[q].slot == slot.value
            && s'.requests[q].coach == s.bookings[id].coach
  {
    RescheduleStarts(s, zone, q, id, startAt, now, noticeMs);
    StepKeepsInv(s, zone, StartReschedule(q, id, startAt, now, noticeMs));
  }

  function AfterMove(bookings: map<BookingId, Booking>, id: BookingId, decision: Result<Interval, Rejection>):
    map<BookingId, Booking>
    requires id in bookings
  {
    match decision
    case Ok(slot) => bookings[id := bookings[id].(slot := slot)]
    case Err(_) => bookings
  }

  lemma DecisionAfterChecks(bookings: map<BookingId, Booking>, settings: Settings, lookup: Lookup, id: BookingId,
                            startAt: Option<int>, now: int)
    requires id in bookings
    ensures var v := ValidateReschedule(bookings, settings, id, startAt, now);
            var decision := DecideReschedule(bookings, settings, lookup, id, startAt, now);
            if v.Err? then decision == v
            else
              var check := CheckSlot(lookup(DayOf(v.value.start, settings.offset)), bookings, bookings[id].coach,
                                     v.value, settings.offset, Some(id));
              decision == check && (check.Ok? ==> check.value == v.value)
  {
  }

  lemma AcceptedMoveAlone(s: State, zone: Zones, lookup: Lookup, q: RequestId, id: BookingId, startAt: Option<int>,
                          now: int, noticeMs: nat, newId: BookingId)
    requires Inv(s, zone) && q !in s.requests && newId !in s.bookings && id in s.bookings
    requires now + zone(s.bookings[id].coach) >= 0
    requires LookupAgrees(lookup, s.history.current, s.bookings[id].coach)
    requires ValidateReschedule(s.bookings, Settings(zone(s.bookings[id].coach), noticeMs), id, startAt, now).Ok?
    ensures var settings := Settings(zone(s.bookings[id].coach), noticeMs);
            Run(Apply(s, zone, StartReschedule(q, id, startAt, now, noticeMs)), zone, Alone(q, newId)).bookings
            == AfterMove(s.bookings, id, DecideReschedule(s.bookings, settings, lookup, id, startAt, now))
  {
    var settings := Settings(zone(s.bookings[id].coach), noticeMs);
    var started := Apply(s, zone, StartReschedule(q, id, startAt, now, noticeMs));
    StartsAccepted(s, zone, q, id, startAt, now, noticeMs);
    DecisionAfterChecks(s.bookings, settings, lookup, id, startAt, now);
    MoveAlone(started, zone, lookup, q, id, newId);
  }

  /** And a reschedule decides as `DecideReschedule` does. */
  lemma RescheduleAloneDecides(s: State, zone: Zones, lookup: Lookup, q: RequestId, id: BookingId,
                               startAt: Option<int>, now: int, noticeMs: nat, newId: BookingId)
    requires Inv(s, zone) && q !in s.requests && newId !in s.bookings && id in s.bookings
    requires now + zone(s.bookings[id].coach) >= 0
    requires LookupAgrees(lookup, s.history.current, s.bookings[id].coach)
    ensures var settings := Settings(zone(s.bookings[id].coach), noticeMs);
            Run(s, zone, [StartReschedule(q, id, startAt, now, noticeMs)] + Alone(q, newId)).bookings
            == AfterMove(s.bookings, id, DecideReschedule(s.bookings, settings, lookup, id, startAt, now))
  {
    var settings := Settings(zone(s.bookings[id].coach), noticeMs);
    var start := StartReschedule(q, id, startAt, now, noticeMs);
    ScheduleRaces.RunStep(s, zone, start, Alone(q, newId));
    if ValidateReschedule(s.bookings, settings, id, startAt, now).Ok? {
      AcceptedMoveAlone(s, zone, lookup, q, id, startAt, now, noticeMs, newId);
    } else {
      RefusedMoveAlone(s, zone, lookup, q, id, startAt, now, noticeMs, newId);
    }
  }

  lemma RefusedMoveAlone(s: State, zone: Zones, lookup: Lookup, q: RequestId, id: BookingId, startAt: Option<int>,
                         now: int, noticeMs: nat, newId: BookingId)
    requires q !in s.requests && id in s.bookings && now + zone(s.bookings[id].coach) >= 0
    requires ValidateReschedule(s.bookings, Settings(zone(s.bookings[id].coach), noticeMs), id, startAt, now).Err?
    ensures var settings := Settings(zone(s.bookings[id].coach), noticeMs);
            Run(Apply(s, zone, StartReschedule(q, id, startAt, now, noticeMs)), zone, Alone(q, newId)).bookings
            == AfterMove(s.bookings, id, DecideReschedule(s.bookings, settings, lookup, id, startAt, now))
  {
    RescheduleStarts(s, zone, q, id, startAt, now, noticeMs);
    DecisionAfterChecks(s.bookings, Settings(zone(s.bookings[id].coach), noticeMs), lookup, id, startAt, now);
    NothingAlone(s, zone, q, newId);
  }
}
