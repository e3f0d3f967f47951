/** Concurrent booking requests as interleaved steps: begin with a snapshot, query the schedule
    (two queries, outside the transaction), run the overlap query on the snapshot, then commit or
    abort and retry. Cancellations, Meet-field updates, schedule edits and event-type edits are plain
    writes at any moment. */
module BookingProtocol {
  import opened Domain
  import Calendar
  import opened Availability
  import opened Slots
  import opened BookingRules
  import SerializableRetry

  type RequestId = nat

  /** The fixed offset of each coach's business timezone. */
  type Zones = CoachId -> int

  type RowTables = t: Tables | ValidTables(t) witness Tables([], [])

  type KnownType = e: EventType | ValidEventType(e) witness EventType(0, 5, {}, true)

  /** A transaction's view: the committed bookings and the length of the commit log when it began. */
  datatype Snapshot = Snapshot(bookings: map<BookingId, Booking>, position: nat)

  /** Progress of the schedule check; versions number the states of the schedule tables. */
  datatype Schedule = Unread | NoOverrides(version: nat) | Fits(overridesVersion: nat, weeklyVersion: nat)

  datatype Phase = Active | Committed | Failed

  /** A create (`target` is `None`) or a reschedule that passed the checks before its transaction. */
  datatype Request = Request(
    coach: CoachId, slot: Interval, day: nat, location: Location, target: Option<BookingId>, minutes: nat,
    started: nat, attempt: nat, schedule: Schedule, snapshot: Option<Snapshot>, clear: bool, phase: Phase)

  /** The predicate of the overlap query. */
  datatype Read = Read(coach: CoachId, slot: Interval, exclude: Option<BookingId>)

  /** One committed serializable transaction: who, the row version it wrote, what it had read, the
      duration in minutes its create was given, and the table versions at its start, its two schedule
      queries and its commit. */
  datatype Entry = Entry(
    request: RequestId, id: BookingId, row: Booking, read: Read, minutes: nat,
    started: nat, overridesVersion: nat, weeklyVersion: nat, version: nat)

  /** Every state the schedule tables have had; version `v` is the `v`-th. */
  datatype History = History(past: seq<RowTables>, current: RowTables)

  datatype State = State(
    bookings: map<BookingId, Booking>, log: seq<Entry>, requests: map<RequestId, Request>,
    types: map<TypeId, KnownType>, history: History)

  datatype Step =
    | StartCreate(q: RequestId, req: CreateRequest, now: int)
    | StartReschedule(q: RequestId, id: BookingId, startAt: Option<int>, now: int, noticeMs: nat)
    | TakeSnapshot(q: RequestId)
    | QueryOverrides(q: RequestId)
    | QueryWeekly(q: RequestId)
    | QueryOverlap(q: RequestId)
    | Commit(q: RequestId, newId: BookingId)
    | AbortSerialization(q: RequestId)
    | AbortOther(q: RequestId)
    | CancelWrite(id: BookingId)
    | MeetWrite(id: BookingId, event: Option<EventId>, link: Option<nat>)
    | EditTables(t: RowTables)
    | EditType(typeId: TypeId, e: KnownType)

  // ---------- the assumption on the database

  predicate Matches(id: BookingId, row: Booking, read: Read) {
    && row.coach == read.coach && row.status == Confirmed && read.exclude != Some(id)
    && Overlaps(row.slot, read.slot)
  }

  /** A transaction may commit unless, against a concurrent committed one, both writes match the other's
      read, or both write the same row. */
  predicate CommitAllowed(log: seq<Entry>, position: nat, id: BookingId, row: Booking, read: Read) {
    forall k :: position <= k < |log| ==>
                  && log[k].id != id
                  && !(Matches(log[k].id, log[k].row, read) && Matches(id, row, log[k].read))
  }

  // ---------- the steps

  predicate IsActive(s: State, q: RequestId) {
    q in s.requests && s.requests[q].phase == Active
  }

  function Update(s: State, q: RequestId, r: Request): State {
    s.(requests := s.requests[q := r])
  }

  function Fail(s: State, q: RequestId): State
    requires q in s.requests
  {
    Update(s, q, s.requests[q].(phase := Failed))
  }

  function Latest(h: History): nat {
    |h.past|
  }

  function At(h: History, v: nat): RowTables
    requires v <= Latest(h)
  {
    if v < |h.past| then h.past[v] else h.current
  }

  function Extend(h: History, t: RowTables): History {
    History(h.past + [h.current], t)
  }

  function FreshRequest(s: State, coach: CoachId, slot: Interval, day: nat, location: Location,
                        target: Option<BookingId>, minutes: nat): Request
  {
    Request(coach, slot, day, location, target, minutes, Latest(s.history), 1, Unread, None, false, Active)
  }

  function DoStartCreate(s: State, zone: Zones, q: RequestId, req: CreateRequest, now: int): State {
    if q in s.requests || req.typeId !in s.types || now + zone(s.types[req.typeId].coach) < 0 then s
    else
      var e := s.types[req.typeId];
      var slot := ValidateCreate(s.types, zone(e.coach), req, now);
      if slot.Err? then s
      else
        var day := DayOf(slot.value.start, zone(e.coach));
        Update(s, q, FreshRequest(s, e.coach, slot.value, day, req.location, None, e.durationMinutes))
  }

  function DoStartReschedule(s: State, zone: Zones, q: RequestId, id: BookingId, startAt: Option<int>,
                             now: int, noticeMs: nat): State
  {
    if q in s.requests || id !in s.bookings || now + zone(s.bookings[id].coach) < 0 then s
    else
      var b := s.bookings[id];
      var slot := ValidateReschedule(s.bookings, Settings(zone(b.coach), noticeMs), id, startAt, now);
      if slot.Err? then s
      else
        var day := DayOf(slot.value.start, zone(b.coach));
        Update(s, q, FreshRequest(s, b.coach, slot.value, day, b.location, Some(id), 0))
  }

  function DoTakeSnapshot(s: State, q: RequestId): State {
    if !IsActive(s, q) || s.requests[q].snapshot.Some? then s
    else Update(s, q, s.requests[q].(snapshot := Some(Snapshot(s.bookings, |s.log|))))
  }

  /** The first schedule query: the date's overrides. Finding any decides the check at once. */
  function DoQueryOverrides(s: State, zone: Zones, q: RequestId): State {
    if !IsActive(s, q) || s.requests[q].schedule != Unread then s
    else
      var r := s.requests[q];
      var os := Filter(s.history.current.overrides, OnDate(r.coach, r.day));
      if |os| == 0 then Update(s, q, r.(schedule := NoOverrides(Latest(s.history))))
      else if IsWithinEffectiveRange(RangesForDate(os, []), CandidateOf(r.slot, zone(r.coach)))
      then Update(s, q, r.(schedule := Fits(Latest(s.history), Latest(s.history))))
      else Fail(s, q)
  }

  /** The second schedule query, made only when there was no override: the weekly rows. */
  function DoQueryWeekly(s: State, zone: Zones, q: RequestId): State {
    if !IsActive(s, q) || !s.requests[q].schedule.NoOverrides? then s
    else
      var r := s.requests[q];
      var ws := Filter(s.history.current.weekly, OnWeekday(r.coach, Calendar.IsoWeekday(r.day)));
      if IsWithinEffectiveRange(RangesForDate([], ws), CandidateOf(r.slot, zone(r.coach)))
      then Update(s, q, r.(schedule := Fits(r.schedule.version, Latest(s.history))))
      else Fail(s, q)
  }

  function DoQueryOverlap(s: State, q: RequestId): State {
    if !IsActive(s, q) || !s.requests[q].schedule.Fits? || s.requests[q].snapshot.None? then s
    else
      var r := s.requests[q];
      if DisjointFromCompetitors(r.slot, r.snapshot.value.bookings, r.coach, r.target)
      then Update(s, q, r.(clear := true))
      else Fail(s, q)
  }

  predicate ReadyToCommit(s: State, q: RequestId, newId: BookingId) {
    && IsActive(s, q)
    && var r := s.requests[q];
    && r.schedule.Fits? && r.snapshot.Some? && r.clear
    && (if r.target.Some? then r.target.value in s.bookings else newId !in s.bookings)
    && CommitAllowed(s.log, r.snapshot.value.position, WrittenId(r, newId), WrittenRow(s, r), ReadOf(r))
  }

  function WrittenId(r: Request, newId: BookingId): BookingId {
    if r.target.Some? then r.target.value else newId
  }

  /** A create writes a new confirmed row; a reschedule sets only the interval of its row. */
  function WrittenRow(s: State, r: Request): Booking
    requires r.target.Some? ==> r.target.value in s.bookings
  {
    if r.target.Some? then s.bookings[r.target.value].(slot := r.slot)
    else Booking(r.coach, r.slot, r.location, Confirmed, None, None)
  }

  function ReadOf(r: Request): Read {
    Read(r.coach, r.slot, r.target)
  }

  function EntryOf(s: State, q: RequestId, newId: BookingId): Entry
    requires ReadyToCommit(s, q, newId)
  {
    var r := s.requests[q];
    Entry(q, WrittenId(r, newId), WrittenRow(s, r), ReadOf(r), r.minutes,
          r.started, r.schedule.overridesVersion, r.schedule.weeklyVersion, Latest(s.history))
  }

  function DoCommit(s: State, q: RequestId, newId: BookingId): State {
    if !ReadyToCommit(s, q, newId) then s
    else
      var entry := EntryOf(s, q, newId);
      Update(s, q, s.requests[q].(phase := Committed))
        .(bookings := s.bookings[entry.id := entry.row], log := s.log + [entry])
  }

  /** P2034: the attempt has no effect; the next one starts over, and the third failure is final. */
  function DoAbortSerialization(s: State, q: RequestId): State {
    if !IsActive(s, q) then s
    else if s.requests[q].attempt == SerializableRetry.RETRY_ATTEMPTS then Fail(s, q)
    else
      var r := s.requests[q];
      Update(s, q, r.(attempt := r.attempt + 1, schedule := Unread, snapshot := None, clear := false))
  }

  function DoPlainWrite(s: State, id: BookingId, row: Booking): State {
    if id !in s.bookings then s else s.(bookings := s.bookings[id := row])
  }

  function Apply(s: State, zone: Zones, step: Step): State {
    match step
    case StartCreate(q, req, now) => DoStartCreate(s, zone, q, req, now)
    case StartReschedule(q, id, startAt, now, noticeMs) => DoStartReschedule(s, zone, q, id, startAt, now, noticeMs)
    case TakeSnapshot(q) => DoTakeSnapshot(s, q)
    case QueryOverrides(q) => DoQueryOverrides(s, zone, q)
    case QueryWeekly(q) => DoQueryWeekly(s, zone, q)
    case QueryOverlap(q) => DoQueryOverlap(s, q)
    case Commit(q, newId) => DoCommit(s, q, newId)
    case AbortSerialization(q) => DoAbortSerialization(s, q)
    case AbortOther(q) => if IsActive(s, q) then Fail(s, q) else s
    case CancelWrite(id) =>
      if id in s.bookings then DoPlainWrite(s, id, s.bookings[id].(status := Cancelled)) else s
    case MeetWrite(id, event, link) =>
      if id in s.bookings
      then DoPlainWrite(s, id, s.bookings[id].(googleEventId := event, meetLink := link)) else s
    case EditTables(t) => s.(history := Extend(s.history, t))
    case EditType(typeId, e) => s.(types := s.types[typeId := e])
  }

  function Run(s: State, zone: Zones, steps: seq<Step>): State
    decreases |steps|
  {
    if |steps| == 0 then s else Run(Apply(s, zone, steps[0]), zone, steps[1..])
  }

  function Initial(types: map<TypeId, KnownType>, tables: RowTables): State {
    State(map[], [], map[], types, History([], tables))
  }

  // ---------- the invariant

  predicate NoDoubleBooking(bookings: map<BookingId, Booking>) {
    forall x, y :: x in bookings && y in bookings && x != y
                   && bookings[x].coach == bookings[y].coach
                   && bookings[x].status == Confirmed && bookings[y].status == Confirmed ==>
                     !Overlaps(bookings[x].slot, bookings[y].slot)
  }

  predicate SameClaim(a: Booking, b: Booking) {
    a.coach == b.coach && a.slot == b.slot && a.status == Confirmed
  }

  /** A confirmed booking was already so in the snapshot, or a later entry of the log put it there. */
  predicate Accounted(sn: Snapshot, log: seq<Entry>, id: BookingId, b: Booking) {
    || (id in sn.bookings && SameClaim(sn.bookings[id], b))
    || exists k :: sn.position <= k < |log| && log[k].id == id && SameClaim(log[k].row, b)
  }

  predicate SnapshotCovers(sn: Snapshot, log: seq<Entry>, bookings: map<BookingId, Booking>) {
    && sn.position <= |log|
    && forall id :: id in bookings && bookings[id].status == Confirmed ==> Accounted(sn, log, id, bookings[id])
  }

  predicate SnapshotOk(bookings: map<BookingId, Booking>, log: seq<Entry>, r: Request) {
    && (r.snapshot.Some? ==> SnapshotCovers(r.snapshot.value, log, bookings))
    && (r.clear ==> r.snapshot.Some? && DisjointFromCompetitors(r.slot, r.snapshot.value.bookings, r.coach, r.target))
  }

  function Length(i: Interval): int {
    i.end - i.start
  }

  predicate IntervalOk(bookings: map<BookingId, Booking>, zone: Zones, r: Request) {
    && InsideOneDay(r.slot, zone(r.coach)) && DayOf(r.slot.start, zone(r.coach)) == r.day
    && (if r.target.Some? then
          && r.target.value in bookings && bookings[r.target.value].coach == r.coach
          && Length(bookings[r.target.value].slot) == Length(r.slot)
        else Length(r.slot) == r.minutes * MINUTE)
  }

  function Mixed(overrides: RowTables, weekly: RowTables): RowTables {
    Tables(overrides.overrides, weekly.weekly)
  }

  ghost predicate HasOverride(t: Tables, coach: CoachId, day: nat) {
    exists o :: o in t.overrides && o.coach == coach && o.date == day
  }

  /** What the two schedule queries established: the interval fits the overrides of one version with
      the weekly rows of a later one, and if these differ, the first query found no override. */
  ghost predicate ScheduleBasis(h: History, offset: int, coach: CoachId, slot: Interval,
                                started: nat, ov: nat, wv: nat)
  {
    && started <= ov <= wv <= Latest(h)
    && DayOf(slot.start, offset) >= 0
    && FitsSchedule(slot, Mixed(At(h, ov), At(h, wv)), coach, offset)
    && (ov == wv || !HasOverride(At(h, ov), coach, DayOf(slot.start, offset)))
  }

  ghost predicate ScheduleOk(h: History, offset: int, r: Request) {
    && r.started <= Latest(h)
    && match r.schedule
       case Unread => true
       case NoOverrides(v) => r.started <= v <= Latest(h) && !HasOverride(At(h, v), r.coach, r.day)
       case Fits(ov, wv) => ScheduleBasis(h, offset, r.coach, r.slot, r.started, ov, wv)
  }

  ghost predicate SnapshotsOk(requests: map<RequestId, Request>, bookings: map<BookingId, Booking>, log: seq<Entry>) {
    forall q :: q in requests && requests[q].phase == Active ==> SnapshotOk(bookings, log, requests[q])
  }

  ghost predicate IntervalsOk(requests: map<RequestId, Request>, bookings: map<BookingId, Booking>, zone: Zones) {
    forall q :: q in requests && requests[q].phase == Active ==> IntervalOk(bookings, zone, requests[q])
  }

  ghost predicate SchedulesOk(requests: map<RequestId, Request>, h: History, zone: Zones) {
    forall q :: q in requests && requests[q].phase == Active ==> ScheduleOk(h, zone(requests[q].coach), requests[q])
  }

  /** Log entries read what they wrote. */
  predicate ReadsMatchWrites(log: seq<Entry>) {
    forall k :: 0 <= k < |log| ==>
                  && log[k].read.coach == log[k].row.coach && log[k].read.slot == log[k].row.slot
                  && log[k].read.exclude in {None, Some(log[k].id)}
  }

  /** Each request is in the log at most once, and then it is committed. */
  predicate OneCommitEach(log: seq<Entry>, requests: map<RequestId, Request>) {
    && (forall k :: 0 <= k < |log| ==> log[k].request in requests && requests[log[k].request].phase == Committed)
    && (forall j, k :: 0 <= j < k < |log| ==> log[j].request != log[k].request)
  }

  ghost predicate LogScheduled(log: seq<Entry>, h: History, zone: Zones) {
    forall k :: 0 <= k < |log| ==> EntryScheduled(log[k], h, zone(log[k].row.coach))
  }

  ghost predicate EntryScheduled(e: Entry, h: History, offset: int) {
    && e.weeklyVersion <= e.version <= Latest(h)
    && ScheduleBasis(h, offset, e.row.coach, e.row.slot, e.started, e.overridesVersion, e.weeklyVersion)
  }

  /** The create that made booking `id`. */
  predicate IsCreation(e: Entry, id: BookingId) {
    e.id == id && e.read.exclude == None
  }

  ghost predicate BookingOk(id: BookingId, b: Booking, log: seq<Entry>, offset: int) {
    && InsideOneDay(b.slot, offset)
    && exists k :: 0 <= k < |log| && IsCreation(log[k], id) && Length(b.slot) == log[k].minutes * MINUTE
  }

  ghost predicate BookingsOk(bookings: map<BookingId, Booking>, log: seq<Entry>, zone: Zones) {
    forall id :: id in bookings ==> BookingOk(id, bookings[id], log, zone(bookings[id].coach))
  }

  ghost predicate RequestsOk(s: State, zone: Zones) {
    && SnapshotsOk(s.requests, s.bookings, s.log)
    && IntervalsOk(s.requests, s.bookings, zone)
    && SchedulesOk(s.requests, s.history, zone)
  }

  ghost predicate Inv(s: State, zone: Zones) {
    && NoDoubleBooking(s.bookings)
    && BookingsOk(s.bookings, s.log, zone)
    && ReadsMatchWrites(s.log)
    && OneCommitEach(s.log, s.requests)
    && LogScheduled(s.log, s.history, zone)
    && RequestsOk(s, zone)
  }

  // ---------- steps that change one request only

  ghost predicate RequestOk(s: State, zone: Zones, r: Request) {
    SnapshotOk(s.bookings, s.log, r) && IntervalOk(s.bookings, zone, r) && ScheduleOk(s.history, zone(r.coach), r)
  }

  lemma RequestStep(s: State, zone: Zones, q: RequestId, r: Request)
    requires Inv(s, zone)
    requires q in s.requests ==> s.requests[q].phase == Active
    requires r.phase == Active ==> RequestOk(s, zone, r)
    requires r.phase != Committed
    ensures Inv(Update(s, q, r), zone)
  {
  }

  lemma ActiveRequestOk(s: State, zone: Zones, q: RequestId)
    requires Inv(s, zone) && IsActive(s, q)
    ensures RequestOk(s, zone, s.requests[q])
  {
  }

  lemma StartCreateKeepsInv(s: State, zone: Zones, q: RequestId, req: CreateRequest, now: int)
    requires Inv(s, zone)
    ensures Inv(DoStartCreate(s, zone, q, req, now), zone)
  {
    var s' := DoStartCreate(s, zone, q, req, now);
    if s' != s {
      assert ValidEventType(s.types[req.typeId]);
      RequestStep(s, zone, q, s'.requests[q]);
    }
  }

  lemma ValidRescheduleInterval(bookings: map<BookingId, Booking>, settings: Settings, id: BookingId,
                                startAt: Option<int>, now: int)
    requires id in bookings && bookings[id].slot.start < bookings[id].slot.end
    ensures var slot := ValidateReschedule(bookings, settings, id, startAt, now);
            slot.Ok? ==> && InsideOneDay(slot.value, settings.offset) && now <= slot.value.start
                         && Length(slot.value) == Length(bookings[id].slot)
  {
  }

  lemma StartRescheduleKeepsInv(s: State, zone: Zones, q: RequestId, id: BookingId, startAt: Option<int>,
                                now: int, noticeMs: nat)
    requires Inv(s, zone)
    ensures Inv(DoStartReschedule(s, zone, q, id, startAt, now, noticeMs), zone)
  {
    var s' := DoStartReschedule(s, zone, q, id, startAt, now, noticeMs);
    if s' != s {
      var offset := zone(s.bookings[id].coach);
      assert BookingOk(id, s.bookings[id], s.log, offset);
      ValidRescheduleInterval(s.bookings, Settings(offset, noticeMs), id, startAt, now);
      var r := s'.requests[q];
      assert IntervalOk(s.bookings, zone, r);
      RequestStep(s, zone, q, r);
    }
  }

  lemma TakeSnapshotKeepsInv(s: State, zone: Zones, q: RequestId)
    requires Inv(s, zone)
    ensures Inv(DoTakeSnapshot(s, q), zone)
  {
    var s' := DoTakeSnapshot(s, q);
    if s' != s {
      ActiveRequestOk(s, zone, q);
      var sn := Snapshot(s.bookings, |s.log|);
      forall id | id in s.bookings && s.bookings[id].status == Confirmed
        ensures Accounted(sn, s.log, id, s.bookings[id])
      {
        assert SameClaim(sn.bookings[id], s.bookings[id]);
      }
      RequestStep(s, zone, q, s'.requests[q]);
    }
  }

  lemma FailKeepsInv(s: State, zone: Zones, q: RequestId)
    requires Inv(s, zone) && IsActive(s, q)
    ensures Inv(Fail(s, q), zone)
  {
    RequestStep(s, zone, q, s.requests[q].(phase := Failed));
  }

  lemma QueryOverlapKeepsInv(s: State, zone: Zones, q: RequestId)
    requires Inv(s, zone)
    ensures Inv(DoQueryOverlap(s, q), zone)
  {
    var s' := DoQueryOverlap(s, q);
    if s' != s {
      var r := s.requests[q];
      if DisjointFromCompetitors(r.slot, r.snapshot.value.bookings, r.coach, r.target) {
        ActiveRequestOk(s, zone, q);
        RequestStep(s, zone, q, r.(clear := true));
      } else {
        FailKeepsInv(s, zone, q);
      }
    }
  }

  lemma AbortKeepsInv(s: State, zone: Zones, q: RequestId)
    requires Inv(s, zone)
    ensures Inv(DoAbortSerialization(s, q), zone)
  {
    if IsActive(s, q) {
      var r := s.requests[q];
      if r.attempt == SerializableRetry.RETRY_ATTEMPTS {
        FailKeepsInv(s, zone, q);
      } else {
        ActiveRequestOk(s, zone, q);
        RequestStep(s, zone, q, r.(attempt := r.attempt + 1, schedule := Unread, snapshot := None, clear := false));
      }
    }
  }

  // ---------- the schedule queries

  lemma OverridesFit(t: RowTables, r: Request, offset: int)
    requires DayOf(r.slot.start, offset) == r.day
    ensures var os := Filter(t.overrides, OnDate(r.coach, r.day));
            && (|os| == 0 <==> !HasOverride(t, r.coach, r.day))
            && (|os| > 0 ==>
                  (IsWithinEffectiveRange(RangesForDate(os, []), CandidateOf(r.slot, offset)) <==>
                   FitsSchedule(r.slot, t, r.coach, offset)))
  {
    var os := Filter(t.overrides, OnDate(r.coach, r.day));
    if |os| > 0 {
      assert os[0] in os;
      ScheduleCheckIsExact(RangesForDate(os, []), r.slot, t, r.coach, offset);
    } else {
      assert forall o :: o in t.overrides && o.coach == r.coach && o.date == r.day ==> o in os;
    }
  }

  lemma WeeklyFit(none: RowTables, t: RowTables, r: Request, offset: int)
    requires DayOf(r.slot.start, offset) == r.day && !HasOverride(none, r.coach, r.day)
    ensures var ws := Filter(t.weekly, OnWeekday(r.coach, Calendar.IsoWeekday(r.day)));
            IsWithinEffectiveRange(RangesForDate([], ws), CandidateOf(r.slot, offset)) <==>
            FitsSchedule(r.slot, Mixed(none, t), r.coach, offset)
  {
    OverridesFit(none, r, offset);
    assert Filter(none.overrides, OnDate(r.coach, r.day)) == [];
    var ws := Filter(t.weekly, OnWeekday(r.coach, Calendar.IsoWeekday(r.day)));
    ScheduleCheckIsExact(RangesForDate([], ws), r.slot, Mixed(none, t), r.coach, offset);
  }

  lemma OverridesQueryOk(h: History, zone: Zones, r: Request)
    requires r.started <= Latest(h)
    requires DayOf(r.slot.start, zone(r.coach)) == r.day
    ensures var os := Filter(h.current.overrides, OnDate(r.coach, r.day));
            if |os| == 0 then ScheduleOk(h, zone(r.coach), r.(schedule := NoOverrides(Latest(h))))
            else IsWithinEffectiveRange(RangesForDate(os, []), CandidateOf(r.slot, zone(r.coach))) ==>
                   ScheduleOk(h, zone(r.coach), r.(schedule := Fits(Latest(h), Latest(h))))
  {
    OverridesFit(h.current, r, zone(r.coach));
    assert Mixed(h.current, h.current) == h.current;
  }

  lemma QueryOverridesKeepsInv(s: State, zone: Zones, q: RequestId)
    requires Inv(s, zone)
    ensures Inv(DoQueryOverrides(s, zone, q), zone)
  {
    if IsActive(s, q) && s.requests[q].schedule == Unread {
      var r := s.requests[q];
      ActiveRequestOk(s, zone, q);
      OverridesQueryOk(s.history, zone, r);
      NewScheduleKeepsInv(s, zone, q, NoOverrides(Latest(s.history)));
      NewScheduleKeepsInv(s, zone, q, Fits(Latest(s.history), Latest(s.history)));
      FailKeepsInv(s, zone, q);
    }
  }

  /** What the first query decides: no override leaves the date to the second; otherwise the request goes on
      exactly if its interval fits. */
  lemma QueryOverridesDecides(s: State, zone: Zones, q: RequestId)
    requires IsActive(s, q) && s.requests[q].schedule == Unread
    requires DayOf(s.requests[q].slot.start, zone(s.requests[q].coach)) == s.requests[q].day
    ensures var r, n := s.requests[q], Latest(s.history);
            DoQueryOverrides(s, zone, q)
            == if !HasOverride(s.history.current, r.coach, r.day) then Update(s, q, r.(schedule := NoOverrides(n)))
               else if FitsSchedule(r.slot, s.history.current, r.coach, zone(r.coach))
               then Update(s, q, r.(schedule := Fits(n, n)))
               else Fail(s, q)
  {
    OverridesFit(s.history.current, s.requests[q], zone(s.requests[q].coach));
  }

  /** And the second: it goes on exactly if the interval fits the overrides of the first query with the weekly
      rows of now. */
  lemma QueryWeeklyDecides(s: State, zone: Zones, q: RequestId)
    requires IsActive(s, q) && s.requests[q].schedule.NoOverrides?
    requires s.requests[q].schedule.version <= Latest(s.history)
    requires DayOf(s.requests[q].slot.start, zone(s.requests[q].coach)) == s.requests[q].day
    requires !HasOverride(At(s.history, s.requests[q].schedule.version), s.requests[q].coach, s.requests[q].day)
    ensures var r := s.requests[q];
            var seen := Mixed(At(s.history, r.schedule.version), s.history.current);
            DoQueryWeekly(s, zone, q)
            == if FitsSchedule(r.slot, seen, r.coach, zone(r.coach))
               then Update(s, q, r.(schedule := Fits(r.schedule.version, Latest(s.history))))
               else Fail(s, q)
  {
    var r := s.requests[q];
    WeeklyFit(At(s.history, r.schedule.version), s.history.current, r, zone(r.coach));
  }

  lemma NewScheduleKeepsInv(s: State, zone: Zones, q: RequestId, schedule: Schedule)
    requires Inv(s, zone) && IsActive(s, q)
    ensures var r := s.requests[q].(schedule := schedule);
            ScheduleOk(s.history, zone(r.coach), r) ==> Inv(Update(s, q, r), zone)
  {
    var r := s.requests[q].(schedule := schedule);
    if ScheduleOk(s.history, zone(r.coach), r) {
      ActiveRequestOk(s, zone, q);
      RequestStep(s, zone, q, r);
    }
  }

  lemma WeeklyQueryOk(h: History, zone: Zones, r: Request)
    requires r.schedule.NoOverrides? && ScheduleOk(h, zone(r.coach), r)
    requires DayOf(r.slot.start, zone(r.coach)) == r.day
    ensures var ws := Filter(h.current.weekly, OnWeekday(r.coach, Calendar.IsoWeekday(r.day)));
            IsWithinEffectiveRange(RangesForDate([], ws), CandidateOf(r.slot, zone(r.coach))) ==>
              ScheduleOk(h, zone(r.coach), r.(schedule := Fits(r.schedule.version, Latest(h))))
  {
    var ws := Filter(h.current.weekly, OnWeekday(r.coach, Calendar.IsoWeekday(r.day)));
    if IsWithinEffectiveRange(RangesForDate([], ws), CandidateOf(r.slot, zone(r.coach))) {
      WeeklyFit(At(h, r.schedule.version), h.current, r, zone(r.coach));
    }
  }

  lemma QueryWeeklyKeepsInv(s: State, zone: Zones, q: RequestId)
    requires Inv(s, zone)
    ensures Inv(DoQueryWeekly(s, zone, q), zone)
  {
    if IsActive(s, q) && s.requests[q].schedule.NoOverrides? {
      var r := s.requests[q];
      ActiveRequestOk(s, zone, q);
      WeeklyQueryOk(s.history, zone, r);
      NewScheduleKeepsInv(s, zone, q, Fits(r.schedule.version, Latest(s.history)));
      FailKeepsInv(s, zone, q);
    }
  }

  // ---------- plain writes and edits

  /** A cancellation or a Meet-field update: coach and interval stay, a row never becomes confirmed again. */
  lemma PlainWriteKeepsInv(s: State, zone: Zones, id: BookingId, row: Booking)
    requires Inv(s, zone) && id in s.bookings
    requires row.coach == s.bookings[id].coach && row.slot == s.bookings[id].slot
    requires row.status == Confirmed ==> s.bookings[id].status == Confirmed
    ensures Inv(DoPlainWrite(s, id, row), zone)
  {
    PlainWriteKeepsRequests(s.requests, s.bookings, s.log, zone, id, row);
    PlainWriteKeepsBookings(s.bookings, s.log, zone, id, row);
  }

  lemma PlainWriteKeepsRequests(requests: map<RequestId, Request>, bookings: map<BookingId, Booking>, log: seq<Entry>,
                                zone: Zones, id: BookingId, row: Booking)
    requires SnapshotsOk(requests, bookings, log) && IntervalsOk(requests, bookings, zone) && id in bookings
    requires row.coach == bookings[id].coach && row.slot == bookings[id].slot
    requires row.status == Confirmed ==> bookings[id].status == Confirmed
    ensures SnapshotsOk(requests, bookings[id := row], log) && IntervalsOk(requests, bookings[id := row], zone)
  {
  }

  lemma PlainWriteKeepsBookings(bookings: map<BookingId, Booking>, log: seq<Entry>, zone: Zones, id: BookingId,
                                row: Booking)
    requires BookingsOk(bookings, log, zone) && NoDoubleBooking(bookings) && id in bookings
    requires row.coach == bookings[id].coach && row.slot == bookings[id].slot
    requires row.status == Confirmed ==> bookings[id].status == Confirmed
    ensures BookingsOk(bookings[id := row], log, zone) && NoDoubleBooking(bookings[id := row])
  {
  }

  lemma EditTablesKeepsInv(s: State, zone: Zones, t: RowTables)
    requires Inv(s, zone)
    ensures Inv(s.(history := Extend(s.history, t)), zone)
  {
    var h, h' := s.history, Extend(s.history, t);
    assert forall v: nat :: v <= Latest(h) ==> At(h', v) == At(h, v);
    forall q | q in s.requests && s.requests[q].phase == Active
      ensures ScheduleOk(h', zone(s.requests[q].coach), s.requests[q])
    {
      assert ScheduleOk(h, zone(s.requests[q].coach), s.requests[q]);
    }
    forall k | 0 <= k < |s.log| ensures EntryScheduled(s.log[k], h', zone(s.log[k].row.coach)) {
      assert EntryScheduled(s.log[k], h, zone(s.log[k].row.coach));
    }
  }

  // ---------- the commit

  /** The heart of it. Another confirmed booking of the coach was either in the snapshot, where the
      overlap query saw it, or written by a concurrent commit; there an overlap would make each write
      match the other's read, because overlap is symmetric. */
  lemma CommitIsDisjoint(sn: Snapshot, log: seq<Entry>, bookings: map<BookingId, Booking>, read: Read,
                         id: BookingId, row: Booking, other: BookingId)
    requires SnapshotCovers(sn, log, bookings) && ReadsMatchWrites(log)
    requires DisjointFromCompetitors(read.slot, sn.bookings, read.coach, read.exclude)
    requires read.coach == row.coach && read.slot == row.slot && read.exclude in {None, Some(id)}
    requires CommitAllowed(log, sn.position, id, row, read)
    requires other in bookings && other != id && bookings[other].coach == row.coach
    requires bookings[other].status == Confirmed && row.status == Confirmed
    ensures !Overlaps(bookings[other].slot, row.slot)
  {
    var b := bookings[other];
    assert Accounted(sn, log, other, b);
    if other in sn.bookings && SameClaim(sn.bookings[other], b) {
      assert Competes(sn.bookings, other, read.coach, read.exclude);
    } else {
      var k :| sn.position <= k < |log| && log[k].id == other && SameClaim(log[k].row, b);
      assert Overlaps(b.slot, row.slot) ==> Matches(log[k].id, log[k].row, read) && Matches(id, row, log[k].read);
    }
  }

  lemma CommitKeepsCover(sn: Snapshot, log: seq<Entry>, bookings: map<BookingId, Booking>, e: Entry)
    requires SnapshotCovers(sn, log, bookings)
    ensures SnapshotCovers(sn, log + [e], bookings[e.id := e.row])
  {
    var log', bookings' := log + [e], bookings[e.id := e.row];
    forall id | id in bookings' && bookings'[id].status == Confirmed ensures Accounted(sn, log', id, bookings'[id]) {
      if id == e.id {
        assert log'[|log|] == e;
      } else {
        assert Accounted(sn, log, id, bookings[id]);
        assert forall k :: 0 <= k < |log| ==> log'[k] == log[k];
      }
    }
  }

  /** What holds of the entry a ready request is about to commit. */
  ghost predicate EntryReady(s: State, zone: Zones, sn: Snapshot, e: Entry) {
    && SnapshotCovers(sn, s.log, s.bookings)
    && DisjointFromCompetitors(e.read.slot, sn.bookings, e.read.coach, e.read.exclude)
    && e.read.coach == e.row.coach && e.read.slot == e.row.slot && e.read.exclude in {None, Some(e.id)}
    && CommitAllowed(s.log, sn.position, e.id, e.row, e.read)
    && InsideOneDay(e.row.slot, zone(e.row.coach))
    && (if e.id in s.bookings then
          s.bookings[e.id].coach == e.row.coach && Length(e.row.slot) == Length(s.bookings[e.id].slot)
        else e.read.exclude == None && Length(e.row.slot) == e.minutes * MINUTE)
    && EntryScheduled(e, s.history, zone(e.row.coach))
  }

  lemma ReadyEntry(s: State, zone: Zones, q: RequestId, newId: BookingId)
    requires Inv(s, zone) && ReadyToCommit(s, q, newId)
    ensures EntryReady(s, zone, s.requests[q].snapshot.value, EntryOf(s, q, newId))
  {
    ActiveRequestOk(s, zone, q);
  }

  lemma CommitKeepsNoDoubleBooking(s: State, zone: Zones, sn: Snapshot, e: Entry)
    requires NoDoubleBooking(s.bookings) && ReadsMatchWrites(s.log) && EntryReady(s, zone, sn, e)
    ensures NoDoubleBooking(s.bookings[e.id := e.row])
  {
    forall x | x in s.bookings && x != e.id && s.bookings[x].coach == e.row.coach
               && s.bookings[x].status == Confirmed && e.row.status == Confirmed
      ensures !Overlaps(s.bookings[x].slot, e.row.slot)
    {
      CommitIsDisjoint(sn, s.log, s.bookings, e.read, e.id, e.row, x);
    }
    InsertKeepsNoDoubleBooking(s.bookings, e.id, e.row);
  }

  lemma InsertKeepsNoDoubleBooking(bookings: map<BookingId, Booking>, id: BookingId, row: Booking)
    requires NoDoubleBooking(bookings)
    requires forall x :: x in bookings && x != id && bookings[x].coach == row.coach
                         && bookings[x].status == Confirmed && row.status == Confirmed ==>
                           !Overlaps(bookings[x].slot, row.slot)
    ensures NoDoubleBooking(bookings[id := row])
  {
  }

  lemma CommitKeepsBookings(bookings: map<BookingId, Booking>, log: seq<Entry>, zone: Zones, e: Entry)
    requires BookingsOk(bookings, log, zone) && InsideOneDay(e.row.slot, zone(e.row.coach))
    requires if e.id in bookings then Length(e.row.slot) == Length(bookings[e.id].slot)
             else e.read.exclude == None && Length(e.row.slot) == e.minutes * MINUTE
    ensures BookingsOk(bookings[e.id := e.row], log + [e], zone)
  {
    var bookings', log' := bookings[e.id := e.row], log + [e];
    forall id | id in bookings' ensures BookingOk(id, bookings'[id], log', zone(bookings'[id].coach)) {
      if id in bookings {
        assert BookingOk(id, bookings[id], log, zone(bookings[id].coach));
        var k :| 0 <= k < |log| && IsCreation(log[k], id) && Length(bookings[id].slot) == log[k].minutes * MINUTE;
        assert log'[k] == log[k];
      } else {
        assert log'[|log|] == e && IsCreation(e, id);
      }
    }
  }

  lemma CommitKeepsRequest(s: State, zone: Zones, sn: Snapshot, e: Entry, r: Request)
    requires RequestOk(s, zone, r) && EntryReady(s, zone, sn, e)
    ensures SnapshotOk(s.bookings[e.id := e.row], s.log + [e], r)
    ensures IntervalOk(s.bookings[e.id := e.row], zone, r)
  {
    if r.snapshot.Some? {
      CommitKeepsCover(r.snapshot.value, s.log, s.bookings, e);
    }
  }

  lemma AppendKeepsLog(log: seq<Entry>, requests: map<RequestId, Request>, e: Entry)
    requires ReadsMatchWrites(log) && OneCommitEach(log, requests)
    requires e.request in requests && requests[e.request].phase == Active
    requires e.read.coach == e.row.coach && e.read.slot == e.row.slot && e.read.exclude in {None, Some(e.id)}
    ensures ReadsMatchWrites(log + [e])
    ensures OneCommitEach(log + [e], requests[e.request := requests[e.request].(phase := Committed)])
  {
  }

  lemma AppendKeepsSchedule(log: seq<Entry>, h: History, zone: Zones, e: Entry)
    requires LogScheduled(log, h, zone) && EntryScheduled(e, h, zone(e.row.coach))
    ensures LogScheduled(log + [e], h, zone)
  {
  }

  lemma CommitKeepsInv(s: State, zone: Zones, q: RequestId, newId: BookingId)
    requires Inv(s, zone)
    ensures Inv(DoCommit(s, q, newId), zone)
  {
    if ReadyToCommit(s, q, newId) {
      var sn, e := s.requests[q].snapshot.value, EntryOf(s, q, newId);
      ReadyEntry(s, zone, q, newId);
      CommitKeepsNoDoubleBooking(s, zone, sn, e);
      CommitKeepsBookings(s.bookings, s.log, zone, e);
      AppendKeepsLog(s.log, s.requests, e);
      AppendKeepsSchedule(s.log, s.history, zone, e);
      CommitKeepsRequests(s, zone, q, sn, e);
    }
  }

  lemma CommitKeepsRequests(s: State, zone: Zones, q: RequestId, sn: Snapshot, e: Entry)
    requires Inv(s, zone) && EntryReady(s, zone, sn, e) && IsActive(s, q)
    ensures var requests' := s.requests[q := s.requests[q].(phase := Committed)];
            && SnapshotsOk(requests', s.bookings[e.id := e.row], s.log + [e])
            && IntervalsOk(requests', s.bookings[e.id := e.row], zone)
            && SchedulesOk(requests', s.history, zone)
  {
    forall p | IsActive(s, p)
      ensures SnapshotOk(s.bookings[e.id := e.row], s.log + [e], s.requests[p])
      ensures IntervalOk(s.bookings[e.id := e.row], zone, s.requests[p])
    {
      ActiveRequestOk(s, zone, p);
      CommitKeepsRequest(s, zone, sn, e, s.requests[p]);
    }
  }

  // ---------- every run

  lemma CancelWriteIsPlain(s: State, zone: Zones, id: BookingId)
    requires id in s.bookings
    ensures Apply(s, zone, CancelWrite(id)) == DoPlainWrite(s, id, s.bookings[id].(status := Cancelled))
  {
  }

  lemma MeetWriteIsPlain(s: State, zone: Zones, id: BookingId, event: Option<EventId>, link: Option<nat>)
    requires id in s.bookings
    ensures Apply(s, zone, MeetWrite(id, event, link))
            == DoPlainWrite(s, id, s.bookings[id].(googleEventId := event, meetLink := link))
  {
  }

  lemma CancelWriteKeepsInv(s: State, zone: Zones, id: BookingId)
    requires Inv(s, zone)
    ensures Inv(Apply(s, zone, CancelWrite(id)), zone)
  {
    if id in s.bookings {
      CancelWriteIsPlain(s, zone, id);
      PlainWriteKeepsInv(s, zone, id, s.bookings[id].(status := Cancelled));
    }
  }

  lemma MeetWriteKeepsInv(s: State, zone: Zones, id: BookingId, event: Option<EventId>, link: Option<nat>)
    requires Inv(s, zone)
    ensures Inv(Apply(s, zone, MeetWrite(id, event, link)), zone)
  {
    if id in s.bookings {
      MeetWriteIsPlain(s, zone, id, event, link);
      PlainWriteKeepsInv(s, zone, id, s.bookings[id].(googleEventId := event, meetLink := link));
    }
  }

  lemma EditTypeKeepsInv(s: State, zone: Zones, typeId: TypeId, e: KnownType)
    requires Inv(s, zone)
    ensures Inv(s.(types := s.types[typeId := e]), zone)
  {
  }

  lemma RequestStepKeepsInv(s: State, zone: Zones, step: Step)
    requires Inv(s, zone)
    requires step.TakeSnapshot? || step.QueryOverrides? || step.QueryWeekly? || step.QueryOverlap?
    ensures Inv(Apply(s, zone, step), zone)
  {
    match step
    case TakeSnapshot(q) => TakeSnapshotKeepsInv(s, zone, q);
    case QueryOverrides(q) => QueryOverridesKeepsInv(s, zone, q);
    case QueryWeekly(q) => QueryWeeklyKeepsInv(s, zone, q);
    case QueryOverlap(q) => QueryOverlapKeepsInv(s, zone, q);
  }

  lemma EndStepKeepsInv(s: State, zone: Zones, step: Step)
    requires Inv(s, zone)
    requires step.Commit? || step.AbortSerialization? || step.AbortOther?
    ensures Inv(Apply(s, zone, step), zone)
  {
    match step
    case Commit(q, newId) => CommitKeepsInv(s, zone, q, newId);
    case AbortSerialization(q) => AbortKeepsInv(s, zone, q);
    case AbortOther(q) =>
      if IsActive(s, q) {
        FailKeepsInv(s, zone, q);
      }
  }

  lemma StepKeepsInv(s: State, zone: Zones, step: Step)
    requires Inv(s, zone)
    ensures Inv(Apply(s, zone, step), zone)
  {
    match step
    case StartCreate(q, req, now) => StartCreateKeepsInv(s, zone, q, req, now);
    case StartReschedule(q, id, startAt, now, noticeMs) =>
      StartRescheduleKeepsInv(s, zone, q, id, startAt, now, noticeMs);
    case CancelWrite(id) => CancelWriteKeepsInv(s, zone, id);
    case MeetWrite(id, event, link) => MeetWriteKeepsInv(s, zone, id, event, link);
    case EditTables(t) => EditTablesKeepsInv(s, zone, t);
    case EditType(typeId, e) => EditTypeKeepsInv(s, zone, typeId, e);
    case Commit(_, _) => EndStepKeepsInv(s, zone, step);
    case AbortSerialization(_) => EndStepKeepsInv(s, zone, step);
    case AbortOther(_) => EndStepKeepsInv(s, zone, step);
    case _ => RequestStepKeepsInv(s, zone, step);
  }

  lemma {:induction false} RunKeepsInv(s: State, zone: Zones, steps: seq<Step>)
    requires Inv(s, zone)
    ensures Inv(Run(s, zone, steps), zone)
    decreases |steps|
  {
    if |steps| > 0 {
      StepKeepsInv(s, zone, steps[0]);
      RunKeepsInv(Apply(s, zone, steps[0]), zone, steps[1..]);
    }
  }

  // ---------- the theorems

  lemma ReachableInv(types: map<TypeId, KnownType>, tables: RowTables, zone: Zones, steps: seq<Step>)
    ensures Inv(Run(Initial(types, tables), zone, steps), zone)
  {
    RunKeepsInv(Initial(types, tables), zone, steps);
  }

  /** In every reachable state, no two confirmed bookings of one coach overlap. */
  lemma NeverDoubleBooked(types: map<TypeId, KnownType>, tables: RowTables, zone: Zones, steps: seq<Step>,
                          x: BookingId, y: BookingId)
    requires var bookings := Run(Initial(types, tables), zone, steps).bookings;
             && x in bookings && y in bookings && x != y && bookings[x].coach == bookings[y].coach
             && bookings[x].status == Confirmed && bookings[y].status == Confirmed
    ensures var bookings := Run(Initial(types, tables), zone, steps).bookings;
            !exists t: int :: InInterval(t, bookings[x].slot) && InInterval(t, bookings[y].slot)
  {
    ReachableInv(types, tables, zone, steps);
    var s := Run(Initial(types, tables), zone, steps);
    assert BookingOk(x, s.bookings[x], s.log, zone(s.bookings[x].coach));
    assert BookingOk(y, s.bookings[y], s.log, zone(s.bookings[y].coach));
    OverlapIsSharedInstant(s.bookings[x].slot, s.bookings[y].slot);
  }

  /** Exactly one create made booking `id`, and it was given a duration of `length` milliseconds. */
  ghost predicate MadeOnce(log: seq<Entry>, id: BookingId, length: int) {
    exists k :: && 0 <= k < |log| && IsCreation(log[k], id) && length == log[k].minutes * MINUTE
                && forall j :: 0 <= j < |log| && IsCreation(log[j], id) ==> j == k
  }

  lemma BookingMadeOnce(id: BookingId, b: Booking, log: seq<Entry>, offset: int)
    requires BookingOk(id, b, log, offset) && CreationsOnce(log)
    ensures MadeOnce(log, id, Length(b.slot))
  {
    var k :| 0 <= k < |log| && IsCreation(log[k], id) && Length(b.slot) == log[k].minutes * MINUTE;
    forall j | 0 <= j < |log| && IsCreation(log[j], id) ensures j == k {
    }
  }

  /** In every reachable state, each booking lies strictly inside one business day, was made by exactly one
      committed create, and is as long as the duration given to that create. */
  lemma BookingsKeepDayAndLength(types: map<TypeId, KnownType>, tables: RowTables, zone: Zones, steps: seq<Step>,
                                 id: BookingId)
    requires id in Run(Initial(types, tables), zone, steps).bookings
    ensures var s := Run(Initial(types, tables), zone, steps);
            && InsideOneDay(s.bookings[id].slot, zone(s.bookings[id].coach))
            && MadeOnce(s.log, id, Length(s.bookings[id].slot))
  {
    ReachableInv(types, tables, zone, steps);
    RunKeepsTally(Initial(types, tables), zone, steps);
    var s := Run(Initial(types, tables), zone, steps);
    BookingMadeOnce(id, s.bookings[id], s.log, zone(s.bookings[id].coach));
  }

  /** So what the slot calculator needs of the bookings holds in every reachable state. */
  lemma ReachableBookingsStayInDays(types: map<TypeId, KnownType>, tables: RowTables, zone: Zones, steps: seq<Step>,
                                    coach: CoachId)
    ensures StaysInDays(Run(Initial(types, tables), zone, steps).bookings, coach, zone(coach))
  {
    ReachableInv(types, tables, zone, steps);
    var s := Run(Initial(types, tables), zone, steps);
    forall id | id in s.bookings && s.bookings[id].coach == coach
      ensures InsideOneDay(s.bookings[id].slot, zone(coach))
    {
      assert BookingOk(id, s.bookings[id], s.log, zone(s.bookings[id].coach));
    }
  }

  // ---------- the log against the requests

  predicate Logged(log: seq<Entry>, q: RequestId) {
    exists k :: 0 <= k < |log| && log[k].request == q
  }

  /** Committed requests are in the log; the rows of the log exist; no booking is made twice. */
  ghost predicate Tallied(s: State) {
    && (forall q :: q in s.requests && s.requests[q].phase == Committed ==> Logged(s.log, q))
    && (forall k :: 0 <= k < |s.log| ==> s.log[k].id in s.bookings)
    && CreationsOnce(s.log)
  }

  predicate CreationsOnce(log: seq<Entry>) {
    forall j, k :: 0 <= j < k < |log| && log[j].read.exclude == None && log[k].read.exclude == None ==>
                     log[j].id != log[k].id
  }

  /** What a step other than a commit may do to a request: it keeps what was asked for, a settled request
      stays as it is, and none becomes committed. Only an abort changes the attempt. */
  predicate Progress(r: Request, r': Request, aborts: bool) {
    && SameAsk(r', r)
    && (r.phase != Active ==> r' == r)
    && (r.phase == Active ==> r'.phase != Committed)
    && (aborts || r'.attempt == r.attempt)
  }

  /** What the steps of a request never change. */
  predicate SameAsk(r: Request, asked: Request) {
    && r.coach == asked.coach && r.slot == asked.slot && r.target == asked.target
    && r.location == asked.location && r.minutes == asked.minutes && r.started == asked.started
  }

  /** A step other than a commit: no log entry, no committed request, no row less. */
  ghost predicate Quiet(s: State, s': State, aborts: bool) {
    && s'.log == s.log && s'.bookings.Keys == s.bookings.Keys
    && (forall q :: q in s.requests ==> q in s'.requests && Progress(s.requests[q], s'.requests[q], aborts))
    && (forall q :: q in s'.requests && q !in s.requests ==> s'.requests[q].phase == Active)
  }

  lemma UpdateIsQuiet(s: State, q: RequestId, r: Request, aborts: bool)
    requires if q in s.requests then Progress(s.requests[q], r, aborts) else r.phase == Active
    ensures Quiet(s, Update(s, q, r), aborts)
  {
  }

  lemma StartIsQuiet(s: State, zone: Zones, step: Step)
    requires step.StartCreate? || step.StartReschedule?
    ensures Quiet(s, Apply(s, zone, step), false)
  {
    var s' := Apply(s, zone, step);
    if s' != s {
      UpdateIsQuiet(s, step.q, s'.requests[step.q], false);
    }
  }

  lemma QueryOverridesIsQuiet(s: State, zone: Zones, q: RequestId)
    ensures Quiet(s, DoQueryOverrides(s, zone, q), false)
  {
    var s' := DoQueryOverrides(s, zone, q);
    if s' != s {
      UpdateIsQuiet(s, q, s'.requests[q], false);
    }
  }

  lemma QueryWeeklyIsQuiet(s: State, zone: Zones, q: RequestId)
    ensures Quiet(s, DoQueryWeekly(s, zone, q), false)
  {
    var s' := DoQueryWeekly(s, zone, q);
    if s' != s {
      UpdateIsQuiet(s, q, s'.requests[q], false);
    }
  }

  lemma OwnStepIsQuiet(s: State, zone: Zones, step: Step)
    requires step.TakeSnapshot? || step.QueryOverlap? || step.AbortSerialization? || step.AbortOther?
    ensures Quiet(s, Apply(s, zone, step), step.AbortSerialization?)
  {
    var s' := Apply(s, zone, step);
    if s' != s {
      UpdateIsQuiet(s, step.q, s'.requests[step.q], step.AbortSerialization?);
    }
  }

  lemma StepIsQuiet(s: State, zone: Zones, step: Step)
    requires !step.Commit?
    ensures Quiet(s, Apply(s, zone, step), step.AbortSerialization?)
  {
    match step
    case StartCreate(_, _, _) => StartIsQuiet(s, zone, step);
    case StartReschedule(_, _, _, _, _) => StartIsQuiet(s, zone, step);
    case QueryOverrides(q) => QueryOverridesIsQuiet(s, zone, q);
    case QueryWeekly(q) => QueryWeeklyIsQuiet(s, zone, q);
    case CancelWrite(_) =>
    case MeetWrite(_, _, _) =>
    case EditTables(_) =>
    case EditType(_, _) =>
    case _ => OwnStepIsQuiet(s, zone, step);
  }

  lemma CommitKeepsTally(s: State, q: RequestId, newId: BookingId)
    requires Tallied(s)
    ensures Tallied(DoCommit(s, q, newId))
  {
    var s' := DoCommit(s, q, newId);
    if ReadyToCommit(s, q, newId) {
      assert s'.log[|s.log|] == EntryOf(s, q, newId);
      forall p | p in s'.requests && s'.requests[p].phase == Committed ensures Logged(s'.log, p) {
        if p != q {
          var k :| 0 <= k < |s.log| && s.log[k].request == p;
          assert s'.log[k] == s.log[k];
        }
      }
    }
  }

  lemma {:induction false} RunKeepsTally(s: State, zone: Zones, steps: seq<Step>)
    requires Tallied(s)
    ensures Tallied(Run(s, zone, steps))
    decreases |steps|
  {
    if |steps| > 0 {
      match steps[0] {
        case Commit(q, newId) => CommitKeepsTally(s, q, newId);
        case _ => StepIsQuiet(s, zone, steps[0]);
      }
      RunKeepsTally(Apply(s, zone, steps[0]), zone, steps[1..]);
    }
  }

  /** Through retries and failures, each request commits at most once, and exactly the requests that are
      committed are in the log. */
  lemma CommitsAtMostOnce(types: map<TypeId, KnownType>, tables: RowTables, zone: Zones, steps: seq<Step>)
    ensures var log := Run(Initial(types, tables), zone, steps).log;
            forall j, k :: 0 <= j < k < |log| ==> log[j].request != log[k].request
    ensures var s := Run(Initial(types, tables), zone, steps);
            forall q :: q in s.requests ==> (s.requests[q].phase == Committed <==> Logged(s.log, q))
  {
    ReachableInv(types, tables, zone, steps);
    RunKeepsTally(Initial(types, tables), zone, steps);
  }

  // ---------- what a request asked for

  /** The entry does what was asked for: a create stores the confirmed row, a reschedule writes its booking. */
  predicate Answers(e: Entry, asked: Request) {
    && e.minutes == asked.minutes && e.started == asked.started && e.read == ReadOf(asked)
    && (if asked.target.Some? then e.id == asked.target.value && e.row.slot == asked.slot
        else e.row == Booking(asked.coach, asked.slot, asked.location, Confirmed, None, None))
  }

  predicate Carries(s: State, q: RequestId, asked: Request) {
    && q in s.requests && SameAsk(s.requests[q], asked)
    && forall k :: 0 <= k < |s.log| && s.log[k].request == q ==> Answers(s.log[k], asked)
  }

  lemma CommitCarries(s: State, q: RequestId, asked: Request, p: RequestId, newId: BookingId)
    requires Carries(s, q, asked)
    ensures Carries(DoCommit(s, p, newId), q, asked)
  {
  }

  lemma StepCarries(s: State, zone: Zones, step: Step, q: RequestId, asked: Request)
    requires Carries(s, q, asked)
    ensures Carries(Apply(s, zone, step), q, asked)
  {
    match step
    case Commit(p, newId) => CommitCarries(s, q, asked, p, newId);
    case _ => StepIsQuiet(s, zone, step);
  }

  lemma {:induction false} RunCarries(s: State, zone: Zones, steps: seq<Step>, q: RequestId, asked: Request)
    requires Carries(s, q, asked)
    ensures Carries(Run(s, zone, steps), q, asked)
    decreases |steps|
  {
    if |steps| > 0 {
      StepCarries(s, zone, steps[0], q, asked);
      RunCarries(Apply(s, zone, steps[0]), zone, steps[1..], q, asked);
    }
  }

  /** The duration in a create's log entry is its event type's duration when the request started,
      whatever edits of event types follow. */
  lemma MinutesAreThoseAtStart(types: map<TypeId, KnownType>, tables: RowTables, zone: Zones, before: seq<Step>,
                               q: RequestId, req: CreateRequest, now: int, after: seq<Step>, k: nat)
    requires var s := Run(Initial(types, tables), zone, before);
             && q !in s.requests && req.typeId in s.types
             && q in DoStartCreate(s, zone, q, req, now).requests
             && var end := Run(DoStartCreate(s, zone, q, req, now), zone, after);
                k < |end.log| && end.log[k].request == q
    ensures var s := Run(Initial(types, tables), zone, before);
            Run(DoStartCreate(s, zone, q, req, now), zone, after).log[k].minutes == s.types[req.typeId].durationMinutes
  {
    ReachableInv(types, tables, zone, before);
    var s := Run(Initial(types, tables), zone, before);
    var started := DoStartCreate(s, zone, q, req, now);
    assert started.requests[q].minutes == s.types[req.typeId].durationMinutes;
    RunCarries(started, zone, after, q, started.requests[q]);
  }

  // ---------- what the schedule check promises

  function OverridesOn(t: Tables, coach: CoachId, day: nat): multiset<OverrideRow> {
    multiset(Filter(t.overrides, OnDate(coach, day)))
  }

  function WeeklyOn(t: Tables, coach: CoachId, day: nat): multiset<WeeklyRow> {
    multiset(Filter(t.weekly, OnWeekday(coach, Calendar.IsoWeekday(day))))
  }

  /** Only the coach's overrides of the date and weekly rows of the weekday matter. */
  lemma SameRowsSameFit(slot: Interval, a: RowTables, b: RowTables, coach: CoachId, offset: int)
    requires DayOf(slot.start, offset) >= 0
    requires var day := DayOf(slot.start, offset);
             && OverridesOn(a, coach, day) == OverridesOn(b, coach, day)
             && WeeklyOn(a, coach, day) == WeeklyOn(b, coach, day)
    ensures FitsSchedule(slot, a, coach, offset) <==> FitsSchedule(slot, b, coach, offset)
  {
    var day := DayOf(slot.start, offset);
    RangesForDatePermutation(
      Filter(a.overrides, OnDate(coach, day)), Filter(a.weekly, OnWeekday(coach, Calendar.IsoWeekday(day))),
      Filter(b.overrides, OnDate(coach, day)), Filter(b.weekly, OnWeekday(coach, Calendar.IsoWeekday(day))));
    assert EffectiveRanges(a, coach, day) == EffectiveRanges(b, coach, day);
  }

  lemma NoOverrideRows(t: RowTables, coach: CoachId, day: nat)
    requires !HasOverride(t, coach, day)
    ensures OverridesOn(t, coach, day) == multiset{}
  {
    var os := Filter(t.overrides, OnDate(coach, day));
    forall o ensures multiset(os)[o] == 0 {
      assert o !in os;
    }
  }

  /** An interval that fitted a mixture of two versions fitted one of them, unless an override appeared and
      the weekly rows changed. */
  lemma MixtureFits(slot: Interval, first: RowTables, second: RowTables, coach: CoachId, offset: int)
    requires DayOf(slot.start, offset) >= 0 && FitsSchedule(slot, Mixed(first, second), coach, offset)
    requires var day := DayOf(slot.start, offset);
             first == second || !HasOverride(first, coach, day)
    ensures var day := DayOf(slot.start, offset);
            || FitsSchedule(slot, first, coach, offset) || FitsSchedule(slot, second, coach, offset)
            || (!HasOverride(first, coach, day) && HasOverride(second, coach, day)
                && WeeklyOn(first, coach, day) != WeeklyOn(second, coach, day))
  {
    var day := DayOf(slot.start, offset);
    var mixed := Mixed(first, second);
    if first == second {
      assert mixed == second;
    } else if !HasOverride(second, coach, day) {
      NoOverrideRows(first, coach, day);
      NoOverrideRows(second, coach, day);
      SameRowsSameFit(slot, mixed, second, coach, offset);
    } else if WeeklyOn(first, coach, day) == WeeklyOn(second, coach, day) {
      SameRowsSameFit(slot, mixed, first, coach, offset);
    }
  }

  ghost predicate FitsAt(e: Entry, h: History, offset: int, v: nat)
    requires v <= Latest(h) && DayOf(e.row.slot.start, offset) >= 0
  {
    FitsSchedule(e.row.slot, At(h, v), e.row.coach, offset)
  }

  /** The interval of an entry fitted the overrides of its first query with the weekly rows of its second.
      If it fitted no state between the start of the request and the commit, then between the queries an
      override for the date appeared and the weekly rows of its weekday changed. And it fits the state of
      the commit if neither the coach's overrides of the date nor the weekly rows of the weekday changed
      after they were read. */
  ghost predicate WasScheduled(e: Entry, h: History, offset: int) {
    && e.started <= e.overridesVersion <= e.weeklyVersion <= e.version <= Latest(h)
    && DayOf(e.row.slot.start, offset) >= 0
    && var first, second, last := At(h, e.overridesVersion), At(h, e.weeklyVersion), At(h, e.version);
       var coach, day := e.row.coach, DayOf(e.row.slot.start, offset);
       && FitsSchedule(e.row.slot, Mixed(first, second), coach, offset)
       && ((forall v: nat :: e.started <= v <= e.version ==> !FitsAt(e, h, offset, v)) ==>
             && !HasOverride(first, coach, day) && HasOverride(second, coach, day)
             && WeeklyOn(first, coach, day) != WeeklyOn(second, coach, day))
       && (OverridesOn(first, coach, day) == OverridesOn(last, coach, day)
           && WeeklyOn(second, coach, day) == WeeklyOn(last, coach, day) ==>
             FitsAt(e, h, offset, e.version))
  }

  lemma EntryWasScheduled(e: Entry, h: History, offset: int)
    requires EntryScheduled(e, h, offset)
    ensures WasScheduled(e, h, offset)
  {
    var coach, day := e.row.coach, DayOf(e.row.slot.start, offset);
    var first, second, last := At(h, e.overridesVersion), At(h, e.weeklyVersion), At(h, e.version);
    MixtureFits(e.row.slot, first, second, coach, offset);
    assert FitsAt(e, h, offset, e.overridesVersion) <==> FitsSchedule(e.row.slot, first, coach, offset);
    assert FitsAt(e, h, offset, e.weeklyVersion) <==> FitsSchedule(e.row.slot, second, coach, offset);
    if && OverridesOn(first, coach, day) == OverridesOn(last, coach, day)
       && WeeklyOn(second, coach, day) == WeeklyOn(last, coach, day) {
      SameRowsSameFit(e.row.slot, Mixed(first, second), last, coach, offset);
    }
  }

  /** Every commit rests on its two schedule queries. */
  lemma CommitWasScheduled(types: map<TypeId, KnownType>, tables: RowTables, zone: Zones, steps: seq<Step>, k: nat)
    requires k < |Run(Initial(types, tables), zone, steps).log|
    ensures var s := Run(Initial(types, tables), zone, steps);
            WasScheduled(s.log[k], s.history, zone(s.log[k].row.coach))
  {
    ReachableInv(types, tables, zone, steps);
    var s := Run(Initial(types, tables), zone, steps);
    EntryWasScheduled(s.log[k], s.history, zone(s.log[k].row.coach));
  }
}
