/** What the schedule check of a booking cannot promise, because its two queries are outside the transaction:
    exactly when a request can commit although no state since its start offered its interval, and that
    every request can commit outside the schedule of the state it commits in. */
module ScheduleRaces {
  import opened Domain
  import Calendar
  import opened Availability
  import opened BookingRules
  import opened BookingProtocol
  import Slots

  /** A create or reschedule that passed its first checks; its transaction has not begun. */
  predicate JustStarted(s: State, q: RequestId) {
    && IsActive(s, q)
    && var r := s.requests[q];
       r.schedule == Unread && r.snapshot == None && !r.clear && r.started == Latest(s.history)
  }

  lemma RunStep(s: State, zone: Zones, step: Step, rest: seq<Step>)
    ensures Run(s, zone, [step] + rest) == Run(Apply(s, zone, step), zone, rest)
  {
    assert ([step] + rest)[1..] == rest;
  }

  lemma {:induction false} RunConcat(s: State, zone: Zones, a: seq<Step>, b: seq<Step>)
    ensures Run(s, zone, a + b) == Run(Run(s, zone, a), zone, b)
    decreases |a|
  {
    if |a| > 0 {
      assert (a + b)[1..] == a[1..] + b;
      RunConcat(Apply(s, zone, a[0]), zone, a[1..], b);
    } else {
      assert a + b == b;
    }
  }

  // ---------- clearing the interval

  function ConfirmedIds(bookings: map<BookingId, Booking>): set<BookingId> {
    set id | id in bookings && bookings[id].status == Confirmed
  }

  /** Cancelling what is in the way frees any interval. */
  lemma {:induction false} FreeTheSlot(s: State, zone: Zones, coach: CoachId, slot: Interval,
                                       exclude: Option<BookingId>)
    returns (steps: seq<Step>)
    ensures var end := Run(s, zone, steps);
            && end == s.(bookings := end.bookings) && end.bookings.Keys == s.bookings.Keys
            && Slots.DisjointFromCompetitors(slot, end.bookings, coach, exclude)
    ensures NoEdits(steps)
    decreases ConfirmedIds(s.bookings)
  {
    steps := [];
    if id :| id in s.bookings && Slots.Competes(s.bookings, id, coach, exclude) && Overlaps(s.bookings[id].slot, slot) {
      var cancelled := Apply(s, zone, CancelWrite(id));
      assert id in ConfirmedIds(s.bookings) && id !in ConfirmedIds(cancelled.bookings);
      var rest := FreeTheSlot(cancelled, zone, coach, slot, exclude);
      RunStep(s, zone, CancelWrite(id), rest);
      steps := [CancelWrite(id)] + rest;
    }
  }

  lemma {:induction false} FreshId(ids: set<BookingId>) returns (n: BookingId)
    ensures forall id :: id in ids ==> id < n
    decreases ids
  {
    n := 0;
    if id :| id in ids {
      var m := FreshId(ids - {id});
      n := m + id + 1;
      assert forall x :: x in ids ==> x == id || x in ids - {id};
    }
  }

  // ---------- edits of single rows

  function WithoutRow<T>(rows: seq<T>, i: nat): seq<T>
    requires i < |rows|
  {
    rows[..i] + rows[i + 1..]
  }

  ghost predicate OneRow<T(!new)>(before: seq<T>, after: seq<T>, own: T -> bool) {
    || (exists x :: own(x) && after == before + [x])
    || (exists i :: 0 <= i < |before| && own(before[i]) && after == WithoutRow(before, i))
  }

  function OwnOverride(coach: CoachId): OverrideRow -> bool {
    (o: OverrideRow) => o.coach == coach
  }

  function OwnWeekly(coach: CoachId): WeeklyRow -> bool {
    (w: WeeklyRow) => w.coach == coach
  }

  /** What one request of a coach does to the tables: it adds or removes one row of its own. */
  ghost predicate OneRowEdit(before: Tables, after: Tables, coach: CoachId) {
    || (after.weekly == before.weekly && OneRow(before.overrides, after.overrides, OwnOverride(coach)))
    || (after.overrides == before.overrides && OneRow(before.weekly, after.weekly, OwnWeekly(coach)))
  }

  /** Every edit of the tables in the run is one such request of `coach`. */
  ghost predicate OwnEdits(s: State, zone: Zones, steps: seq<Step>, coach: CoachId)
    decreases |steps|
  {
    |steps| > 0 ==>
      && (steps[0].EditTables? ==> OneRowEdit(s.history.current, steps[0].t, coach))
      && OwnEdits(Apply(s, zone, steps[0]), zone, steps[1..], coach)
  }

  lemma {:induction false} OwnEditsConcat(s: State, zone: Zones, a: seq<Step>, b: seq<Step>, coach: CoachId)
    requires OwnEdits(s, zone, a, coach) && OwnEdits(Run(s, zone, a), zone, b, coach)
    ensures OwnEdits(s, zone, a + b, coach)
    decreases |a|
  {
    if |a| > 0 {
      assert (a + b)[1..] == a[1..] + b;
      OwnEditsConcat(Apply(s, zone, a[0]), zone, a[1..], b, coach);
    } else {
      assert a + b == b;
    }
  }

  predicate NoEdits(steps: seq<Step>) {
    forall i :: 0 <= i < |steps| ==> !steps[i].EditTables?
  }

  lemma {:induction false} NoEditsAreOwn(s: State, zone: Zones, steps: seq<Step>, coach: CoachId)
    requires NoEdits(steps)
    ensures OwnEdits(s, zone, steps, coach)
    decreases |steps|
  {
    if |steps| > 0 {
      NoEditsAreOwn(Apply(s, zone, steps[0]), zone, steps[1..], coach);
    }
  }

  predicate Grows(h: History, h': History) {
    Latest(h) <= Latest(h') && forall v: nat :: v <= Latest(h) ==> At(h', v) == At(h, v)
  }

  predicate WellPlaced(r: Request, offset: int) {
    InsideOneDay(r.slot, offset) && DayOf(r.slot.start, offset) == r.day
  }

  /** No version of the tables after version `n` offers the interval of `r`. */
  ghost predicate UnfitAfter(h: History, n: nat, r: Request, offset: int) {
    && WellPlaced(r, offset)
    && forall v: nat :: n < v <= Latest(h) ==> !FitsSchedule(r.slot, At(h, v), r.coach, offset)
  }

  lemma UnfitTransitive(h: History, h': History, n: nat, r: Request, offset: int)
    requires n <= Latest(h) && UnfitAfter(h, n, r, offset) && Grows(h, h') && UnfitAfter(h', Latest(h), r, offset)
    ensures UnfitAfter(h', n, r, offset)
  {
  }

  /** The steps only edit the tables, by one row of the coach at a time, into states that do not offer the
      interval of `r`. */
  ghost predicate Edits(s: State, zone: Zones, steps: seq<Step>, r: Request) {
    var end := Run(s, zone, steps);
    && end == s.(history := end.history) && Grows(s.history, end.history)
    && UnfitAfter(end.history, Latest(s.history), r, zone(r.coach))
    && OwnEdits(s, zone, steps, r.coach)
  }

  lemma EditFirst(s: State, zone: Zones, t: RowTables, rest: seq<Step>, r: Request)
    requires WellPlaced(r, zone(r.coach)) && !FitsSchedule(r.slot, t, r.coach, zone(r.coach))
    requires OneRowEdit(s.history.current, t, r.coach)
    requires Edits(s.(history := Extend(s.history, t)), zone, rest, r)
    ensures Edits(s, zone, [EditTables(t)] + rest, r)
    ensures Run(s, zone, [EditTables(t)] + rest) == Run(s.(history := Extend(s.history, t)), zone, rest)
  {
    var s1 := s.(history := Extend(s.history, t));
    RunStep(s, zone, EditTables(t), rest);
    assert ([EditTables(t)] + rest)[1..] == rest;
    assert Grows(s.history, s1.history) && UnfitAfter(s1.history, Latest(s.history), r, zone(r.coach));
    UnfitTransitive(s1.history, Run(s1, zone, rest).history, Latest(s.history), r, zone(r.coach));
  }

  lemma EditsConcat(s: State, zone: Zones, a: seq<Step>, b: seq<Step>, r: Request)
    requires Edits(s, zone, a, r) && Edits(Run(s, zone, a), zone, b, r)
    ensures Edits(s, zone, a + b, r) && Run(s, zone, a + b) == Run(Run(s, zone, a), zone, b)
  {
    RunConcat(s, zone, a, b);
    OwnEditsConcat(s, zone, a, b, r.coach);
    UnfitTransitive(Run(s, zone, a).history, Run(s, zone, a + b).history, Latest(s.history), r, zone(r.coach));
  }

  // ---------- closing the day behind a day off

  function DayOff(r: Request): OverrideRow {
    OverrideRow(r.coach, r.day, true, None, None)
  }

  function AllDay(r: Request): WeeklyRow {
    WeeklyRow(r.coach, Calendar.IsoWeekday(r.day), 0, MINUTES_PER_DAY)
  }

  predicate OfDay(r: Request, o: OverrideRow) {
    o.coach == r.coach && o.date == r.day
  }

  predicate OfWeekday(r: Request, w: WeeklyRow) {
    w.coach == r.coach && w.weekday == Calendar.IsoWeekday(r.day)
  }

  /** The last override marks the day off. */
  predicate Hidden(t: Tables, r: Request) {
    |t.overrides| > 0 && t.overrides[|t.overrides| - 1] == DayOff(r)
  }

  predicate WeekdayCleared(t: Tables, r: Request) {
    forall i :: 0 <= i < |t.weekly| ==> !OfWeekday(r, t.weekly[i])
  }

  predicate DateCleared(t: Tables, r: Request) {
    forall i :: 0 <= i < |t.overrides| ==> !OfDay(r, t.overrides[i])
  }

  lemma HiddenUnfit(t: RowTables, r: Request, offset: int)
    requires Hidden(t, r) && WellPlaced(r, offset)
    ensures !FitsSchedule(r.slot, t, r.coach, offset)
  {
    assert DayOff(r) in t.overrides;
    forall range ensures range !in EffectiveRanges(t, r.coach, r.day) {
      EffectiveRangesMeaning(t, r.coach, r.day, range);
    }
  }

  lemma ClearedUnfit(t: RowTables, r: Request, offset: int)
    requires WeekdayCleared(t, r) && DateCleared(t, r) && WellPlaced(r, offset)
    ensures !FitsSchedule(r.slot, t, r.coach, offset)
  {
    forall range ensures range !in EffectiveRanges(t, r.coach, r.day) {
      EffectiveRangesMeaning(t, r.coach, r.day, range);
      assert WeeklyRow(r.coach, Calendar.IsoWeekday(r.day), range.startMinute, range.endMinute) in t.weekly ==> false;
    }
  }

  /** Behind a day off, the weekly rows of the weekday are removed one by one. */
  lemma {:induction false} ClearWeekday(s: State, zone: Zones, r: Request) returns (steps: seq<Step>)
    requires Hidden(s.history.current, r) && WellPlaced(r, zone(r.coach))
    ensures Edits(s, zone, steps, r)
    ensures var t := Run(s, zone, steps).history.current;
            t.overrides == s.history.current.overrides && WeekdayCleared(t, r)
    decreases |s.history.current.weekly|
  {
    var t := s.history.current;
    steps := [];
    if i :| 0 <= i < |t.weekly| && OfWeekday(r, t.weekly[i]) {
      var t': RowTables := Tables(t.overrides, WithoutRow(t.weekly, i));
      HiddenUnfit(t', r, zone(r.coach));
      assert OwnWeekly(r.coach)(t.weekly[i]);
      var rest := ClearWeekday(s.(history := Extend(s.history, t')), zone, r);
      EditFirst(s, zone, t', rest, r);
      steps := [EditTables(t')] + rest;
    }
  }

  /** And so are the other overrides of the date. */
  lemma {:induction false} ClearDate(s: State, zone: Zones, r: Request) returns (steps: seq<Step>)
    requires Hidden(s.history.current, r) && WellPlaced(r, zone(r.coach))
    ensures Edits(s, zone, steps, r)
    ensures var t := Run(s, zone, steps).history.current;
            && t.weekly == s.history.current.weekly && Hidden(t, r)
            && forall i :: 0 <= i < |t.overrides| - 1 ==> !OfDay(r, t.overrides[i])
    decreases |s.history.current.overrides|
  {
    var t := s.history.current;
    steps := [];
    if i :| 0 <= i < |t.overrides| - 1 && OfDay(r, t.overrides[i]) {
      var t': RowTables := Tables(WithoutRow(t.overrides, i), t.weekly);
      HiddenUnfit(t', r, zone(r.coach));
      assert OwnOverride(r.coach)(t.overrides[i]);
      var rest := ClearDate(s.(history := Extend(s.history, t')), zone, r);
      EditFirst(s, zone, t', rest, r);
      steps := [EditTables(t')] + rest;
    }
  }

  lemma AddDayOff(s: State, zone: Zones, r: Request, rest: seq<Step>) returns (t: RowTables)
    requires WellPlaced(r, zone(r.coach))
    ensures t == Tables(s.history.current.overrides + [DayOff(r)], s.history.current.weekly) && Hidden(t, r)
    ensures Edits(s.(history := Extend(s.history, t)), zone, rest, r) ==>
              && Edits(s, zone, [EditTables(t)] + rest, r)
              && Run(s, zone, [EditTables(t)] + rest) == Run(s.(history := Extend(s.history, t)), zone, rest)
  {
    t := Tables(s.history.current.overrides + [DayOff(r)], s.history.current.weekly);
    HiddenUnfit(t, r, zone(r.coach));
    assert OwnOverride(r.coach)(DayOff(r));
    if Edits(s.(history := Extend(s.history, t)), zone, rest, r) {
      EditFirst(s, zone, t, rest, r);
    }
  }

  lemma RemoveDayOff(s: State, zone: Zones, r: Request) returns (steps: seq<Step>)
    requires WellPlaced(r, zone(r.coach)) && Hidden(s.history.current, r) && WeekdayCleared(s.history.current, r)
    requires var t := s.history.current; forall i :: 0 <= i < |t.overrides| - 1 ==> !OfDay(r, t.overrides[i])
    ensures Edits(s, zone, steps, r)
    ensures var t := Run(s, zone, steps).history.current; WeekdayCleared(t, r) && DateCleared(t, r)
  {
    var before := s.history.current;
    var last := |before.overrides| - 1;
    var t: RowTables := Tables(WithoutRow(before.overrides, last), before.weekly);
    ClearedUnfit(t, r, zone(r.coach));
    assert OwnOverride(r.coach)(before.overrides[last]);
    assert Edits(s.(history := Extend(s.history, t)), zone, [], r);
    EditFirst(s, zone, t, [], r);
    steps := [EditTables(t)] + [];
  }

  /** The coach marks the day off, removes every other row that bears on it, and then the day off too. */
  lemma CloseDay(s: State, zone: Zones, r: Request) returns (steps: seq<Step>)
    requires WellPlaced(r, zone(r.coach))
    ensures Edits(s, zone, steps, r)
    ensures var t := Run(s, zone, steps).history.current; WeekdayCleared(t, r) && DateCleared(t, r)
  {
    var t1 := AddDayOff(s, zone, r, []);
    var s1 := s.(history := Extend(s.history, t1));
    var a := ClearWeekday(s1, zone, r);
    var s2 := Run(s1, zone, a);
    var b := ClearDate(s2, zone, r);
    var s3 := Run(s2, zone, b);
    var c := RemoveDayOff(s3, zone, r);
    EditsConcat(s2, zone, b, c, r);
    EditsConcat(s1, zone, a, b + c, r);
    var t := AddDayOff(s, zone, r, a + (b + c));
    steps := [EditTables(t)] + (a + (b + c));
  }

  /** On a closed day, the coach marks the day off again and adds weekly hours. */
  lemma OpenBehindDayOff(s: State, zone: Zones, r: Request) returns (steps: seq<Step>)
    requires WellPlaced(r, zone(r.coach)) && WeekdayCleared(s.history.current, r)
    ensures Edits(s, zone, steps, r) && Latest(s.history) < Latest(Run(s, zone, steps).history)
    ensures Run(s, zone, steps).history.current.weekly == s.history.current.weekly + [AllDay(r)]
  {
    var t1 := AddDayOff(s, zone, r, []);
    var s1 := s.(history := Extend(s.history, t1));
    var t2: RowTables := Tables(t1.overrides, t1.weekly + [AllDay(r)]);
    HiddenUnfit(t2, r, zone(r.coach));
    assert OwnWeekly(r.coach)(AllDay(r));
    assert Edits(s1.(history := Extend(s1.history, t2)), zone, [], r);
    EditFirst(s1, zone, t2, [], r);
    var t := AddDayOff(s, zone, r, [EditTables(t2)] + []);
    steps := [EditTables(t)] + ([EditTables(t2)] + []);
  }

  // ---------- passing the schedule check

  lemma {:induction false} FilterNone<T(!new)>(rows: seq<T>, keep: T -> bool)
    requires forall i :: 0 <= i < |rows| ==> !keep(rows[i])
    ensures Filter(rows, keep) == []
  {
    if |rows| > 0 {
      FilterNone(rows[..|rows| - 1], keep);
    }
  }

  lemma AllDayFits(all: seq<WeeklyRow>, weekly: seq<WeeklyRow>, r: Request, offset: int)
    requires WellPlaced(r, offset) && forall i :: 0 <= i < |weekly| ==> !OfWeekday(r, weekly[i])
    requires all == weekly + [AllDay(r)]
    ensures IsWithinEffectiveRange(RangesForDate([], Filter(all, OnWeekday(r.coach, Calendar.IsoWeekday(r.day)))),
                                   CandidateOf(r.slot, offset))
  {
    var range, p := MinuteRange(0, MINUTES_PER_DAY), OnWeekday(r.coach, Calendar.IsoWeekday(r.day));
    FilterNone(weekly, p);
    FilterSnoc(all, |weekly|, p);
    assert all[..|weekly|] == weekly && all[..|weekly| + 1] == all;
    assert Filter(all, p) == [] + [AllDay(r)];
    MapSnoc(WeeklyRange, [], AllDay(r));
    assert RangesForDate([], Filter(all, p)) == [] + [range];
    DayOfBounds(r.slot.end, offset, r.day);
    WithinRangeIsContainment(range, r.slot, offset);
    assert range in [] + [range];
  }

  lemma OverridesQueryFindsNone(s: State, zone: Zones, q: RequestId)
    requires IsActive(s, q) && s.requests[q].schedule == Unread && DateCleared(s.history.current, s.requests[q])
    ensures Apply(s, zone, QueryOverrides(q))
            == Update(s, q, s.requests[q].(schedule := NoOverrides(Latest(s.history))))
  {
    var r := s.requests[q];
    FilterNone(s.history.current.overrides, OnDate(r.coach, r.day));
  }

  lemma QueryWeeklyPasses(s: State, zone: Zones, q: RequestId)
    requires IsActive(s, q) && s.requests[q].schedule.NoOverrides?
    requires var r := s.requests[q];
             IsWithinEffectiveRange(
               RangesForDate([], Filter(s.history.current.weekly, OnWeekday(r.coach, Calendar.IsoWeekday(r.day)))),
               CandidateOf(r.slot, zone(r.coach)))
    ensures var r := s.requests[q];
            Apply(s, zone, QueryWeekly(q))
            == Update(s, q, r.(schedule := Fits(r.schedule.version, Latest(s.history))))
  {
  }

  lemma WeeklyQueryPasses(s: State, zone: Zones, q: RequestId, v: nat, weekly: seq<WeeklyRow>)
    requires IsActive(s, q) && WellPlaced(s.requests[q], zone(s.requests[q].coach))
    requires s.requests[q].schedule == NoOverrides(v)
    requires s.history.current.weekly == weekly + [AllDay(s.requests[q])]
    requires forall i :: 0 <= i < |weekly| ==> !OfWeekday(s.requests[q], weekly[i])
    ensures Apply(s, zone, QueryWeekly(q)) == Update(s, q, s.requests[q].(schedule := Fits(v, Latest(s.history))))
  {
    var r, all := s.requests[q], s.history.current.weekly;
    AllDayFits(all, weekly, r, zone(r.coach));
    QueryWeeklyPasses(s, zone, q);
  }

  /** The first query falls on the closed day, the second on the day with hours behind a day off. */
  ghost predicate PassesUnfit(s: State, end: State, q: RequestId, offset: int)
    requires q in s.requests
  {
    && q in end.requests && end.requests[q].schedule.Fits?
    && var r := s.requests[q];
    && end == Update(s.(history := end.history), q, r.(schedule := end.requests[q].schedule))
    && Grows(s.history, end.history) && Latest(s.history) < Latest(end.history)
    && UnfitAfter(end.history, Latest(s.history), r, offset)
  }

  lemma SecondQueryPasses(s: State, zone: Zones, q: RequestId, r: Request, v: nat) returns (steps: seq<Step>)
    requires IsActive(s, q) && s.requests[q] == r.(schedule := NoOverrides(v)) && WellPlaced(r, zone(r.coach))
    requires WeekdayCleared(s.history.current, r)
    ensures PassesUnfit(s, Run(s, zone, steps), q, zone(r.coach)) && OwnEdits(s, zone, steps, r.coach)
  {
    var open := OpenBehindDayOff(s, zone, r);
    var s1 := Run(s, zone, open);
    WeeklyQueryPasses(s1, zone, q, v, s.history.current.weekly);
    var query := [QueryWeekly(q)] + [];
    RunStep(s1, zone, QueryWeekly(q), []);
    RunConcat(s, zone, open, query);
    NoEditsAreOwn(s1, zone, query, r.coach);
    OwnEditsConcat(s, zone, open, query, r.coach);
    steps := open + query;
  }

  lemma RacePasses(s: State, zone: Zones, q: RequestId) returns (steps: seq<Step>)
    requires IsActive(s, q) && s.requests[q].schedule == Unread
    requires WellPlaced(s.requests[q], zone(s.requests[q].coach))
    ensures PassesUnfit(s, Run(s, zone, steps), q, zone(s.requests[q].coach))
    ensures OwnEdits(s, zone, steps, s.requests[q].coach)
  {
    var r := s.requests[q];
    var close := CloseDay(s, zone, r);
    var s1 := Run(s, zone, close);
    OverridesQueryFindsNone(s1, zone, q);
    var s2 := Apply(s1, zone, QueryOverrides(q));
    var rest := SecondQueryPasses(s2, zone, q, r, Latest(s1.history));
    var end := Run(s2, zone, rest);
    RunStep(s1, zone, QueryOverrides(q), rest);
    RunConcat(s, zone, close, [QueryOverrides(q)] + rest);
    UnfitTransitive(s1.history, end.history, Latest(s.history), r, zone(r.coach));
    assert ([QueryOverrides(q)] + rest)[1..] == rest;
    OwnEditsConcat(s, zone, close, [QueryOverrides(q)] + rest, r.coach);
    steps := close + ([QueryOverrides(q)] + rest);
  }

  // ---------- committing

  function FinishSteps(q: RequestId, newId: BookingId): seq<Step> {
    [TakeSnapshot(q)] + ([QueryOverlap(q)] + ([Commit(q, newId)] + []))
  }

  /** The entry of a request that passed its checks against the current bookings. */
  function FinalEntry(s: State, q: RequestId, newId: BookingId): Entry
    requires q in s.requests && s.requests[q].schedule.Fits?
    requires s.requests[q].target.Some? ==> s.requests[q].target.value in s.bookings
  {
    var r := s.requests[q];
    Entry(q, WrittenId(r, newId), WrittenRow(s, r), ReadOf(r), r.minutes,
          r.started, r.schedule.overridesVersion, r.schedule.weeklyVersion, Latest(s.history))
  }

  /** With its schedule check passed and nothing in its way, a request commits. */
  lemma Finishes(s: State, zone: Zones, q: RequestId, newId: BookingId)
    requires IsActive(s, q) && s.requests[q].schedule.Fits? && s.requests[q].snapshot == None
    requires var r := s.requests[q];
             && Slots.DisjointFromCompetitors(r.slot, s.bookings, r.coach, r.target)
             && if r.target.Some? then r.target.value in s.bookings else newId !in s.bookings
    ensures var end := Run(s, zone, FinishSteps(q, newId));
            var e := FinalEntry(s, q, newId);
            && end.history == s.history && end.log == s.log + [e]
            && e.id in end.bookings && end.bookings[e.id] == e.row
  {
    var r := s.requests[q];
    var s1 := Update(s, q, r.(snapshot := Some(Snapshot(s.bookings, |s.log|))));
    var s2 := Update(s1, q, s1.requests[q].(clear := true));
    RunStep(s, zone, TakeSnapshot(q), [QueryOverlap(q)] + ([Commit(q, newId)] + []));
    RunStep(s1, zone, QueryOverlap(q), [Commit(q, newId)] + []);
    RunStep(s2, zone, Commit(q, newId), []);
    assert ReadyToCommit(s2, q, newId);
    assert EntryOf(s2, q, newId) == FinalEntry(s, q, newId);
  }

  /** In any reachable state a request that has just started can be led to its commit through states of the
      schedule none of which offers its interval, by requests of its coach for one row each. */
  lemma RaceCommits(s: State, zone: Zones, q: RequestId) returns (steps: seq<Step>, e: Entry)
    requires Inv(s, zone) && JustStarted(s, q)
    ensures var end := Run(s, zone, steps);
            var r := s.requests[q];
            && end.log == s.log + [e] && e.id in end.bookings && end.bookings[e.id] == e.row
            && e.request == q && e.row.slot == r.slot && e.row.coach == r.coach
            && e.started == Latest(s.history) < e.version == Latest(end.history)
            && Grows(s.history, end.history) && UnfitAfter(end.history, Latest(s.history), r, zone(r.coach))
            && OwnEdits(s, zone, steps, r.coach)
  {
    var r := s.requests[q];
    ActiveRequestOk(s, zone, q);
    var free := FreeTheSlot(s, zone, r.coach, r.slot, r.target);
    var s1 := Run(s, zone, free);
    RunKeepsInv(s, zone, free);
    ActiveRequestOk(s1, zone, q);
    var race := RacePasses(s1, zone, q);
    var s2 := Run(s1, zone, race);
    var newId := FreshId(s2.bookings.Keys);
    Finishes(s2, zone, q, newId);
    var finish := FinishSteps(q, newId);
    RunConcat(s1, zone, race, finish);
    RunConcat(s, zone, free, race + finish);
    NoEditsAreOwn(s2, zone, finish, r.coach);
    OwnEditsConcat(s1, zone, race, finish, r.coach);
    NoEditsAreOwn(s, zone, free, r.coach);
    OwnEditsConcat(s, zone, free, race + finish, r.coach);
    steps := free + (race + finish);
    e := FinalEntry(s2, q, newId);
  }

  // ---------- exactly when

  /** The interval of the entry fits no state of the schedule from the start of its request to its commit. */
  ghost predicate NeverOffered(e: Entry, h: History, offset: int) {
    && e.version <= Latest(h) && DayOf(e.row.slot.start, offset) >= 0
    && forall v: nat :: e.started <= v <= e.version ==> !FitsAt(e, h, offset, v)
  }

  /** The run commits `q`, and no state since its start offered its interval. */
  ghost predicate CommitsUnoffered(s: State, zone: Zones, q: RequestId, steps: seq<Step>) {
    var end := Run(s, zone, steps);
    exists k :: |s.log| <= k < |end.log| && end.log[k].request == q
                && NeverOffered(end.log[k], end.history, zone(end.log[k].row.coach))
  }

  /** The run commits `q` outside the schedule of the state of the commit. */
  ghost predicate CommitsOutside(s: State, zone: Zones, q: RequestId, steps: seq<Step>) {
    var end := Run(s, zone, steps);
    exists k :: |s.log| <= k < |end.log| && end.log[k].request == q && EndsOutside(end.log[k], end.history, zone)
  }

  ghost predicate EndsOutside(e: Entry, h: History, zone: Zones) {
    var offset := zone(e.row.coach);
    e.version <= Latest(h) && DayOf(e.row.slot.start, offset) >= 0 && !FitsAt(e, h, offset, e.version)
  }

  lemma StepGrows(s: State, zone: Zones, step: Step)
    ensures Grows(s.history, Apply(s, zone, step).history)
  {
    if step.EditTables? {
    } else {
      StepKeepsHistory(s, zone, step);
    }
  }

  lemma StepKeepsHistory(s: State, zone: Zones, step: Step)
    requires !step.EditTables?
    ensures Apply(s, zone, step).history == s.history
  {
  }

  lemma {:induction false} RunGrows(s: State, zone: Zones, steps: seq<Step>)
    ensures Grows(s.history, Run(s, zone, steps).history)
    decreases |steps|
  {
    if |steps| > 0 {
      StepGrows(s, zone, steps[0]);
      RunGrows(Apply(s, zone, steps[0]), zone, steps[1..]);
    }
  }

  /** A request whose interval fits when it starts is never committed unoffered. */
  lemma FittingStartIsOffered(s: State, zone: Zones, q: RequestId, steps: seq<Step>)
    requires Inv(s, zone) && JustStarted(s, q) && WellPlaced(s.requests[q], zone(s.requests[q].coach))
    requires var r := s.requests[q]; FitsSchedule(r.slot, s.history.current, r.coach, zone(r.coach))
    ensures !CommitsUnoffered(s, zone, q, steps)
  {
    var r, end := s.requests[q], Run(s, zone, steps);
    assert Carries(s, q, r);
    RunCarries(s, zone, steps, q, r);
    RunKeepsInv(s, zone, steps);
    RunGrows(s, zone, steps);
    forall k | |s.log| <= k < |end.log| && end.log[k].request == q
      ensures !NeverOffered(end.log[k], end.history, zone(end.log[k].row.coach))
    {
      var e := end.log[k];
      assert e.row.slot == r.slot && e.row.coach == r.coach && e.started == Latest(s.history);
      assert EntryScheduled(e, end.history, zone(e.row.coach));
      assert FitsAt(e, end.history, zone(e.row.coach), e.started);
    }
  }

  lemma UnfittingStartCanBeUnoffered(s: State, zone: Zones, q: RequestId) returns (steps: seq<Step>)
    requires Inv(s, zone) && JustStarted(s, q) && WellPlaced(s.requests[q], zone(s.requests[q].coach))
    ensures OwnEdits(s, zone, steps, s.requests[q].coach) && CommitsOutside(s, zone, q, steps)
    ensures var r := s.requests[q];
            !FitsSchedule(r.slot, s.history.current, r.coach, zone(r.coach)) ==> CommitsUnoffered(s, zone, q, steps)
  {
    var e: Entry;
    steps, e := RaceCommits(s, zone, q);
    var r, end := s.requests[q], Run(s, zone, steps);
    var offset := zone(r.coach);
    assert end.log[|s.log|] == e;
    assert EndsOutside(e, end.history, zone);
    if !FitsSchedule(r.slot, s.history.current, r.coach, offset) {
      forall v: nat | e.started <= v <= e.version ensures !FitsAt(e, end.history, offset, v) {
        if v == e.started {
          assert At(end.history, v) == s.history.current;
        }
      }
      assert NeverOffered(e, end.history, offset);
    }
  }

  /** In every reachable state, for every request that starts there: if its interval fits the schedule at its
      start, no run commits it unoffered; if not, requests of its coach that add or remove one row each are
      enough to make a run that does. */
  lemma CommitFittingNoStateIff(s: State, zone: Zones, q: RequestId)
    requires Inv(s, zone) && JustStarted(s, q)
    ensures WellPlaced(s.requests[q], zone(s.requests[q].coach))
    ensures var r := s.requests[q];
            && ((exists steps :: CommitsUnoffered(s, zone, q, steps)) <==>
                !FitsSchedule(r.slot, s.history.current, r.coach, zone(r.coach)))
            && ((exists steps :: OwnEdits(s, zone, steps, r.coach) && CommitsUnoffered(s, zone, q, steps)) <==>
                !FitsSchedule(r.slot, s.history.current, r.coach, zone(r.coach)))
  {
    ActiveRequestOk(s, zone, q);
    var r := s.requests[q];
    if FitsSchedule(r.slot, s.history.current, r.coach, zone(r.coach)) {
      forall steps ensures !CommitsUnoffered(s, zone, q, steps) {
        FittingStartIsOffered(s, zone, q, steps);
      }
    } else {
      var steps := UnfittingStartCanBeUnoffered(s, zone, q);
      assert OwnEdits(s, zone, steps, r.coach) && CommitsUnoffered(s, zone, q, steps);
    }
  }

  /** And whatever the schedule at its start, such requests can make it commit outside the schedule of its
      commit state. */
  lemma CommitCanBeOutsideCurrentSchedule(s: State, zone: Zones, q: RequestId)
    requires Inv(s, zone) && JustStarted(s, q)
    ensures exists steps :: OwnEdits(s, zone, steps, s.requests[q].coach) && CommitsOutside(s, zone, q, steps)
  {
    ActiveRequestOk(s, zone, q);
    var steps := UnfittingStartCanBeUnoffered(s, zone, q);
  }

  // ---------- from an empty calendar

  const ZONE: Zones := (c: CoachId) => 0
  const HALF_HOUR: KnownType := EventType(0, 30, {Phone}, true)
  const SLOT := Interval(0, 30 * MINUTE)
  const CLOSED: RowTables := Tables([], [])
  const START := StartCreate(0, CreateRequest(0, Some(0), Phone), 0)

  function Started(t: RowTables): State {
    State(map[], [], map[0 := Request(0, SLOT, 0, Phone, None, 30, 0, 1, Unread, None, false, Active)],
          map[0 := HALF_HOUR], History([], t))
  }

  lemma StartsAtOnce()
    ensures Apply(Initial(map[0 := HALF_HOUR], CLOSED), ZONE, START) == Started(CLOSED)
    ensures Inv(Started(CLOSED), ZONE)
  {
    StepKeepsInv(Initial(map[0 := HALF_HOUR], CLOSED), ZONE, START);
  }

  /** Such requests exist: the first create of a coach with a closed calendar can commit although no state
      ever offered its interval. */
  lemma CommitFittingNoState() returns (types: map<TypeId, KnownType>, tables: RowTables, steps: seq<Step>)
    ensures var s := Run(Initial(types, tables), ZONE, steps);
            && |s.log| == 1 && s.log[0].row.slot == SLOT
            && s.log[0].id in s.bookings && s.bookings[s.log[0].id] == s.log[0].row
            && forall v: nat :: v <= Latest(s.history) ==> !FitsSchedule(SLOT, At(s.history, v), 0, 0)
  {
    types, tables := map[0 := HALF_HOUR], CLOSED;
    StartsAtOnce();
    var r := Started(CLOSED).requests[0];
    var rest, e := RaceCommits(Started(CLOSED), ZONE, 0);
    RunStep(Initial(types, tables), ZONE, START, rest);
    steps := [START] + rest;
    ClearedUnfit(CLOSED, r, 0);
    assert At(Run(Initial(types, tables), ZONE, steps).history, 0) == CLOSED;
  }
}
