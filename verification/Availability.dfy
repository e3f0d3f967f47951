/** Effective ranges of a coach on a date: the single-date lookup, the batched lookup for a
    whole range of dates, and the schedule check of a booking request. Query results carry no
    order, so every lookup is compared to `EffectiveRanges` as a multiset. */
module Availability {
  import opened Domain
  import Calendar

  datatype MinuteRange = MinuteRange(startMinute: int, endMinute: int)

  predicate WellFormed(r: MinuteRange) {
    0 <= r.startMinute < r.endMinute <= MINUTES_PER_DAY
  }

  /** The reference half-open overlap of two minute ranges. */
  predicate RangesOverlap(a: MinuteRange, b: MinuteRange) {
    a.startMinute < b.endMinute && b.startMinute < a.endMinute
  }

  datatype OverrideRow = OverrideRow(
    coach: CoachId, date: nat, isUnavailable: bool, startMinute: Option<int>, endMinute: Option<int>)

  datatype WeeklyRow = WeeklyRow(coach: CoachId, weekday: nat, startMinute: int, endMinute: int)

  /** The row invariant behind the `!` assertions: both minutes missing, or a well-formed range. */
  predicate ValidOverride(o: OverrideRow) {
    if o.isUnavailable then o.startMinute.None? && o.endMinute.None?
    else o.startMinute.Some? && o.endMinute.Some?
         && WellFormed(MinuteRange(o.startMinute.value, o.endMinute.value))
  }

  predicate ValidWeekly(w: WeeklyRow) {
    1 <= w.weekday <= 7 && WellFormed(MinuteRange(w.startMinute, w.endMinute))
  }

  datatype Tables = Tables(overrides: seq<OverrideRow>, weekly: seq<WeeklyRow>)

  ghost predicate ValidTables(t: Tables) {
    (forall o :: o in t.overrides ==> ValidOverride(o)) && (forall w :: w in t.weekly ==> ValidWeekly(w))
  }

  // ---------- selecting and mapping rows

  function Filter<T(!new)>(rows: seq<T>, keep: T -> bool): (kept: seq<T>)
    ensures forall x :: x in kept <==> x in rows && keep(x)
  {
    if |rows| == 0 then []
    else
      var last := rows[|rows| - 1];
      assert rows == rows[..|rows| - 1] + [last];
      Filter(rows[..|rows| - 1], keep) + (if keep(last) then [last] else [])
  }

  lemma {:induction false} FilterCount<T(!new)>(rows: seq<T>, keep: T -> bool)
    ensures forall x :: multiset(Filter(rows, keep))[x] == if keep(x) then multiset(rows)[x] else 0
  {
    if |rows| > 0 {
      FilterCount(rows[..|rows| - 1], keep);
      assert rows == rows[..|rows| - 1] + [rows[|rows| - 1]];
    }
  }

  function Map<T(!new), U(!new)>(f: T --> U, rows: seq<T>): (r: seq<U>)
    requires forall x :: x in rows ==> f.requires(x)
  {
    if |rows| == 0 then []
    else
      var last := rows[|rows| - 1];
      assert rows == rows[..|rows| - 1] + [last];
      Map(f, rows[..|rows| - 1]) + [f(last)]
  }

  lemma {:induction false} MapMember<T(!new), U(!new)>(f: T --> U, rows: seq<T>, y: U)
    requires forall x :: x in rows ==> f.requires(x)
    ensures y in Map(f, rows) <==> exists x :: x in rows && f(x) == y
  {
    if |rows| > 0 {
      var front, last := rows[..|rows| - 1], rows[|rows| - 1];
      assert rows == front + [last];
      MapMember(f, front, y);
    }
  }

  lemma {:induction false} MapRemove<T(!new), U(!new)>(f: T --> U, a: seq<T>, x: T, b: seq<T>)
    requires forall y :: y in a + [x] + b ==> f.requires(y)
    ensures forall y :: y in a + b ==> f.requires(y)
    ensures multiset(Map(f, a + [x] + b)) == multiset(Map(f, a + b)) + multiset{f(x)}
  {
    if |b| == 0 {
      assert a + [x] + b == a + [x] && a + b == a;
    } else {
      var b' := b[..|b| - 1];
      var last := b[|b| - 1];
      assert b == b' + [last];
      assert forall y :: y in a + [x] + b' ==> y in a + [x] + b;
      assert last in a + [x] + b;
      MapRemove(f, a, x, b');
      assert (a + [x] + b)[..|a + [x] + b| - 1] == a + [x] + b';
      assert (a + b)[..|a + b| - 1] == a + b';
    }
  }

  lemma SplitAtLast<T(!new)>(a: seq<T>, b: seq<T>) returns (l: seq<T>, r: seq<T>)
    requires multiset(a) == multiset(b) && |a| > 0
    ensures b == l + [a[|a| - 1]] + r
    ensures multiset(a[..|a| - 1]) == multiset(l + r)
  {
    var x := a[|a| - 1];
    assert a == a[..|a| - 1] + [x];
    assert x in multiset(b);
    var i :| 0 <= i < |b| && b[i] == x;
    l, r := b[..i], b[i + 1..];
    assert b == l + [x] + r;
    assert multiset(l + r) == multiset(b) - multiset{x};
  }

  lemma SameElements<T(!new)>(a: seq<T>, b: seq<T>)
    requires multiset(a) == multiset(b)
    ensures forall x :: x in a <==> x in b
    ensures |a| == |b|
  {
    assert forall x :: x in a <==> x in multiset(a);
    assert forall x :: x in b <==> x in multiset(b);
    assert |multiset(a)| == |a| && |multiset(b)| == |b|;
  }

  lemma {:induction false} MapPermutation<T(!new), U(!new)>(f: T --> U, a: seq<T>, b: seq<T>)
    requires multiset(a) == multiset(b)
    requires forall x :: x in a || x in b ==> f.requires(x)
    ensures multiset(Map(f, a)) == multiset(Map(f, b))
  {
    SameElements(a, b);
    if |a| > 0 {
      var l, r := SplitAtLast(a, b);
      MapPermutation(f, a[..|a| - 1], l + r);
      MapRemove(f, l, a[|a| - 1], r);
    }
  }

  // ---------- the single-date lookup

  function OverrideRange(o: OverrideRow): MinuteRange
    requires o.startMinute.Some? && o.endMinute.Some?
  {
    MinuteRange(o.startMinute.value, o.endMinute.value)
  }

  function WeeklyRange(w: WeeklyRow): MinuteRange {
    MinuteRange(w.startMinute, w.endMinute)
  }

  /** What the code returns from the rows of its two queries, in the order they arrived. */
  function RangesForDate(overrides: seq<OverrideRow>, weekly: seq<WeeklyRow>): (r: seq<MinuteRange>)
    requires forall o :: o in overrides ==> ValidOverride(o)
  {
    if |overrides| > 0 then
      if exists o :: o in overrides && o.isUnavailable then []
      else
        assert forall o :: o in overrides ==> ValidOverride(o) && OverrideRange.requires(o);
        Map(OverrideRange, overrides)
    else
      Map(WeeklyRange, weekly)
  }

  function OnDate(coach: CoachId, day: nat): OverrideRow -> bool {
    (o: OverrideRow) => o.coach == coach && o.date == day
  }

  function OnWeekday(coach: CoachId, weekday: nat): WeeklyRow -> bool {
    (w: WeeklyRow) => w.coach == coach && w.weekday == weekday
  }

  /** The coach's bookable ranges on `day`. */
  ghost function EffectiveRanges(t: Tables, coach: CoachId, day: nat): multiset<MinuteRange>
    requires ValidTables(t)
  {
    multiset(RangesForDate(Filter(t.overrides, OnDate(coach, day)),
                           Filter(t.weekly, OnWeekday(coach, Calendar.IsoWeekday(day)))))
  }

  ghost predicate IsAvailableOverride(t: Tables, coach: CoachId, day: nat, r: MinuteRange) {
    OverrideRow(coach, day, false, Some(r.startMinute), Some(r.endMinute)) in t.overrides
  }

  /** What membership means, row by row: the overrides of the date hide the weekly schedule, one
      "unavailable" override hides everything, and every range is well formed. */
  lemma EffectiveRangesMeaning(t: Tables, coach: CoachId, day: nat, r: MinuteRange)
    requires ValidTables(t)
    ensures r in EffectiveRanges(t, coach, day) <==>
            if exists o :: o in t.overrides && o.coach == coach && o.date == day then
              IsAvailableOverride(t, coach, day, r)
              && !exists o :: o in t.overrides && o.coach == coach && o.date == day && o.isUnavailable
            else
              WeeklyRow(coach, Calendar.IsoWeekday(day), r.startMinute, r.endMinute) in t.weekly
    ensures r in EffectiveRanges(t, coach, day) ==> WellFormed(r)
  {
    var os := Filter(t.overrides, OnDate(coach, day));
    var ws := Filter(t.weekly, OnWeekday(coach, Calendar.IsoWeekday(day)));
    var ranges := RangesForDate(os, ws);
    assert r in EffectiveRanges(t, coach, day) <==> r in ranges;
    MapMember(WeeklyRange, ws, r);
    if !exists o :: o in os && o.isUnavailable {
      MapMember(OverrideRange, os, r);
    }
    if |os| > 0 {
      assert os[0] in os;
      if IsAvailableOverride(t, coach, day, r) {
        var o := OverrideRow(coach, day, false, Some(r.startMinute), Some(r.endMinute));
        assert o in os && OverrideRange(o) == r;
      }
    } else {
      assert forall o :: o in t.overrides ==> o !in os ==> !OnDate(coach, day)(o);
      var w := WeeklyRow(coach, Calendar.IsoWeekday(day), r.startMinute, r.endMinute);
      assert w in ws <==> w in t.weekly;
      if w in ws {
        assert WeeklyRange(w) == r;
      }
    }
  }

  ghost predicate QueryResult<T(!new)>(rows: seq<T>, table: seq<T>, keep: T -> bool) {
    multiset(rows) == multiset(Filter(table, keep))
  }

  lemma RangesForDatePermutation(os: seq<OverrideRow>, ws: seq<WeeklyRow>,
                                 os': seq<OverrideRow>, ws': seq<WeeklyRow>)
    requires multiset(os) == multiset(os') && multiset(ws) == multiset(ws')
    requires forall o :: o in os ==> ValidOverride(o)
    ensures forall o :: o in os' ==> ValidOverride(o)
    ensures multiset(RangesForDate(os, ws)) == multiset(RangesForDate(os', ws'))
  {
    SameElements(os, os');
    if |os| > 0 {
      if !exists o :: o in os && o.isUnavailable {
        assert forall o :: o in os ==> OverrideRange.requires(o);
        MapPermutation(OverrideRange, os, os');
      }
    } else {
      MapPermutation(WeeklyRange, ws, ws');
    }
  }

  /** The single-date lookup answers `EffectiveRanges`, whatever order its queries return rows in. */
  lemma SingleLookup(t: Tables, coach: CoachId, day: nat, os: seq<OverrideRow>, ws: seq<WeeklyRow>)
    requires ValidTables(t)
    requires QueryResult(os, t.overrides, OnDate(coach, day))
    requires QueryResult(ws, t.weekly, OnWeekday(coach, Calendar.IsoWeekday(day)))
    ensures forall o :: o in os ==> ValidOverride(o)
    ensures multiset(RangesForDate(os, ws)) == EffectiveRanges(t, coach, day)
  {
    RangesForDatePermutation(Filter(t.overrides, OnDate(coach, day)),
                             Filter(t.weekly, OnWeekday(coach, Calendar.IsoWeekday(day))), os, ws);
  }

  // ---------- the batched lookup

  function InDateRange(coach: CoachId, first: nat, last: nat): OverrideRow -> bool {
    (o: OverrideRow) => o.coach == coach && first <= o.date <= last
  }

  function OfCoach(coach: CoachId): WeeklyRow -> bool {
    (w: WeeklyRow) => w.coach == coach
  }

  function WithKey<T(!new), K(==, !new)>(keyOf: T -> K, key: K): T -> bool {
    (x: T) => keyOf(x) == key
  }

  /** The first ten characters of the date's text: the whole of it up to the year 9999. */
  function DateKey(): OverrideRow -> string {
    (o: OverrideRow) => Calendar.IsoText(o.date)[..10]
  }

  function Itself(): OverrideRow -> OverrideRow {
    (o: OverrideRow) => o
  }

  function WeekdayKey(): WeeklyRow -> nat {
    (w: WeeklyRow) => w.weekday
  }

  lemma FilterSnoc<T(!new)>(rows: seq<T>, i: nat, keep: T -> bool)
    requires i < |rows|
    ensures Filter(rows[..i + 1], keep) == Filter(rows[..i], keep) + (if keep(rows[i]) then [rows[i]] else [])
  {
    assert rows[..i + 1][..i] == rows[..i];
  }

  lemma MapSnoc<T(!new), U(!new)>(f: T -> U, rows: seq<T>, x: T)
    ensures Map(f, rows + [x]) == Map(f, rows) + [f(x)]
  {
    assert (rows + [x])[..|rows|] == rows;
  }

  /** The values of the rows under key `k`, in row order. */
  function Group<T(!new), K(==, !new), V(!new)>(rows: seq<T>, keyOf: T -> K, valueOf: T -> V, k: K): seq<V> {
    Map(valueOf, Filter(rows, WithKey(keyOf, k)))
  }

  ghost predicate IsGrouping<T(!new), K(!new), V(!new)>(
    groups: map<K, seq<V>>, rows: seq<T>, keyOf: T -> K, valueOf: T -> V)
  {
    forall k :: (if k in groups then groups[k] else []) == Group(rows, keyOf, valueOf, k)
  }

  lemma GroupSnoc<T(!new), K(!new), V(!new)>(rows: seq<T>, i: nat, keyOf: T -> K, valueOf: T -> V, k: K)
    requires i < |rows|
    ensures Group(rows[..i + 1], keyOf, valueOf, k)
            == Group(rows[..i], keyOf, valueOf, k) + (if keyOf(rows[i]) == k then [valueOf(rows[i])] else [])
  {
    FilterSnoc(rows, i, WithKey(keyOf, k));
    var before := Filter(rows[..i], WithKey(keyOf, k));
    MapSnoc(valueOf, before, rows[i]);
    assert before + [] == before;
  }

  /** The grouping loop: push onto the list under the row's key, starting the list if there is none. */
  method GroupBy<T(!new), K(==, !new), V(!new)>(rows: seq<T>, keyOf: T -> K, valueOf: T -> V)
    returns (groups: map<K, seq<V>>)
    ensures IsGrouping(groups, rows, keyOf, valueOf)
  {
    groups := map[];
    for i := 0 to |rows|
      invariant IsGrouping(groups, rows[..i], keyOf, valueOf)
    {
      ghost var before := groups;
      var key := keyOf(rows[i]);
      if key in groups {
        groups := groups[key := groups[key] + [valueOf(rows[i])]];
      } else {
        groups := groups[key := [valueOf(rows[i])]];
      }
      forall k ensures (if k in groups then groups[k] else []) == Group(rows[..i + 1], keyOf, valueOf, k) {
        GroupSnoc(rows, i, keyOf, valueOf, k);
        assert (if k in before then before[k] else []) == Group(rows[..i], keyOf, valueOf, k);
      }
    }
    assert rows[..|rows|] == rows;
  }

  lemma {:induction false} MapIdentity<T(!new)>(f: T -> T, rows: seq<T>)
    requires forall x :: f(x) == x
    ensures Map(f, rows) == rows
  {
    if |rows| > 0 {
      MapIdentity(f, rows[..|rows| - 1]);
    }
  }

  lemma SelectTwice<T(!new)>(rows: seq<T>, table: seq<T>, p: T -> bool, q: T -> bool, both: T -> bool)
    requires QueryResult(rows, table, p)
    requires forall x :: both(x) <==> p(x) && q(x)
    ensures QueryResult(Filter(rows, q), table, both)
  {
    FilterCount(table, p);
    FilterCount(table, both);
    FilterCount(rows, q);
  }

  /** The rows the batched lookup finds for `day`: past the year 9999 the keys of overrides are cut short,
      and none is found. */
  function SeenOn(t: Tables, day: nat): Tables {
    if Calendar.FourDigitYear(day) then t else Tables([], t.weekly)
  }

  /** So past the year 9999 a day off is not seen by the batched lookup, only by the single-date one. */
  lemma LaterDayOffIsMissed(day: nat)
    requires !Calendar.FourDigitYear(day)
    ensures var t := Tables([OverrideRow(0, day, true, None, None)], [WeeklyRow(0, Calendar.IsoWeekday(day), 0, 60)]);
            && ValidTables(t)
            && MinuteRange(0, 60) in EffectiveRanges(SeenOn(t, day), 0, day)
            && MinuteRange(0, 60) !in EffectiveRanges(t, 0, day)
  {
    DayOffHidesHour(day, Calendar.IsoWeekday(day));
  }

  lemma DayOffHidesHour(day: nat, weekday: nat)
    requires weekday == Calendar.IsoWeekday(day)
    ensures var off, hour := OverrideRow(0, day, true, None, None), WeeklyRow(0, weekday, 0, 60);
            && ValidTables(Tables([off], [hour])) && ValidTables(Tables([], [hour]))
            && MinuteRange(0, 60) !in EffectiveRanges(Tables([off], [hour]), 0, day)
            && MinuteRange(0, 60) in EffectiveRanges(Tables([], [hour]), 0, day)
  {
    var off, hour := OverrideRow(0, day, true, None, None), WeeklyRow(0, weekday, 0, 60);
    assert off in [off] && hour in [hour];
    EffectiveRangesMeaning(Tables([off], [hour]), 0, day, MinuteRange(0, 60));
    EffectiveRangesMeaning(Tables([], [hour]), 0, day, MinuteRange(0, 60));
  }

  lemma DateKeyFinds(o: OverrideRow, day: nat)
    ensures DateKey()(o) == Calendar.IsoText(day) <==> Calendar.FourDigitYear(day) && o.date == day
  {
    if Calendar.FourDigitYear(day) {
      if Calendar.FourDigitYear(o.date) {
        assert Calendar.IsoText(o.date)[..10] == Calendar.IsoText(o.date);
        if Calendar.IsoText(o.date) == Calendar.IsoText(day) {
          Calendar.IsoTextInjective(o.date, day);
        }
      } else {
        Calendar.LaterYearSortsFirst(o.date, day);
        assert Calendar.IsoText(o.date)[..10][0] == Calendar.IsoText(o.date)[0];
      }
    }
  }

  /** Selecting by date range and then by key text is selecting the date: the grouping loses nothing. */
  lemma BatchedRowsAreSingleRows(t: Tables, coach: CoachId, first: nat, last: nat, day: nat,
                                 overrides: seq<OverrideRow>, weekly: seq<WeeklyRow>)
    requires ValidTables(t) && (Calendar.FourDigitYear(day) ==> first <= day <= last)
    requires QueryResult(overrides, t.overrides, InDateRange(coach, first, last))
    requires QueryResult(weekly, t.weekly, OfCoach(coach))
    ensures QueryResult(Filter(overrides, WithKey(DateKey(), Calendar.IsoText(day))), SeenOn(t, day).overrides,
                        OnDate(coach, day))
    ensures QueryResult(Filter(weekly, WithKey(WeekdayKey(), Calendar.IsoWeekday(day))), SeenOn(t, day).weekly,
                        OnWeekday(coach, Calendar.IsoWeekday(day)))
  {
    var keyed := WithKey(DateKey(), Calendar.IsoText(day));
    forall o: OverrideRow ensures keyed(o) <==> Calendar.FourDigitYear(day) && o.date == day {
      DateKeyFinds(o, day);
    }
    if Calendar.FourDigitYear(day) {
      SelectTwice(overrides, t.overrides, InDateRange(coach, first, last), keyed, OnDate(coach, day));
    } else {
      FilterCount(overrides, keyed);
      assert multiset(Filter(overrides, keyed)) == multiset{};
    }
    SelectTwice(weekly, t.weekly, OfCoach(coach), WithKey(WeekdayKey(), Calendar.IsoWeekday(day)),
                OnWeekday(coach, Calendar.IsoWeekday(day)));
  }

  /** The answer of the batched loop for one day, from the two groupings. */
  function GroupedRanges(dayOverrides: seq<OverrideRow>, dayWeekly: seq<MinuteRange>): seq<MinuteRange>
    requires forall o :: o in dayOverrides ==> ValidOverride(o)
  {
    if |dayOverrides| > 0 then
      if exists o :: o in dayOverrides && o.isUnavailable then []
      else
        assert forall o :: o in dayOverrides ==> ValidOverride(o) && OverrideRange.requires(o);
        Map(OverrideRange, dayOverrides)
    else dayWeekly
  }

  lemma GroupedRangesAreEffective(
    t: Tables, coach: CoachId, overrides: seq<OverrideRow>, weekly: seq<WeeklyRow>,
    first: nat, last: nat, day: nat)
    requires ValidTables(t) && (Calendar.FourDigitYear(day) ==> first <= day <= last)
    requires QueryResult(overrides, t.overrides, InDateRange(coach, first, last))
    requires QueryResult(weekly, t.weekly, OfCoach(coach))
    ensures var os := Group(overrides, DateKey(), Itself(), Calendar.IsoText(day));
            && (forall o :: o in os ==> ValidOverride(o))
            && multiset(GroupedRanges(os, Group(weekly, WeekdayKey(), WeeklyRange, Calendar.IsoWeekday(day))))
               == EffectiveRanges(SeenOn(t, day), coach, day)
  {
    var os := Filter(overrides, WithKey(DateKey(), Calendar.IsoText(day)));
    var ws := Filter(weekly, WithKey(WeekdayKey(), Calendar.IsoWeekday(day)));
    BatchedRowsAreSingleRows(t, coach, first, last, day, overrides, weekly);
    SingleLookup(SeenOn(t, day), coach, day, os, ws);
    MapIdentity(Itself(), os);
  }

  /** Both lookups, one answer for every date of a four-digit year; the keys are exactly the dates the day
      loop visits, which are `first..last` unless `last` is 9999-12-31 or the years gain a digit between.
      `horizon` is the last date the date library can represent. */
  method GetEffectiveRangesForDateRange(
    ghost t: Tables, ghost coach: CoachId, overrides: seq<OverrideRow>, weekly: seq<WeeklyRow>,
    first: nat, last: nat, horizon: nat)
    returns (result: map<string, seq<MinuteRange>>)
    requires ValidTables(t)
    requires QueryResult(overrides, t.overrides, InDateRange(coach, first, last))
    requires QueryResult(weekly, t.weekly, OfCoach(coach))
    requires first <= horizon && last <= horizon && Calendar.Representable(horizon)
    ensures Collected(result, Calendar.IsoText, EffectiveOn(t, coach), first,
                      Calendar.LastVisited(first, last, horizon) + 1)
  {
    VisitedDays(first, last, horizon);
    result := CollectDays(t, coach, overrides, weekly, first, last, horizon,
                          Calendar.LastVisited(first, last, horizon));
  }

  /** The day loop from `first` ends after day `end`, and visits no later day of a four-digit year than `last`. */
  ghost predicate Visits(first: nat, last: nat, horizon: nat, end: int) {
    first <= end + 1 && forall day: nat :: first <= day <= end + 1 ==> VisitsUpTo(day, last, horizon, end)
  }

  predicate VisitsUpTo(day: nat, last: nat, horizon: nat, end: int) {
    && (day <= horizon && Calendar.TextAtMost(Calendar.IsoText(day), Calendar.IsoText(last)) <==> day <= end)
    && (day <= end && Calendar.FourDigitYear(day) ==> day <= last)
  }

  lemma VisitedDays(first: nat, last: nat, horizon: nat)
    requires first <= horizon && last <= horizon && Calendar.Representable(horizon)
    ensures Visits(first, last, horizon, Calendar.LastVisited(first, last, horizon))
  {
    var end := Calendar.LastVisited(first, last, horizon);
    forall day: nat | first <= day <= end + 1
      ensures VisitsUpTo(day, last, horizon, end)
    {
      Calendar.LoopVisits(first, day, last, horizon);
      if day <= end && Calendar.FourDigitYear(day) {
        VisitedDayInRange(first, day, last, horizon);
      }
    }
  }

  lemma VisitedDayInRange(first: nat, day: nat, last: nat, horizon: nat)
    requires first <= day <= Calendar.LastVisited(first, last, horizon) && Calendar.FourDigitYear(day)
    ensures day <= last
  {
    Calendar.EarlierStaysFourDigit(first, day);
    if Calendar.CivilOf(last) == Calendar.LAST_FOUR_DIGIT_DATE {
      Calendar.LastFourDigitDay(day, last);
    }
  }

  method CollectDays(
    ghost t: Tables, ghost coach: CoachId, overrides: seq<OverrideRow>, weekly: seq<WeeklyRow>,
    first: nat, last: nat, horizon: nat, ghost end: int)
    returns (result: map<string, seq<MinuteRange>>)
    requires ValidTables(t)
    requires QueryResult(overrides, t.overrides, InDateRange(coach, first, last))
    requires QueryResult(weekly, t.weekly, OfCoach(coach))
    requires Visits(first, last, horizon, end) && end <= horizon && Calendar.Representable(horizon)
    ensures Collected(result, Calendar.IsoText, EffectiveOn(t, coach), first, end + 1)
  {
    var overridesByDate := GroupBy(overrides, DateKey(), Itself());
    var weeklyByWeekday := GroupBy(weekly, WeekdayKey(), WeeklyRange);
    result := map[];
    var day := first;
    while day <= horizon && Calendar.TextAtMost(Calendar.IsoText(day), Calendar.IsoText(last))
      invariant first <= day <= end + 1 && VisitsUpTo(day, last, horizon, end)
      invariant Collected(result, Calendar.IsoText, EffectiveOn(t, coach), first, day)
      decreases horizon + 1 - day
    {
      var isoDate := Calendar.IsoText(day);
      var ranges := RangesOfDay(t, coach, overrides, weekly, first, last, day, isoDate,
                                overridesByDate, weeklyByWeekday);
      KeysStayDistinct(first, day, horizon);
      CollectOne(result, Calendar.IsoText, EffectiveOn(t, coach), first, day, ranges);
      result := result[isoDate := ranges];
      day := day + 1;
    }
  }

  /** The body of the day loop. */
  method RangesOfDay(
    ghost t: Tables, ghost coach: CoachId, ghost overrides: seq<OverrideRow>, ghost weekly: seq<WeeklyRow>,
    ghost first: nat, ghost last: nat, day: nat, isoDate: string,
    overridesByDate: map<string, seq<OverrideRow>>, weeklyByWeekday: map<nat, seq<MinuteRange>>)
    returns (ranges: seq<MinuteRange>)
    requires ValidTables(t) && (Calendar.FourDigitYear(day) ==> first <= day <= last)
    requires isoDate == Calendar.IsoText(day)
    requires QueryResult(overrides, t.overrides, InDateRange(coach, first, last))
    requires QueryResult(weekly, t.weekly, OfCoach(coach))
    requires IsGrouping(overridesByDate, overrides, DateKey(), Itself())
    requires IsGrouping(weeklyByWeekday, weekly, WeekdayKey(), WeeklyRange)
    ensures multiset(ranges) == EffectiveOn(t, coach)(day)
  {
    GroupedRangesAreEffective(t, coach, overrides, weekly, first, last, day);
    var dayOverrides := if isoDate in overridesByDate then overridesByDate[isoDate] else [];
    var weekday := Calendar.IsoWeekday(day);
    var dayWeekly := if weekday in weeklyByWeekday then weeklyByWeekday[weekday] else [];
    ranges := GroupedRanges(dayOverrides, dayWeekly);
  }

  ghost function EffectiveOn(t: Tables, coach: CoachId): nat -> multiset<MinuteRange>
    requires ValidTables(t)
  {
    (day: nat) => EffectiveRanges(SeenOn(t, day), coach, day)
  }

  /** `result` holds exactly the keys of `first..next-1`, each with its answer as a multiset. */
  ghost predicate Collected<V(!new)>(
    result: map<string, seq<V>>, key: nat -> string, answer: nat -> multiset<V>, first: nat, next: int)
  {
    && (forall k :: k in result ==> exists d: nat :: first <= d < next && k == key(d))
    && (forall d: nat :: first <= d < next ==> key(d) in result && multiset(result[key(d)]) == answer(d))
  }

  lemma CollectOne<V(!new)>(
    result: map<string, seq<V>>, key: nat -> string, answer: nat -> multiset<V>, first: nat, day: nat, value: seq<V>)
    requires Collected(result, key, answer, first, day) && first <= day
    requires forall d: nat :: first <= d < day ==> key(d) != key(day)
    requires multiset(value) == answer(day)
    ensures Collected(result[key(day) := value], key, answer, first, day + 1)
  {
  }

  lemma KeysStayDistinct(first: nat, day: nat, last: nat)
    requires first <= day <= last && Calendar.Representable(last)
    ensures forall d :: first <= d < day ==> Calendar.IsoText(d) != Calendar.IsoText(day)
  {
    forall d | first <= d < day ensures Calendar.IsoText(d) != Calendar.IsoText(day) {
      Calendar.EarlierStaysFourDigit(d, last);
      Calendar.EarlierStaysFourDigit(day, last);
      if Calendar.IsoText(d) == Calendar.IsoText(day) {
        Calendar.IsoTextInjective(d, day);
      }
    }
  }

  // ---------- the schedule check of a booking request

  /** Minutes since midnight of a request: the start drops its seconds, the end keeps its fraction. */
  datatype Candidate = Candidate(startMinute: int, endMinute: real)

  function CandidateOf(slot: Interval, offset: int): Candidate {
    var midnight := Midnight(DayOf(slot.start, offset), offset);
    Candidate((slot.start - midnight) / MINUTE, (slot.end - midnight) as real / MINUTE as real)
  }

  predicate IsWithinRange(r: MinuteRange, c: Candidate) {
    r.startMinute <= c.startMinute && r.endMinute as real >= c.endMinute
  }

  predicate IsWithinEffectiveRange(ranges: seq<MinuteRange>, c: Candidate) {
    exists r :: r in ranges && IsWithinRange(r, c)
  }

  function RangeInterval(r: MinuteRange, day: int, offset: int): Interval {
    Interval(Midnight(day, offset) + r.startMinute * MINUTE, Midnight(day, offset) + r.endMinute * MINUTE)
  }

  /** The check on truncated minutes is exactly containment of the millisecond interval, because
      range bounds are whole minutes. */
  lemma WithinRangeIsContainment(r: MinuteRange, slot: Interval, offset: int)
    ensures IsWithinRange(r, CandidateOf(slot, offset)) <==>
            var bounds := RangeInterval(r, DayOf(slot.start, offset), offset);
            bounds.start <= slot.start && slot.end <= bounds.end
  {
  }
}
