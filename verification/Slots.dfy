/** The slot calculator: a nested loop over days, effective ranges and a grid of starts, with a
    pre-filtered list of bookings. Its result is compared to a declarative meaning. */
module Slots {
  import opened Domain
  import Calendar
  import opened Availability

  const MAX_RANGE_DAYS := 90

  datatype Slot = Slot(coach: CoachId, when: Interval)

  datatype SlotsError = EventTypeNotFound | InvalidDateRange | RangeTooLong

  /** `firstDay` and `lastDay` are the parsed query dates, `None` when invalid. */
  datatype Query = Query(typeId: TypeId, firstDay: Option<nat>, lastDay: Option<nat>, exclude: Option<BookingId>)

  /** Whose slots, how long, in which business timezone. */
  datatype Kind = Kind(coach: CoachId, duration: nat, offset: int)

  /** What one call fixes before its loops: `busy` is the list the conflict test runs over. */
  datatype Context = Context(kind: Kind, cutoff: int, busy: set<Interval>)

  function StartOf(day: nat, startMinute: int, offset: int): int {
    Midnight(day, offset) + startMinute * MINUTE
  }

  function SlotAt(kind: Kind, day: nat, startMinute: int): Slot {
    var start := StartOf(day, startMinute, kind.offset);
    Slot(kind.coach, Interval(start, start + kind.duration * MINUTE))
  }

  predicate Conflicts(c: Context, i: Interval) {
    exists b :: b in c.busy && Overlaps(b, i)
  }

  predicate Kept(c: Context, s: Slot) {
    c.cutoff <= s.when.start && !Conflicts(c, s.when)
  }

  // ---------- the result in loop order

  function RangeSlots(c: Context, day: nat, startMinute: int, endMinute: int): seq<Slot>
    requires c.kind.duration > 0
    decreases endMinute - startMinute
  {
    if startMinute + c.kind.duration <= endMinute then
      (if Kept(c, SlotAt(c.kind, day, startMinute)) then [SlotAt(c.kind, day, startMinute)] else [])
      + RangeSlots(c, day, startMinute + c.kind.duration, endMinute)
    else []
  }

  function DaySlots(c: Context, day: nat, ranges: seq<MinuteRange>): seq<Slot>
    requires c.kind.duration > 0
  {
    if |ranges| == 0 then []
    else RangeSlots(c, day, ranges[0].startMinute, ranges[0].endMinute) + DaySlots(c, day, ranges[1..])
  }

  function AllSlots(c: Context, day: nat, last: nat, rangesOf: nat -> seq<MinuteRange>): seq<Slot>
    requires c.kind.duration > 0
    decreases last + 1 - day
  {
    if day <= last then DaySlots(c, day, rangesOf(day)) + AllSlots(c, day + 1, last, rangesOf) else []
  }

  // ---------- the grid inside one range

  /** The starts the inner loop visits, before any filter. */
  function Grid(startMinute: int, endMinute: int, duration: nat): seq<int>
    requires duration > 0
    decreases endMinute - startMinute
  {
    if startMinute + duration <= endMinute
    then [startMinute] + Grid(startMinute + duration, endMinute, duration) else []
  }

  /** The grid is the arithmetic progression that fits: floor((end - start) / duration) consecutive
      disjoint slots, less than one duration left over. */
  lemma {:induction false} GridShape(startMinute: int, endMinute: int, duration: nat)
    requires duration > 0 && startMinute <= endMinute
    ensures var g := Grid(startMinute, endMinute, duration);
            && |g| == (endMinute - startMinute) / duration
            && (forall k :: 0 <= k < |g| ==> g[k] == startMinute + k * duration)
            && (forall j, k :: 0 <= j < k < |g| ==> g[j] + duration <= g[k])
            && 0 <= endMinute - (startMinute + |g| * duration) < duration
    decreases endMinute - startMinute
  {
    var g := Grid(startMinute, endMinute, duration);
    if startMinute + duration <= endMinute {
      var rest := Grid(startMinute + duration, endMinute, duration);
      GridShape(startMinute + duration, endMinute, duration);
      QuotientStep(endMinute - startMinute, duration);
      forall k | 0 <= k < |g| ensures g[k] == startMinute + k * duration {
        if k > 0 {
          assert g[k] == rest[k - 1] == startMinute + duration + (k - 1) * duration;
          Distribute(k, duration);
        }
      }
      Distribute(|g|, duration);
      forall j, k | 0 <= j < k < |g| ensures g[j] + duration <= g[k] {
        if j == 0 {
          ProductAtLeast(k, duration);
        } else {
          assert g[j] == rest[j - 1] && g[k] == rest[k - 1];
        }
      }
    } else {
      QuotientZero(endMinute - startMinute, duration);
    }
  }

  lemma QuotientStep(x: int, d: nat)
    requires d > 0
    ensures x / d == (x - d) / d + 1
  {
    var q, r := (x - d) / d, (x - d) % d;
    assert x - d == q * d + r;
    assert x == (q + 1) * d + r;
    QuotientUnique(x, d, q + 1, r);
  }

  lemma QuotientUnique(x: int, d: nat, q: int, r: int)
    requires d > 0 && x == q * d + r && 0 <= r < d
    ensures x / d == q
  {
    var q', r' := x / d, x % d;
    assert x == q' * d + r';
    assert (q - q') * d == r' - r;
    if q - q' >= 1 {
      ProductAtLeast(q - q', d);
    } else if q - q' <= -1 {
      assert (q' - q) * d == -((q - q') * d);
      ProductAtLeast(q' - q, d);
    }
  }

  lemma QuotientZero(x: int, d: nat)
    requires d > 0 && 0 <= x < d
    ensures x / d == 0
  {
    QuotientUnique(x, d, 0, x);
  }

  lemma ProductAtLeast(k: int, d: nat)
    requires k >= 1
    ensures k * d >= d
  {
  }

  lemma Distribute(k: int, d: int)
    ensures d + (k - 1) * d == k * d
  {
  }

  // ---------- what a slot of the result is

  ghost predicate OnGrid(s: Slot, kind: Kind, day: nat, r: MinuteRange)
    requires kind.duration > 0
  {
    exists m :: m in Grid(r.startMinute, r.endMinute, kind.duration) && s == SlotAt(kind, day, m)
  }

  /** The `k`-th slot of range `r` on `day`. */
  predicate IsKthSlot(s: Slot, kind: Kind, day: nat, r: MinuteRange, k: nat) {
    && s.coach == kind.coach
    && s.when.start == day * 86_400_000 - kind.offset + (r.startMinute + k * kind.duration) * 60_000
    && s.when.end == s.when.start + kind.duration * 60_000
    && r.startMinute + (k + 1) * kind.duration <= r.endMinute
  }

  lemma GridSlotIsKth(s: Slot, kind: Kind, day: nat, r: MinuteRange)
    requires kind.duration > 0 && r.startMinute <= r.endMinute && OnGrid(s, kind, day, r)
    ensures exists k: nat :: IsKthSlot(s, kind, day, r, k)
  {
    var g := Grid(r.startMinute, r.endMinute, kind.duration);
    GridShape(r.startMinute, r.endMinute, kind.duration);
    var m :| m in g && s == SlotAt(kind, day, m);
    var k :| 0 <= k < |g| && g[k] == m;
    Distribute(k + 1, kind.duration);
    ProductMonotone(k + 1, |g|, kind.duration);
    assert IsKthSlot(s, kind, day, r, k);
  }

  lemma KthSlotIsOnGrid(s: Slot, kind: Kind, day: nat, r: MinuteRange, k: nat)
    requires kind.duration > 0 && r.startMinute <= r.endMinute && IsKthSlot(s, kind, day, r, k)
    ensures OnGrid(s, kind, day, r)
  {
    var g := Grid(r.startMinute, r.endMinute, kind.duration);
    GridShape(r.startMinute, r.endMinute, kind.duration);
    if k >= |g| {
      ProductMonotone(|g| + 1, k + 1, kind.duration);
      Distribute(|g| + 1, kind.duration);
      assert false;
    }
    assert g[k] in g && s == SlotAt(kind, day, g[k]);
  }

  /** A grid slot, spelled out in milliseconds: a whole number of durations after the start of the range,
      one duration long, ending within the range. */
  lemma OnGridIff(s: Slot, kind: Kind, day: nat, r: MinuteRange)
    requires kind.duration > 0 && r.startMinute <= r.endMinute
    ensures OnGrid(s, kind, day, r) <==> exists k: nat :: IsKthSlot(s, kind, day, r, k)
  {
    if OnGrid(s, kind, day, r) {
      GridSlotIsKth(s, kind, day, r);
    }
    if k: nat :| IsKthSlot(s, kind, day, r, k) {
      KthSlotIsOnGrid(s, kind, day, r, k);
    }
  }

  lemma ProductMonotone(a: nat, b: nat, d: nat)
    requires a <= b
    ensures a * d <= b * d
  {
    assert b * d == a * d + (b - a) * d;
  }

  lemma {:induction false} RangeSlotsMeaning(c: Context, day: nat, startMinute: int, endMinute: int, s: Slot)
    requires c.kind.duration > 0
    ensures s in RangeSlots(c, day, startMinute, endMinute) <==>
            OnGrid(s, c.kind, day, MinuteRange(startMinute, endMinute)) && Kept(c, s)
    decreases endMinute - startMinute
  {
    if startMinute + c.kind.duration <= endMinute {
      var next := startMinute + c.kind.duration;
      RangeSlotsMeaning(c, day, next, endMinute, s);
      var g := Grid(startMinute, endMinute, c.kind.duration);
      assert g == [startMinute] + Grid(next, endMinute, c.kind.duration);
      assert startMinute in g;
      assert forall m :: m in g <==> m == startMinute || m in Grid(next, endMinute, c.kind.duration);
    }
  }

  lemma {:induction false} DaySlotsMeaning(c: Context, day: nat, ranges: seq<MinuteRange>, s: Slot)
    requires c.kind.duration > 0
    ensures s in DaySlots(c, day, ranges) <==> (exists r :: r in ranges && OnGrid(s, c.kind, day, r)) && Kept(c, s)
  {
    if |ranges| > 0 {
      RangeSlotsMeaning(c, day, ranges[0].startMinute, ranges[0].endMinute, s);
      DaySlotsMeaning(c, day, ranges[1..], s);
      assert ranges == [ranges[0]] + ranges[1..];
      assert forall r :: r in ranges <==> r == ranges[0] || r in ranges[1..];
    }
  }

  ghost predicate OnSomeGrid(s: Slot, kind: Kind, day: nat, ranges: seq<MinuteRange>)
    requires kind.duration > 0
  {
    exists r :: r in ranges && OnGrid(s, kind, day, r)
  }

  lemma {:induction false} AllSlotsMeaning(
    c: Context, day: nat, last: nat, rangesOf: nat -> seq<MinuteRange>, s: Slot)
    requires c.kind.duration > 0
    ensures s in AllSlots(c, day, last, rangesOf) <==>
            (exists d: nat :: day <= d <= last && OnSomeGrid(s, c.kind, d, rangesOf(d))) && Kept(c, s)
    decreases last + 1 - day
  {
    if day <= last {
      DaySlotsMeaning(c, day, rangesOf(day), s);
      AllSlotsMeaning(c, day + 1, last, rangesOf, s);
      assert OnSomeGrid(s, c.kind, day, rangesOf(day)) <==> exists r :: r in rangesOf(day) && OnGrid(s, c.kind, day, r);
    }
  }

  lemma {:induction false} GridWithinRange(startMinute: int, endMinute: int, duration: nat, m: int)
    requires duration > 0 && m in Grid(startMinute, endMinute, duration)
    ensures startMinute <= m && m + duration <= endMinute
    decreases endMinute - startMinute
  {
    if m != startMinute {
      GridWithinRange(startMinute + duration, endMinute, duration, m);
    }
  }

  lemma GridSlotStaysInItsDay(s: Slot, kind: Kind, day: nat, r: MinuteRange)
    requires kind.duration > 0 && WellFormed(r) && OnGrid(s, kind, day, r)
    ensures Midnight(day, kind.offset) <= s.when.start < s.when.end <= Midnight(day + 1, kind.offset)
    ensures DayOf(s.when.start, kind.offset) == day
  {
    var m :| m in Grid(r.startMinute, r.endMinute, kind.duration) && s == SlotAt(kind, day, m);
    GridWithinRange(r.startMinute, r.endMinute, kind.duration, m);
    DayOfBounds(s.when.start, kind.offset, day);
  }

  lemma SharedSlotMeansOverlap(s: Slot, kind: Kind, day: nat, r: MinuteRange, r': MinuteRange)
    requires kind.duration > 0 && OnGrid(s, kind, day, r) && OnGrid(s, kind, day, r')
    ensures RangesOverlap(r, r')
  {
    var m :| m in Grid(r.startMinute, r.endMinute, kind.duration) && s == SlotAt(kind, day, m);
    var m' :| m' in Grid(r'.startMinute, r'.endMinute, kind.duration) && s == SlotAt(kind, day, m');
    GridWithinRange(r.startMinute, r.endMinute, kind.duration, m);
    GridWithinRange(r'.startMinute, r'.endMinute, kind.duration, m');
  }

  // ---------- no slot twice

  predicate Distinct(slots: seq<Slot>) {
    forall i, j :: 0 <= i < j < |slots| ==> slots[i] != slots[j]
  }

  ghost predicate RangesDisjoint(ranges: seq<MinuteRange>) {
    forall i, j :: 0 <= i < j < |ranges| ==> !RangesOverlap(ranges[i], ranges[j])
  }

  lemma DistinctConcat(a: seq<Slot>, b: seq<Slot>)
    ensures Distinct(a + b) <==> Distinct(a) && Distinct(b) && forall s :: s in a ==> s !in b
  {
    var both := a + b;
    assert forall i :: 0 <= i < |a| ==> both[i] == a[i];
    assert forall i :: 0 <= i < |b| ==> both[|a| + i] == b[i];
    if Distinct(both) {
      forall i, j | 0 <= i < j < |b| ensures b[i] != b[j] {
        assert both[|a| + i] != both[|a| + j];
      }
      forall i, j | 0 <= i < |a| && 0 <= j < |b| ensures a[i] != b[j] {
        assert both[i] != both[|a| + j];
      }
    } else if Distinct(a) && Distinct(b) {
      var i, j :| 0 <= i < j < |both| && both[i] == both[j];
      assert i < |a| <= j && both[j] == b[j - |a|];
      assert a[i] in a && a[i] in b;
    }
  }

  lemma {:induction false} RangeSlotsDistinct(c: Context, day: nat, startMinute: int, endMinute: int)
    requires c.kind.duration > 0
    ensures Distinct(RangeSlots(c, day, startMinute, endMinute))
    decreases endMinute - startMinute
  {
    if startMinute + c.kind.duration <= endMinute {
      var next := startMinute + c.kind.duration;
      RangeSlotsDistinct(c, day, next, endMinute);
      var s := SlotAt(c.kind, day, startMinute);
      RangeSlotsMeaning(c, day, next, endMinute, s);
      if s in RangeSlots(c, day, next, endMinute) {
        var m :| m in Grid(next, endMinute, c.kind.duration) && s == SlotAt(c.kind, day, m);
        GridWithinRange(next, endMinute, c.kind.duration, m);
        assert false;
      }
      DistinctConcat(if Kept(c, s) then [s] else [], RangeSlots(c, day, next, endMinute));
    }
  }

  /** Two ranges of a day both yield the slot `s`. */
  ghost predicate Shared(c: Context, day: nat, a: MinuteRange, b: MinuteRange, s: Slot)
    requires c.kind.duration > 0
  {
    OnGrid(s, c.kind, day, a) && OnGrid(s, c.kind, day, b) && Kept(c, s)
  }

  ghost predicate NoneShared(c: Context, day: nat, ranges: seq<MinuteRange>)
    requires c.kind.duration > 0
  {
    forall i, j, s :: 0 <= i < j < |ranges| ==> !Shared(c, day, ranges[i], ranges[j], s)
  }

  /** The slots of the first range recur among those of the others exactly when one of them is shared. */
  lemma FirstRangeShares(c: Context, day: nat, ranges: seq<MinuteRange>, s: Slot)
    requires c.kind.duration > 0 && |ranges| > 0
    ensures s in RangeSlots(c, day, ranges[0].startMinute, ranges[0].endMinute) && s in DaySlots(c, day, ranges[1..])
            <==> exists j :: 0 < j < |ranges| && Shared(c, day, ranges[0], ranges[j], s)
  {
    RangeSlotsMeaning(c, day, ranges[0].startMinute, ranges[0].endMinute, s);
    DaySlotsMeaning(c, day, ranges[1..], s);
    if r :| r in ranges[1..] && OnGrid(s, c.kind, day, r) {
      var j :| 0 <= j < |ranges[1..]| && ranges[1..][j] == r;
      assert ranges[j + 1] == r;
    }
  }

  lemma FirstRangeSharesNone(c: Context, day: nat, ranges: seq<MinuteRange>)
    requires c.kind.duration > 0 && |ranges| > 0
    ensures var head := RangeSlots(c, day, ranges[0].startMinute, ranges[0].endMinute);
            (forall s :: s in head ==> s !in DaySlots(c, day, ranges[1..])) <==>
            forall j, s :: 0 < j < |ranges| ==> !Shared(c, day, ranges[0], ranges[j], s)
  {
    var head := RangeSlots(c, day, ranges[0].startMinute, ranges[0].endMinute);
    if j, s :| 0 < j < |ranges| && Shared(c, day, ranges[0], ranges[j], s) {
      FirstRangeShares(c, day, ranges, s);
      assert s in head && s in DaySlots(c, day, ranges[1..]);
    } else {
      forall s | s in head ensures s !in DaySlots(c, day, ranges[1..]) {
        FirstRangeShares(c, day, ranges, s);
      }
    }
  }

  lemma NoneSharedSplit(c: Context, day: nat, ranges: seq<MinuteRange>)
    requires c.kind.duration > 0 && |ranges| > 0
    ensures NoneShared(c, day, ranges) <==>
            && NoneShared(c, day, ranges[1..])
            && forall j, s :: 0 < j < |ranges| ==> !Shared(c, day, ranges[0], ranges[j], s)
  {
    var rest := ranges[1..];
    assert forall j :: 0 <= j < |rest| ==> rest[j] == ranges[j + 1];
    if NoneShared(c, day, rest) && forall j, s :: 0 < j < |ranges| ==> !Shared(c, day, ranges[0], ranges[j], s) {
      forall i, j, s | 0 <= i < j < |ranges| ensures !Shared(c, day, ranges[i], ranges[j], s) {
        if i > 0 {
          assert rest[i - 1] == ranges[i] && rest[j - 1] == ranges[j];
        }
      }
    }
    if NoneShared(c, day, ranges) {
      forall i, j, s | 0 <= i < j < |rest| ensures !Shared(c, day, rest[i], rest[j], s) {
        assert rest[i] == ranges[i + 1] && rest[j] == ranges[j + 1];
      }
    }
  }

  /** One day lists no slot twice if and only if no two of its ranges share a kept slot. */
  lemma {:induction false} DaySlotsDistinctIff(c: Context, day: nat, ranges: seq<MinuteRange>)
    requires c.kind.duration > 0
    ensures Distinct(DaySlots(c, day, ranges)) <==> NoneShared(c, day, ranges)
  {
    if |ranges| > 0 {
      var head := RangeSlots(c, day, ranges[0].startMinute, ranges[0].endMinute);
      RangeSlotsDistinct(c, day, ranges[0].startMinute, ranges[0].endMinute);
      DaySlotsDistinctIff(c, day, ranges[1..]);
      DistinctConcat(head, DaySlots(c, day, ranges[1..]));
      NoneSharedSplit(c, day, ranges);
      FirstRangeSharesNone(c, day, ranges);
    }
  }

  /** Days never share a slot, because a grid slot stays in its own day. */
  lemma DaysShareNothing(c: Context, day: nat, last: nat, rangesOf: nat -> seq<MinuteRange>, s: Slot)
    requires c.kind.duration > 0 && day <= last && s in DaySlots(c, day, rangesOf(day))
    requires forall d: nat, r :: day <= d <= last && r in rangesOf(d) ==> WellFormed(r)
    ensures s !in AllSlots(c, day + 1, last, rangesOf)
  {
    DaySlotsMeaning(c, day, rangesOf(day), s);
    AllSlotsMeaning(c, day + 1, last, rangesOf, s);
    var r :| r in rangesOf(day) && OnGrid(s, c.kind, day, r);
    GridSlotStaysInItsDay(s, c.kind, day, r);
    forall d: nat | day < d <= last ensures !OnSomeGrid(s, c.kind, d, rangesOf(d)) {
      if OnSomeGrid(s, c.kind, d, rangesOf(d)) {
        var r' :| r' in rangesOf(d) && OnGrid(s, c.kind, d, r');
        GridSlotStaysInItsDay(s, c.kind, d, r');
      }
    }
  }

  /** No slot is listed twice if and only if on no day two ranges share a kept slot. */
  lemma {:induction false} AllSlotsDistinctIff(c: Context, day: nat, last: nat, rangesOf: nat -> seq<MinuteRange>)
    requires c.kind.duration > 0
    requires forall d: nat, r :: day <= d <= last && r in rangesOf(d) ==> WellFormed(r)
    ensures Distinct(AllSlots(c, day, last, rangesOf)) <==>
            forall d: nat :: day <= d <= last ==> NoneShared(c, d, rangesOf(d))
    decreases last + 1 - day
  {
    if day <= last {
      DaySlotsDistinctIff(c, day, rangesOf(day));
      AllSlotsDistinctIff(c, day + 1, last, rangesOf);
      FirstDayDistinct(c, day, last, rangesOf);
      if && NoneShared(c, day, rangesOf(day))
         && forall d: nat :: day + 1 <= d <= last ==> NoneShared(c, d, rangesOf(d)) {
        forall d: nat | day <= d <= last ensures NoneShared(c, d, rangesOf(d)) {
          if d != day {
            assert day + 1 <= d;
          }
        }
      }
    }
  }

  lemma FirstDayDistinct(c: Context, day: nat, last: nat, rangesOf: nat -> seq<MinuteRange>)
    requires c.kind.duration > 0 && day <= last
    requires forall d: nat, r :: day <= d <= last && r in rangesOf(d) ==> WellFormed(r)
    ensures Distinct(AllSlots(c, day, last, rangesOf)) <==>
            Distinct(DaySlots(c, day, rangesOf(day))) && Distinct(AllSlots(c, day + 1, last, rangesOf))
  {
    var head := DaySlots(c, day, rangesOf(day));
    forall s | s in head ensures s !in AllSlots(c, day + 1, last, rangesOf) {
      DaysShareNothing(c, day, last, rangesOf, s);
    }
    DistinctConcat(head, AllSlots(c, day + 1, last, rangesOf));
  }

  /** In particular when the ranges of each day do not overlap. */
  lemma AllSlotsDistinct(c: Context, day: nat, last: nat, rangesOf: nat -> seq<MinuteRange>)
    requires c.kind.duration > 0
    requires forall d: nat :: day <= d <= last ==> RangesDisjoint(rangesOf(d))
    requires forall d: nat, r :: day <= d <= last && r in rangesOf(d) ==> WellFormed(r)
    ensures Distinct(AllSlots(c, day, last, rangesOf))
  {
    AllSlotsDistinctIff(c, day, last, rangesOf);
    forall d: nat | day <= d <= last ensures NoneShared(c, d, rangesOf(d)) {
      forall i, j, s | 0 <= i < j < |rangesOf(d)| ensures !Shared(c, d, rangesOf(d)[i], rangesOf(d)[j], s) {
        if Shared(c, d, rangesOf(d)[i], rangesOf(d)[j], s) {
          SharedSlotMeansOverlap(s, c.kind, d, rangesOf(d)[i], rangesOf(d)[j]);
        }
      }
    }
  }

  // ---------- in order

  /** Days in order. */
  lemma {:induction false} AllSlotsInDayOrder(
    c: Context, day: nat, last: nat, rangesOf: nat -> seq<MinuteRange>, i: nat, j: nat)
    requires c.kind.duration > 0 && i < j < |AllSlots(c, day, last, rangesOf)|
    requires forall d: nat, r :: day <= d <= last && r in rangesOf(d) ==> WellFormed(r)
    ensures var slots := AllSlots(c, day, last, rangesOf);
            day <= DayOf(slots[i].when.start, c.kind.offset) <= DayOf(slots[j].when.start, c.kind.offset) <= last
    decreases last + 1 - day
  {
    var slots, head := AllSlots(c, day, last, rangesOf), DaySlots(c, day, rangesOf(day));
    var tail := AllSlots(c, day + 1, last, rangesOf);
    SlotsOfDay(c, day, last, rangesOf, i);
    SlotsOfDay(c, day, last, rangesOf, j);
    if |head| <= i {
      AllSlotsInDayOrder(c, day + 1, last, rangesOf, i - |head|, j - |head|);
    }
  }

  /** The slots of the first day come first, and then those of later days. */
  lemma SlotsOfDay(c: Context, day: nat, last: nat, rangesOf: nat -> seq<MinuteRange>, i: nat)
    requires c.kind.duration > 0 && i < |AllSlots(c, day, last, rangesOf)|
    requires forall d: nat, r :: day <= d <= last && r in rangesOf(d) ==> WellFormed(r)
    ensures day <= last
    ensures var start := AllSlots(c, day, last, rangesOf)[i].when.start;
            if i < |DaySlots(c, day, rangesOf(day))| then DayOf(start, c.kind.offset) == day
            else day < DayOf(start, c.kind.offset) <= last
  {
    var slots, head := AllSlots(c, day, last, rangesOf), DaySlots(c, day, rangesOf(day));
    var s := slots[i];
    if i < |head| {
      assert s == head[i] && s in head;
      DaySlotsMeaning(c, day, rangesOf(day), s);
      var r :| r in rangesOf(day) && OnGrid(s, c.kind, day, r);
      GridSlotStaysInItsDay(s, c.kind, day, r);
    } else {
      assert s == AllSlots(c, day + 1, last, rangesOf)[i - |head|];
      assert s in AllSlots(c, day + 1, last, rangesOf);
      AllSlotsMeaning(c, day + 1, last, rangesOf, s);
      var d: nat :| day + 1 <= d <= last && OnSomeGrid(s, c.kind, d, rangesOf(d));
      var r :| r in rangesOf(d) && OnGrid(s, c.kind, d, r);
      GridSlotStaysInItsDay(s, c.kind, d, r);
    }
  }

  /** And starts ascending inside a range. */
  lemma {:induction false} RangeSlotsAscend(c: Context, day: nat, startMinute: int, endMinute: int, i: nat, j: nat)
    requires c.kind.duration > 0 && i < j < |RangeSlots(c, day, startMinute, endMinute)|
    ensures var slots := RangeSlots(c, day, startMinute, endMinute); slots[i].when.end <= slots[j].when.start
    decreases endMinute - startMinute
  {
    var next := startMinute + c.kind.duration;
    var s, tail := SlotAt(c.kind, day, startMinute), RangeSlots(c, day, next, endMinute);
    if Kept(c, s) && i == 0 {
      var later := tail[j - 1];
      assert later in tail;
      RangeSlotsMeaning(c, day, next, endMinute, later);
      var m :| m in Grid(next, endMinute, c.kind.duration) && later == SlotAt(c.kind, day, m);
      GridWithinRange(next, endMinute, c.kind.duration, m);
    } else if Kept(c, s) {
      RangeSlotsAscend(c, day, next, endMinute, i - 1, j - 1);
    } else {
      RangeSlotsAscend(c, day, next, endMinute, i, j);
    }
  }

  // ---------- the bookings the conflict test sees

  predicate IsConfirmedOf(b: Booking, coach: CoachId) {
    b.coach == coach && b.status == Confirmed
  }

  /** Each of the coach's bookings lies inside one day of the coach's business timezone. */
  ghost predicate StaysInDays(bookings: map<BookingId, Booking>, coach: CoachId, offset: int) {
    forall id :: id in bookings && bookings[id].coach == coach ==> InsideOneDay(bookings[id].slot, offset)
  }

  predicate Competes(bookings: map<BookingId, Booking>, id: BookingId, coach: CoachId, exclude: Option<BookingId>) {
    id in bookings && IsConfirmedOf(bookings[id], coach) && exclude != Some(id)
  }

  function ConfirmedIntervals(bookings: map<BookingId, Booking>, coach: CoachId, exclude: Option<BookingId>):
    set<Interval>
  {
    set id | id in bookings && Competes(bookings, id, coach, exclude) :: bookings[id].slot
  }

  /** The rows of the pre-filter: only bookings that start at or after the first midnight and end at
      or before the midnight after the last day. */
  function Prefiltered(
    bookings: map<BookingId, Booking>, coach: CoachId, exclude: Option<BookingId>,
    first: nat, last: nat, offset: int): set<Interval>
  {
    set id | id in bookings && Competes(bookings, id, coach, exclude)
             && bookings[id].slot.start >= Midnight(first, offset)
             && bookings[id].slot.end <= Midnight(last + 1, offset)
      :: bookings[id].slot
  }

  /** Each booking stays inside one business day, and each grid slot inside its own: so a booking
      that overlaps a slot of the queried days passes the pre-filter. */
  lemma PrefilterLosesNothing(
    bookings: map<BookingId, Booking>, coach: CoachId, exclude: Option<BookingId>,
    first: nat, last: nat, offset: int, day: nat, i: Interval)
    requires StaysInDays(bookings, coach, offset)
    requires first <= day <= last
    requires Midnight(day, offset) <= i.start < i.end <= Midnight(day + 1, offset)
    ensures (exists b :: b in Prefiltered(bookings, coach, exclude, first, last, offset) && Overlaps(b, i))
            <==> exists b :: b in ConfirmedIntervals(bookings, coach, exclude) && Overlaps(b, i)
  {
  }

  // ---------- the declarative meaning

  ghost predicate OnEffectiveGrid(s: Slot, t: Tables, kind: Kind, first: nat, last: nat)
    requires ValidTables(t) && kind.duration > 0
  {
    exists day: nat, r ::
      first <= day <= last && r in EffectiveRanges(t, kind.coach, day) && OnGrid(s, kind, day, r)
  }

  /** The overlap query finds nothing. */
  predicate DisjointFromCompetitors(
    i: Interval, bookings: map<BookingId, Booking>, coach: CoachId, exclude: Option<BookingId>)
  {
    forall id :: id in bookings && Competes(bookings, id, coach, exclude) ==> !Overlaps(bookings[id].slot, i)
  }

  /** An interval is free exactly when it shares no instant with a confirmed booking of the coach, other than
      the excluded one; other coaches' bookings and cancelled ones do not count. */
  lemma FreeMeansNoSharedInstant(i: Interval, bookings: map<BookingId, Booking>, coach: CoachId, offset: int,
                                 exclude: Option<BookingId>)
    requires StaysInDays(bookings, coach, offset) && i.start < i.end
    ensures DisjointFromCompetitors(i, bookings, coach, exclude) <==>
            forall id, t: int ::
              (&& id in bookings && bookings[id].coach == coach && bookings[id].status == Confirmed
               && exclude != Some(id) && InInterval(t, i)) ==> !InInterval(t, bookings[id].slot)
  {
    forall id | id in bookings && bookings[id].coach == coach
      ensures Overlaps(bookings[id].slot, i) <==> exists t: int :: InInterval(t, bookings[id].slot) && InInterval(t, i)
    {
      assert InsideOneDay(bookings[id].slot, offset);
      OverlapIsSharedInstant(bookings[id].slot, i);
    }
    if DisjointFromCompetitors(i, bookings, coach, exclude) {
      forall id, t: int | && id in bookings && bookings[id].coach == coach && bookings[id].status == Confirmed
                          && exclude != Some(id) && InInterval(t, i)
        ensures !InInterval(t, bookings[id].slot)
      {
        assert Competes(bookings, id, coach, exclude);
      }
    }
  }

  /** An offered slot: on the grid of an effective range of a queried day, not before the cutoff,
      disjoint from every confirmed booking of the coach at any time (the excluded one aside). */
  ghost predicate IsOffered(
    s: Slot, t: Tables, bookings: map<BookingId, Booking>, kind: Kind, cutoff: int,
    exclude: Option<BookingId>, first: nat, last: nat)
    requires ValidTables(t) && kind.duration > 0
  {
    && OnEffectiveGrid(s, t, kind, first, last)
    && cutoff <= s.when.start
    && DisjointFromCompetitors(s.when, bookings, kind.coach, exclude)
  }

  ghost predicate RangesAgree(rangesOf: nat -> seq<MinuteRange>, t: Tables, coach: CoachId, first: nat, last: nat)
    requires ValidTables(t)
  {
    forall day: nat :: first <= day <= last ==> multiset(rangesOf(day)) == EffectiveRanges(t, coach, day)
  }

  lemma GridsAgree(s: Slot, t: Tables, kind: Kind, first: nat, last: nat, rangesOf: nat -> seq<MinuteRange>)
    requires ValidTables(t) && kind.duration > 0 && RangesAgree(rangesOf, t, kind.coach, first, last)
    ensures (exists d: nat :: first <= d <= last && OnSomeGrid(s, kind, d, rangesOf(d)))
            <==> OnEffectiveGrid(s, t, kind, first, last)
  {
  }

  /** On a grid slot, the conflict test over the pre-filtered list answers for all bookings. */
  lemma ConflictTestIsComplete(
    s: Slot, t: Tables, bookings: map<BookingId, Booking>, c: Context, exclude: Option<BookingId>,
    first: nat, last: nat)
    requires ValidTables(t) && c.kind.duration > 0
    requires StaysInDays(bookings, c.kind.coach, c.kind.offset)
    requires c.busy == Prefiltered(bookings, c.kind.coach, exclude, first, last, c.kind.offset)
    requires OnEffectiveGrid(s, t, c.kind, first, last)
    ensures Conflicts(c, s.when) <==> !DisjointFromCompetitors(s.when, bookings, c.kind.coach, exclude)
  {
    var day: nat, r :|
      first <= day <= last && r in EffectiveRanges(t, c.kind.coach, day) && OnGrid(s, c.kind, day, r);
    EffectiveRangesMeaning(t, c.kind.coach, day, r);
    GridSlotStaysInItsDay(s, c.kind, day, r);
    PrefilterLosesNothing(bookings, c.kind.coach, exclude, first, last, c.kind.offset, day, s.when);
    if id :| id in bookings && Competes(bookings, id, c.kind.coach, exclude) && Overlaps(bookings[id].slot, s.when) {
      assert bookings[id].slot in ConfirmedIntervals(bookings, c.kind.coach, exclude);
    }
  }

  lemma SlotsAreOffered(
    s: Slot, t: Tables, bookings: map<BookingId, Booking>, c: Context, exclude: Option<BookingId>,
    first: nat, last: nat, rangesOf: nat -> seq<MinuteRange>)
    requires ValidTables(t) && c.kind.duration > 0
    requires StaysInDays(bookings, c.kind.coach, c.kind.offset)
    requires c.busy == Prefiltered(bookings, c.kind.coach, exclude, first, last, c.kind.offset)
    requires RangesAgree(rangesOf, t, c.kind.coach, first, last)
    ensures s in AllSlots(c, first, last, rangesOf) <==>
            IsOffered(s, t, bookings, c.kind, c.cutoff, exclude, first, last)
  {
    AllSlotsMeaning(c, first, last, rangesOf, s);
    GridsAgree(s, t, c.kind, first, last, rangesOf);
    if OnEffectiveGrid(s, t, c.kind, first, last) {
      ConflictTestIsComplete(s, t, bookings, c, exclude, first, last);
    }
  }

  // ---------- the method

  /** The ranges of a day as the batched lookup stored them; an absent key counts as no ranges. */
  function RangesIn(byDate: map<string, seq<MinuteRange>>, key: nat -> string): nat -> seq<MinuteRange> {
    (day: nat) => if key(day) in byDate then byDate[key(day)] else []
  }

  /** The rows the calculator sees for `first..last`: all of them up to the year 9999, only weekly rows
      after it, and none when the range crosses into the year 10000. */
  function SeenTables(t: Tables, first: nat, last: nat): Tables {
    if Calendar.FourDigitYear(last) then t
    else if Calendar.FourDigitYear(first) then Tables([], [])
    else Tables([], t.weekly)
  }

  lemma CollectedRangesAgree(
    byDate: map<string, seq<MinuteRange>>, t: Tables, coach: CoachId, first: nat, last: nat, horizon: nat)
    requires ValidTables(t) && first <= last <= horizon && Calendar.Representable(horizon)
    requires Collected(byDate, Calendar.IsoText, EffectiveOn(t, coach), first,
                       Calendar.LastVisited(first, last, horizon) + 1)
    ensures RangesAgree(RangesIn(byDate, Calendar.IsoText), SeenTables(t, first, last), coach, first, last)
  {
    Calendar.EarlierStaysFourDigit(first, last);
    forall day: nat | first <= day <= last
      ensures multiset(RangesIn(byDate, Calendar.IsoText)(day))
              == EffectiveRanges(SeenTables(t, first, last), coach, day)
    {
      Calendar.EarlierStaysFourDigit(first, day);
      Calendar.EarlierStaysFourDigit(day, last);
      if Calendar.FourDigitYear(first) && !Calendar.FourDigitYear(last) {
        assert byDate == map[];
      } else {
        assert EffectiveOn(t, coach)(day) == EffectiveRanges(SeenTables(t, first, last), coach, day);
      }
    }
  }

  const NINE_TO_TEN := WeeklyRow(0, Calendar.IsoWeekday(0), 540, 600)

  const NINE_TWICE := Tables([], [NINE_TO_TEN, NINE_TO_TEN])

  lemma {:induction false} FilterAll<T(!new)>(rows: seq<T>, keep: T -> bool)
    requires forall x :: x in rows ==> keep(x)
    ensures Filter(rows, keep) == rows
  {
    if |rows| > 0 {
      var front, last := rows[..|rows| - 1], rows[|rows| - 1];
      assert rows == front + [last];
      FilterAll(front, keep);
    }
  }

  lemma MapPair<T(!new), U(!new)>(f: T -> U, x: T)
    ensures Map(f, [x, x]) == [f(x), f(x)]
  {
    assert [x, x] == [x] + [x] && [x] == [] + [x];
    MapSnoc(f, [], x);
    MapSnoc(f, [x], x);
  }

  lemma NineTwiceRanges()
    ensures ValidTables(NINE_TWICE)
    ensures EffectiveRanges(NINE_TWICE, 0, 0) == multiset([MinuteRange(540, 600), MinuteRange(540, 600)])
  {
    FilterAll(NINE_TWICE.weekly, OnWeekday(0, Calendar.IsoWeekday(0)));
    MapPair(WeeklyRange, NINE_TO_TEN);
  }

  lemma PairFromMultiset(ranges: seq<MinuteRange>, r: MinuteRange)
    requires multiset(ranges) == multiset([r, r])
    ensures ranges == [r, r]
  {
    SameElements(ranges, [r, r]);
    assert forall i :: 0 <= i < |ranges| ==> ranges[i] in ranges;
  }

  /** Two identical weekly rows, which the service accepts: the slot at 09:00 is listed twice, in whatever
      order the rows arrive. */
  lemma IdenticalRowsListSlotTwice(rangesOf: nat -> seq<MinuteRange>)
    requires ValidTables(NINE_TWICE) && RangesAgree(rangesOf, NINE_TWICE, 0, 0, 0)
    ensures !Distinct(AllSlots(Context(Kind(0, 60, 0), 0, {}), 0, 0, rangesOf))
  {
    var c, r := Context(Kind(0, 60, 0), 0, {}), MinuteRange(540, 600);
    NineTwiceRanges();
    PairFromMultiset(rangesOf(0), r);
    assert Grid(540, 600, 60)[0] == 540;
    var s := SlotAt(c.kind, 0, 540);
    assert OnGrid(s, c.kind, 0, r) && Shared(c, 0, r, r, s);
    AllSlotsDistinctIff(c, 0, 0, rangesOf);
    assert Shared(c, 0, rangesOf(0)[0], rangesOf(0)[1], s);
  }

  /** A range of dates that crosses into the year 10000 has no slots. */
  lemma CrossingRangeHasNoSlots(slots: seq<Slot>, t: Tables, bookings: map<BookingId, Booking>, kind: Kind,
                                cutoff: int, exclude: Option<BookingId>, first: nat, last: nat)
    requires ValidTables(t) && kind.duration > 0
    requires Calendar.FourDigitYear(first) && !Calendar.FourDigitYear(last)
    requires IsAnswer(slots, SeenTables(t, first, last), bookings, kind, cutoff, exclude, first, last)
    ensures forall s :: s !in slots
  {
    forall day: nat, r ensures r !in EffectiveRanges(Tables([], []), kind.coach, day) {
      EffectiveRangesMeaning(Tables([], []), kind.coach, day, r);
    }
    assert forall s :: !OnEffectiveGrid(s, Tables([], []), kind, first, last);
  }

  function KindOf(e: EventType, settings: Settings): Kind {
    Kind(e.coach, e.durationMinutes, settings.offset)
  }

  predicate Answerable(types: map<TypeId, EventType>, query: Query) {
    && query.typeId in types && types[query.typeId].isActive
    && query.firstDay.Some? && query.lastDay.Some?
    && query.firstDay.value <= query.lastDay.value <= query.firstDay.value + MAX_RANGE_DAYS
  }

  /** The answer holds exactly the offered slots, in day order, each as often as effective ranges yield it. */
  ghost predicate IsAnswer(
    slots: seq<Slot>, t: Tables, bookings: map<BookingId, Booking>, kind: Kind, cutoff: int,
    exclude: Option<BookingId>, first: nat, last: nat)
    requires ValidTables(t) && kind.duration > 0
  {
    && (forall s :: s in slots <==> IsOffered(s, t, bookings, kind, cutoff, exclude, first, last))
    && exists rangesOf ::
         && RangesAgree(rangesOf, t, kind.coach, first, last)
         && var busy := Prefiltered(bookings, kind.coach, exclude, first, last, kind.offset);
            slots == AllSlots(Context(kind, cutoff, busy), first, last, rangesOf)
  }

  method ComputeSlots(
    types: map<TypeId, EventType>, settings: Settings, bookings: map<BookingId, Booking>,
    ghost t: Tables, overrides: seq<OverrideRow>, weekly: seq<WeeklyRow>, query: Query, now: int,
    horizon: nat)
    returns (r: Result<seq<Slot>, SlotsError>)
    requires forall id :: id in types ==> ValidEventType(types[id])
    requires query.typeId in types ==> StaysInDays(bookings, types[query.typeId].coach, settings.offset)
    requires ValidTables(t)
    requires Calendar.Representable(horizon)
    requires Answerable(types, query) ==>
               && query.lastDay.value <= horizon
               && QueryResult(overrides, t.overrides,
                              InDateRange(types[query.typeId].coach, query.firstDay.value, query.lastDay.value))
               && QueryResult(weekly, t.weekly, OfCoach(types[query.typeId].coach))
    ensures r.Ok? <==> Answerable(types, query)
    ensures r == Err(EventTypeNotFound) <==> query.typeId !in types || !types[query.typeId].isActive
    ensures r == Err(RangeTooLong) <==>
              && query.typeId in types && types[query.typeId].isActive
              && query.firstDay.Some? && query.lastDay.Some?
              && query.firstDay.value + 90 < query.lastDay.value
    ensures r.Ok? ==>
              var kind := KindOf(types[query.typeId], settings);
              var first, last := query.firstDay.value, query.lastDay.value;
              && kind.duration > 0
              && IsAnswer(r.value, SeenTables(t, first, last), bookings, kind, now + settings.noticeMs, query.exclude,
                          first, last)
  {
    if query.typeId !in types || !types[query.typeId].isActive {
      return Err(EventTypeNotFound);
    }
    var eventType := types[query.typeId];
    assert ValidEventType(eventType);
    if query.firstDay.None? || query.lastDay.None? || query.lastDay.value < query.firstDay.value {
      return Err(InvalidDateRange);
    }
    var first, last := query.firstDay.value, query.lastDay.value;
    if last - first > MAX_RANGE_DAYS {
      return Err(RangeTooLong);
    }
    var slots := SlotsOfKind(KindOf(eventType, settings), now + settings.noticeMs, bookings, t, overrides, weekly,
                             query.exclude, first, last, horizon);
    r := Ok(slots);
  }

  /** The part of the calculation after the request checks. */
  method SlotsOfKind(
    kind: Kind, cutoff: int, bookings: map<BookingId, Booking>, ghost t: Tables,
    overrides: seq<OverrideRow>, weekly: seq<WeeklyRow>, exclude: Option<BookingId>, first: nat, last: nat,
    horizon: nat)
    returns (slots: seq<Slot>)
    requires ValidTables(t) && kind.duration > 0
    requires StaysInDays(bookings, kind.coach, kind.offset)
    requires first <= last <= horizon && Calendar.Representable(horizon)
    requires QueryResult(overrides, t.overrides, InDateRange(kind.coach, first, last))
    requires QueryResult(weekly, t.weekly, OfCoach(kind.coach))
    ensures IsAnswer(slots, SeenTables(t, first, last), bookings, kind, cutoff, exclude, first, last)
  {
    var busy := Prefiltered(bookings, kind.coach, exclude, first, last, kind.offset);
    var c := Context(kind, cutoff, busy);
    var byDate := GetEffectiveRangesForDateRange(t, kind.coach, overrides, weekly, first, last, horizon);
    CollectedRangesAgree(byDate, t, kind.coach, first, last, horizon);
    var rangesOf := RangesIn(byDate, Calendar.IsoText);
    slots := CollectSlots(c, first, last, rangesOf);
    ghost var seen := SeenTables(t, first, last);
    forall s ensures s in slots <==> IsOffered(s, seen, bookings, kind, cutoff, exclude, first, last) {
      SlotsAreOffered(s, seen, bookings, c, exclude, first, last, rangesOf);
    }
  }

  /** The day loop; inside it the range loop, and inside that the grid loop. */
  method CollectSlots(c: Context, first: nat, last: nat, rangesOf: nat -> seq<MinuteRange>)
    returns (slots: seq<Slot>)
    requires c.kind.duration > 0
    ensures slots == AllSlots(c, first, last, rangesOf)
  {
    slots := [];
    var day := first;
    while day <= last
      invariant slots + AllSlots(c, day, last, rangesOf) == AllSlots(c, first, last, rangesOf)
      decreases last + 1 - day
    {
      var ranges := rangesOf(day);
      slots := CollectDay(c, day, ranges, slots);
      day := day + 1;
    }
  }

  method CollectDay(c: Context, day: nat, ranges: seq<MinuteRange>, before: seq<Slot>) returns (slots: seq<Slot>)
    requires c.kind.duration > 0
    ensures slots == before + DaySlots(c, day, ranges)
  {
    slots := before;
    for j := 0 to |ranges|
      invariant slots + DaySlots(c, day, ranges[j..]) == before + DaySlots(c, day, ranges)
    {
      assert ranges[j..][1..] == ranges[j + 1..];
      ghost var here := RangeSlots(c, day, ranges[j].startMinute, ranges[j].endMinute);
      assert slots + DaySlots(c, day, ranges[j..]) == slots + here + DaySlots(c, day, ranges[j + 1..]);
      slots := CollectRange(c, day, ranges[j], slots);
    }
  }

  method CollectRange(c: Context, day: nat, range: MinuteRange, before: seq<Slot>) returns (slots: seq<Slot>)
    requires c.kind.duration > 0
    ensures slots == before + RangeSlots(c, day, range.startMinute, range.endMinute)
  {
    slots := before;
    var startMinute := range.startMinute;
    while startMinute + c.kind.duration <= range.endMinute
      invariant slots + RangeSlots(c, day, startMinute, range.endMinute)
                == before + RangeSlots(c, day, range.startMinute, range.endMinute)
      decreases range.endMinute - startMinute
    {
      var slot := SlotAt(c.kind, day, startMinute);
      startMinute := startMinute + c.kind.duration;
      if slot.when.start < c.cutoff {
        continue;
      }
      if Conflicts(c, slot.when) {
        continue;
      }
      slots := slots + [slot];
    }
  }
}
