/** Values shared by the booking modules: instants in integer milliseconds, the fixed-offset
    business day, half-open intervals, and the stored booking and event-type rows. */
module Domain {

  datatype Option<+T> = None | Some(value: T)

  datatype Result<+T, +E> = Ok(value: T) | Err(error: E)

  type CoachId = nat
  type BookingId = nat
  type TypeId = nat
  type EventId = nat

  const MINUTE := 60_000
  const MINUTES_PER_DAY := 1440
  const DAY := 86_400_000

  /** The business-timezone calendar day that holds instant `t`, for a timezone at a fixed `offset`. */
  function DayOf(t: int, offset: int): int {
    (t + offset) / DAY
  }

  /** The instant at which business day `day` starts. */
  function Midnight(day: int, offset: int): int {
    day * DAY - offset
  }

  lemma DayOfBounds(t: int, offset: int, day: int)
    ensures DayOf(t, offset) == day <==> Midnight(day, offset) <= t < Midnight(day + 1, offset)
  {
  }

  datatype Interval = Interval(start: int, end: int)

  /** The predicate of the overlap query: starts before the other ends, ends after it starts. */
  predicate Overlaps(a: Interval, b: Interval) {
    a.start < b.end && a.end > b.start
  }

  /** Half-open overlap is exactly a shared instant, so it is symmetric. */
  lemma OverlapIsSharedInstant(a: Interval, b: Interval)
    requires a.start < a.end && b.start < b.end
    ensures Overlaps(a, b) <==> exists t: int :: InInterval(t, a) && InInterval(t, b)
    ensures Overlaps(a, b) <==> Overlaps(b, a)
  {
    var later := if a.start < b.start then b.start else a.start;
    assert Overlaps(a, b) ==> InInterval(later, a) && InInterval(later, b);
  }

  predicate InInterval(t: int, i: Interval) {
    i.start <= t < i.end
  }

  /** An interval of positive length whose two ends fall on the same business day. */
  predicate InsideOneDay(i: Interval, offset: int) {
    i.start < i.end && DayOf(i.start, offset) == DayOf(i.end, offset)
  }

  datatype Location = InPerson | GoogleMeet | Phone

  datatype Status = Confirmed | Cancelled

  datatype EventType = EventType(
    coach: CoachId, durationMinutes: nat, locations: set<Location>, isActive: bool)

  /** Durations are validated to 5..1440 minutes when an event type is written. */
  predicate ValidEventType(t: EventType) {
    5 <= t.durationMinutes <= MINUTES_PER_DAY
  }

  datatype Booking = Booking(
    coach: CoachId, slot: Interval, location: Location, status: Status,
    googleEventId: Option<EventId>, meetLink: Option<nat>)

  datatype Settings = Settings(offset: int, noticeMs: nat)
}
