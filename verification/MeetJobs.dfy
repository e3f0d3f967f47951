/** Bookings, their Google Meet events and the notification jobs. One request body, with its enqueue, is
    one step; one job attempt is another. What the calendar and the mail server do are step parameters. */
module MeetJobs {
  import opened Domain

  type JobId = nat

  datatype LiveEvent = LiveEvent(booking: BookingId, slot: Interval)

  datatype JobKind = ConfirmedJob | CancelledJob | RescheduledJob

  datatype JobState = Pending | Completed | Exhausted

  datatype Job = Job(booking: BookingId, kind: JobKind, retryCount: nat, state: JobState)

  const RETRY_LIMIT := 3

  /** `deleteEvent`: done, failed with the error swallowed, or no calendar client, which throws. */
  datatype DeleteOutcome = Deleted | Swallowed | ClientUnavailable

  /** Creating an event: refused, inserted but the attempt died before saving it (or no link came back),
      or saved on the row. */
  datatype InsertOutcome = Refused | InsertedNotSaved | Saved(link: nat)

  /** `orphans` are the events whose deletion was swallowed or that were never saved on a row. */
  datatype World = World(
    bookings: map<BookingId, Booking>, live: map<EventId, LiveEvent>, jobs: map<JobId, Job>,
    nextEvent: EventId, orphans: set<EventId>)

  datatype Step =
    | Create(id: BookingId, coach: CoachId, slot: Interval, location: Location, job: JobId)
    | Cancel(id: BookingId, deletion: DeleteOutcome, job: JobId)
    | Reschedule(id: BookingId, slot: Interval, deletion: DeleteOutcome, job: JobId)
    | Attempt(job: JobId, insert: InsertOutcome, emailSent: bool)

  function Enqueue(w: World, job: JobId, id: BookingId, kind: JobKind): World {
    w.(jobs := w.jobs[job := Job(id, kind, 0, Pending)])
  }

  function DoCreate(w: World, id: BookingId, coach: CoachId, slot: Interval, location: Location, job: JobId): World {
    if id in w.bookings || job in w.jobs then w
    else
      Enqueue(w.(bookings := w.bookings[id := Booking(coach, slot, location, Confirmed, None, None)]),
              job, id, ConfirmedJob)
  }

  predicate IsActive(w: World, id: BookingId) {
    id in w.bookings && w.bookings[id].status == Confirmed
  }

  /** A best-effort deletion: on failure the event stays live and is an orphan from here on. */
  function Drop(w: World, e: EventId, deletion: DeleteOutcome): World {
    if deletion == Deleted then w.(live := w.live - {e}) else w.(orphans := w.orphans + {e})
  }

  /** The row keeps its event id and link. */
  function DoCancel(w: World, id: BookingId, deletion: DeleteOutcome, job: JobId): World {
    if !IsActive(w, id) || job in w.jobs then w
    else
      var b := w.bookings[id];
      if b.googleEventId.Some? && deletion == ClientUnavailable then w
      else
        var w1 := if b.googleEventId.Some? then Drop(w, b.googleEventId.value, deletion) else w;
        Enqueue(w1.(bookings := w1.bookings[id := b.(status := Cancelled)]), job, id, CancelledJob)
  }

  /** The new interval is committed first. Without a calendar client the request then fails, leaving the
      event id in place and no job. */
  function DoReschedule(w: World, id: BookingId, slot: Interval, deletion: DeleteOutcome, job: JobId): World {
    if !IsActive(w, id) || job in w.jobs then w
    else
      var b := w.bookings[id].(slot := slot);
      var moved := w.(bookings := w.bookings[id := b]);
      if b.location == GoogleMeet && b.googleEventId.Some? then
        if deletion == ClientUnavailable then moved
        else
          var w1 := Drop(moved, b.googleEventId.value, deletion);
          Enqueue(w1.(bookings := w1.bookings[id := b.(googleEventId := None, meetLink := None)]),
                  job, id, RescheduledJob)
      else Enqueue(moved, job, id, RescheduledJob)
  }

  /** A failed attempt goes back to the queue until its retries are used up. */
  function Retried(j: Job): Job {
    if j.retryCount < RETRY_LIMIT then j.(retryCount := j.retryCount + 1) else j.(state := Exhausted)
  }

  predicate NeedsLink(b: Booking, kind: JobKind) {
    kind != CancelledJob && b.location == GoogleMeet && b.meetLink.None?
  }

  function Finish(w: World, job: JobId, emailSent: bool): World
    requires job in w.jobs
  {
    w.(jobs := w.jobs[job := if emailSent then w.jobs[job].(state := Completed) else Retried(w.jobs[job])])
  }

  /** The booking is fetched fresh; its status is not looked at. */
  function DoAttempt(w: World, job: JobId, insert: InsertOutcome, emailSent: bool): World {
    if job !in w.jobs || w.jobs[job].state != Pending then w
    else
      var j := w.jobs[job];
      if j.booking !in w.bookings then Finish(w, job, true)
      else
        var b := w.bookings[j.booking];
        if !NeedsLink(b, j.kind) then Finish(w, job, emailSent)
        else
          match insert
          case Refused => Finish(w, job, false)
          case InsertedNotSaved =>
            Finish(w.(live := w.live[w.nextEvent := LiveEvent(j.booking, b.slot)],
                      nextEvent := w.nextEvent + 1, orphans := w.orphans + {w.nextEvent}), job, false)
          case Saved(link) =>
            var saved := b.(googleEventId := Some(w.nextEvent), meetLink := Some(link));
            Finish(w.(live := w.live[w.nextEvent := LiveEvent(j.booking, b.slot)], nextEvent := w.nextEvent + 1,
                      bookings := w.bookings[j.booking := saved]),
                   job, emailSent)
  }

  function Apply(w: World, step: Step): World {
    match step
    case Create(id, coach, slot, location, job) => DoCreate(w, id, coach, slot, location, job)
    case Cancel(id, deletion, job) => DoCancel(w, id, deletion, job)
    case Reschedule(id, slot, deletion, job) => DoReschedule(w, id, slot, deletion, job)
    case Attempt(job, insert, emailSent) => DoAttempt(w, job, insert, emailSent)
  }

  function Run(w: World, steps: seq<Step>): World
    decreases |steps|
  {
    if |steps| == 0 then w else Run(Apply(w, steps[0]), steps[1..])
  }

  const EMPTY := World(map[], map[], map[], 0, {})

  // ---------- what each step writes

  /** No row but that of `id` differs. */
  ghost predicate OnlyRow(w: World, w': World, id: BookingId) {
    && w'.bookings.Keys == w.bookings.Keys + {id}
    && forall x :: x in w.bookings && x != id ==> w'.bookings[x] == w.bookings[x]
  }

  lemma CreateWrites(w: World, id: BookingId, coach: CoachId, slot: Interval, location: Location, job: JobId)
    requires id !in w.bookings && job !in w.jobs
    ensures var w' := Apply(w, Create(id, coach, slot, location, job));
            && OnlyRow(w, w', id) && w'.bookings[id] == Booking(coach, slot, location, Confirmed, None, None)
            && w'.jobs == w.jobs[job := Job(id, ConfirmedJob, 0, Pending)] && w'.live == w.live
  {
  }

  /** The deletion was tried on a live client and took event `e` with it, or left it. */
  ghost predicate DropsOnly(w: World, w': World, e: EventId, deletion: DeleteOutcome) {
    w'.live == if deletion == Deleted then w.live - {e} else w.live
  }

  /** The booking moves wherever it takes place and whatever becomes of its event. Its Meet fields are
      cleared only when it has an event and a calendar client to drop it, and without that client no job
      is queued. */
  lemma RescheduleWrites(w: World, id: BookingId, slot: Interval, deletion: DeleteOutcome, job: JobId)
    requires IsActive(w, id) && job !in w.jobs
    ensures var w' := Apply(w, Reschedule(id, slot, deletion, job));
            var b := w.bookings[id];
            var hasEvent := b.location == GoogleMeet && b.googleEventId.Some?;
            && OnlyRow(w, w', id)
            && w'.bookings[id].slot == slot && w'.bookings[id].coach == b.coach
            && w'.bookings[id].location == b.location && w'.bookings[id].status == Confirmed
            && (if hasEvent && deletion != ClientUnavailable
                then w'.bookings[id].googleEventId == None && w'.bookings[id].meetLink == None
                     && DropsOnly(w, w', b.googleEventId.value, deletion)
                else w'.bookings[id].googleEventId == b.googleEventId && w'.bookings[id].meetLink == b.meetLink
                     && w'.live == w.live)
            && w'.jobs == if hasEvent && deletion == ClientUnavailable then w.jobs
                          else w.jobs[job := Job(id, RescheduledJob, 0, Pending)]
  {
  }

  /** A cancellation drops the event, if there is one, and then marks the row; without a calendar client it
      does neither. */
  lemma CancelWrites(w: World, id: BookingId, deletion: DeleteOutcome, job: JobId)
    requires IsActive(w, id) && job !in w.jobs
    ensures var w' := Apply(w, Cancel(id, deletion, job));
            var b := w.bookings[id];
            if b.googleEventId.Some? && deletion == ClientUnavailable then w' == w
            else
              && OnlyRow(w, w', id) && w'.bookings[id] == b.(status := Cancelled)
              && w'.jobs == w.jobs[job := Job(id, CancelledJob, 0, Pending)]
              && (if b.googleEventId.Some? then DropsOnly(w, w', b.googleEventId.value, deletion)
                  else w'.live == w.live)
  {
  }

  /** An attempt creates an event exactly when its booking exists, is held over Meet and has no link, and its
      job does not announce a cancellation. */
  predicate CreatesEvent(w: World, job: JobId)
    requires job in w.jobs
  {
    var j := w.jobs[job];
    && j.booking in w.bookings && w.bookings[j.booking].location == GoogleMeet
    && w.bookings[j.booking].meetLink == None && j.kind != CancelledJob
  }

  /** A pending job is completed exactly when its booking is gone, or its link step (if it has one) and its mail
      both succeeded; else it goes back to the queue, or is exhausted after its third retry. */
  lemma AttemptSettles(w: World, job: JobId, insert: InsertOutcome, emailSent: bool)
    requires job in w.jobs && w.jobs[job].state == Pending
    ensures var w' := Apply(w, Attempt(job, insert, emailSent));
            var j := w.jobs[job];
            && w'.jobs.Keys == w.jobs.Keys && (forall x :: x in w.jobs && x != job ==> w'.jobs[x] == w.jobs[x])
            && w'.jobs[job] == (
                 if j.booking !in w.bookings || ((CreatesEvent(w, job) ==> insert.Saved?) && emailSent)
                 then j.(state := Completed)
                 else if j.retryCount < 3 then j.(retryCount := j.retryCount + 1)
                 else j.(state := Exhausted))
  {
  }

  /** An event is created at the booking's current interval, and saved on its row unless the attempt died. */
  lemma AttemptWrites(w: World, job: JobId, insert: InsertOutcome, emailSent: bool)
    requires job in w.jobs && w.jobs[job].state == Pending
    ensures var w' := Apply(w, Attempt(job, insert, emailSent));
            var id := w.jobs[job].booking;
            if CreatesEvent(w, job) && insert != Refused then
              && w'.live == w.live[w.nextEvent := LiveEvent(id, w.bookings[id].slot)]
              && (if insert.Saved?
                  then && OnlyRow(w, w', id)
                       && w'.bookings[id]
                          == w.bookings[id].(googleEventId := Some(w.nextEvent), meetLink := Some(insert.link))
                  else w'.bookings == w.bookings)
            else w'.live == w.live && w'.bookings == w.bookings
  {
  }

  // ---------- rows and their events

  /** A confirmed row with an event id names a live event of its own that is no orphan. */
  predicate RowOk(w: World, id: BookingId, b: Booking) {
    && (b.meetLink.Some? <==> b.googleEventId.Some?)
    && (b.googleEventId.Some? ==>
          var e := b.googleEventId.value;
          && b.location == GoogleMeet && e < w.nextEvent
          && (e in w.live ==> w.live[e].booking == id)
          && (b.status == Confirmed ==> e in w.live && e !in w.orphans))
  }

  /** Orphans are live, and every other live event is named by the row of its booking. */
  predicate EventOk(w: World, e: EventId) {
    && e < w.nextEvent && e in w.live
    && (e !in w.orphans ==>
          w.live[e].booking in w.bookings && w.bookings[w.live[e].booking].googleEventId == Some(e))
  }

  ghost predicate Tracked(w: World) {
    && (forall id :: id in w.bookings ==> RowOk(w, id, w.bookings[id]))
    && (forall e :: e in w.live || e in w.orphans ==> EventOk(w, e))
  }

  /** If the booking is confirmed and names an event, that event is live at its current interval. */
  predicate InSlot(w: World, id: BookingId) {
    IsActive(w, id) && w.bookings[id].googleEventId.Some? ==>
      var e := w.bookings[id].googleEventId.value;
      e in w.live && w.live[e] == LiveEvent(id, w.bookings[id].slot)
  }

  ghost predicate Coherent(w: World) {
    Tracked(w) && forall id :: id in w.bookings ==> InSlot(w, id)
  }

  /** The one way to leave the event of booking `id` behind: the calendar client is gone when a booking
      with an event is moved to another interval. */
  predicate LeavesBehind(w: World, step: Step, id: BookingId) {
    && step.Reschedule? && step.id == id && step.deletion == ClientUnavailable
    && IsActive(w, id) && step.job !in w.jobs
    && w.bookings[id].googleEventId.Some? && w.bookings[id].slot != step.slot
  }

  lemma CreateKeepsTracked(w: World, id: BookingId, coach: CoachId, slot: Interval, location: Location, job: JobId)
    requires Tracked(w)
    ensures Tracked(DoCreate(w, id, coach, slot, location, job))
  {
    var w' := DoCreate(w, id, coach, slot, location, job);
    forall x | x in w'.bookings ensures RowOk(w', x, w'.bookings[x]) {
      assert x in w.bookings ==> RowOk(w, x, w.bookings[x]);
    }
    forall e | e in w'.live || e in w'.orphans ensures EventOk(w', e) {
      assert EventOk(w, e);
    }
  }

  lemma CancelKeepsTracked(w: World, id: BookingId, deletion: DeleteOutcome, job: JobId)
    requires Tracked(w)
    ensures Tracked(DoCancel(w, id, deletion, job))
  {
    var w' := DoCancel(w, id, deletion, job);
    if IsActive(w, id) {
      assert RowOk(w, id, w.bookings[id]);
      forall x | x in w'.bookings ensures RowOk(w', x, w'.bookings[x]) {
        assert RowOk(w, x, w.bookings[x]);
      }
      forall e | e in w'.live || e in w'.orphans ensures EventOk(w', e) {
        assert (e in w.live || e in w.orphans) ==> EventOk(w, e);
      }
    }
  }

  lemma RescheduleKeepsTracked(w: World, id: BookingId, slot: Interval, deletion: DeleteOutcome, job: JobId)
    requires Tracked(w)
    ensures Tracked(DoReschedule(w, id, slot, deletion, job))
  {
    var w' := DoReschedule(w, id, slot, deletion, job);
    if IsActive(w, id) {
      assert RowOk(w, id, w.bookings[id]);
      forall x | x in w'.bookings ensures RowOk(w', x, w'.bookings[x]) {
        assert RowOk(w, x, w.bookings[x]);
      }
      forall e | e in w'.live || e in w'.orphans ensures EventOk(w', e) {
        assert (e in w.live || e in w.orphans) ==> EventOk(w, e);
      }
    }
  }

  lemma AttemptKeepsRows(w: World, job: JobId, insert: InsertOutcome, emailSent: bool)
    requires Tracked(w)
    ensures var w' := DoAttempt(w, job, insert, emailSent);
            forall x :: x in w'.bookings ==> RowOk(w', x, w'.bookings[x])
  {
    var w' := DoAttempt(w, job, insert, emailSent);
    forall x | x in w'.bookings ensures RowOk(w', x, w'.bookings[x]) {
      assert RowOk(w, x, w.bookings[x]);
      assert w.nextEvent !in w.live && w.nextEvent !in w.orphans by {
        assert w.nextEvent in w.live || w.nextEvent in w.orphans ==> EventOk(w, w.nextEvent);
      }
    }
  }

  lemma AttemptKeepsEvents(w: World, job: JobId, insert: InsertOutcome, emailSent: bool, e: EventId)
    requires Tracked(w)
    requires e in DoAttempt(w, job, insert, emailSent).live || e in DoAttempt(w, job, insert, emailSent).orphans
    ensures EventOk(DoAttempt(w, job, insert, emailSent), e)
  {
    if e in w.live || e in w.orphans {
      assert EventOk(w, e);
      if e !in w.orphans {
        assert RowOk(w, w.live[e].booking, w.bookings[w.live[e].booking]);
      }
    }
  }

  lemma StepKeepsTracked(w: World, step: Step)
    requires Tracked(w)
    ensures Tracked(Apply(w, step))
  {
    match step
    case Create(id, coach, slot, location, job) => CreateKeepsTracked(w, id, coach, slot, location, job);
    case Cancel(id, deletion, job) => CancelKeepsTracked(w, id, deletion, job);
    case Reschedule(id, slot, deletion, job) => RescheduleKeepsTracked(w, id, slot, deletion, job);
    case Attempt(job, insert, emailSent) =>
      AttemptKeepsRows(w, job, insert, emailSent);
      var w' := DoAttempt(w, job, insert, emailSent);
      forall e | e in w'.live || e in w'.orphans ensures EventOk(w', e) {
        AttemptKeepsEvents(w, job, insert, emailSent, e);
      }
  }

  /** A step keeps the event of a booking at the booking's interval if and only if it is not that one. */
  lemma StepKeepsSlotIff(w: World, step: Step, id: BookingId)
    requires Tracked(w) && InSlot(w, id)
    ensures InSlot(Apply(w, step), id) <==> !LeavesBehind(w, step, id)
  {
    assert id in w.bookings ==> RowOk(w, id, w.bookings[id]);
    match step
    case Create(_, _, _, _, _) =>
    case Cancel(x, deletion, job) => CancelKeepsSlot(w, x, deletion, job, id);
    case Reschedule(x, slot, deletion, job) =>
      if x != id {
        OtherMoveKeepsSlot(w, x, slot, deletion, job, id);
      }
    case Attempt(job, insert, emailSent) => AttemptKeepsSlot(w, job, insert, emailSent, id);
  }

  lemma CancelKeepsSlot(w: World, x: BookingId, deletion: DeleteOutcome, job: JobId, id: BookingId)
    requires Tracked(w) && InSlot(w, id)
    ensures InSlot(DoCancel(w, x, deletion, job), id)
  {
    assert id in w.bookings ==> RowOk(w, id, w.bookings[id]);
    assert x in w.bookings ==> RowOk(w, x, w.bookings[x]);
  }

  lemma OtherMoveKeepsSlot(w: World, x: BookingId, slot: Interval, deletion: DeleteOutcome, job: JobId, id: BookingId)
    requires Tracked(w) && InSlot(w, id) && x != id
    ensures InSlot(DoReschedule(w, x, slot, deletion, job), id)
  {
    assert id in w.bookings ==> RowOk(w, id, w.bookings[id]);
    assert x in w.bookings ==> RowOk(w, x, w.bookings[x]);
  }

  lemma AttemptKeepsSlot(w: World, job: JobId, insert: InsertOutcome, emailSent: bool, id: BookingId)
    requires Tracked(w) && InSlot(w, id)
    ensures InSlot(DoAttempt(w, job, insert, emailSent), id)
  {
    assert id in w.bookings ==> RowOk(w, id, w.bookings[id]);
  }

  /** From a coherent world, a step leaves a coherent world if and only if it leaves no event behind. */
  lemma StepIsCoherentIff(w: World, step: Step)
    requires Coherent(w)
    ensures Coherent(Apply(w, step)) <==> forall id :: !LeavesBehind(w, step, id)
  {
    StepKeepsTracked(w, step);
    var w' := Apply(w, step);
    forall id | id in w.bookings || id in w'.bookings
      ensures InSlot(w', id) <==> !LeavesBehind(w, step, id)
    {
      StepKeepsSlotIff(w, step, id);
    }
    if id :| LeavesBehind(w, step, id) {
      assert id in w'.bookings && !InSlot(w', id);
    }
  }

  lemma {:induction false} RunKeepsTracked(w: World, steps: seq<Step>)
    requires Tracked(w)
    ensures Tracked(Run(w, steps))
    decreases |steps|
  {
    if |steps| > 0 {
      StepKeepsTracked(w, steps[0]);
      RunKeepsTracked(Apply(w, steps[0]), steps[1..]);
    }
  }

  lemma {:induction false} RunNext(w: World, steps: seq<Step>, n: nat)
    requires n < |steps|
    ensures Run(w, steps[..n + 1]) == Apply(Run(w, steps[..n]), steps[n])
    decreases n
  {
    if n > 0 {
      RunNext(Apply(w, steps[0]), steps[1..], n - 1);
      assert steps[..n + 1][1..] == steps[1..][..n] && steps[..n][1..] == steps[1..][..n - 1];
    }
  }

  /** No step of the run leaves the event of booking `id` behind. */
  ghost predicate NeverLeftBehind(steps: seq<Step>, id: BookingId) {
    forall n :: 0 <= n < |steps| ==> !LeavesBehind(Run(EMPTY, steps[..n]), steps[n], id)
  }

  lemma {:induction false} InSlotThroughout(steps: seq<Step>, id: BookingId, n: nat)
    requires NeverLeftBehind(steps, id) && n <= |steps|
    ensures InSlot(Run(EMPTY, steps[..n]), id)
    decreases n
  {
    if n > 0 {
      InSlotThroughout(steps, id, n - 1);
      RunKeepsTracked(EMPTY, steps[..n - 1]);
      RunNext(EMPTY, steps, n - 1);
      StepKeepsSlotIff(Run(EMPTY, steps[..n - 1]), steps[n - 1], id);
    }
  }

  /** Booking by booking, over every run: the event a confirmed booking names is at its current interval in
      all states of the run if and only if no step of the run leaves it behind. */
  lemma EventFollowsBookingIff(steps: seq<Step>, id: BookingId)
    ensures (forall n :: 0 <= n <= |steps| ==> InSlot(Run(EMPTY, steps[..n]), id)) <==> NeverLeftBehind(steps, id)
  {
    if NeverLeftBehind(steps, id) {
      forall n | 0 <= n <= |steps| ensures InSlot(Run(EMPTY, steps[..n]), id) {
        InSlotThroughout(steps, id, n);
      }
    } else {
      var n :| 0 <= n < |steps| && LeavesBehind(Run(EMPTY, steps[..n]), steps[n], id);
      if InSlot(Run(EMPTY, steps[..n]), id) {
        RunKeepsTracked(EMPTY, steps[..n]);
        RunNext(EMPTY, steps, n);
        StepKeepsSlotIff(Run(EMPTY, steps[..n]), steps[n], id);
        assert !InSlot(Run(EMPTY, steps[..n + 1]), id);
      }
    }
  }

  // ---------- how many events of a booking are live

  function LiveOf(w: World, id: BookingId): set<EventId> {
    set e | e in w.live && w.live[e].booking == id
  }

  function OrphansOf(w: World, id: BookingId): set<EventId> {
    set e | e in w.orphans && e in w.live && w.live[e].booking == id
  }

  /** The row names a live event that is no orphan. */
  predicate HoldsEvent(w: World, id: BookingId) {
    && id in w.bookings && w.bookings[id].googleEventId.Some?
    && w.bookings[id].googleEventId.value in w.live && w.bookings[id].googleEventId.value !in w.orphans
  }

  /** The step leaves an event of booking `id` live with no row naming it: its delete was swallowed, or the
      attempt died between inserting and saving. */
  predicate LeaksFor(w: World, step: Step, id: BookingId) {
    match step
    case Create(_, _, _, _, _) => false
    case Cancel(x, deletion, job) =>
      x == id && deletion == Swallowed && IsActive(w, id) && job !in w.jobs && w.bookings[id].googleEventId.Some?
    case Reschedule(x, _, deletion, job) =>
      x == id && deletion == Swallowed && IsActive(w, id) && job !in w.jobs && w.bookings[id].googleEventId.Some?
    case Attempt(job, insert, _) =>
      && insert == InsertedNotSaved && job in w.jobs && w.jobs[job].state == Pending && w.jobs[job].booking == id
      && id in w.bookings && NeedsLink(w.bookings[id], w.jobs[job].kind)
  }

  function Leaks(w: World, steps: seq<Step>, id: BookingId): nat
    decreases |steps|
  {
    if |steps| == 0 then 0
    else (if LeaksFor(w, steps[0], id) then 1 else 0) + Leaks(Apply(w, steps[0]), steps[1..], id)
  }

  lemma LiveCount(w: World, id: BookingId)
    requires Tracked(w)
    ensures |LiveOf(w, id)| == |OrphansOf(w, id)| + (if HoldsEvent(w, id) then 1 else 0)
  {
    assert id in w.bookings ==> RowOk(w, id, w.bookings[id]);
    var held := if HoldsEvent(w, id) then {w.bookings[id].googleEventId.value} else {};
    forall e ensures e in LiveOf(w, id) <==> e in OrphansOf(w, id) + held {
      if e in w.live {
        assert EventOk(w, e);
      }
    }
    assert LiveOf(w, id) == OrphansOf(w, id) + held;
  }

  lemma CancelLeaks(w: World, x: BookingId, deletion: DeleteOutcome, job: JobId, id: BookingId)
    requires Tracked(w)
    ensures var w' := DoCancel(w, x, deletion, job);
            OrphansOf(w', id) == OrphansOf(w, id) + if LeaksFor(w, Cancel(x, deletion, job), id)
                                                    then {w.bookings[id].googleEventId.value} else {}
  {
    assert x in w.bookings ==> RowOk(w, x, w.bookings[x]);
  }

  lemma RescheduleLeaks(w: World, x: BookingId, slot: Interval, deletion: DeleteOutcome, job: JobId, id: BookingId)
    requires Tracked(w)
    ensures var w' := DoReschedule(w, x, slot, deletion, job);
            OrphansOf(w', id) == OrphansOf(w, id) + if LeaksFor(w, Reschedule(x, slot, deletion, job), id)
                                                    then {w.bookings[id].googleEventId.value} else {}
  {
    assert x in w.bookings ==> RowOk(w, x, w.bookings[x]);
  }

  lemma AttemptLeaks(w: World, job: JobId, insert: InsertOutcome, emailSent: bool, id: BookingId)
    requires Tracked(w)
    ensures w.nextEvent !in OrphansOf(w, id)
    ensures OrphansOf(DoAttempt(w, job, insert, emailSent), id)
            == OrphansOf(w, id) + if LeaksFor(w, Attempt(job, insert, emailSent), id) then {w.nextEvent} else {}
  {
    assert w.nextEvent !in w.live && w.nextEvent !in w.orphans by {
      assert w.nextEvent in w.live || w.nextEvent in w.orphans ==> EventOk(w, w.nextEvent);
    }
  }

  lemma StepLeaks(w: World, step: Step, id: BookingId)
    requires Tracked(w)
    ensures |OrphansOf(Apply(w, step), id)| == |OrphansOf(w, id)| + (if LeaksFor(w, step, id) then 1 else 0)
  {
    assert id in w.bookings ==> RowOk(w, id, w.bookings[id]);
    match step
    case Create(_, _, _, _, _) => assert OrphansOf(Apply(w, step), id) == OrphansOf(w, id);
    case Cancel(x, deletion, job) => CancelLeaks(w, x, deletion, job, id);
    case Reschedule(x, slot, deletion, job) => RescheduleLeaks(w, x, slot, deletion, job, id);
    case Attempt(job, insert, emailSent) => AttemptLeaks(w, job, insert, emailSent, id);
  }

  lemma {:induction false} RunLeaks(w: World, steps: seq<Step>, id: BookingId)
    requires Tracked(w)
    ensures |OrphansOf(Run(w, steps), id)| == |OrphansOf(w, id)| + Leaks(w, steps, id)
    decreases |steps|
  {
    if |steps| > 0 {
      StepKeepsTracked(w, steps[0]);
      StepLeaks(w, steps[0], id);
      RunLeaks(Apply(w, steps[0]), steps[1..], id);
    }
  }

  /** In every reachable world, a booking has exactly as many live events as steps leaked one of its own, and
      one more if its row holds one; a confirmed booking with an event id always holds it. So without leaks
      of this booking it has at most one. And the event is at the booking's current interval when no step
      left it behind. */
  lemma ReachableEvents(steps: seq<Step>, id: BookingId)
    ensures var w := Run(EMPTY, steps);
            && |LiveOf(w, id)| == Leaks(EMPTY, steps, id) + (if HoldsEvent(w, id) then 1 else 0)
            && (IsActive(w, id) && w.bookings[id].googleEventId.Some? ==>
                  HoldsEvent(w, id) && w.bookings[id].googleEventId.value in LiveOf(w, id))
            && (NeverLeftBehind(steps, id) ==> InSlot(w, id))
  {
    RunKeepsTracked(EMPTY, steps);
    RunLeaks(EMPTY, steps, id);
    var w := Run(EMPTY, steps);
    LiveCount(w, id);
    if IsActive(w, id) {
      assert RowOk(w, id, w.bookings[id]);
    }
    if NeverLeftBehind(steps, id) {
      InSlotThroughout(steps, id, |steps|);
      assert steps[..|steps|] == steps;
    }
  }

  // ---------- the events of a cancelled booking, counted

  /** An attempt saves an event on the row of `id` after its cancellation. */
  predicate SavesLate(w: World, step: Step, id: BookingId) {
    && id in w.bookings && w.bookings[id].status == Cancelled
    && step.Attempt? && step.insert.Saved? && step.job in w.jobs && w.jobs[step.job].state == Pending
    && w.jobs[step.job].booking == id && CreatesEvent(w, step.job)
  }

  function LateSaves(w: World, steps: seq<Step>, id: BookingId): nat
    decreases |steps|
  {
    if |steps| == 0 then 0
    else (if SavesLate(w, steps[0], id) then 1 else 0) + LateSaves(Apply(w, steps[0]), steps[1..], id)
  }

  predicate HoldsWhenCancelled(w: World, id: BookingId) {
    id in w.bookings && w.bookings[id].status == Cancelled && HoldsEvent(w, id)
  }

  lemma CancelHoldsLate(w: World, x: BookingId, deletion: DeleteOutcome, job: JobId, id: BookingId)
    requires Tracked(w)
    ensures HoldsWhenCancelled(DoCancel(w, x, deletion, job), id) <==> HoldsWhenCancelled(w, id)
  {
    assert x in w.bookings ==> RowOk(w, x, w.bookings[x]);
    assert id in w.bookings ==> RowOk(w, id, w.bookings[id]);
  }

  lemma MoveHoldsLate(w: World, x: BookingId, slot: Interval, deletion: DeleteOutcome, job: JobId, id: BookingId)
    requires Tracked(w)
    ensures HoldsWhenCancelled(DoReschedule(w, x, slot, deletion, job), id) <==> HoldsWhenCancelled(w, id)
  {
    assert x in w.bookings ==> RowOk(w, x, w.bookings[x]);
    assert id in w.bookings ==> RowOk(w, id, w.bookings[id]);
  }

  lemma AttemptHoldsLate(w: World, step: Step, id: BookingId)
    requires Tracked(w) && step.Attempt?
    ensures HoldsWhenCancelled(Apply(w, step), id) <==> HoldsWhenCancelled(w, id) || SavesLate(w, step, id)
    ensures !(HoldsWhenCancelled(w, id) && SavesLate(w, step, id))
  {
    assert id in w.bookings ==> RowOk(w, id, w.bookings[id]);
    assert w.nextEvent !in w.live && w.nextEvent !in w.orphans by {
      assert w.nextEvent in w.live || w.nextEvent in w.orphans ==> EventOk(w, w.nextEvent);
    }
  }

  lemma StepHoldsLate(w: World, step: Step, id: BookingId)
    requires Tracked(w)
    ensures (if HoldsWhenCancelled(Apply(w, step), id) then 1 else 0)
            == (if HoldsWhenCancelled(w, id) then 1 else 0) + (if SavesLate(w, step, id) then 1 else 0)
  {
    match step
    case Create(_, _, _, _, _) =>
    case Cancel(x, deletion, job) => CancelHoldsLate(w, x, deletion, job, id);
    case Reschedule(x, slot, deletion, job) => MoveHoldsLate(w, x, slot, deletion, job, id);
    case Attempt(_, _, _) => AttemptHoldsLate(w, step, id);
  }

  lemma {:induction false} RunHoldsLate(w: World, steps: seq<Step>, id: BookingId)
    requires Tracked(w)
    ensures (if HoldsWhenCancelled(Run(w, steps), id) then 1 else 0)
            == (if HoldsWhenCancelled(w, id) then 1 else 0) + LateSaves(w, steps, id)
    decreases |steps|
  {
    if |steps| > 0 {
      StepKeepsTracked(w, steps[0]);
      StepHoldsLate(w, steps[0], id);
      RunHoldsLate(Apply(w, steps[0]), steps[1..], id);
    }
  }

  /** In every reachable world the live events of a cancelled booking are exactly as many as steps leaked one
      of its own and attempts saved one after its cancellation. */
  lemma CancelledEvents(steps: seq<Step>, id: BookingId)
    requires var w := Run(EMPTY, steps); id in w.bookings && w.bookings[id].status == Cancelled
    ensures |LiveOf(Run(EMPTY, steps), id)| == Leaks(EMPTY, steps, id) + LateSaves(EMPTY, steps, id)
  {
    ReachableEvents(steps, id);
    RunHoldsLate(EMPTY, steps, id);
  }

  /** Losing the client does break it: one booking, made, given its event, then moved. */
  lemma LostClientLeavesStaleEvent() returns (steps: seq<Step>)
    ensures var w := Run(EMPTY, steps);
            && IsActive(w, 0) && w.bookings[0].googleEventId == Some(0) && 0 in w.live
            && w.live[0].slot != w.bookings[0].slot
            && forall j :: j in w.jobs ==> w.jobs[j].state == Completed
  {
    var s0 := Create(0, 0, Interval(0, 1), GoogleMeet, 0);
    var s1 := Attempt(0, Saved(7), true);
    var s2 := Reschedule(0, Interval(1, 2), ClientUnavailable, 1);
    steps := [s0, s1, s2];
    var w1 := Enqueue(EMPTY.(bookings := map[0 := Booking(0, Interval(0, 1), GoogleMeet, Confirmed, None, None)]),
                      0, 0, ConfirmedJob);
    assert Apply(EMPTY, s0) == w1;
    var w2 := Finish(w1.(live := map[0 := LiveEvent(0, Interval(0, 1))], nextEvent := 1,
                         bookings := map[0 := Booking(0, Interval(0, 1), GoogleMeet, Confirmed, Some(0), Some(7))]),
                     0, true);
    assert Apply(w1, s1) == w2;
    var w3 := w2.(bookings := map[0 := Booking(0, Interval(1, 2), GoogleMeet, Confirmed, Some(0), Some(7))]);
    assert Apply(w2, s2) == w3;
    assert steps[1..] == [s1, s2] && [s1, s2][1..] == [s2] && [s2][1..] == [];
    assert Run(w2, [s2]) == Run(w3, []) == w3;
    assert Run(w1, [s1, s2]) == w3;
  }

  // ---------- no booking is left without its link

  predicate Promises(j: Job, id: BookingId) {
    j.booking == id && j.kind != CancelledJob && j.state != Completed
  }

  predicate AwaitsLink(b: Booking) {
    b.status == Confirmed && b.location == GoogleMeet && b.meetLink.None?
  }

  /** A confirmed Meet booking without a link has a confirmed or rescheduled job that is pending or exhausted. */
  ghost predicate LinksPromised(w: World) {
    forall id :: id in w.bookings && AwaitsLink(w.bookings[id]) ==> exists j :: j in w.jobs && Promises(w.jobs[j], id)
  }

  ghost predicate LinkWithEvent(w: World) {
    forall id :: id in w.bookings ==> (w.bookings[id].meetLink.Some? <==> w.bookings[id].googleEventId.Some?)
  }

  lemma PromiseKept(w: World, step: Step, id: BookingId, j: JobId)
    requires id in w.bookings && j in w.jobs && Promises(w.jobs[j], id)
    requires AwaitsLink(Apply(w, step).bookings[id])
    ensures j in Apply(w, step).jobs && Promises(Apply(w, step).jobs[j], id)
  {
    if step.Attempt? && step.job == j && w.jobs[j].state == Pending {
      assert AwaitsLink(w.bookings[id]) && NeedsLink(w.bookings[id], w.jobs[j].kind);
    }
  }

  lemma PromiseMade(w: World, step: Step, id: BookingId)
    requires id in Apply(w, step).bookings && AwaitsLink(Apply(w, step).bookings[id])
    requires !(id in w.bookings && AwaitsLink(w.bookings[id]))
    requires id in w.bookings ==> (w.bookings[id].meetLink.Some? <==> w.bookings[id].googleEventId.Some?)
    ensures step.job in Apply(w, step).jobs && Promises(Apply(w, step).jobs[step.job], id)
  {
  }

  lemma StepKeepsPromises(w: World, step: Step)
    requires LinksPromised(w) && LinkWithEvent(w)
    ensures LinksPromised(Apply(w, step))
  {
    var w' := Apply(w, step);
    forall id | id in w'.bookings && AwaitsLink(w'.bookings[id])
      ensures exists j :: j in w'.jobs && Promises(w'.jobs[j], id)
    {
      if id in w.bookings && AwaitsLink(w.bookings[id]) {
        var j :| j in w.jobs && Promises(w.jobs[j], id);
        PromiseKept(w, step, id, j);
      } else {
        PromiseMade(w, step, id);
      }
    }
  }

  lemma StepKeepsLinkWithEvent(w: World, step: Step)
    requires LinkWithEvent(w)
    ensures LinkWithEvent(Apply(w, step))
  {
  }

  lemma {:induction false} RunKeepsPromises(w: World, steps: seq<Step>)
    requires LinksPromised(w) && LinkWithEvent(w)
    ensures LinksPromised(Run(w, steps))
    decreases |steps|
  {
    if |steps| > 0 {
      StepKeepsPromises(w, steps[0]);
      StepKeepsLinkWithEvent(w, steps[0]);
      RunKeepsPromises(Apply(w, steps[0]), steps[1..]);
    }
  }

  /** In every reachable world: a confirmed Meet booking none of whose confirmed and rescheduled jobs is
      pending or exhausted has its link. So a drained queue without exhausted jobs means all have. */
  lemma DrainedQueueMeansLinks(steps: seq<Step>, id: BookingId)
    requires var w := Run(EMPTY, steps);
             && id in w.bookings && w.bookings[id].status == Confirmed && w.bookings[id].location == GoogleMeet
             && forall j :: j in w.jobs && w.jobs[j].booking == id && w.jobs[j].kind != CancelledJob ==>
                              w.jobs[j].state == Completed
    ensures Run(EMPTY, steps).bookings[id].meetLink.Some?
  {
    RunKeepsPromises(EMPTY, steps);
  }

  // ---------- events of cancelled bookings

  /** A pending job would still create an event for booking `id`. */
  ghost predicate EventDue(w: World, id: BookingId) {
    && id in w.bookings && w.bookings[id].location == GoogleMeet && w.bookings[id].meetLink.None?
    && exists j :: && j in w.jobs && w.jobs[j].booking == id
                   && w.jobs[j].kind != CancelledJob && w.jobs[j].state == Pending
  }

  ghost predicate CancelledAndClear(w: World, id: BookingId) {
    id in w.bookings && w.bookings[id].status == Cancelled && LiveOf(w, id) == {}
  }

  lemma StepKeepsCancelledRow(w: World, step: Step, id: BookingId)
    requires id in w.bookings && w.bookings[id].status == Cancelled && !EventDue(w, id)
    ensures var w' := Apply(w, step); id in w'.bookings && w'.bookings[id] == w.bookings[id]
  {
  }

  lemma StepKeepsNotDue(w: World, step: Step, id: BookingId)
    requires id in w.bookings && w.bookings[id].status == Cancelled && !EventDue(w, id)
    ensures !EventDue(Apply(w, step), id)
  {
    StepKeepsCancelledRow(w, step, id);
  }

  lemma StepKeepsClear(w: World, step: Step, id: BookingId)
    requires CancelledAndClear(w, id) && !EventDue(w, id)
    ensures CancelledAndClear(Apply(w, step), id)
  {
    StepKeepsCancelledRow(w, step, id);
    var w' := Apply(w, step);
    forall e | e in w'.live ensures w'.live[e].booking != id {
      if e in w.live && w'.live[e] == w.live[e] {
        assert e !in LiveOf(w, id);
      }
    }
  }

  lemma {:induction false} RunKeepsClear(w: World, steps: seq<Step>, id: BookingId)
    requires CancelledAndClear(w, id) && !EventDue(w, id)
    ensures LiveOf(Run(w, steps), id) == {}
    decreases |steps|
  {
    if |steps| > 0 {
      StepKeepsClear(w, steps[0], id);
      StepKeepsNotDue(w, steps[0], id);
      RunKeepsClear(Apply(w, steps[0]), steps[1..], id);
    }
  }

  predicate GetsEvent(w: World, steps: seq<Step>, id: BookingId) {
    LiveOf(Run(w, steps), id) != {}
  }

  /** A cancelled booking with no live event can get one later exactly when it was cancelled with no link
      and with a confirmed or rescheduled job still pending: attempts do not look at the status. */
  lemma CancelledCanGetEventIff(w: World, id: BookingId)
    requires CancelledAndClear(w, id)
    ensures (exists steps :: GetsEvent(w, steps, id)) <==> EventDue(w, id)
  {
    if EventDue(w, id) {
      var j :| j in w.jobs && w.jobs[j].booking == id && w.jobs[j].kind != CancelledJob && w.jobs[j].state == Pending;
      var step := Attempt(j, Saved(0), true);
      assert Run(w, [step]) == Run(Apply(w, step), []) == Apply(w, step);
      assert w.nextEvent in LiveOf(Apply(w, step), id);
      assert GetsEvent(w, [step], id);
    } else {
      forall steps ensures !GetsEvent(w, steps, id) {
        RunKeepsClear(w, steps, id);
      }
    }
  }

  /** From the empty world: a booking made, cancelled before its confirmed job ran, and then given an event. */
  lemma CancelledBookingGetsEvent() returns (steps: seq<Step>)
    ensures var w := Run(EMPTY, steps);
            0 in w.bookings && w.bookings[0].status == Cancelled && LiveOf(w, 0) != {}
  {
    var s0 := Create(0, 0, Interval(0, 1), GoogleMeet, 0);
    var s1 := Cancel(0, Deleted, 1);
    var s2 := Attempt(0, Saved(7), true);
    steps := [s0, s1, s2];
    var w1, w2 := Apply(EMPTY, s0), Apply(Apply(EMPTY, s0), s1);
    var w3 := Apply(w2, s2);
    assert steps[1..] == [s1, s2] && [s1, s2][1..] == [s2] && [s2][1..] == [];
    assert Run(w2, [s2]) == Run(w3, []) == w3;
    assert Run(w1, [s1, s2]) == w3;
    assert w2.nextEvent in LiveOf(w3, 0);
  }

  // ---------- one notification each, a bounded number of attempts

  function JobsOf(w: World, id: BookingId, kind: JobKind): set<JobId> {
    set j | j in w.jobs && w.jobs[j].booking == id && w.jobs[j].kind == kind
  }

  /** Each booking has one confirmed job, and one cancelled job exactly when it is cancelled. */
  ghost predicate Announced(w: World) {
    && (forall j :: j in w.jobs ==> w.jobs[j].booking in w.bookings)
    && (forall id :: id in w.bookings ==>
          && |JobsOf(w, id, ConfirmedJob)| == 1
          && |JobsOf(w, id, CancelledJob)| == (if w.bookings[id].status == Cancelled then 1 else 0))
  }

  /** A step keeps every job with its booking and kind, and adds at most its own. */
  ghost predicate KeepsJobs(w: World, w': World, job: JobId) {
    && (forall j :: j in w.jobs ==>
          j in w'.jobs && w'.jobs[j].booking == w.jobs[j].booking && w'.jobs[j].kind == w.jobs[j].kind)
    && (forall j :: j in w'.jobs ==> j in w.jobs || j == job)
  }

  lemma AttemptKeepsJobs(w: World, job: JobId, insert: InsertOutcome, emailSent: bool)
    ensures KeepsJobs(w, DoAttempt(w, job, insert, emailSent), job)
  {
  }

  lemma MoveKeepsJobs(w: World, id: BookingId, slot: Interval, deletion: DeleteOutcome, job: JobId)
    ensures KeepsJobs(w, DoReschedule(w, id, slot, deletion, job), job)
  {
  }

  lemma StepKeepsJobs(w: World, step: Step)
    ensures KeepsJobs(w, Apply(w, step), step.job)
  {
    match step
    case Create(_, _, _, _, _) =>
    case Cancel(_, _, _) =>
    case Reschedule(id, slot, deletion, job) => MoveKeepsJobs(w, id, slot, deletion, job);
    case Attempt(job, insert, emailSent) => AttemptKeepsJobs(w, job, insert, emailSent);
  }

  predicate NewJob(w: World, step: Step, id: BookingId, kind: JobKind) {
    var w' := Apply(w, step);
    step.job in w'.jobs && step.job !in w.jobs && w'.jobs[step.job].booking == id && w'.jobs[step.job].kind == kind
  }

  /** A booking gets its confirmed job when it is made, and its cancelled job when it is cancelled. */
  lemma NewJobsMatch(w: World, step: Step, id: BookingId)
    requires id in Apply(w, step).bookings
    ensures NewJob(w, step, id, ConfirmedJob) <==> id !in w.bookings
    ensures NewJob(w, step, id, CancelledJob) <==>
            id in w.bookings && w.bookings[id].status == Confirmed && Apply(w, step).bookings[id].status == Cancelled
    ensures id !in w.bookings ==> Apply(w, step).bookings[id].status == Confirmed
    ensures id in w.bookings && w.bookings[id].status == Cancelled ==> Apply(w, step).bookings[id].status == Cancelled
  {
  }

  lemma StepKeepsJobBookings(w: World, step: Step)
    requires forall j :: j in w.jobs ==> w.jobs[j].booking in w.bookings
    ensures forall j :: j in Apply(w, step).jobs ==> Apply(w, step).jobs[j].booking in Apply(w, step).bookings
  {
  }

  lemma JobCount(w: World, step: Step, id: BookingId, kind: JobKind)
    ensures |JobsOf(Apply(w, step), id, kind)| == |JobsOf(w, id, kind)| + (if NewJob(w, step, id, kind) then 1 else 0)
  {
    StepKeepsJobs(w, step);
    var added := if NewJob(w, step, id, kind) then {step.job} else {};
    assert JobsOf(Apply(w, step), id, kind) == JobsOf(w, id, kind) + added;
  }

  lemma StepKeepsAnnounced(w: World, step: Step)
    requires Announced(w)
    ensures Announced(Apply(w, step))
  {
    var w' := Apply(w, step);
    StepKeepsJobBookings(w, step);
    forall id | id in w'.bookings
      ensures |JobsOf(w', id, ConfirmedJob)| == 1
      ensures |JobsOf(w', id, CancelledJob)| == (if w'.bookings[id].status == Cancelled then 1 else 0)
    {
      JobCount(w, step, id, ConfirmedJob);
      JobCount(w, step, id, CancelledJob);
      NewJobsMatch(w, step, id);
      if id !in w.bookings {
        assert JobsOf(w, id, ConfirmedJob) == {} && JobsOf(w, id, CancelledJob) == {};
      }
    }
  }

  lemma {:induction false} RunKeepsAnnounced(w: World, steps: seq<Step>)
    requires Announced(w)
    ensures Announced(Run(w, steps))
    decreases |steps|
  {
    if |steps| > 0 {
      StepKeepsAnnounced(w, steps[0]);
      RunKeepsAnnounced(Apply(w, steps[0]), steps[1..]);
    }
  }

  /** In every reachable world each booking was announced by exactly one confirmed job, and by exactly one
      cancelled job if and only if it is cancelled. */
  lemma ReachableAnnouncements(steps: seq<Step>, id: BookingId)
    requires id in Run(EMPTY, steps).bookings
    ensures var w := Run(EMPTY, steps);
            && |JobsOf(w, id, ConfirmedJob)| == 1
            && |JobsOf(w, id, CancelledJob)| == (if w.bookings[id].status == Cancelled then 1 else 0)
  {
    RunKeepsAnnounced(EMPTY, steps);
  }

  /** The attempts of a run that found job `j` pending. */
  function AttemptsOn(w: World, j: JobId, steps: seq<Step>): nat
    decreases |steps|
  {
    if |steps| == 0 then 0
    else
      (if steps[0].Attempt? && steps[0].job == j && j in w.jobs && w.jobs[j].state == Pending then 1 else 0)
      + AttemptsOn(Apply(w, steps[0]), j, steps[1..])
  }

  function AttemptsLeft(j: Job): int {
    if j.state == Pending then RETRY_LIMIT + 1 - j.retryCount else 0
  }

  lemma StepAttempts(w: World, step: Step, j: JobId)
    requires j in w.jobs && w.jobs[j].retryCount <= RETRY_LIMIT
    ensures var w' := Apply(w, step);
            && j in w'.jobs && w'.jobs[j].retryCount <= RETRY_LIMIT
            && (w.jobs[j].state == Exhausted ==> w'.jobs[j].state == Exhausted)
            && (if step.Attempt? && step.job == j && w.jobs[j].state == Pending
                then AttemptsLeft(w'.jobs[j]) == AttemptsLeft(w.jobs[j]) - 1 || w'.jobs[j].state == Completed
                else w'.jobs[j] == w.jobs[j])
  {
  }

  /** A job is attempted at most as often as it has attempts left, which is 4 times when new; and it ends
      exhausted only after all of them. */
  lemma {:induction false} AttemptsAreBounded(w: World, j: JobId, steps: seq<Step>)
    requires j in w.jobs && w.jobs[j].retryCount <= RETRY_LIMIT
    ensures j in Run(w, steps).jobs
    ensures AttemptsOn(w, j, steps) <= AttemptsLeft(w.jobs[j])
    ensures Run(w, steps).jobs[j].state == Exhausted ==> AttemptsOn(w, j, steps) == AttemptsLeft(w.jobs[j])
    decreases |steps|
  {
    if |steps| > 0 {
      StepAttempts(w, steps[0], j);
      AttemptsAreBounded(Apply(w, steps[0]), j, steps[1..]);
      SettledStaysSettled(Apply(w, steps[0]), j, steps[1..]);
    }
  }

  /** A job is new in the world after the step that queued it: whatever runs from there, it is attempted at
      most 4 times, and is exhausted only by the fourth. */
  lemma NewJobGetsFourAttempts(w: World, step: Step, id: BookingId, kind: JobKind, steps: seq<Step>)
    requires NewJob(w, step, id, kind)
    ensures AttemptsOn(Apply(w, step), step.job, steps) <= 4
    ensures step.job in Run(Apply(w, step), steps).jobs
    ensures Run(Apply(w, step), steps).jobs[step.job].state == Exhausted ==>
              AttemptsOn(Apply(w, step), step.job, steps) == 4
  {
    NewJobIsFresh(w, step, id, kind);
    AttemptsAreBounded(Apply(w, step), step.job, steps);
  }

  lemma NewJobIsFresh(w: World, step: Step, id: BookingId, kind: JobKind)
    requires NewJob(w, step, id, kind)
    ensures Apply(w, step).jobs[step.job] == Job(id, kind, 0, Pending)
  {
  }

  lemma {:induction false} SettledStaysSettled(w: World, j: JobId, steps: seq<Step>)
    requires j in w.jobs && w.jobs[j].retryCount <= RETRY_LIMIT
    ensures j in Run(w, steps).jobs
    ensures w.jobs[j].state == Completed ==> Run(w, steps).jobs[j].state == Completed
    decreases |steps|
  {
    if |steps| > 0 {
      StepAttempts(w, steps[0], j);
      SettledStaysSettled(Apply(w, steps[0]), j, steps[1..]);
    }
  }
}
