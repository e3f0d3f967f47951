/** Writing override and weekly rows: creation, partial updates merged with a row read earlier,
    removal. Whatever the order of the requests, every stored row keeps the row invariant. */
module AvailabilityAdmin {
  import opened Domain
  import opened Availability

  type RowId = nat
  type RequestId = nat

  datatype AdminError = MinutesRequired | StartNotBeforeEnd | NotFound

  /** A request body after validation: absent fields are `None`. */
  datatype OverrideDto = OverrideDto(
    date: Option<nat>, isUnavailable: Option<bool>, startMinute: Option<int>, endMinute: Option<int>)

  datatype WeeklyDto = WeeklyDto(weekday: Option<nat>, startMinute: Option<int>, endMinute: Option<int>)

  predicate MinuteInBounds(m: Option<int>) {
    m.Some? ==> 0 <= m.value <= MINUTES_PER_DAY
  }

  /** Minutes are bounds-checked unless the body itself says "unavailable". */
  predicate ValidatedOverride(dto: OverrideDto) {
    dto.isUnavailable != Some(true) ==> MinuteInBounds(dto.startMinute) && MinuteInBounds(dto.endMinute)
  }

  predicate ValidatedWeekly(dto: WeeklyDto) {
    && (dto.weekday.Some? ==> 1 <= dto.weekday.value <= 7)
    && MinuteInBounds(dto.startMinute) && MinuteInBounds(dto.endMinute)
  }

  function Or<T>(a: Option<T>, b: T): T {
    if a.Some? then a.value else b
  }

  function OrElse<T>(a: Option<T>, b: Option<T>): Option<T> {
    if a.Some? then a else b
  }

  function CheckedOverride(row: OverrideRow): Result<OverrideRow, AdminError> {
    if row.isUnavailable then Ok(row)
    else if row.startMinute.None? || row.endMinute.None? then Err(MinutesRequired)
    else if row.startMinute.value >= row.endMinute.value then Err(StartNotBeforeEnd)
    else Ok(row)
  }

  /** The row a create would write, before the checks. */
  function NewOverride(coach: CoachId, date: nat, dto: OverrideDto): OverrideRow {
    var off := Or(dto.isUnavailable, false);
    OverrideRow(coach, date, off, if off then None else dto.startMinute, if off then None else dto.endMinute)
  }

  /** The row an update would write: the body's fields over the row read earlier. */
  function MergedOverride(existing: OverrideRow, dto: OverrideDto): OverrideRow {
    var off := Or(dto.isUnavailable, existing.isUnavailable);
    OverrideRow(existing.coach, Or(dto.date, existing.date), off,
                if off then None else OrElse(dto.startMinute, existing.startMinute),
                if off then None else OrElse(dto.endMinute, existing.endMinute))
  }

  function CheckedWeekly(row: WeeklyRow): Result<WeeklyRow, AdminError> {
    if row.startMinute >= row.endMinute then Err(StartNotBeforeEnd) else Ok(row)
  }

  function MergedWeekly(existing: WeeklyRow, dto: WeeklyDto): WeeklyRow {
    WeeklyRow(existing.coach, Or(dto.weekday, existing.weekday),
              Or(dto.startMinute, existing.startMinute), Or(dto.endMinute, existing.endMinute))
  }

  /** The checks refuse exactly the rows that would break the invariant. */
  lemma ChecksAreExact(existing: OverrideRow, dto: OverrideDto, coach: CoachId, date: nat,
                       weekly: WeeklyRow, patch: WeeklyDto)
    requires ValidOverride(existing) && ValidatedOverride(dto)
    requires ValidWeekly(weekly) && ValidatedWeekly(patch)
    ensures CheckedOverride(MergedOverride(existing, dto)).Ok? <==> ValidOverride(MergedOverride(existing, dto))
    ensures CheckedOverride(NewOverride(coach, date, dto)).Ok? <==> ValidOverride(NewOverride(coach, date, dto))
    ensures CheckedWeekly(MergedWeekly(weekly, patch)).Ok? <==> ValidWeekly(MergedWeekly(weekly, patch))
  {
  }

  /** Field by field: what the body says wins, what it leaves out stays as it was read, the coach never
      changes, and a row that is unavailable has no minutes. */
  lemma OverrideMerge(existing: OverrideRow, dto: OverrideDto)
    ensures var m := MergedOverride(existing, dto);
            && m.coach == existing.coach
            && m.date == (match dto.date case Some(date) => date case None => existing.date)
            && m.isUnavailable == (match dto.isUnavailable case Some(off) => off case None => existing.isUnavailable)
            && (m.isUnavailable ==> m.startMinute == None && m.endMinute == None)
            && (!m.isUnavailable && dto.startMinute.Some? ==> m.startMinute == dto.startMinute)
            && (!m.isUnavailable && dto.startMinute.None? ==> m.startMinute == existing.startMinute)
            && (!m.isUnavailable && dto.endMinute.Some? ==> m.endMinute == dto.endMinute)
            && (!m.isUnavailable && dto.endMinute.None? ==> m.endMinute == existing.endMinute)
  {
  }

  lemma NewOverrideFields(coach: CoachId, date: nat, dto: OverrideDto)
    ensures var row := NewOverride(coach, date, dto);
            && row.coach == coach && row.date == date && (row.isUnavailable <==> dto.isUnavailable == Some(true))
            && (if row.isUnavailable then row.startMinute == None && row.endMinute == None
                else row.startMinute == dto.startMinute && row.endMinute == dto.endMinute)
  {
  }

  lemma WeeklyMerge(existing: WeeklyRow, dto: WeeklyDto)
    ensures var m := MergedWeekly(existing, dto);
            && m.coach == existing.coach
            && m.weekday == (match dto.weekday case Some(weekday) => weekday case None => existing.weekday)
            && m.startMinute == (match dto.startMinute case Some(minute) => minute case None => existing.startMinute)
            && m.endMinute == (match dto.endMinute case Some(minute) => minute case None => existing.endMinute)
  {
  }

  // ---------- the services: rows updated in place

  class AvailabilityOverrideService {
    var rows: map<RowId, OverrideRow>
    var nextId: RowId

    ghost predicate Valid() reads this {
      (forall id :: id in rows ==> id < nextId) && (forall id :: id in rows ==> ValidOverride(rows[id]))
    }

    constructor ()
      ensures Valid() && rows == map[]
    {
      rows, nextId := map[], 0;
    }

    method Create(coach: CoachId, date: nat, dto: OverrideDto) returns (r: Result<RowId, AdminError>)
      requires Valid() && ValidatedOverride(dto)
      modifies this
      ensures Valid()
      ensures r.Ok? <==> ValidOverride(NewOverride(coach, date, dto))
      ensures r.Ok? ==> r.value !in old(rows) && rows == old(rows)[r.value := NewOverride(coach, date, dto)]
      ensures r.Err? ==> rows == old(rows)
    {
      var isUnavailable := if dto.isUnavailable.Some? then dto.isUnavailable.value else false;
      if !isUnavailable {
        if dto.startMinute.None? || dto.endMinute.None? {
          return Err(MinutesRequired);
        }
        if dto.startMinute.value >= dto.endMinute.value {
          return Err(StartNotBeforeEnd);
        }
      }
      rows := rows[nextId := OverrideRow(coach, date, isUnavailable,
                                         if isUnavailable then None else dto.startMinute,
                                         if isUnavailable then None else dto.endMinute)];
      r := Ok(nextId);
      nextId := nextId + 1;
    }

    /** A row of another coach is "not found" unless the caller is an admin. */
    method Update(caller: CoachId, isAdmin: bool, id: RowId, dto: OverrideDto) returns (r: Result<(), AdminError>)
      requires Valid() && ValidatedOverride(dto)
      modifies this`rows
      ensures Valid()
      ensures r.Ok? <==> id in old(rows) && (old(rows)[id].coach == caller || isAdmin)
                         && ValidOverride(MergedOverride(old(rows)[id], dto))
      ensures rows == if r.Ok? then old(rows)[id := MergedOverride(old(rows)[id], dto)] else old(rows)
    {
      if id !in rows || (rows[id].coach != caller && !isAdmin) {
        return Err(NotFound);
      }
      var existing := rows[id];
      var isUnavailable := if dto.isUnavailable.Some? then dto.isUnavailable.value else existing.isUnavailable;
      var date := if dto.date.Some? then dto.date.value else existing.date;
      var startMinute, endMinute := None, None;
      if !isUnavailable {
        startMinute := if dto.startMinute.Some? then dto.startMinute else existing.startMinute;
        endMinute := if dto.endMinute.Some? then dto.endMinute else existing.endMinute;
        if startMinute.None? || endMinute.None? {
          return Err(MinutesRequired);
        }
        if startMinute.value >= endMinute.value {
          return Err(StartNotBeforeEnd);
        }
      }
      rows := rows[id := OverrideRow(existing.coach, date, isUnavailable, startMinute, endMinute)];
      r := Ok(());
    }
  }

  class WeeklyAvailabilityService {
    var rows: map<RowId, WeeklyRow>
    var nextId: RowId

    ghost predicate Valid() reads this {
      (forall id :: id in rows ==> id < nextId) && (forall id :: id in rows ==> ValidWeekly(rows[id]))
    }

    constructor ()
      ensures Valid() && rows == map[]
    {
      rows, nextId := map[], 0;
    }

    method Create(row: WeeklyRow) returns (r: Result<RowId, AdminError>)
      requires Valid()
      requires ValidatedWeekly(WeeklyDto(Some(row.weekday), Some(row.startMinute), Some(row.endMinute)))
      modifies this
      ensures Valid()
      ensures r.Ok? <==> ValidWeekly(row)
      ensures r.Ok? ==> r.value !in old(rows) && rows == old(rows)[r.value := row]
      ensures r.Err? ==> rows == old(rows)
    {
      if row.startMinute >= row.endMinute {
        return Err(StartNotBeforeEnd);
      }
      rows := rows[nextId := row];
      r := Ok(nextId);
      nextId := nextId + 1;
    }

    method Update(caller: CoachId, isAdmin: bool, id: RowId, dto: WeeklyDto) returns (r: Result<(), AdminError>)
      requires Valid() && ValidatedWeekly(dto)
      modifies this`rows
      ensures Valid()
      ensures r.Ok? <==> id in old(rows) && (old(rows)[id].coach == caller || isAdmin)
                         && ValidWeekly(MergedWeekly(old(rows)[id], dto))
      ensures rows == if r.Ok? then old(rows)[id := MergedWeekly(old(rows)[id], dto)] else old(rows)
    {
      if id !in rows || (rows[id].coach != caller && !isAdmin) {
        return Err(NotFound);
      }
      var existing := rows[id];
      var weekday := if dto.weekday.Some? then dto.weekday.value else existing.weekday;
      var startMinute := if dto.startMinute.Some? then dto.startMinute.value else existing.startMinute;
      var endMinute := if dto.endMinute.Some? then dto.endMinute.value else existing.endMinute;
      if startMinute >= endMinute {
        return Err(StartNotBeforeEnd);
      }
      rows := rows[id := WeeklyRow(existing.coach, weekday, startMinute, endMinute)];
      r := Ok(());
    }
  }

  // ---------- interleaved requests: an update's read and its write are separate steps

  datatype Store = Store(
    overrides: map<RowId, OverrideRow>, weekly: map<RowId, WeeklyRow>,
    readOverrides: map<RequestId, (RowId, OverrideRow)>, readWeekly: map<RequestId, (RowId, WeeklyRow)>)

  datatype Step =
    | CreateOverride(id: RowId, coach: CoachId, date: nat, dto: OverrideDto)
    | ReadOverride(request: RequestId, id: RowId)
    | WriteOverride(request: RequestId, dto: OverrideDto)
    | RemoveOverride(id: RowId)
    | CreateWeekly(id: RowId, row: WeeklyRow)
    | ReadWeekly(request: RequestId, id: RowId)
    | WriteWeekly(request: RequestId, patch: WeeklyDto)
    | RemoveWeekly(id: RowId)

  predicate Validated(step: Step) {
    match step
    case CreateOverride(_, _, _, dto) => ValidatedOverride(dto)
    case WriteOverride(_, dto) => ValidatedOverride(dto)
    case CreateWeekly(_, row) =>
      ValidatedWeekly(WeeklyDto(Some(row.weekday), Some(row.startMinute), Some(row.endMinute)))
    case WriteWeekly(_, patch) => ValidatedWeekly(patch)
    case _ => true
  }

  function Apply(s: Store, step: Step): Store {
    match step
    case CreateOverride(id, coach, date, dto) =>
      var row := NewOverride(coach, date, dto);
      if id !in s.overrides && CheckedOverride(row).Ok? then s.(overrides := s.overrides[id := row]) else s
    case ReadOverride(request, id) =>
      if id in s.overrides then s.(readOverrides := s.readOverrides[request := (id, s.overrides[id])]) else s
    case WriteOverride(request, dto) =>
      if request !in s.readOverrides then s
      else
        var (id, existing) := s.readOverrides[request];
        var row := MergedOverride(existing, dto);
        if id in s.overrides && CheckedOverride(row).Ok? then s.(overrides := s.overrides[id := row]) else s
    case RemoveOverride(id) => s.(overrides := s.overrides - {id})
    case CreateWeekly(id, row) =>
      if id !in s.weekly && CheckedWeekly(row).Ok? then s.(weekly := s.weekly[id := row]) else s
    case ReadWeekly(request, id) =>
      if id in s.weekly then s.(readWeekly := s.readWeekly[request := (id, s.weekly[id])]) else s
    case WriteWeekly(request, patch) =>
      if request !in s.readWeekly then s
      else
        var (id, existing) := s.readWeekly[request];
        var row := MergedWeekly(existing, patch);
        if id in s.weekly && CheckedWeekly(row).Ok? then s.(weekly := s.weekly[id := row]) else s
    case RemoveWeekly(id) => s.(weekly := s.weekly - {id})
  }

  function Run(s: Store, steps: seq<Step>): Store
    decreases |steps|
  {
    if |steps| == 0 then s else Run(Apply(s, steps[0]), steps[1..])
  }

  const EMPTY := Store(map[], map[], map[], map[])

  lemma RunFour(s: Store, a: Step, b: Step, c: Step, d: Step)
    ensures Run(s, [a, b, c, d]) == Apply(Apply(Apply(Apply(s, a), b), c), d)
  {
    assert [a, b, c, d][1..] == [b, c, d] && [b, c, d][1..] == [c, d] && [c, d][1..] == [d] && [d][1..] == [];
    var s2 := Apply(Apply(s, a), b);
    assert Run(s2, [c, d]) == Run(Apply(s2, c), [d]) == Run(Apply(Apply(s2, c), d), []);
  }

  /** Two updates that read a row before either writes it: the later write is merged with the row as it was
      read, so nothing of the earlier one is left, and no other row changes. */
  lemma LaterWriteLosesEarlier(s: Store, id: RowId, p: RequestId, q: RequestId, first: OverrideDto, second: OverrideDto)
    requires p != q && id in s.overrides
    requires CheckedOverride(MergedOverride(s.overrides[id], second)).Ok?
    ensures Run(s, [ReadOverride(p, id), ReadOverride(q, id), WriteOverride(p, first), WriteOverride(q, second)])
              .overrides
            == s.overrides[id := MergedOverride(s.overrides[id], second)]
  {
    RunFour(s, ReadOverride(p, id), ReadOverride(q, id), WriteOverride(p, first), WriteOverride(q, second));
  }

  lemma LaterWeeklyWriteLosesEarlier(s: Store, id: RowId, p: RequestId, q: RequestId, first: WeeklyDto,
                                     second: WeeklyDto)
    requires p != q && id in s.weekly
    requires CheckedWeekly(MergedWeekly(s.weekly[id], second)).Ok?
    ensures Run(s, [ReadWeekly(p, id), ReadWeekly(q, id), WriteWeekly(p, first), WriteWeekly(q, second)]).weekly
            == s.weekly[id := MergedWeekly(s.weekly[id], second)]
  {
    RunFour(s, ReadWeekly(p, id), ReadWeekly(q, id), WriteWeekly(p, first), WriteWeekly(q, second));
  }

  /** A create stores its row under its id if that is valid, a removal takes its row away; no other row changes. */
  lemma CreatesAndRemoves(s: Store, id: RowId, coach: CoachId, date: nat, dto: OverrideDto, row: WeeklyRow)
    requires ValidatedOverride(dto)
    requires ValidatedWeekly(WeeklyDto(Some(row.weekday), Some(row.startMinute), Some(row.endMinute)))
    ensures id !in s.overrides ==>
              Apply(s, CreateOverride(id, coach, date, dto)).overrides
              == if ValidOverride(NewOverride(coach, date, dto)) then s.overrides[id := NewOverride(coach, date, dto)]
                 else s.overrides
    ensures id !in s.weekly ==>
              Apply(s, CreateWeekly(id, row)).weekly == if ValidWeekly(row) then s.weekly[id := row] else s.weekly
    ensures Apply(s, RemoveOverride(id)).overrides == s.overrides - {id}
    ensures Apply(s, RemoveWeekly(id)).weekly == s.weekly - {id}
  {
  }

  ghost predicate AllValid(s: Store) {
    && (forall id :: id in s.overrides ==> ValidOverride(s.overrides[id]))
    && (forall id :: id in s.weekly ==> ValidWeekly(s.weekly[id]))
    && (forall r :: r in s.readOverrides ==> ValidOverride(s.readOverrides[r].1))
    && (forall r :: r in s.readWeekly ==> ValidWeekly(s.readWeekly[r].1))
  }

  lemma StepKeepsRowsValid(s: Store, step: Step)
    requires AllValid(s) && Validated(step)
    ensures AllValid(Apply(s, step))
  {
  }

  lemma {:induction false} RunKeepsRowsValid(s: Store, steps: seq<Step>)
    requires AllValid(s) && forall i :: 0 <= i < |steps| ==> Validated(steps[i])
    ensures AllValid(Run(s, steps))
    decreases |steps|
  {
    if |steps| > 0 {
      StepKeepsRowsValid(s, steps[0]);
      RunKeepsRowsValid(Apply(s, steps[0]), steps[1..]);
    }
  }

  ghost predicate Reads(t: Tables, s: Store) {
    && (forall o :: o in t.overrides ==> exists id :: id in s.overrides && s.overrides[id] == o)
    && (forall w :: w in t.weekly ==> exists id :: id in s.weekly && s.weekly[id] == w)
  }

  /** After any interleaving of validated requests, the tables satisfy what both lookups need, and
      the lookups yield only well-formed ranges. */
  lemma ReachableLookupsAreWellFormed(steps: seq<Step>, t: Tables, coach: CoachId, day: nat)
    requires forall i :: 0 <= i < |steps| ==> Validated(steps[i])
    requires Reads(t, Run(EMPTY, steps))
    ensures ValidTables(t)
    ensures forall r :: r in EffectiveRanges(t, coach, day) ==> WellFormed(r)
  {
    RunKeepsRowsValid(EMPTY, steps);
    forall r | r in EffectiveRanges(t, coach, day) ensures WellFormed(r) {
      EffectiveRangesMeaning(t, coach, day, r);
    }
  }
}
