/** Civil dates, their ISO text, and the text comparison that bounds the batched day loop.
    A day is a `nat`: the number of days after 0000-01-01 (proleptic Gregorian). */
module Calendar {

  datatype Date = Date(year: nat, month: nat, day: nat)

  predicate IsLeapYear(y: nat) {
    y % 4 == 0 && (y % 100 != 0 || y % 400 == 0)
  }

  function DaysInMonth(y: nat, m: nat): nat {
    if m == 2 then (if IsLeapYear(y) then 29 else 28)
    else if m in {4, 6, 9, 11} then 30
    else 31
  }

  predicate ValidDate(d: Date) {
    1 <= d.month <= 12 && 1 <= d.day <= DaysInMonth(d.year, d.month)
  }

  predicate Before(a: Date, b: Date) {
    || a.year < b.year
    || (a.year == b.year && a.month < b.month)
    || (a.year == b.year && a.month == b.month && a.day < b.day)
  }

  function NextDate(d: Date): (r: Date)
    requires ValidDate(d)
    ensures ValidDate(r) && Before(d, r)
  {
    if d.day < DaysInMonth(d.year, d.month) then Date(d.year, d.month, d.day + 1)
    else if d.month < 12 then Date(d.year, d.month + 1, 1)
    else Date(d.year + 1, 1, 1)
  }

  function CivilOf(n: nat): (d: Date)
    ensures ValidDate(d)
  {
    if n == 0 then Date(0, 1, 1) else NextDate(CivilOf(n - 1))
  }

  lemma {:induction false} CivilOfIncreases(a: nat, b: nat)
    requires a < b
    ensures Before(CivilOf(a), CivilOf(b))
  {
    if a < b - 1 {
      CivilOfIncreases(a, b - 1);
    }
  }

  function PreviousDate(d: Date): (r: Date)
    requires ValidDate(d) && d != Date(0, 1, 1)
    ensures ValidDate(r) && NextDate(r) == d
  {
    if d.day > 1 then Date(d.year, d.month, d.day - 1)
    else if d.month > 1 then Date(d.year, d.month - 1, DaysInMonth(d.year, d.month - 1))
    else Date(d.year - 1, 12, 31)
  }

  /** Every date is that of some day. */
  lemma {:induction false} EveryDateHasADay(d: Date) returns (n: nat)
    requires ValidDate(d)
    ensures CivilOf(n) == d
    decreases d.year, d.month, d.day
  {
    if d == Date(0, 1, 1) {
      n := 0;
    } else {
      var m := EveryDateHasADay(PreviousDate(d));
      n := m + 1;
    }
  }

  const LAST_FOUR_DIGIT_DATE := Date(9999, 12, 31)

  predicate FourDigitYear(n: nat) {
    CivilOf(n).year <= 9999
  }

  /** The last year the platform's dates reach (ECMA-262, time values and time range). */
  const LAST_YEAR := 275_760

  predicate Representable(n: nat) {
    CivilOf(n).year <= LAST_YEAR
  }

  /** Years stay within four digits exactly up to 9999-12-31. */
  lemma NextStaysFourDigit(n: nat)
    requires FourDigitYear(n)
    ensures FourDigitYear(n + 1) <==> CivilOf(n) != LAST_FOUR_DIGIT_DATE
  {
  }

  /** 1 = Monday ... 7 = Sunday; day 0 is a Saturday. */
  function IsoWeekday(n: nat): (w: nat)
    ensures 1 <= w <= 7
  {
    (n + 5) % 7 + 1
  }

  // ---------- day numbers in closed form

  /** How many multiples of `k` are below `y`. */
  function MultiplesBelow(y: nat, k: nat): nat
    requires k > 0
  {
    (y + k - 1) / k
  }

  /** The number of the first day of year `y`: 365 days a year, one more after each leap year. */
  function YearStart(y: nat): int {
    365 * y + MultiplesBelow(y, 4) - MultiplesBelow(y, 100) + MultiplesBelow(y, 400)
  }

  function DaysBeforeMonth(y: nat, m: nat): nat
    requires 1 <= m <= 12
  {
    if m == 1 then 0 else DaysBeforeMonth(y, m - 1) + DaysInMonth(y, m - 1)
  }

  function DayNumber(d: Date): int
    requires ValidDate(d)
  {
    YearStart(d.year) + DaysBeforeMonth(d.year, d.month) + d.day - 1
  }

  lemma YearLength(y: nat)
    ensures YearStart(y + 1) == YearStart(y) + (if IsLeapYear(y) then 366 else 365)
  {
    Multiples(y, 4);
    Multiples(y, 100);
    Multiples(y, 400);
    LeapCases(y);
  }

  lemma LeapCases(y: nat)
    ensures y % 100 == 0 ==> y % 4 == 0
    ensures y % 400 == 0 ==> y % 100 == 0
  {
    if y % 100 == 0 {
      WholeMultiple(y, 100);
      FoursLeaveNothing(25 * (y / 100));
    }
    if y % 400 == 0 {
      WholeMultiple(y, 400);
      HundredsLeaveNothing(4 * (y / 400));
    }
  }

  lemma WholeMultiple(y: nat, k: nat)
    requires k > 0 && y % k == 0
    ensures y == k * (y / k)
  {
  }

  lemma FoursLeaveNothing(m: nat)
    ensures (4 * m) % 4 == 0
  {
  }

  lemma HundredsLeaveNothing(m: nat)
    ensures (100 * m) % 100 == 0
  {
  }

  /** It grows by one exactly after a multiple. */
  lemma Multiples(y: nat, k: nat)
    requires k in {4, 100, 400}
    ensures MultiplesBelow(y + 1, k) == MultiplesBelow(y, k) + (if y % k == 0 then 1 else 0)
  {
  }

  lemma MonthsOfYear(y: nat)
    ensures DaysBeforeMonth(y, 12) + 31 == if IsLeapYear(y) then 366 else 365
  {
    assert DaysBeforeMonth(y, 2) == 31;
    assert DaysBeforeMonth(y, 3) == DaysBeforeMonth(y, 2) + DaysInMonth(y, 2);
    assert DaysBeforeMonth(y, 4) == DaysBeforeMonth(y, 3) + 31;
    assert DaysBeforeMonth(y, 5) == DaysBeforeMonth(y, 4) + 30;
    assert DaysBeforeMonth(y, 6) == DaysBeforeMonth(y, 5) + 31;
    assert DaysBeforeMonth(y, 7) == DaysBeforeMonth(y, 6) + 30;
    assert DaysBeforeMonth(y, 8) == DaysBeforeMonth(y, 7) + 31;
    assert DaysBeforeMonth(y, 9) == DaysBeforeMonth(y, 8) + 31;
    assert DaysBeforeMonth(y, 10) == DaysBeforeMonth(y, 9) + 30;
    assert DaysBeforeMonth(y, 11) == DaysBeforeMonth(y, 10) + 31;
    assert DaysBeforeMonth(y, 12) == DaysBeforeMonth(y, 11) + 30;
  }

  lemma NextDayNumber(d: Date)
    requires ValidDate(d)
    ensures DayNumber(NextDate(d)) == DayNumber(d) + 1
  {
    if d.day == DaysInMonth(d.year, d.month) && d.month == 12 {
      YearLength(d.year);
      MonthsOfYear(d.year);
    }
  }

  /** Counting day by day and the closed form agree. */
  lemma {:induction false} DayNumberOfCivil(n: nat)
    ensures DayNumber(CivilOf(n)) == n
  {
    if n > 0 {
      DayNumberOfCivil(n - 1);
      NextDayNumber(CivilOf(n - 1));
    }
  }

  /** And each date is that of its number. */
  lemma CivilOfDayNumber(d: Date)
    requires ValidDate(d)
    ensures DayNumber(d) >= 0 && CivilOf(DayNumber(d)) == d
  {
    var n := EveryDateHasADay(d);
    DayNumberOfCivil(n);
  }

  const EPOCH := Date(1970, 1, 1)

  lemma EpochIsThursday(n: nat)
    requires n == DayNumber(EPOCH)
    ensures IsoWeekday(n) == 4
  {
  }

  /** Weekdays follow one another. */
  lemma WeekdaysFollow(n: nat)
    ensures IsoWeekday(n + 1) == IsoWeekday(n) % 7 + 1
  {
  }

  /** And 1 January 1970 was a Thursday: together these fix the weekday of every date. */
  lemma WeekdayAnchor(n: nat)
    requires CivilOf(n) == EPOCH
    ensures IsoWeekday(n) == 4
  {
    DayNumberOfCivil(n);
    EpochIsThursday(n);
  }

  // ---------- ISO text

  function Digit(n: nat): char {
    '0' + (n % 10) as char
  }

  function Decimal(n: nat, width: nat): (s: string)
    ensures |s| == width
  {
    if width == 0 then [] else Decimal(n / 10, width - 1) + [Digit(n)]
  }

  function Dashed(y: string, m: string, d: string): string {
    y + "-" + m + "-" + d
  }

  /** Four-digit years are plain, later ones have a '+' and six digits. */
  function YearText(y: nat): (s: string)
    ensures |s| == if y <= 9999 then 4 else 7
  {
    if y <= 9999 then Decimal(y, 4) else "+" + Decimal(y, 6)
  }

  /** The text the code gets from `toISODate()`. */
  function IsoText(n: nat): (s: string)
    ensures |s| == if FourDigitYear(n) then 10 else 13
  {
    var d := CivilOf(n);
    Dashed(YearText(d.year), Decimal(d.month, 2), Decimal(d.day, 2))
  }

  lemma DigitsOfExamples()
    ensures Decimal(1, 2) == "01" && Decimal(1970, 4) == "1970" && Decimal(10000, 6) == "010000"
  {
    assert Decimal(0, 1) == "0" && Decimal(1, 1) == "1";
    assert Decimal(19, 2) == "19";
    assert Decimal(197, 3) == "197";
    assert Decimal(10, 3) == "010";
    assert Decimal(100, 4) == "0100";
    assert Decimal(1000, 5) == "01000";
  }

  lemma DashedParts()
    ensures Dashed("1970", "01", "01") == "1970-01-01"
    ensures Dashed("+010000", "01", "01") == "+010000-01-01"
  {
  }

  lemma DashedExamples()
    ensures Dashed(YearText(1970), Decimal(1, 2), Decimal(1, 2)) == "1970-01-01"
    ensures Dashed(YearText(10000), Decimal(1, 2), Decimal(1, 2)) == "+010000-01-01"
  {
    DigitsOfExamples();
    DashedParts();
    assert "+" + "010000" == "+010000";
  }

  /** The text of 1 January 1970, and of 1 January 10000. */
  lemma TextExamples(n: nat)
    ensures CivilOf(n) == EPOCH ==> IsoText(n) == "1970-01-01"
    ensures CivilOf(n) == Date(10000, 1, 1) ==> IsoText(n) == "+010000-01-01"
  {
    DashedExamples();
  }

  /** JavaScript's `<` on strings: at the first difference, the smaller character or the shorter string wins. */
  predicate TextLess(s: string, t: string) {
    exists k :: 0 <= k < |t| && k <= |s| && s[..k] == t[..k] && (k == |s| || s[k] < t[k])
  }

  predicate TextAtMost(s: string, t: string) {
    s == t || TextLess(s, t)
  }

  lemma TextLessExtends(p: string, s: string, t: string, u: string, v: string)
    requires TextLess(s, t) && |s| == |t|
    ensures TextLess(p + s + u, p + t + v)
  {
    var k :| 0 <= k < |t| && s[..k] == t[..k] && s[k] < t[k];
    var a, b := p + s + u, p + t + v;
    assert a[..|p| + k] == p + s[..k];
    assert b[..|p| + k] == p + t[..k];
    assert a[|p| + k] == s[k] && b[|p| + k] == t[k];
  }

  lemma TextLessIsStrict(s: string, t: string)
    requires TextLess(s, t)
    ensures s != t && !TextLess(t, s)
  {
  }

  function PowerOfTen(width: nat): nat {
    if width == 0 then 1 else 10 * PowerOfTen(width - 1)
  }

  lemma {:induction false} DecimalOrder(a: nat, b: nat, width: nat)
    requires a < b < PowerOfTen(width)
    ensures TextLess(Decimal(a, width), Decimal(b, width))
  {
    if width > 0 {
      var x, y := Decimal(a / 10, width - 1), Decimal(b / 10, width - 1);
      var s, t := ['0' + (a % 10) as char], ['0' + (b % 10) as char];
      if a / 10 < b / 10 {
        DecimalOrder(a / 10, b / 10, width - 1);
        TextLessExtends("", x, y, s, t);
        assert "" + x + s == Decimal(a, width) && "" + y + t == Decimal(b, width);
      } else {
        assert a / 10 == b / 10 && a % 10 < b % 10;
        assert s[..0] == t[..0] && s[0] < t[0];
        TextLessExtends(x, s, t, "", "");
        assert x + s + "" == Decimal(a, width) && x + t + "" == Decimal(b, width);
      }
    }
  }

  lemma DashedOrder(y: string, m: string, d: string, y': string, m': string, d': string)
    requires |y| == |y'| && |m| == |m'| && |d| == |d'|
    requires TextLess(y, y') || (y == y' && (TextLess(m, m') || (m == m' && TextLess(d, d'))))
    ensures TextLess(Dashed(y, m, d), Dashed(y', m', d'))
  {
    if TextLess(y, y') {
      TextLessExtends("", y, y', "-" + m + "-" + d, "-" + m' + "-" + d');
      assert Dashed(y, m, d) == "" + y + ("-" + m + "-" + d);
      assert Dashed(y', m', d') == "" + y' + ("-" + m' + "-" + d');
    } else if TextLess(m, m') {
      TextLessExtends(y + "-", m, m', "-" + d, "-" + d');
      assert Dashed(y, m, d) == y + "-" + m + ("-" + d);
      assert Dashed(y', m', d') == y + "-" + m' + ("-" + d');
    } else {
      TextLessExtends(y + "-" + m + "-", d, d', "", "");
      assert Dashed(y, m, d) == y + "-" + m + "-" + d + "";
      assert Dashed(y', m', d') == y + "-" + m + "-" + d' + "";
    }
  }

  lemma YearTextOrder(a: nat, b: nat)
    requires a < b <= LAST_YEAR && (a <= 9999 <==> b <= 9999)
    ensures TextLess(YearText(a), YearText(b))
  {
    PowersOfTen();
    if b <= 9999 {
      DecimalOrder(a, b, 4);
    } else {
      DecimalOrder(a, b, 6);
      TextLessExtends("+", Decimal(a, 6), Decimal(b, 6), "", "");
      assert "+" + Decimal(a, 6) + "" == YearText(a) && "+" + Decimal(b, 6) + "" == YearText(b);
    }
  }

  /** Within the four-digit years, and within the later ones, text order is date order. */
  lemma IsoTextOrder(a: nat, b: nat)
    requires a < b && Representable(b) && (FourDigitYear(a) <==> FourDigitYear(b))
    ensures TextLess(IsoText(a), IsoText(b))
  {
    CivilOfIncreases(a, b);
    PowersOfTen();
    var d, e := CivilOf(a), CivilOf(b);
    if d.year < e.year {
      YearTextOrder(d.year, e.year);
    } else if d.month < e.month {
      DecimalOrder(d.month, e.month, 2);
    } else {
      DecimalOrder(d.day, e.day, 2);
    }
    DashedOrder(YearText(d.year), Decimal(d.month, 2), Decimal(d.day, 2),
                YearText(e.year), Decimal(e.month, 2), Decimal(e.day, 2));
  }

  lemma PowersOfTen()
    ensures PowerOfTen(6) == 1000000 && PowerOfTen(4) == 10000 && PowerOfTen(2) == 100
  {
    assert PowerOfTen(4) == 10000;
  }

  lemma FirstCharacterIsDigit(n: nat, width: nat)
    requires width > 0
    ensures '0' <= Decimal(n, width)[0]
  {
  }

  /** A year past 9999 starts with '+', which sorts below every digit. */
  lemma LaterYearSortsFirst(a: nat, b: nat)
    requires !FourDigitYear(a) && FourDigitYear(b)
    ensures IsoText(a)[0] == '+' < IsoText(b)[0]
    ensures TextLess(IsoText(a), IsoText(b)) && !TextLess(IsoText(b), IsoText(a))
  {
    FirstCharacterIsDigit(CivilOf(b).year, 4);
    assert IsoText(a)[..0] == IsoText(b)[..0];
    TextLessIsStrict(IsoText(a), IsoText(b));
  }

  /** What the loop test `day.toISODate() <= to` decides. */
  predicate InLoop(day: nat, to: nat) {
    if FourDigitYear(day) <==> FourDigitYear(to) then day <= to else FourDigitYear(to)
  }

  /** The text comparison is chronological between two four-digit years and between two later ones; any
      later day passes a four-digit bound, and no four-digit day passes a later one. */
  lemma LoopTestExact(day: nat, to: nat)
    requires Representable(day) && Representable(to)
    ensures TextAtMost(IsoText(day), IsoText(to)) <==> InLoop(day, to)
  {
    if FourDigitYear(to) && !FourDigitYear(day) {
      LaterYearSortsFirst(day, to);
    } else if FourDigitYear(day) && !FourDigitYear(to) {
      LaterYearSortsFirst(to, day);
    } else if day < to {
      IsoTextOrder(day, to);
    } else if to < day {
      IsoTextOrder(to, day);
      TextLessIsStrict(IsoText(to), IsoText(day));
    }
  }

  /** So the test fails on the day after `to` if and only if `to` is not 9999-12-31. */
  lemma LoopStopsAfterLastDayIff(to: nat)
    requires Representable(to + 1)
    ensures !TextAtMost(IsoText(to + 1), IsoText(to)) <==> CivilOf(to) != LAST_FOUR_DIGIT_DATE
  {
    LoopTestExact(to + 1, to);
    if FourDigitYear(to) {
      NextStaysFourDigit(to);
    }
  }

  /** The day 9999-12-31 exists, and the loop runs past it. */
  lemma LoopPassesLastFourDigitDay() returns (to: nat)
    ensures CivilOf(to) == LAST_FOUR_DIGIT_DATE && TextAtMost(IsoText(to + 1), IsoText(to))
  {
    to := EveryDateHasADay(LAST_FOUR_DIGIT_DATE);
    assert CivilOf(to + 1) == Date(10000, 1, 1);
    LoopStopsAfterLastDayIff(to);
  }

  /** The last day the loop visits from `first`, with dates up to `horizon`: past that a date is invalid
      and the test fails. */
  function LastVisited(first: nat, to: nat, horizon: nat): int {
    if !InLoop(first, to) then first - 1
    else if FourDigitYear(to) && (!FourDigitYear(first) || CivilOf(to) == LAST_FOUR_DIGIT_DATE) then horizon
    else to
  }

  lemma LastFourDigitDay(day: nat, to: nat)
    requires CivilOf(to) == LAST_FOUR_DIGIT_DATE
    ensures FourDigitYear(day) <==> day <= to
  {
    if day < to {
      CivilOfIncreases(day, to);
    } else if to < day {
      CivilOfIncreases(to, day);
    }
  }

  /** From `first` on, the loop test holds exactly up to `LastVisited`. */
  lemma LoopVisits(first: nat, day: nat, to: nat, horizon: nat)
    requires first <= horizon && to <= horizon && Representable(horizon)
    requires first <= day <= LastVisited(first, to, horizon) + 1
    ensures (day <= horizon && TextAtMost(IsoText(day), IsoText(to))) <==> day <= LastVisited(first, to, horizon)
  {
    if day <= horizon {
      EarlierStaysFourDigit(day, horizon);
      EarlierStaysFourDigit(to, horizon);
      EarlierStaysFourDigit(first, day);
      LoopTestExact(day, to);
      if CivilOf(to) == LAST_FOUR_DIGIT_DATE {
        LastFourDigitDay(day, to);
      } else if day <= to {
        EarlierStaysFourDigit(day, to);
      } else if day == to + 1 && FourDigitYear(to) {
        NextStaysFourDigit(to);
      } else if day == to + 1 {
        EarlierStaysFourDigit(to, day);
      }
    }
  }

  lemma IsoTextInjective(a: nat, b: nat)
    requires Representable(a) && Representable(b) && IsoText(a) == IsoText(b)
    ensures a == b
  {
    if a < b {
      IsoTextOrder(a, b);
      TextLessIsStrict(IsoText(a), IsoText(b));
    } else if b < a {
      IsoTextOrder(b, a);
      TextLessIsStrict(IsoText(b), IsoText(a));
    }
  }

  lemma EarlierStaysFourDigit(a: nat, b: nat)
    requires a <= b
    ensures FourDigitYear(b) ==> FourDigitYear(a)
    ensures Representable(b) ==> Representable(a)
  {
    if a < b {
      CivilOfIncreases(a, b);
    }
  }
}
