/**
 The calendar arithmetic behind a task's `createdAt`: Howard Hinnant's
 `civil_from_days`, stated over every integer day number and tied to an
 independent definition of the proleptic Gregorian calendar.
 */
module Calendar {

  datatype Date = Date(year: int, month: int, day: int)

  /** Rust's `/` on signed integers truncates toward zero; Dafny's is Euclidean. */
  function Quot(a: int, b: int): int
    requires b > 0
  {
    if a >= 0 then a / b else -((-a) / b)
  }

  // ---------------------------------------------------------------------
  // The calendar, said directly
  // ---------------------------------------------------------------------

  predicate IsLeap(year: int) {
    year % 4 == 0 && (year % 100 != 0 || year % 400 == 0)
  }

  function DaysInMonth(year: int, month: int): int {
    if month == 2 then if IsLeap(year) then 29 else 28
    else if month == 4 || month == 6 || month == 9 || month == 11 then 30
    else 31
  }

  predicate IsDate(date: Date) {
    1 <= date.month <= 12 && 1 <= date.day <= DaysInMonth(date.year, date.month)
  }

  /** The day after `date`, by turning the page of a wall calendar. */
  function NextDay(date: Date): Date {
    if date.day < DaysInMonth(date.year, date.month) then date.(day := date.day + 1)
    else if date.month < 12 then Date(date.year, date.month + 1, 1)
    else Date(date.year + 1, 1, 1)
  }

  predicate Before(a: Date, b: Date) {
    || a.year < b.year
    || (a.year == b.year && a.month < b.month)
    || (a.year == b.year && a.month == b.month && a.day < b.day)
  }

  // ---------------------------------------------------------------------
  // The code
  // ---------------------------------------------------------------------

  /** Year within a 400-year era, for a day within that era. */
  function YearOfEra(doe: int): int {
    Quot(doe - Quot(doe, 1460) + Quot(doe, 36524) - Quot(doe, 146096), 365)
  }

  function CivilFromDays(days: int): Date {
    var z := days + 719468;
    var era := Quot(if z >= 0 then z else z - 146096, 146097);
    var doe := z - era * 146097;
    var yoe := YearOfEra(doe);
    var y := yoe + era * 400;
    var doy := doe - (365 * yoe + Quot(yoe, 4) - Quot(yoe, 100));
    var mp := Quot(5 * doy + 2, 153);
    var d := doy - Quot(153 * mp + 2, 5) + 1;
    var m := if mp < 10 then mp + 3 else mp - 9;
    Date(if m <= 2 then y + 1 else y, m, d)
  }

  /** The usual inverse: years counted from 1 March, so that a leap day falls last. */
  function DaysFromCivil(date: Date): int {
    var y := if date.month <= 2 then date.year - 1 else date.year;
    var era := y / 400;
    var yoe := y % 400;
    var mp := if date.month > 2 then date.month - 3 else date.month + 9;
    era * 146097 + YearStart(yoe) + MonthStart(mp) + date.day - 1 - 719468
  }

  // ---------------------------------------------------------------------
  // Years and months counted from 1 March
  // ---------------------------------------------------------------------

  /** Days of an era before its year `yoe` begins. */
  function YearStart(yoe: int): int {
    365 * yoe + yoe / 4 - yoe / 100
  }

  /** Length of a year of an era: the leap day belongs to the year that ends in it. */
  function YearLength(yoe: int): int {
    if IsLeap(yoe + 1) then 366 else 365
  }

  /** Days of a March-based year before its month `mp` begins. */
  function MonthStart(mp: int): int {
    (153 * mp + 2) / 5
  }

  lemma QuotientIs(a: int, b: int, q: int)
    requires b > 0 && b * q <= a < b * q + b
    ensures a / b == q
  {
    var gap := a / b - q;
    assert a % b == a - b * q - b * gap;
    assert gap >= 1 ==> b * gap >= b;
    assert gap <= -1 ==> b * gap <= -b;
  }

  /** Centuries, four-year cycles and years of a day of an era. */
  lemma SplitEraDay(doe: int) returns (c: int, q: int, k: int, r: int)
    requires 0 <= doe < 146097
    ensures 0 <= c < 4 && 0 <= q < 25 && 0 <= k < 4
    ensures doe == 36524 * c + 1461 * q + 365 * k + r
    ensures 0 <= r && (r < 365 || (r == 365 && k == 3 && (q == 24 ==> c == 3)))
  {
    c := if doe == 146096 then 3 else doe / 36524;
    var rc := doe - 36524 * c;
    q := rc / 1461;
    var rq := rc - 1461 * q;
    k := if rq == 1460 then 3 else rq / 365;
    r := rq - 365 * k;
  }

  lemma YearOfSplitDay(doe: int, c: int, q: int, k: int, r: int)
    requires 0 <= c < 4 && 0 <= q < 25 && 0 <= k < 4
    requires 0 <= doe < 146097 && doe == 36524 * c + 1461 * q + 365 * k + r
    requires 0 <= r && (r < 365 || (r == 365 && k == 3 && (q == 24 ==> c == 3)))
    ensures YearOfEra(doe) == 100 * c + 4 * q + k
  {
    var e := if 24 * c + q + 365 * k + r >= 1460 then 1 else 0;
    QuotientIs(doe, 1460, 25 * c + q + e);
    QuotientIs(doe, 36524, if doe == 146096 then 4 else c);
    QuotientIs(doe, 146096, if doe == 146096 then 1 else 0);
    QuotientIs(36500 * c + 1460 * q + 365 * k + r - e, 365, 100 * c + 4 * q + k);
  }

  lemma YearOfEraCorrect(doe: int)
    requires 0 <= doe < 146097
    ensures 0 <= YearOfEra(doe) < 400
    ensures 0 <= doe - YearStart(YearOfEra(doe)) < YearLength(YearOfEra(doe))
  {
    var c, q, k, r := SplitEraDay(doe);
    var t := 100 * c + 4 * q + k;
    YearOfSplitDay(doe, c, q, k, r);
    QuotientIs(t, 4, 25 * c + q);
    QuotientIs(t, 100, c);
    assert YearStart(t) == 36524 * c + 1461 * q + 365 * k;
    if r == 365 {
      assert t + 1 == 100 * c + 4 * (q + 1);
    }
  }

  /** A March-based year and a day of it, as a date. */
  function OrdinalDate(y: int, doy: int): Date {
    var mp := (5 * doy + 2) / 153;
    var m := if mp < 10 then mp + 3 else mp - 9;
    Date(if m <= 2 then y + 1 else y, m, doy - MonthStart(mp) + 1)
  }

  lemma EraIsFloor(z: int)
    ensures Quot(if z >= 0 then z else z - 146096, 146097) == z / 146097
    ensures 0 <= z - (z / 146097) * 146097 <= 146096
  {
    if z < 0 {
      var p := 146096 - z;
      QuotientIs(p, 146097, p / 146097);
      QuotientIs(z, 146097, -(p / 146097));
    }
  }

  /** Every quantity `civil_from_days` computes lies in the range its comments give. */
  lemma IntermediateRanges(days: int)
    ensures var z := days + 719468;
            var era := Quot(if z >= 0 then z else z - 146096, 146097);
            var doe := z - era * 146097;
            var yoe := YearOfEra(doe);
            var doy := doe - YearStart(yoe);
            var mp := Quot(5 * doy + 2, 153);
            && era == z / 146097
            && 0 <= doe <= 146096
            && 0 <= yoe <= 399
            && 0 <= doy <= 365
            && doy < YearLength(yoe)
            && 0 <= mp <= 11
            && CivilFromDays(days) == OrdinalDate(yoe + era * 400, doy)
  {
    var z := days + 719468;
    EraIsFloor(z);
    YearOfEraCorrect(z - (z / 146097) * 146097);
  }

  lemma MonthOfYear(y: int, doy: int)
    requires 0 <= doy < YearLength(y)
    ensures IsDate(OrdinalDate(y, doy))
    ensures DaysFromCivil(OrdinalDate(y, doy)) == MarchStart(y) + doy - 719468
  {
    EraForm(y);
  }

  /** Days before the March-based year `y`, counted from 1 March of year 0. */
  function MarchStart(y: int): int {
    365 * y + y / 4 - y / 100 + y / 400
  }

  lemma EraForm(y: int)
    ensures MarchStart(y) == (y / 400) * 146097 + YearStart(y % 400)
  {
    var e, r := y / 400, y % 400;
    QuotientIs(y, 4, 100 * e + r / 4);
    QuotientIs(y, 100, 4 * e + r / 100);
  }

  lemma QuotientSteps(n: int, b: int)
    requires b > 1
    ensures n / b == (n - 1) / b + if n % b == 0 then 1 else 0
  {
    if n % b == 0 {
      QuotientIs(n - 1, b, n / b - 1);
    } else {
      QuotientIs(n - 1, b, n / b);
    }
  }

  lemma NextMarch(y: int)
    ensures MarchStart(y + 1) == MarchStart(y) + YearLength(y)
  {
    var n := y + 1;
    QuotientSteps(n, 4);
    QuotientSteps(n, 100);
    QuotientSteps(n, 400);
    if n % 100 == 0 {
      QuotientIs(n, 4, 25 * (n / 100));
    }
    if n % 400 == 0 {
      QuotientIs(n, 100, 4 * (n / 400));
    }
  }

  lemma {:induction false} YearsDoNotOverlap(a: int, b: int)
    requires a < b
    ensures MarchStart(a) + YearLength(a) <= MarchStart(b)
    decreases b - a
  {
    NextMarch(b - 1);
    if a < b - 1 {
      YearsDoNotOverlap(a, b - 1);
    }
  }

  /** The March-based year holding `date`, and the day of that year. */
  function MarchYear(date: Date): int {
    if date.month <= 2 then date.year - 1 else date.year
  }

  function MarchDay(date: Date): int {
    MonthStart(if date.month > 2 then date.month - 3 else date.month + 9) + date.day - 1
  }

  lemma DayCount(date: Date)
    requires IsDate(date)
    ensures 0 <= MarchDay(date) < YearLength(MarchYear(date))
    ensures DaysFromCivil(date) == MarchStart(MarchYear(date)) + MarchDay(date) - 719468
    ensures OrdinalDate(MarchYear(date), MarchDay(date)) == date
  {
    EraForm(MarchYear(date));
  }

  // ---------------------------------------------------------------------
  // Main results
  // ---------------------------------------------------------------------

  /** A year of an era is like the same year of the first. */
  lemma YearOfAnyEra(yoe: int, era: int)
    requires 0 <= yoe <= 399
    ensures YearLength(yoe + era * 400) == YearLength(yoe)
    ensures MarchStart(yoe + era * 400) == era * 146097 + YearStart(yoe)
  {
    var y := yoe + era * 400;
    LeapPeriod(y + 1, yoe + 1, era);
    QuotientIs(y, 400, era);
    EraForm(y);
  }

  /** The March-based year and day `civil_from_days` works out on the way. */
  lemma Anatomy(days: int) returns (y: int, doy: int)
    ensures CivilFromDays(days) == OrdinalDate(y, doy)
    ensures 0 <= doy < YearLength(y)
    ensures days == MarchStart(y) + doy - 719468
  {
    IntermediateRanges(days);
    var era := (days + 719468) / 146097;
    var doe := days + 719468 - era * 146097;
    var yoe := YearOfEra(doe);
    y, doy := yoe + era * 400, doe - YearStart(yoe);
    YearOfAnyEra(yoe, era);
  }

  /** Every day number has a valid date, and the date gives the day number back. */
  lemma CivilRoundTrip(days: int)
    ensures IsDate(CivilFromDays(days))
    ensures DaysFromCivil(CivilFromDays(days)) == days
  {
    var y, doy := Anatomy(days);
    MonthOfYear(y, doy);
  }

  lemma LeapPeriod(a: int, b: int, e: int)
    requires a == b + 400 * e
    ensures IsLeap(a) == IsLeap(b)
  {
    assert a % 4 == b % 4 by { QuotientIs(a, 4, b / 4 + 100 * e); }
    assert a % 100 == b % 100 by { QuotientIs(a, 100, b / 100 + 4 * e); }
    assert a % 400 == b % 400 by { QuotientIs(a, 400, b / 400 + e); }
  }

  lemma OrdinalsAreUnique(y: int, d: int, y': int, d': int)
    requires 0 <= d < YearLength(y) && 0 <= d' < YearLength(y')
    requires MarchStart(y) + d == MarchStart(y') + d'
    ensures y == y' && d == d'
  {
    if y < y' {
      YearsDoNotOverlap(y, y');
    } else if y' < y {
      YearsDoNotOverlap(y', y);
    }
  }

  /** Two valid dates with one day number are one date. */
  lemma DayNumberIsInjective(a: Date, b: Date)
    requires IsDate(a) && IsDate(b)
    requires DaysFromCivil(a) == DaysFromCivil(b)
    ensures a == b
  {
    DayCount(a);
    DayCount(b);
    OrdinalsAreUnique(MarchYear(a), MarchDay(a), MarchYear(b), MarchDay(b));
  }

  /** The other way round: every valid date is the date of its day number. */
  lemma DateRoundTrip(date: Date)
    requires IsDate(date)
    ensures CivilFromDays(DaysFromCivil(date)) == date
  {
    CivilRoundTrip(DaysFromCivil(date));
    DayNumberIsInjective(CivilFromDays(DaysFromCivil(date)), date);
  }

  /** Turning the page moves one day on in the March-based year, or to the first day of the next. */
  lemma NextMarchDay(date: Date)
    requires IsDate(date)
    ensures IsDate(NextDay(date))
    ensures if date.month == 2 && date.day == DaysInMonth(date.year, 2)
            then && MarchYear(NextDay(date)) == MarchYear(date) + 1
                 && MarchDay(NextDay(date)) == 0 && MarchDay(date) == YearLength(MarchYear(date)) - 1
            else && MarchYear(NextDay(date)) == MarchYear(date)
                 && MarchDay(NextDay(date)) == MarchDay(date) + 1
  {
  }

  lemma NextDayCounts(date: Date)
    requires IsDate(date)
    ensures IsDate(NextDay(date))
    ensures DaysFromCivil(NextDay(date)) == DaysFromCivil(date) + 1
  {
    NextMarchDay(date);
    DayCount(date);
    DayCount(NextDay(date));
    NextMarch(MarchYear(date));
  }

  lemma ConsecutiveDates(today: Date, tomorrow: Date)
    requires IsDate(today) && IsDate(tomorrow)
    requires DaysFromCivil(tomorrow) == DaysFromCivil(today) + 1
    ensures tomorrow == NextDay(today)
    ensures Before(today, tomorrow)
  {
    NextDayCounts(today);
    DayNumberIsInjective(tomorrow, NextDay(today));
  }

  lemma EpochDate()
    ensures CivilFromDays(0) == Date(1970, 1, 1)
  {
    assert Quot(719468, 146097) == 4 && YearOfEra(135080) == 369;
  }

  /** Each day number's date is the calendar successor of its predecessor's. */
  lemma CivilFollowsTheCalendar(days: int)
    ensures CivilFromDays(days + 1) == NextDay(CivilFromDays(days))
  {
    CivilRoundTrip(days);
    CivilRoundTrip(days + 1);
    ConsecutiveDates(CivilFromDays(days), CivilFromDays(days + 1));
  }

  /** Day numbers and dates run in the same order. */
  lemma {:induction false} CivilIsMonotone(a: int, b: int)
    requires a < b
    ensures Before(CivilFromDays(a), CivilFromDays(b))
    decreases b - a
  {
    CivilRoundTrip(b - 1);
    CivilRoundTrip(b);
    ConsecutiveDates(CivilFromDays(b - 1), CivilFromDays(b));
    if a < b - 1 {
      CivilIsMonotone(a, b - 1);
    }
  }
}
