/**
 `iso8601`, the timestamp a task is created and listed under, and the fact that
 `tasks/list` rests on: sorting the strings sorts the instants.
 */
module Timestamps {
  import opened Text
  import opened Calendar

  const NANOS_PER_SECOND: nat := 1_000_000_000

  /** The first second of the year 10000, where a year stops fitting four digits. */
  const YEAR_10000: nat := 253_402_300_800

  /** Seconds since the epoch of an instant in nanoseconds; an earlier one reads as 0. */
  function WholeSeconds(instant: int): nat {
    if instant < 0 then 0 else instant / NANOS_PER_SECOND
  }

  function Iso8601(instant: int): string {
    Stamp(WholeSeconds(instant))
  }

  lemma CivilSinceEpoch(days: nat)
    ensures CivilFromDays(days).year >= 1970
    ensures 1 <= CivilFromDays(days).month <= 12
    ensures 1 <= CivilFromDays(days).day <= 31
  {
    EpochDate();
    CivilRoundTrip(days);
    if days > 0 {
      CivilIsMonotone(0, days);
    }
  }

  /** `{:04}-{:02}-{:02}T{:02}:{:02}:{:02}Z` */
  function Stamp(total: nat): string {
    CivilSinceEpoch(total / 86400);
    Dated(CivilFromDays(total / 86400), ClockAt(total % 86400))
  }

  function Field(n: nat, width: nat, mark: char, rest: string): string {
    ZeroPad(n, width) + ([mark] + rest)
  }

  lemma FieldOrder(a: nat, b: nat, width: nat, mark: char, x: string, y: string)
    requires width > 0 && a < Pow10(width) && b < Pow10(width)
    ensures |Field(a, width, mark, x)| == width + 1 + |x|
    ensures Less(Field(a, width, mark, x), Field(b, width, mark, y)) <==>
            a < b || (a == b && Less(x, y))
  {
    ZeroPadOrder(a, b, width);
    LessOfConcat(ZeroPad(a, width), ZeroPad(b, width), [mark] + x, [mark] + y);
    LessOfConcat([mark], [mark], x, y);
  }

  /** The clock reading a stamp shows, without the date. */
  function Clock(hour: nat, minute: nat, second: nat): string {
    Field(hour, 2, ':', Field(minute, 2, ':', Field(second, 2, 'Z', "")))
  }

  function ClockAt(sod: nat): string {
    Clock(sod / 3600, sod % 3600 / 60, sod % 60)
  }

  lemma ClockOrder(h: nat, m: nat, s: nat, h': nat, m': nat, s': nat)
    requires h < 100 && m < 100 && s < 100 && h' < 100 && m' < 100 && s' < 100
    ensures |Clock(h, m, s)| == 9
    ensures Less(Clock(h, m, s), Clock(h', m', s')) <==>
            h < h' || (h == h' && (m < m' || (m == m' && s < s')))
  {
    assert Pow10(2) == 100;
    var x, y := Field(s, 2, 'Z', ""), Field(s', 2, 'Z', "");
    FieldOrder(s, s', 2, 'Z', "", "");
    FieldOrder(m, m', 2, ':', x, y);
    FieldOrder(h, h', 2, ':', Field(m, 2, ':', x), Field(m', 2, ':', y));
  }

  lemma SecondsOfDay(sod: nat) returns (h: nat, m: nat, s: nat)
    requires sod < 86400
    ensures h == sod / 3600 && m == sod % 3600 / 60 && s == sod % 60
    ensures h < 24 && m < 60 && s < 60 && sod == 3600 * h + 60 * m + s
  {
    h, m, s := sod / 3600, sod % 3600 / 60, sod % 60;
    var r := sod - 3600 * h;
    assert r == 60 * m + r % 60;
    QuotientIs(sod, 60, 60 * h + m);
  }

  lemma ClockAtOrder(a: nat, b: nat)
    requires a < 86400 && b < 86400
    ensures |ClockAt(a)| == 9
    ensures Less(ClockAt(a), ClockAt(b)) <==> a < b
  {
    var h, m, s := SecondsOfDay(a);
    var h', m', s' := SecondsOfDay(b);
    ClockOrder(h, m, s, h', m', s');
  }

  function Dated(date: Date, rest: string): string
    requires date.year >= 0 && date.month >= 0 && date.day >= 0
  {
    Field(date.year, 4, '-', Field(date.month, 2, '-', Field(date.day, 2, 'T', rest)))
  }

  predicate Printable(date: Date) {
    0 <= date.year < 10000 && 1 <= date.month <= 12 && 1 <= date.day <= 31
  }

  lemma DatedOrder(a: Date, b: Date, x: string, y: string)
    requires Printable(a) && Printable(b)
    ensures |Dated(a, x)| == 11 + |x|
    ensures Less(Dated(a, x), Dated(b, y)) <==> Before(a, b) || (a == b && Less(x, y))
  {
    assert Pow10(2) == 100 && Pow10(4) == 10000;
    FieldOrder(a.day, b.day, 2, 'T', x, y);
    FieldOrder(a.month, b.month, 2, '-', Field(a.day, 2, 'T', x), Field(b.day, 2, 'T', y));
    FieldOrder(a.year, b.year, 4, '-',
               Field(a.month, 2, '-', Field(a.day, 2, 'T', x)),
               Field(b.month, 2, '-', Field(b.day, 2, 'T', y)));
  }

  lemma FirstUnprintableDay()
    ensures CivilFromDays(2932897) == Date(10000, 1, 1)
  {
    assert Quot(3652365, 146097) == 24 && YearOfEra(146037) == 399;
  }

  lemma CivilIsPrintable(days: nat)
    requires days < YEAR_10000 / 86400
    ensures Printable(CivilFromDays(days))
  {
    CivilSinceEpoch(days);
    FirstUnprintableDay();
    CivilIsMonotone(days, 2932897);
  }

  /** Strings sort as seconds do, for every second before the year 10000. */
  lemma StampOrder(a: nat, b: nat)
    requires a < YEAR_10000 && b < YEAR_10000
    ensures |Stamp(a)| == 20
    ensures Less(Stamp(a), Stamp(b)) <==> a < b
    ensures Stamp(a) == Stamp(b) <==> a == b
  {
    StampLess(a, b);
    StampLess(b, a);
    if Stamp(a) == Stamp(b) {
      if Less(Stamp(a), Stamp(b)) {
        LessIsAsymmetric(Stamp(a), Stamp(b));
      }
    }
  }

  lemma DatedClockOrder(p: Date, q: Date, i: int, j: int, s: nat, t: nat)
    requires Printable(p) && Printable(q) && s < 86400 && t < 86400
    requires i < j ==> Before(p, q)
    requires j < i ==> Before(q, p)
    requires i == j ==> p == q
    ensures |Dated(p, ClockAt(s))| == 20
    ensures Less(Dated(p, ClockAt(s)), Dated(q, ClockAt(t))) <==> i < j || (i == j && s < t)
  {
    ClockAtOrder(s, t);
    DatedOrder(p, q, ClockAt(s), ClockAt(t));
  }

  lemma StampLess(a: nat, b: nat)
    requires a < YEAR_10000 && b < YEAR_10000
    ensures |Stamp(a)| == 20
    ensures Less(Stamp(a), Stamp(b)) <==> a < b
  {
    var i, j := a / 86400, b / 86400;
    CivilIsPrintable(i);
    CivilIsPrintable(j);
    if i < j {
      CivilIsMonotone(i, j);
    } else if j < i {
      CivilIsMonotone(j, i);
    }
    DatedClockOrder(CivilFromDays(i), CivilFromDays(j), i, j, a % 86400, b % 86400);
  }

  // ---------------------------------------------------------------------
  // Reading a stamp
  // ---------------------------------------------------------------------

  /** The characters of `s` from `first` up to `last` are digits and denote `n`. */
  predicate Denotes(s: string, first: nat, last: nat, n: nat) {
    && first <= last <= |s|
    && (forall c :: c in s[first..last] ==> IsDigit(c))
    && Value(s[first..last]) == n
  }

  /** `s` is `YYYY-MM-DDThh:mm:ssZ`, section 5.6 of RFC 3339, with these numbers in it. */
  predicate ReadsAs(s: string, date: Date, hour: nat, minute: nat, second: nat) {
    && |s| == 20 && date.year >= 0 && date.month >= 0 && date.day >= 0
    && s[4] == '-' && s[7] == '-' && s[10] == 'T' && s[13] == ':' && s[16] == ':' && s[19] == 'Z'
    && Denotes(s, 0, 4, date.year) && Denotes(s, 5, 7, date.month) && Denotes(s, 8, 10, date.day)
    && Denotes(s, 11, 13, hour) && Denotes(s, 14, 16, minute) && Denotes(s, 17, 19, second)
  }

  /** A field at the front of what is left of a string. */
  lemma FieldReads(s: string, at: nat, n: nat, width: nat, mark: char, rest: string)
    requires width > 0 && n < Pow10(width) && at <= |s| && s[at..] == Field(n, width, mark, rest)
    ensures |s| == at + width + 1 + |rest|
    ensures Denotes(s, at, at + width, n) && s[at + width] == mark && s[at + width + 1..] == rest
  {
    ZeroPadValue(n, width);
    var field := s[at..];
    assert field[..width] == ZeroPad(n, width) == s[at..at + width];
    assert field[width] == mark && field[width + 1..] == rest;
  }

  lemma ClockReads(s: string, hour: nat, minute: nat, second: nat)
    requires hour < 100 && minute < 100 && second < 100
    requires |s| >= 11 && s[11..] == Clock(hour, minute, second)
    ensures |s| == 20 && s[13] == ':' && s[16] == ':' && s[19] == 'Z'
    ensures Denotes(s, 11, 13, hour) && Denotes(s, 14, 16, minute) && Denotes(s, 17, 19, second)
  {
    assert Pow10(2) == 100;
    var seconds := Field(second, 2, 'Z', "");
    FieldReads(s, 11, hour, 2, ':', Field(minute, 2, ':', seconds));
    FieldReads(s, 14, minute, 2, ':', seconds);
    FieldReads(s, 17, second, 2, 'Z', "");
  }

  lemma DatedReads(s: string, date: Date, rest: string)
    requires Printable(date) && s == Dated(date, rest)
    ensures |s| == 11 + |rest| && s[11..] == rest
    ensures s[4] == '-' && s[7] == '-' && s[10] == 'T'
    ensures Denotes(s, 0, 4, date.year) && Denotes(s, 5, 7, date.month) && Denotes(s, 8, 10, date.day)
  {
    assert Pow10(2) == 100 && Pow10(4) == 10000 && s[0..] == s;
    var day := Field(date.day, 2, 'T', rest);
    FieldReads(s, 0, date.year, 4, '-', Field(date.month, 2, '-', day));
    FieldReads(s, 5, date.month, 2, '-', day);
    FieldReads(s, 8, date.day, 2, 'T', rest);
  }

  /**
   A stamp says when it was made: read digit by digit it is a date of the calendar
   and a time of day, and that day's number and that time come to the very second.
   */
  lemma StampReadsBack(total: nat) returns (date: Date, hour: nat, minute: nat, second: nat)
    requires total < YEAR_10000
    ensures ReadsAs(Stamp(total), date, hour, minute, second)
    ensures IsDate(date) && hour < 24 && minute < 60 && second < 60
    ensures 86400 * DaysFromCivil(date) + 3600 * hour + 60 * minute + second == total
  {
    var days, sod := total / 86400, total % 86400;
    date := CivilFromDays(days);
    CivilIsPrintable(days);
    CivilRoundTrip(days);
    hour, minute, second := SecondsOfDay(sod);
    DatedReads(Stamp(total), date, ClockAt(sod));
    ClockReads(Stamp(total), hour, minute, second);
  }

  /** `iso8601` shows the last whole second not after its instant; before the epoch, the epoch. */
  lemma IsoShowsTheSecond(instant: int)
    requires instant < YEAR_10000 * NANOS_PER_SECOND
    ensures exists total: nat ::
              && total < YEAR_10000 && Iso8601(instant) == Stamp(total)
              && (instant < 0 ==> total == 0)
              && (instant >= 0 ==>
                    total * NANOS_PER_SECOND <= instant < (total + 1) * NANOS_PER_SECOND)
  {
    var total := WholeSeconds(instant);
    assert Iso8601(instant) == Stamp(total);
  }
}
