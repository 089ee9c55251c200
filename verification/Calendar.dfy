/** The calendar behind timestamps: the readings that count as valid are exactly the moments of the
    proleptic Gregorian calendar, each at every offset. */
module Calendar {
  import opened Model
  import opened Cursor

  /** 1 if k divides the year. */
  function Every(k: nat, year: int): int
    requires k > 0
  {
    if year % k == 0 then 1 else 0
  }

  lemma Fours(year: nat)
    ensures year / 4 == (year - 1) / 4 + Every(4, year)
  {
  }

  lemma Hundreds(year: nat)
    ensures year / 100 == (year - 1) / 100 + Every(100, year)
  {
  }

  lemma FourHundreds(year: nat)
    ensures year / 400 == (year - 1) / 400 + Every(400, year)
  {
  }

  /** A multiple of j * k is one of k. */
  lemma Divides(year: nat, j: nat, k: nat)
    requires (j == 25 && k == 4) || (j == 4 && k == 100)
    ensures year % (j * k) == 0 ==> year % k == 0
  {
    if year % (j * k) == 0 {
      var q := year / (j * k);
      assert year == k * (j * q);
    }
  }

  /** A leap day every fourth year, but every hundredth, but every four hundredth. */
  lemma FebruaryLength(year: nat)
    ensures DaysIn(2, year) == 28 + Every(4, year) - Every(100, year) + Every(400, year)
  {
    Divides(year, 25, 4);
    Divides(year, 4, 100);
  }

  lemma BeforeJune(year: nat)
    ensures DaysBeforeMonth(2, year) == 31
    ensures DaysBeforeMonth(3, year) == 31 + DaysIn(2, year)
    ensures DaysBeforeMonth(4, year) == 62 + DaysIn(2, year)
    ensures DaysBeforeMonth(5, year) == 92 + DaysIn(2, year)
    ensures DaysBeforeMonth(6, year) == 123 + DaysIn(2, year)
  {
    assert DaysBeforeMonth(1, year) == 0;
    assert DaysBeforeMonth(2, year) == DaysBeforeMonth(1, year) + 31;
    assert DaysBeforeMonth(3, year) == DaysBeforeMonth(2, year) + DaysIn(2, year);
    assert DaysBeforeMonth(4, year) == DaysBeforeMonth(3, year) + 31;
    assert DaysBeforeMonth(5, year) == DaysBeforeMonth(4, year) + 30;
    assert DaysBeforeMonth(6, year) == DaysBeforeMonth(5, year) + 31;
  }

  lemma BeforeOctober(year: nat)
    ensures DaysBeforeMonth(7, year) == 153 + DaysIn(2, year)
    ensures DaysBeforeMonth(8, year) == 184 + DaysIn(2, year)
    ensures DaysBeforeMonth(9, year) == 215 + DaysIn(2, year)
    ensures DaysBeforeMonth(10, year) == 245 + DaysIn(2, year)
  {
    BeforeJune(year);
    assert DaysBeforeMonth(7, year) == DaysBeforeMonth(6, year) + 30;
    assert DaysBeforeMonth(8, year) == DaysBeforeMonth(7, year) + 31;
    assert DaysBeforeMonth(9, year) == DaysBeforeMonth(8, year) + 31;
    assert DaysBeforeMonth(10, year) == DaysBeforeMonth(9, year) + 30;
  }

  lemma BeforeNewYear(year: nat)
    ensures DaysBeforeMonth(11, year) == 276 + DaysIn(2, year)
    ensures DaysBeforeMonth(12, year) == 306 + DaysIn(2, year)
    ensures DaysBeforeMonth(13, year) == 337 + DaysIn(2, year)
  {
    BeforeOctober(year);
    assert DaysBeforeMonth(11, year) == DaysBeforeMonth(10, year) + 31;
    assert DaysBeforeMonth(12, year) == DaysBeforeMonth(11, year) + 30;
    assert DaysBeforeMonth(13, year) == DaysBeforeMonth(12, year) + 31;
  }

  /** The leap days before a year, with year 0 a leap year. */
  function LeapDays(year: int): int {
    (year - 1) / 4 - (year - 1) / 100 + (year - 1) / 400 + 1
  }

  lemma LeapDaysNext(year: nat)
    ensures LeapDays(year + 1) == LeapDays(year) + Every(4, year) - Every(100, year) + Every(400, year)
  {
    Fours(year);
    Hundreds(year);
    FourHundreds(year);
  }

  lemma YearLength(year: nat)
    ensures DaysBeforeYear(year + 1) == DaysBeforeYear(year) + 365 + Every(4, year) - Every(100, year) + Every(400, year)
  {
    BeforeNewYear(year);
    FebruaryLength(year);
  }

  /** The leap days are counted once a year. */
  lemma CountNext(year: nat, days: int, leaps: int)
    requires days == DaysBeforeYear(year) && leaps == LeapDays(year) && days == 365 * year + leaps
    ensures DaysBeforeYear(year + 1) == 365 * (year + 1) + LeapDays(year + 1)
  {
    var more := Every(4, year) - Every(100, year) + Every(400, year);
    assert DaysBeforeYear(year + 1) == days + 365 + more by { YearLength(year); }
    assert LeapDays(year + 1) == leaps + more by { LeapDaysNext(year); }
  }

  lemma {:induction false} YearsInDays(year: nat)
    ensures DaysBeforeYear(year) == 365 * year + LeapDays(year)
  {
    if year > 0 {
      YearsInDays(year - 1);
      CountNext(year - 1, DaysBeforeYear(year - 1), LeapDays(year - 1));
    }
  }

  /** The day number by the year that begins in March, where the leap day comes last and the months
      follow one linear rule. */
  function MarchDays(year: nat, month: nat, day: nat): int {
    var y: int := if month <= 2 then year - 1 else year;
    var m := (month + 9) % 12;
    365 * y + y / 4 - y / 100 + y / 400 + (153 * m + 2) / 5 + day
  }

  lemma JanuaryAndFebruary(t: Stamp)
    requires Valid(t) && t.month <= 2
    ensures DayNumber(t) == MarchDays(t.year, t.month, t.day) + 60
  {
    YearsInDays(t.year);
    BeforeJune(t.year);
    assert t.month == 1 || t.month == 2;
  }

  lemma MarchToSeptember(t: Stamp)
    requires Valid(t) && 3 <= t.month <= 9
    ensures DayNumber(t) == MarchDays(t.year, t.month, t.day) + 60
  {
    YearsInDays(t.year);
    FebruaryLength(t.year);
    Fours(t.year);
    Hundreds(t.year);
    FourHundreds(t.year);
    BeforeOctober(t.year);
    BeforeJune(t.year);
    assert t.month == 3 || t.month == 4 || t.month == 5 || t.month == 6 || t.month == 7 || t.month == 8 || t.month == 9;
  }

  lemma OctoberToDecember(t: Stamp)
    requires Valid(t) && t.month >= 10
    ensures DayNumber(t) == MarchDays(t.year, t.month, t.day) + 60
  {
    YearsInDays(t.year);
    FebruaryLength(t.year);
    Fours(t.year);
    Hundreds(t.year);
    FourHundreds(t.year);
    BeforeOctober(t.year);
    BeforeNewYear(t.year);
    assert t.month == 10 || t.month == 11 || t.month == 12;
  }

  /** The day count of the model is the Gregorian one, by a form that knows no month lengths. */
  lemma DayNumberIsGregorian(t: Stamp)
    requires Valid(t)
    ensures DayNumber(t) == MarchDays(t.year, t.month, t.day) + 60
  {
    if t.month <= 2 {
      JanuaryAndFebruary(t);
    } else if t.month <= 9 {
      MarchToSeptember(t);
    } else {
      OctoberToDecember(t);
    }
  }

  lemma PastCenturies(a: int)
    ensures (a + 400) / 4 == a / 4 + 100
    ensures (a + 400) / 100 == a / 100 + 4
    ensures (a + 400) / 400 == a / 400 + 1
  {
  }

  /** The calendar repeats every four hundred years. */
  lemma FourCenturies(year: nat)
    ensures DaysBeforeYear(year + 400) == DaysBeforeYear(year) + 146_097
  {
    YearsInDays(year);
    YearsInDays(year + 400);
    PastCenturies(year - 1);
  }

  lemma {:induction false} YearOf(n: nat, from: nat) returns (year: nat)
    requires DaysBeforeYear(from) < n
    ensures DaysBeforeYear(year) < n <= DaysBeforeYear(year + 1)
    decreases n - DaysBeforeYear(from)
  {
    if n <= DaysBeforeYear(from + 1) {
      year := from;
    } else {
      BeforeNewYear(from);
      year := YearOf(n, from + 1);
    }
  }

  lemma {:induction false} MonthOf(n: nat, year: nat, from: nat) returns (month: nat)
    requires 1 <= from <= 12 && DaysBeforeMonth(from, year) < n <= DaysBeforeMonth(13, year)
    ensures 1 <= month <= 12 && DaysBeforeMonth(month, year) < n <= DaysBeforeMonth(month + 1, year)
    decreases 13 - from
  {
    if n <= DaysBeforeMonth(from + 1, year) {
      month := from;
    } else {
      month := MonthOf(n, year, from + 1);
    }
  }

  /** No day is missing: every number from the first day on is the number of a valid date. */
  lemma EveryDay(n: nat) returns (year: nat, month: nat, day: nat)
    requires n >= 1
    ensures 1 <= month <= 12 && 1 <= day <= DaysIn(month, year)
    ensures DaysBeforeYear(year) + DaysBeforeMonth(month, year) + day == n
  {
    year := YearOf(n, 0);
    month := MonthOf(n - DaysBeforeYear(year), year, 1);
    day := n - DaysBeforeYear(year) - DaysBeforeMonth(month, year);
  }

  const DAY: nat := 86_400_000_000_000

  /** Every time of day is a reading of the clock. */
  lemma EveryClock(r: nat) returns (hour: nat, minute: nat, second: nat, nanos: nat)
    requires r < DAY
    ensures hour < 24 && minute < 60 && second < 60 && nanos < 1_000_000_000
    ensures ((hour * 60 + minute) * 60 + second) * 1_000_000_000 + nanos == r
  {
    var seconds := r / 1_000_000_000;
    var minutes := seconds / 60;
    hour, minute, second, nanos := minutes / 60, minutes % 60, seconds % 60, r % 1_000_000_000;
    assert seconds == minutes * 60 + second;
    assert minutes == hour * 60 + minute;
    assert r == seconds * 1_000_000_000 + nanos;
    assert seconds < 86_400;
    assert minutes < 1_440;
  }

  /** No moment is missing: from the first day on, every instant has a valid reading at every offset
      of less than a day. */
  lemma EveryInstant(instant: int, offset: int) returns (t: Stamp)
    requires -1440 < offset < 1440 && instant + offset * 60_000_000_000 >= DAY
    ensures Valid(t) && t.offset == offset && Instant(t) == instant
  {
    var local: nat := instant + offset * 60_000_000_000;
    var year, month, day := EveryDay(local / DAY);
    var hour, minute, second, nanos := EveryClock(local % DAY);
    t := Stamp(year, month, day, hour, minute, second, nanos, offset);
    assert DayNumber(t) == local / DAY;
    assert OfDay(t) == local % DAY;
    InstantParts(t);
    assert local == local / DAY * DAY + local % DAY;
  }

  /** And none has two: with one offset a reading is determined by its instant. */
  lemma OneReading(a: Stamp, b: Stamp)
    requires Valid(a) && Valid(b) && a.offset == b.offset && Instant(a) == Instant(b)
    ensures a == b
  {
    InstantOrder(a, b);
    InstantOrder(b, a);
    assert a.year == b.year && a.month == b.month && a.day == b.day;
  }
}
