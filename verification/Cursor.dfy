/** The opaque pagination cursor: a timestamp in RFC 3339 with up to nine fractional digits, a
    bar, the row's ID, all in base64. */
module Cursor {
  import opened Model
  import opened Base64

  /** A wall-clock reading with its offset from UTC in minutes. */
  datatype Stamp = Stamp(
    year: nat, month: nat, day: nat, hour: nat, minute: nat, second: nat, nanos: nat, offset: int)

  function DaysIn(month: nat, year: nat): nat {
    if month == 2 then (if year % 4 == 0 && (year % 100 != 0 || year % 400 == 0) then 29 else 28)
    else if month == 4 || month == 6 || month == 9 || month == 11 then 30
    else 31
  }

  predicate Valid(t: Stamp) {
    && 1 <= t.month <= 12 && 1 <= t.day <= DaysIn(t.month, t.year)
    && t.hour < 24 && t.minute < 60 && t.second < 60 && t.nanos < 1_000_000_000
    && -1440 < t.offset < 1440
  }

  /** The days of a year before one of its months; before the thirteenth, all of them. */
  function DaysBeforeMonth(month: nat, year: nat): nat {
    if month <= 1 then 0 else DaysBeforeMonth(month - 1, year) + DaysIn(month - 1, year)
  }

  function DaysBeforeYear(year: nat): nat {
    if year == 0 then 0 else DaysBeforeYear(year - 1) + DaysBeforeMonth(13, year - 1)
  }

  function DayNumber(t: Stamp): nat {
    DaysBeforeYear(t.year) + DaysBeforeMonth(t.month, t.year) + t.day
  }

  /** The moment a reading names, in nanoseconds: two readings of one moment with different offsets
      are the same instant. */
  function Instant(t: Stamp): int {
    (((DayNumber(t) * 1440 + t.hour * 60 + t.minute) - t.offset) * 60 + t.second) * 1_000_000_000 + t.nanos
  }

  lemma {:induction false} MonthsGrow(a: nat, b: nat, year: nat)
    requires 1 <= a < b
    ensures DaysBeforeMonth(a, year) + DaysIn(a, year) <= DaysBeforeMonth(b, year)
  {
    if a + 1 < b { MonthsGrow(a, b - 1, year); }
  }

  lemma {:induction false} YearsGrow(a: nat, b: nat)
    requires a < b
    ensures DaysBeforeYear(a) + DaysBeforeMonth(13, a) <= DaysBeforeYear(b)
  {
    if a + 1 < b { YearsGrow(a, b - 1); }
  }

  predicate EarlierDate(a: Stamp, b: Stamp) {
    a.year < b.year || (a.year == b.year && (a.month < b.month || (a.month == b.month && a.day < b.day)))
  }

  lemma DatesGrow(a: Stamp, b: Stamp)
    requires Valid(a) && Valid(b) && EarlierDate(a, b)
    ensures DayNumber(a) < DayNumber(b)
  {
    if a.year < b.year {
      YearsGrow(a.year, b.year);
      MonthsGrow(a.month, 13, a.year);
    } else if a.month < b.month {
      MonthsGrow(a.month, b.month, a.year);
    }
  }

  function OfDay(t: Stamp): nat
    requires Valid(t)
  {
    ((t.hour * 60 + t.minute) * 60 + t.second) * 1_000_000_000 + t.nanos
  }

  lemma InstantParts(t: Stamp)
    requires Valid(t)
    ensures Instant(t) == DayNumber(t) * 86_400_000_000_000 + OfDay(t) - t.offset * 60_000_000_000
    ensures OfDay(t) < 86_400_000_000_000
  {
  }

  /** Readings with one offset are ordered as they are read: by date, then by clock. */
  lemma InstantOrder(a: Stamp, b: Stamp)
    requires Valid(a) && Valid(b) && a.offset == b.offset
    ensures Instant(a) < Instant(b) <==>
            EarlierDate(a, b) || (!EarlierDate(b, a) && OfDay(a) < OfDay(b))
  {
    InstantParts(a);
    InstantParts(b);
    if EarlierDate(a, b) {
      DatesGrow(a, b);
    } else if EarlierDate(b, a) {
      DatesGrow(b, a);
    }
  }

  function Pow10(n: nat): (p: nat)
    ensures p >= 1
  {
    if n == 0 then 1 else 10 * Pow10(n - 1)
  }

  predicate IsDigit(c: char) {
    '0' <= c <= '9'
  }

  function Digit(n: nat): char
    requires n < 10
  {
    (48 + n) as char
  }

  function DigitValue(c: char): nat
    requires IsDigit(c)
  {
    c as int - 48
  }

  predicate AllDigits(s: string) {
    forall k :: 0 <= k < |s| ==> IsDigit(s[k])
  }

  /** The last `width` decimal digits of n. */
  function Fixed(n: nat, width: nat): (s: string)
    ensures |s| == width && AllDigits(s)
  {
    if width == 0 then "" else Fixed(n / 10, width - 1) + [Digit(n % 10)]
  }

  /** All decimal digits of n. */
  function Digits(n: nat): (s: string)
    ensures |s| > 0 && AllDigits(s)
  {
    if n < 10 then [Digit(n)] else Digits(n / 10) + [Digit(n % 10)]
  }

  function ValueOfDigits(s: string): nat
    requires AllDigits(s)
  {
    if s == "" then 0 else ValueOfDigits(s[..|s| - 1]) * 10 + DigitValue(s[|s| - 1])
  }

  lemma {:induction false} FixedValue(n: nat, width: nat)
    requires n < Pow10(width)
    ensures ValueOfDigits(Fixed(n, width)) == n
  {
    if width > 0 {
      FixedValue(n / 10, width - 1);
      assert Fixed(n, width)[..width - 1] == Fixed(n / 10, width - 1);
    }
  }

  lemma {:induction false} DigitsLong(n: nat, k: nat)
    requires n >= Pow10(k)
    ensures |Digits(n)| > k
  {
    if k > 0 {
      DigitsLong(n / 10, k - 1);
    }
  }

  /** Go pads the year to four digits and prints more when it needs them. */
  function PrintYear(y: nat): string {
    if y < 10_000 then Fixed(y, 4) else Digits(y)
  }

  function TrimZeros(s: string): string {
    if s != "" && s[|s| - 1] == '0' then TrimZeros(s[..|s| - 1]) else s
  }

  function Zeros(n: nat): (s: string)
    ensures |s| == n && forall k :: 0 <= k < n ==> s[k] == '0'
  {
    seq(n, _ => '0')
  }

  function PadZeros(s: string, width: nat): string {
    if |s| >= width then s else s + Zeros(width - |s|)
  }

  /** Trailing zeros of the fraction are dropped, and the point with the last of them. */
  function PrintFraction(nanos: nat): string {
    var digits := TrimZeros(Fixed(nanos, 9));
    if digits == "" then "" else "." + digits
  }

  function Abs(n: int): nat {
    if n < 0 then -n else n
  }

  function PrintOffset(n: nat): string {
    Fixed(n / 60, 2) + (":" + Fixed(n % 60, 2))
  }

  function PrintZone(offset: int): string {
    if offset == 0 then "Z" else [if offset < 0 then '-' else '+'] + PrintOffset(Abs(offset))
  }

  function PrintTail(t: Stamp): string {
    PrintFraction(t.nanos) + PrintZone(t.offset)
  }

  function PrintClock(t: Stamp): string {
    Fixed(t.hour, 2) + (":" + (Fixed(t.minute, 2) + (":" + (Fixed(t.second, 2) + PrintTail(t)))))
  }

  function Print(t: Stamp): string {
    PrintYear(t.year) + ("-" + (Fixed(t.month, 2) + ("-" + (Fixed(t.day, 2) + ("T" + PrintClock(t))))))
  }

  /** Exactly `width` digits at the front. */
  function Take(s: string, width: nat): Option<(nat, string)> {
    if |s| >= width && AllDigits(s[..width]) then Some((ValueOfDigits(s[..width]), s[width..])) else None
  }

  function Expect(s: string, c: char): Option<string> {
    if s != "" && s[0] == c then Some(s[1..]) else None
  }

  /** How many digits s starts with. */
  function DigitRun(s: string): (n: nat)
    ensures n <= |s| && AllDigits(s[..n])
  {
    if s != "" && IsDigit(s[0]) then
      assert s[..1 + DigitRun(s[1..])] == [s[0]] + s[1..][..DigitRun(s[1..])];
      1 + DigitRun(s[1..])
    else 0
  }

  /** An optional fraction; digits after the ninth are ignored. */
  function ParseFraction(s: string): (nat, string) {
    if |s| >= 2 && s[0] == '.' && IsDigit(s[1]) then
      var n := DigitRun(s[1..]);
      var digits := s[1..][..n];
      var nine := if n > 9 then digits[..9] else PadZeros(digits, 9);
      if AllDigits(nine) then (ValueOfDigits(nine), s[1..][n..]) else (0, s)
    else (0, s)
  }

  /** A two-digit field and the separator after it. */
  function Field(s: string, width: nat, separator: char): Option<(nat, string)> {
    match Take(s, width)
    case None => None
    case Some((n, rest)) =>
      match Expect(rest, separator)
      case None => None
      case Some(rest') => Some((n, rest'))
  }

  function ParseOffset(s: string): Option<int> {
    match Field(s, 2, ':')
    case None => None
    case Some((h, s1)) =>
      match Take(s1, 2)
      case None => None
      case Some((m, _)) => if h >= 24 || m >= 60 then None else Some(h * 60 + m)
  }

  function ParseZone(s: string): Option<int> {
    if s == "Z" then Some(0)
    else if |s| != 6 || (s[0] != '+' && s[0] != '-') then None
    else
      match ParseOffset(s[1..])
      case None => None
      case Some(n) => Some(if s[0] == '-' then -n else n)
  }

  function ParseClock(s: string, year: nat, month: nat, day: nat): Option<Stamp> {
    match Field(s, 2, ':')
    case None => None
    case Some((hour, s1)) =>
      match Field(s1, 2, ':')
      case None => None
      case Some((minute, s2)) =>
        match Take(s2, 2)
        case None => None
        case Some((second, s3)) =>
          var (nanos, s4) := ParseFraction(s3);
          match ParseZone(s4)
          case None => None
          case Some(offset) =>
            var t := Stamp(year, month, day, hour, minute, second, nanos, offset);
            if Valid(t) then Some(t) else None
  }

  function Parse(s: string): Option<Stamp> {
    match Field(s, 4, '-')
    case None => None
    case Some((year, s1)) =>
      match Field(s1, 2, '-')
      case None => None
      case Some((month, s2)) =>
        match Field(s2, 2, 'T')
        case None => None
        case Some((day, s3)) => ParseClock(s3, year, month, day)
  }

  lemma TakeFixed(n: nat, width: nat, rest: string)
    requires n < Pow10(width)
    ensures Take(Fixed(n, width) + rest, width) == Some((n, rest))
  {
    FixedValue(n, width);
    var s := Fixed(n, width) + rest;
    assert s[..width] == Fixed(n, width) && s[width..] == rest;
  }

  lemma FieldFixed(n: nat, width: nat, separator: char, rest: string)
    requires n < Pow10(width)
    ensures Field(Fixed(n, width) + ([separator] + rest), width, separator) == Some((n, rest))
  {
    TakeFixed(n, width, [separator] + rest);
    assert ([separator] + rest)[1..] == rest;
  }

  lemma {:induction false} PadTrim(s: string, width: nat)
    requires |s| <= width
    ensures |TrimZeros(s)| <= |s|
    ensures |s| == width ==> PadZeros(TrimZeros(s), width) == s
    ensures PadZeros(TrimZeros(s), width) == PadZeros(s, width)
    ensures AllDigits(s) ==> AllDigits(TrimZeros(s))
  {
    if s != "" && s[|s| - 1] == '0' {
      var init := s[..|s| - 1];
      PadTrim(init, width);
      assert s == init + "0";
      assert Zeros(width - |init|) == "0" + Zeros(width - |s|);
      assert PadZeros(init, width) == PadZeros(s, width);
    }
  }

  lemma {:induction false} RunOf(digits: string, rest: string)
    requires AllDigits(digits) && (rest == "" || !IsDigit(rest[0]))
    ensures DigitRun(digits + rest) == |digits|
  {
    if digits != "" {
      assert (digits + rest)[1..] == digits[1..] + rest;
      RunOf(digits[1..], rest);
    } else {
      assert digits + rest == rest;
    }
  }

  lemma {:induction false} AllZeros(n: nat)
    ensures ValueOfDigits(Zeros(n)) == 0
  {
    if n > 0 {
      AllZeros(n - 1);
      assert Zeros(n)[..n - 1] == Zeros(n - 1);
    }
  }

  lemma FractionRoundTrip(nanos: nat, zone: string)
    requires nanos < 1_000_000_000 && zone != "" && !IsDigit(zone[0]) && zone[0] != '.'
    ensures ParseFraction(PrintFraction(nanos) + zone) == (nanos, zone)
  {
    var nine := Fixed(nanos, 9);
    var digits := TrimZeros(nine);
    PadTrim(nine, 9);
    assert Pow10(9) == 1_000_000_000;
    FixedValue(nanos, 9);
    if digits == "" {
      AllZeros(9);
      assert PadZeros(digits, 9) == Zeros(9);
      assert "" + zone == zone;
    } else {
      var s := "." + digits + zone;
      assert PrintFraction(nanos) + zone == s;
      assert s[1..] == digits + zone;
      assert s[1] == digits[0];
      RunOf(digits, zone);
      assert s[1..][..|digits|] == digits && s[1..][|digits|..] == zone;
    }
  }

  lemma OffsetRoundTrip(n: nat)
    requires n < 1440
    ensures |PrintOffset(n)| == 5 && ParseOffset(PrintOffset(n)) == Some(n)
  {
    assert Pow10(2) == 100;
    FieldFixed(n / 60, 2, ':', Fixed(n % 60, 2));
    TakeFixed(n % 60, 2, "");
    assert Fixed(n % 60, 2) + "" == Fixed(n % 60, 2);
  }

  lemma ZoneRoundTrip(offset: int)
    requires -1440 < offset < 1440
    ensures ParseZone(PrintZone(offset)) == Some(offset)
    ensures var z := PrintZone(offset); z != "" && !IsDigit(z[0]) && z[0] != '.'
  {
    if offset != 0 {
      OffsetRoundTrip(Abs(offset));
      assert PrintZone(offset)[1..] == PrintOffset(Abs(offset));
    }
  }

  lemma ClockRoundTrip(t: Stamp)
    requires Valid(t)
    ensures ParseClock(PrintClock(t), t.year, t.month, t.day) == Some(t)
  {
    assert Pow10(2) == 100;
    FieldFixed(t.hour, 2, ':', Fixed(t.minute, 2) + (":" + (Fixed(t.second, 2) + PrintTail(t))));
    FieldFixed(t.minute, 2, ':', Fixed(t.second, 2) + PrintTail(t));
    TakeFixed(t.second, 2, PrintTail(t));
    ZoneRoundTrip(t.offset);
    FractionRoundTrip(t.nanos, PrintZone(t.offset));
  }

  /** Four-digit years come back as they were. */
  lemma StampRoundTrip(t: Stamp)
    requires Valid(t) && t.year < 10_000
    ensures Parse(Print(t)) == Some(t)
  {
    assert Pow10(2) == 100;
    assert Pow10(4) == 10_000;
    FieldFixed(t.year, 4, '-', Fixed(t.month, 2) + ("-" + (Fixed(t.day, 2) + ("T" + PrintClock(t)))));
    FieldFixed(t.month, 2, '-', Fixed(t.day, 2) + ("T" + PrintClock(t)));
    FieldFixed(t.day, 2, 'T', PrintClock(t));
    ClockRoundTrip(t);
  }

  /** A fifth digit stands where the parser wants the first dash. */
  lemma LongYearFails(t: Stamp)
    requires t.year >= 10_000
    ensures Parse(Print(t)) == None
  {
    assert Pow10(4) == 10_000;
    DigitsLong(t.year, 4);
    var s := Print(t);
    assert IsDigit(Digits(t.year)[4]);
    assert s[4] == Digits(t.year)[4];
    assert s[4..][0] == s[4];
  }

  predicate PlainText(s: string) {
    forall k :: 0 <= k < |s| ==> s[k] != '|' && s[k] as int < 256
  }

  lemma {:induction false} TrimPlain(s: string)
    requires PlainText(s)
    ensures PlainText(TrimZeros(s))
  {
    if s != "" && s[|s| - 1] == '0' { TrimPlain(s[..|s| - 1]); }
  }

  lemma DigitsPlain(s: string)
    requires AllDigits(s)
    ensures PlainText(s)
  {
  }

  lemma JoinPlain(a: string, b: string)
    requires PlainText(a) && PlainText(b)
    ensures PlainText(a + b)
  {
  }

  lemma PrintPlain(t: Stamp)
    ensures PlainText(Print(t))
  {
    DigitsPlain(Fixed(t.nanos, 9));
    TrimPlain(Fixed(t.nanos, 9));
    assert PlainText(PrintFraction(t.nanos));
    assert PlainText(PrintZone(t.offset)) by {
      DigitsPlain(Fixed(Abs(t.offset) / 60, 2));
      DigitsPlain(Fixed(Abs(t.offset) % 60, 2));
      assert PlainText(PrintOffset(Abs(t.offset)));
    }
    JoinPlain(PrintFraction(t.nanos), PrintZone(t.offset));
    assert PlainText(PrintClock(t)) by {
      var tail := Fixed(t.second, 2) + PrintTail(t);
      DigitsPlain(Fixed(t.second, 2));
      JoinPlain(Fixed(t.second, 2), PrintTail(t));
      DigitsPlain(Fixed(t.minute, 2));
      JoinPlain(":", tail);
      JoinPlain(Fixed(t.minute, 2), ":" + tail);
      JoinPlain(":", Fixed(t.minute, 2) + (":" + tail));
      DigitsPlain(Fixed(t.hour, 2));
      JoinPlain(Fixed(t.hour, 2), ":" + (Fixed(t.minute, 2) + (":" + tail)));
    }
    var day := Fixed(t.day, 2) + ("T" + PrintClock(t));
    DigitsPlain(Fixed(t.day, 2));
    JoinPlain("T", PrintClock(t));
    JoinPlain(Fixed(t.day, 2), "T" + PrintClock(t));
    DigitsPlain(Fixed(t.month, 2));
    JoinPlain("-", day);
    JoinPlain(Fixed(t.month, 2), "-" + day);
    JoinPlain("-", Fixed(t.month, 2) + ("-" + day));
    DigitsPlain(PrintYear(t.year));
    JoinPlain(PrintYear(t.year), "-" + (Fixed(t.month, 2) + ("-" + day)));
  }

  /** Both endpoints' encoders; the ID may be any byte string. */
  function EncodeCursor(t: Stamp, id: string): string
    requires IsBytes(id)
  {
    PrintPlain(t);
    assert IsBytes(Print(t) + "|" + id);
    Encode(Print(t) + "|" + id)
  }

  /** Where the first bar stands, or |s|. */
  function FirstBar(s: string): (n: nat)
    ensures n <= |s| && (n < |s| ==> s[n] == '|')
  {
    if s == "" || s[0] == '|' then 0 else 1 + FirstBar(s[1..])
  }

  /** decodeKeysetCursor: every malformed cursor is an invalid argument. */
  function DecodeCursor(cursor: string): Option<(Stamp, string)> {
    match Decode(cursor)
    case None => None
    case Some(raw) =>
      var bar := FirstBar(raw);
      if bar == |raw| then None
      else
        match Parse(raw[..bar])
        case None => None
        case Some(t) => Some((t, raw[bar + 1..]))
  }

  lemma {:induction false} FirstBarAt(s: string, id: string)
    requires PlainText(s)
    ensures FirstBar(s + "|" + id) == |s|
  {
    if s != "" {
      assert (s + "|" + id)[1..] == s[1..] + "|" + id;
      FirstBarAt(s[1..], id);
    }
  }

  lemma DecodedParts(t: Stamp, id: string)
    requires IsBytes(id)
    ensures DecodeCursor(EncodeCursor(t, id)) ==
            match Parse(Print(t)) case None => None case Some(t') => Some((t', id))
  {
    PrintPlain(t);
    var raw := Print(t) + "|" + id;
    assert IsBytes(raw);
    RoundTrip(raw);
    FirstBarAt(Print(t), id);
    assert raw[..|Print(t)|] == Print(t) && raw[|Print(t)| + 1..] == id;
  }

  lemma CursorNotEmpty(t: Stamp, id: string)
    requires IsBytes(id)
    ensures EncodeCursor(t, id) != ""
  {
    PrintPlain(t);
    var raw := Print(t) + "|" + id;
    assert IsBytes(raw);
    EncodedSymbols(raw);
  }

  /** A cursor comes back as the same instant and ID, bars in the ID included, exactly when the
      year has at most four digits; a longer one is refused as malformed. */
  lemma CursorRoundTripIff(t: Stamp, id: string)
    requires Valid(t) && IsBytes(id)
    ensures DecodeCursor(EncodeCursor(t, id)) == Some((t, id)) <==> t.year < 10_000
    ensures t.year >= 10_000 ==> DecodeCursor(EncodeCursor(t, id)) == None
    ensures EncodeCursor(t, id) != ""
  {
    assert EncodeCursor(t, id) != "" by { CursorNotEmpty(t, id); }
    DecodedParts(t, id);
    if t.year < 10_000 {
      StampRoundTrip(t);
    } else {
      LongYearFails(t);
    }
  }

  lemma {:induction false} DigitsValue(n: nat)
    ensures ValueOfDigits(Digits(n)) == n
  {
    if n >= 10 {
      DigitsValue(n / 10);
      assert Digits(n)[..|Digits(n)| - 1] == Digits(n / 10);
    } else {
      assert Digits(n)[..0] == "";
    }
  }

  lemma YearValue(y: nat)
    ensures AllDigits(PrintYear(y)) && ValueOfDigits(PrintYear(y)) == y
  {
    assert Pow10(4) == 10_000;
    if y < 10_000 { FixedValue(y, 4); } else { DigitsValue(y); }
  }

  /** The date without its year, and the clock. */
  function PrintRest(t: Stamp): string {
    Fixed(t.month, 2) + ("-" + (Fixed(t.day, 2) + ("T" + PrintClock(t))))
  }

  /** However long the year is, it ends at the first dash. */
  lemma YearEnds(t: Stamp)
    ensures Print(t) == PrintYear(t.year) + ("-" + PrintRest(t))
    ensures DigitRun(Print(t)) == |PrintYear(t.year)|
  {
    YearValue(t.year);
    RunOf(PrintYear(t.year), "-" + PrintRest(t));
  }

  lemma RestInjective(a: Stamp, b: Stamp)
    requires Valid(a) && Valid(b) && a.year == b.year && PrintRest(a) == PrintRest(b)
    ensures a == b
  {
    assert Pow10(2) == 100;
    FieldFixed(a.month, 2, '-', Fixed(a.day, 2) + ("T" + PrintClock(a)));
    FieldFixed(b.month, 2, '-', Fixed(b.day, 2) + ("T" + PrintClock(b)));
    FieldFixed(a.day, 2, 'T', PrintClock(a));
    FieldFixed(b.day, 2, 'T', PrintClock(b));
    ClockRoundTrip(a);
    ClockRoundTrip(b);
  }

  lemma SplitAtDash(y1: string, rest1: string, y2: string, rest2: string)
    requires |y1| == |y2| && y1 + ("-" + rest1) == y2 + ("-" + rest2)
    ensures y1 == y2 && rest1 == rest2
  {
    var s := y1 + ("-" + rest1);
    assert s[..|y1|] == y1 && s[..|y1|] == y2;
    assert s[|y1| + 1..] == rest1 && s[|y1| + 1..] == rest2;
  }

  /** A printed timestamp names one reading, for years of any length. */
  lemma PrintInjective(a: Stamp, b: Stamp)
    requires Valid(a) && Valid(b) && Print(a) == Print(b)
    ensures a == b
  {
    YearEnds(a);
    YearEnds(b);
    SplitAtDash(PrintYear(a.year), PrintRest(a), PrintYear(b.year), PrintRest(b));
    YearValue(a.year);
    YearValue(b.year);
    RestInjective(a, b);
  }

  /** Distinct keys have distinct cursors, for years of any length. */
  lemma CursorInjective(t1: Stamp, id1: string, t2: Stamp, id2: string)
    requires Valid(t1) && Valid(t2) && IsBytes(id1) && IsBytes(id2)
    ensures EncodeCursor(t1, id1) == EncodeCursor(t2, id2) ==> t1 == t2 && id1 == id2
  {
    PrintPlain(t1);
    PrintPlain(t2);
    var raw1, raw2 := Print(t1) + "|" + id1, Print(t2) + "|" + id2;
    assert IsBytes(raw1) && IsBytes(raw2);
    RoundTrip(raw1);
    RoundTrip(raw2);
    if Encode(raw1) == Encode(raw2) {
      FirstBarAt(Print(t1), id1);
      FirstBarAt(Print(t2), id2);
      assert Print(t1) == raw1[..|Print(t1)|] == Print(t2);
      assert id1 == raw1[|Print(t1)| + 1..] == id2;
      PrintInjective(t1, t2);
    }
  }
}
