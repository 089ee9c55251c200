/** The text of a timestamp against section 5.6 of RFC 3339: which positions of it say what. */
module Rfc3339 {
  import opened Model
  import opened Base64
  import opened Cursor

  /** The number a string of digits is, by the characters themselves. */
  function Decimal(s: string): int {
    if s == "" then 0 else Decimal(s[..|s| - 1]) * 10 + (s[|s| - 1] as int - '0' as int)
  }

  lemma {:induction false} DecimalIsValue(s: string)
    requires AllDigits(s)
    ensures Decimal(s) == ValueOfDigits(s)
  {
    if s != "" { DecimalIsValue(s[..|s| - 1]); }
  }

  predicate Digits(s: string) {
    forall k :: 0 <= k < |s| ==> '0' <= s[k] <= '9'
  }

  predicate NumberAt(s: string, from: nat, to: nat, n: int) {
    from <= to <= |s| && Digits(s[from..to]) && Decimal(s[from..to]) == n
  }

  predicate SignAt(s: string, k: nat, c: char) {
    k < |s| && s[k] == c
  }

  /** full-date "T" partial-time: YYYY-MM-DDThh:mm:ss, the fraction and the zone after it. */
  predicate Reads(s: string, t: Stamp) {
    && NumberAt(s, 0, 4, t.year) && SignAt(s, 4, '-')
    && NumberAt(s, 5, 7, t.month) && SignAt(s, 7, '-')
    && NumberAt(s, 8, 10, t.day) && SignAt(s, 10, 'T')
    && NumberAt(s, 11, 13, t.hour) && SignAt(s, 13, ':')
    && NumberAt(s, 14, 16, t.minute) && SignAt(s, 16, ':')
    && NumberAt(s, 17, 19, t.second)
  }

  /** A field read at some position of the whole text. */
  lemma FieldAt(s: string, at: nat, width: nat, separator: char)
    requires at <= |s| && Field(s[at..], width, separator).Some?
    ensures at + width < |s|
    ensures var (n, rest) := Field(s[at..], width, separator).value;
      NumberAt(s, at, at + width, n) && SignAt(s, at + width, separator) && rest == s[at + width + 1..]
  {
    var part := s[at..];
    assert part[..width] == s[at..at + width];
    DecimalIsValue(part[..width]);
    assert part[width..][1..] == s[at + width + 1..];
  }

  lemma TakeAt(s: string, at: nat, width: nat)
    requires at <= |s| && Take(s[at..], width).Some?
    ensures at + width <= |s|
    ensures var (n, rest) := Take(s[at..], width).value; NumberAt(s, at, at + width, n) && rest == s[at + width..]
  {
    var part := s[at..];
    assert part[..width] == s[at..at + width];
    DecimalIsValue(part[..width]);
    assert part[width..] == s[at + width..];
  }

  lemma ParsedClock(s: string, year: nat, month: nat, day: nat)
    requires 11 <= |s| && ParseClock(s[11..], year, month, day).Some?
    ensures var t := ParseClock(s[11..], year, month, day).value;
      && t.year == year && t.month == month && t.day == day && Valid(t)
      && NumberAt(s, 11, 13, t.hour) && SignAt(s, 13, ':') && NumberAt(s, 14, 16, t.minute) && SignAt(s, 16, ':')
      && NumberAt(s, 17, 19, t.second)
  {
    FieldAt(s, 11, 2, ':');
    FieldAt(s, 14, 2, ':');
    TakeAt(s, 17, 2);
  }

  /** The parser accepts nothing else: what it returns stands in the text, and is a valid reading. */
  lemma ParsedReads(s: string)
    requires Parse(s).Some?
    ensures Reads(s, Parse(s).value) && Valid(Parse(s).value)
  {
    assert s[0..] == s;
    FieldAt(s, 0, 4, '-');
    FieldAt(s, 5, 2, '-');
    FieldAt(s, 8, 2, 'T');
    var (year, _) := Field(s, 4, '-').value;
    var (month, _) := Field(s[5..], 2, '-').value;
    var (day, _) := Field(s[8..], 2, 'T').value;
    ParsedClock(s, year, month, day);
  }

  /** The nine digits that count of a fraction of any length. */
  function NineDigits(digits: string): string {
    if |digits| >= 9 then digits[..9] else digits + Zeros(9 - |digits|)
  }

  /** A fraction as it is read: a point and at least one digit, or nothing. */
  predicate ReadsFraction(f: string, nanos: nat) {
    if f == "" then nanos == 0 else
      |f| >= 2 && f[0] == '.' && Digits(f[1..]) && Decimal(NineDigits(f[1..])) == nanos
  }

  /** A zone as it is read: "Z", or a sign, hours and minutes. */
  predicate ReadsZone(z: string, offset: int) {
    || (z == "Z" && offset == 0)
    || (&& |z| == 6 && (z[0] == '+' || z[0] == '-') && z[3] == ':' && Digits(z[1..3]) && Digits(z[4..6])
        && Decimal(z[4..6]) < 60
        && offset == (if z[0] == '-' then -1 else 1) * (Decimal(z[1..3]) * 60 + Decimal(z[4..6])))
  }

  lemma NineOf(digits: string)
    requires AllDigits(digits)
    ensures NineDigits(digits) == if |digits| > 9 then digits[..9] else PadZeros(digits, 9)
    ensures AllDigits(NineDigits(digits)) && Decimal(NineDigits(digits)) == ValueOfDigits(NineDigits(digits))
  {
    DecimalIsValue(NineDigits(digits));
  }

  lemma ParsedFraction(s: string)
    ensures var (nanos, rest) := ParseFraction(s);
      exists f :: s == f + rest && ReadsFraction(f, nanos)
  {
    var (nanos, rest) := ParseFraction(s);
    if |s| >= 2 && s[0] == '.' && IsDigit(s[1]) {
      var n := DigitRun(s[1..]);
      var digits := s[1..][..n];
      assert n >= 1;
      NineOf(digits);
      var f := "." + digits;
      assert f[1..] == digits;
      assert rest == s[1..][n..];
      assert s == f + rest;
      assert ReadsFraction(f, nanos);
    } else {
      assert s == "" + rest && ReadsFraction("", nanos);
    }
  }

  lemma ParsedZone(z: string)
    requires ParseZone(z).Some?
    ensures ReadsZone(z, ParseZone(z).value)
  {
    if z != "Z" {
      FieldAt(z, 1, 2, ':');
      TakeAt(z, 4, 2);
    }
  }

  /** What follows the seconds is read whole, as a fraction and a zone. */
  lemma ParsedTail(s: string)
    requires Parse(s).Some?
    ensures |s| >= 19
    ensures exists f, z ::
      s[19..] == f + z && ReadsFraction(f, Parse(s).value.nanos) && ReadsZone(z, Parse(s).value.offset)
  {
    ParsedReads(s);
    assert s[0..] == s;
    FieldAt(s, 0, 4, '-');
    FieldAt(s, 5, 2, '-');
    FieldAt(s, 8, 2, 'T');
    FieldAt(s, 11, 2, ':');
    FieldAt(s, 14, 2, ':');
    TakeAt(s, 17, 2);
    var (nanos, z) := ParseFraction(s[19..]);
    ParsedFraction(s[19..]);
    ParsedZone(z);
  }

  /** time-secfrac: at most nine digits, none for a whole second, the last of them not zero. */
  predicate IsFraction(f: string, nanos: nat) {
    if nanos == 0 then f == "" else
      && 2 <= |f| <= 10 && f[0] == '.' && Digits(f[1..]) && f[|f| - 1] != '0'
      && Decimal(f[1..]) * Pow10(10 - |f|) == nanos
  }

  /** time-offset: "Z", or a sign, hours and minutes. */
  predicate IsZone(z: string, offset: int) {
    if offset == 0 then z == "Z" else
      && |z| == 6 && z[0] == (if offset < 0 then '-' else '+') && z[3] == ':'
      && Digits(z[1..3]) && Digits(z[4..6]) && Decimal(z[4..6]) < 60
      && Decimal(z[1..3]) * 60 + Decimal(z[4..6]) == Abs(offset)
  }

  lemma TimesTen(v: nat, p: nat)
    ensures v * (10 * p) == v * p * 10
  {
  }

  lemma {:induction false} TrimmedValue(s: string)
    requires AllDigits(s)
    ensures AllDigits(TrimZeros(s)) && |TrimZeros(s)| <= |s|
    ensures ValueOfDigits(TrimZeros(s)) * Pow10(|s| - |TrimZeros(s)|) == ValueOfDigits(s)
    ensures TrimZeros(s) != "" ==> TrimZeros(s)[|TrimZeros(s)| - 1] != '0'
  {
    if s != "" && s[|s| - 1] == '0' {
      var init := s[..|s| - 1];
      TrimmedValue(init);
      var zeros := |init| - |TrimZeros(init)|;
      assert ValueOfDigits(s) == ValueOfDigits(init) * 10;
      assert Pow10(zeros + 1) == 10 * Pow10(zeros);
      TimesTen(ValueOfDigits(TrimZeros(s)), Pow10(zeros));
    } else {
      assert ValueOfDigits(s) * Pow10(0) == ValueOfDigits(s);
    }
  }

  /** A number whose last digit is not zero is not zero. */
  lemma LastDigitNonZero(s: string)
    requires AllDigits(s) && s != "" && s[|s| - 1] != '0'
    ensures ValueOfDigits(s) > 0
  {
  }

  lemma Scaled(v: nat, p: nat)
    requires v > 0 && p > 0
    ensures v * p > 0
  {
  }

  lemma FractionDigits(nanos: nat)
    requires nanos < 1_000_000_000
    ensures var digits := TrimZeros(Fixed(nanos, 9));
      && AllDigits(digits) && |digits| <= 9 && Decimal(digits) * Pow10(9 - |digits|) == nanos
      && (digits != "" ==> digits[|digits| - 1] != '0' && nanos != 0)
      && (digits == "" ==> nanos == 0)
  {
    var digits := TrimZeros(Fixed(nanos, 9));
    assert Pow10(9) == 1_000_000_000;
    FixedValue(nanos, 9);
    TrimmedValue(Fixed(nanos, 9));
    DecimalIsValue(digits);
    if digits != "" {
      LastDigitNonZero(digits);
      Scaled(ValueOfDigits(digits), Pow10(9 - |digits|));
    }
  }

  lemma FractionShape(nanos: nat)
    requires nanos < 1_000_000_000
    ensures IsFraction(PrintFraction(nanos), nanos)
  {
    FractionDigits(nanos);
    var digits := TrimZeros(Fixed(nanos, 9));
    if digits != "" {
      assert ("." + digits)[1..] == digits;
    }
  }

  lemma ZoneShape(offset: int)
    requires -1440 < offset < 1440
    ensures IsZone(PrintZone(offset), offset)
  {
    if offset != 0 {
      var h, m := Abs(offset) / 60, Abs(offset) % 60;
      var z := PrintZone(offset);
      assert Pow10(2) == 100;
      assert z[1..3] == Fixed(h, 2) && z[4..6] == Fixed(m, 2) && z[3] == ':';
      FixedValue(h, 2);
      FixedValue(m, 2);
      DecimalIsValue(Fixed(h, 2));
      DecimalIsValue(Fixed(m, 2));
    }
  }

  lemma Skip(piece: string, separator: string, rest: string, n: nat)
    requires n == |piece| + |separator|
    ensures (piece + (separator + rest))[n..] == rest
  {
  }

  lemma ClockTail(t: Stamp)
    ensures |PrintClock(t)| >= 8 && PrintClock(t)[8..] == PrintTail(t)
  {
    var second := Fixed(t.second, 2) + PrintTail(t);
    var minute := Fixed(t.minute, 2) + (":" + second);
    Skip(Fixed(t.hour, 2), ":", minute, 3);
    Skip(Fixed(t.minute, 2), ":", second, 3);
    assert second[2..] == PrintTail(t);
    assert PrintClock(t)[6..] == PrintClock(t)[3..][3..];
    assert PrintClock(t)[8..] == PrintClock(t)[6..][2..];
  }

  lemma DateTail(t: Stamp)
    requires t.year < 10_000
    ensures |Print(t)| >= 11 && Print(t)[11..] == PrintClock(t)
  {
    var day := Fixed(t.day, 2) + ("T" + PrintClock(t));
    var month := Fixed(t.month, 2) + ("-" + day);
    Skip(PrintYear(t.year), "-", month, 5);
    Skip(Fixed(t.month, 2), "-", day, 3);
    Skip(Fixed(t.day, 2), "T", PrintClock(t), 3);
    assert Print(t)[8..] == Print(t)[5..][3..];
    assert Print(t)[11..] == Print(t)[8..][3..];
  }

  lemma TailAt(t: Stamp)
    requires Valid(t) && t.year < 10_000
    ensures |Print(t)| >= 19 && Print(t)[19..] == PrintFraction(t.nanos) + PrintZone(t.offset)
  {
    DateTail(t);
    ClockTail(t);
    assert Print(t)[19..] == Print(t)[11..][8..];
  }

  /** What the encoder prints for a year of four digits, position by position. */
  lemma PrintedShape(t: Stamp)
    requires Valid(t) && t.year < 10_000
    ensures Reads(Print(t), t)
    ensures exists f, z :: Print(t)[19..] == f + z && IsFraction(f, t.nanos) && IsZone(z, t.offset)
  {
    StampRoundTrip(t);
    ParsedReads(Print(t));
    TailAt(t);
    FractionShape(t.nanos);
    ZoneShape(t.offset);
  }

  /** A cursor is that text, a bar and the ID, in base64. */
  lemma CursorText(t: Stamp, id: string)
    requires IsBytes(id)
    ensures Decode(EncodeCursor(t, id)) == Some(Print(t) + "|" + id)
  {
    PrintPlain(t);
    assert IsBytes(Print(t) + "|" + id);
    RoundTrip(Print(t) + "|" + id);
  }

  lemma {:induction false} NoBarBefore(s: string)
    ensures '|' !in s[..FirstBar(s)]
  {
    if s != "" && s[0] != '|' {
      NoBarBefore(s[1..]);
      assert s[..FirstBar(s)] == [s[0]] + s[1..][..FirstBar(s[1..])];
    }
  }

  /** The text before the first bar, and the rest. */
  lemma SplitAtBar(raw: string) returns (text: string, id: string)
    requires FirstBar(raw) < |raw|
    ensures text == raw[..FirstBar(raw)] && id == raw[FirstBar(raw) + 1..]
    ensures raw == text + "|" + id && '|' !in text
  {
    text, id := raw[..FirstBar(raw)], raw[FirstBar(raw) + 1..];
    NoBarBefore(raw);
  }

  predicate SaysCursor(raw: string, text: string, t: Stamp, id: string) {
    raw == text + "|" + id && '|' !in text && Reads(text, t) && Valid(t)
  }

  /** A cursor that is accepted is one: base64 of a text with a bar, a timestamp before the first one
      and the ID after it. */
  lemma AcceptedCursor(cursor: string)
    requires DecodeCursor(cursor).Some?
    ensures IsPadded(StripNewlines(cursor)) && Decode(cursor).Some?
    ensures var (t, id) := DecodeCursor(cursor).value;
      exists text :: SaysCursor(Decode(cursor).value, text, t, id)
  {
    DecodesIff(cursor);
    var raw := Decode(cursor).value;
    var text, id := SplitAtBar(raw);
    ParsedReads(text);
    assert SaysCursor(raw, text, Parse(text).value, id);
  }
}
