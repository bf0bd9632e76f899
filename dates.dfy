/** Calendar dates in the ISO-8601 extended local-date form `yyyy-MM-dd`,
    as `java.time.LocalDate.parse` reads them by default (strict resolution:
    month 1..12 and a day that exists in that month of the proleptic
    Gregorian calendar). Only the four-digit, unsigned year form is modelled. */
module Dates {
  import opened Wrappers

  datatype LocalDate = LocalDate(year: int, month: int, day: int)

  predicate IsLeapYear(year: int) {
    year % 4 == 0 && (year % 100 != 0 || year % 400 == 0)
  }

  function DaysInMonth(year: int, month: int): (n: int)
    requires 1 <= month <= 12
    ensures 28 <= n <= 31
    ensures month == 2 ==> (n == 29 <==> IsLeapYear(year))
  {
    if month == 2 then (if IsLeapYear(year) then 29 else 28)
    else if month == 4 || month == 6 || month == 9 || month == 11 then 30
    else 31
  }

  /** A date that `LocalDate.of` accepts and that has a four-digit year. */
  predicate IsValidDate(d: LocalDate) {
    && 0 <= d.year <= 9999
    && 1 <= d.month <= 12
    && 1 <= d.day <= DaysInMonth(d.year, d.month)
  }

  // ---------------------------------------------------------------------
  // Decimal digits

  predicate IsDigit(c: char) {
    '0' <= c <= '9'
  }

  predicate AllDigits(s: string) {
    forall i :: 0 <= i < |s| ==> IsDigit(s[i])
  }

  function Pow10(n: nat): (p: nat)
    ensures p >= 1
  {
    if n == 0 then 1 else 10 * Pow10(n - 1)
  }

  function DigitChar(n: int): (c: char)
    requires 0 <= n < 10
    ensures IsDigit(c)
  {
    ('0' as int + n) as char
  }

  function DigitValue(c: char): (n: int)
    requires IsDigit(c)
    ensures 0 <= n < 10 && DigitChar(n) == c
  {
    c as int - '0' as int
  }

  /** The number a string of decimal digits denotes. */
  function Number(s: string): nat
    requires AllDigits(s)
  {
    if |s| == 0 then 0 else 10 * Number(s[..|s| - 1]) + DigitValue(s[|s| - 1])
  }

  /** `n` written with exactly `width` digits, zero-padded on the left. */
  function Padded(n: nat, width: nat): (s: string)
    ensures |s| == width && AllDigits(s)
  {
    if width == 0 then [] else Padded(n / 10, width - 1) + [DigitChar(n % 10)]
  }

  /** Reading back a padded number gives the number, when it fits the width. */
  lemma {:induction false} NumberOfPadded(n: nat, width: nat)
    requires n < Pow10(width)
    ensures Number(Padded(n, width)) == n
  {
    if width > 0 {
      var s := Padded(n, width);
      assert s[..width - 1] == Padded(n / 10, width - 1);
      NumberOfPadded(n / 10, width - 1);
      assert DigitValue(s[width - 1]) == n % 10 by {
        assert s[width - 1] == DigitChar(n % 10);
      }
    }
  }

  /** Padding the number a digit string denotes to its own length gives the string back. */
  lemma {:induction false} PaddedOfNumber(s: string)
    requires AllDigits(s)
    ensures Number(s) < Pow10(|s|)
    ensures Padded(Number(s), |s|) == s
  {
    if |s| > 0 {
      var init := s[..|s| - 1];
      PaddedOfNumber(init);
      var n := Number(s);
      assert n / 10 == Number(init) && n % 10 == DigitValue(s[|s| - 1]);
      assert s == init + [s[|s| - 1]];
    }
  }

  // ---------------------------------------------------------------------
  // Formatting and parsing

  /** `LocalDate.toString()` for a four-digit year. */
  function Format(d: LocalDate): (text: string)
    requires IsValidDate(d)
    ensures |text| == 10 && text[4] == '-' && text[7] == '-'
  {
    Padded(d.year, 4) + "-" + Padded(d.month, 2) + "-" + Padded(d.day, 2)
  }

  /** `LocalDate.parse(text)`: `None` stands for the `DateTimeParseException`.
      Whatever it accepts is a real date, written exactly as `Format` writes it. */
  function Parse(text: string): (r: Option<LocalDate>)
    ensures r.Some? ==> IsValidDate(r.value) && Format(r.value) == text
  {
    if |text| == 10 && text[4] == '-' && text[7] == '-'
       && AllDigits(text[..4]) && AllDigits(text[5..7]) && AllDigits(text[8..])
    then
      var d := LocalDate(Number(text[..4]), Number(text[5..7]), Number(text[8..]));
      if IsValidDate(d) then
        PaddedOfNumber(text[..4]);
        PaddedOfNumber(text[5..7]);
        PaddedOfNumber(text[8..]);
        assert text == text[..4] + "-" + text[5..7] + "-" + text[8..];
        Some(d)
      else None
    else None
  }

  /** Every valid date survives a format/parse round trip. */
  lemma ParseFormat(d: LocalDate)
    requires IsValidDate(d)
    ensures Parse(Format(d)) == Some(d)
  {
    var text := Format(d);
    assert text[..4] == Padded(d.year, 4);
    assert text[5..7] == Padded(d.month, 2);
    assert text[8..] == Padded(d.day, 2);
    NumberOfPadded(d.year, 4);
    NumberOfPadded(d.month, 2);
    NumberOfPadded(d.day, 2);
  }

  /** Parsing accepts exactly the formatted valid dates. */
  lemma ParseAcceptsExactlyFormattedDates(text: string)
    ensures Parse(text).Some? <==> exists d :: IsValidDate(d) && Format(d) == text
  {
    if exists d :: IsValidDate(d) && Format(d) == text {
      var d :| IsValidDate(d) && Format(d) == text;
      ParseFormat(d);
    }
  }

  /** The birth date every sign-up test uses is accepted. */
  lemma SignUpTestDateAccepted()
    ensures Parse("1999-12-30") == Some(LocalDate(1999, 12, 30))
  {
    var d := LocalDate(1999, 12, 30);
    ParseFormat(d);
    assert Padded(1999, 4) == "1999";
    assert Padded(12, 2) == "12";
    assert Padded(30, 2) == "30";
    assert Format(d) == "1999-12-30";
  }

  /** Birth dates of the sign-up tests with a month or a day out of range are rejected. */
  lemma SignUpTestDatesOutOfRange()
    ensures Parse("1999-15-30").None? && Parse("1999-12-32").None?
  {
    var t := "1999-15-30";
    assert t[5..7] == Padded(15, 2);
    NumberOfPadded(15, 2);
    var u := "1999-12-32";
    assert u[5..7] == Padded(12, 2);
    NumberOfPadded(12, 2);
    assert u[8..] == Padded(32, 2);
    NumberOfPadded(32, 2);
  }

  /** Birth dates of the sign-up tests without a day or without separators are rejected. */
  lemma SignUpTestDatesMalformed()
    ensures Parse("1999-12").None? && Parse("19991230").None?
  {
  }

  /** Strict resolution: February 29 exists only in leap years. */
  lemma LeapDayOnlyInLeapYears(year: int)
    requires 0 <= year <= 9999
    ensures IsValidDate(LocalDate(year, 2, 29)) <==> IsLeapYear(year)
  {
  }
}
