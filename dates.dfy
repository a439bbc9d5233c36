/** Dates as pywebcoos/API.py reads and compares them: the twelve-character
    local `yyyymmddHHMM` argument, the ISO 8601 text of a UTC instant, and
    the inclusive range test of `_check_date_range`. */
module Dates {

  import opened Errors
  import opened Text

  /** A naive `datetime` built from five fields; its seconds and
      microseconds are always zero, so they are not represented. */
  datatype DateTime = DateTime(year: int, month: int, day: int, hour: int, minute: int)

  predicate IsLeapYear(year: int) {
    year % 4 == 0 && (year % 100 != 0 || year % 400 == 0)
  }

  function DaysInMonth(year: int, month: int): (n: int)
    requires 1 <= month <= 12
    ensures 28 <= n <= 31
    ensures n == 29 <==> month == 2 && IsLeapYear(year)
    ensures n == 28 <==> month == 2 && !IsLeapYear(year)
  {
    if month == 2 then (if IsLeapYear(year) then 29 else 28)
    else if month == 4 || month == 6 || month == 9 || month == 11 then 30
    else 31
  }

  /** The arguments `datetime.datetime` accepts: years MINYEAR (1) to
      MAXYEAR (9999), a day that exists in that month. */
  predicate IsValid(d: DateTime) {
    && 1 <= d.year <= 9999
    && 1 <= d.month <= 12
    && 1 <= d.day <= DaysInMonth(d.year, d.month)
    && 0 <= d.hour < 24
    && 0 <= d.minute < 60
  }

  /** `datetime.datetime(int(f[0]), ..., int(f[4]))`: every failure, of
      `int()` or of the constructor, is a ValueError. */
  function ReadFields(f: seq<string>): (r: Result<DateTime>)
    requires |f| == 5
    ensures r.Ok? ==> IsValid(r.value)
    ensures r.Err? ==> r.error == LibraryValueError
  {
    match (ParseInt(f[0]), ParseInt(f[1]), ParseInt(f[2]), ParseInt(f[3]), ParseInt(f[4]))
    case (Some(year), Some(month), Some(day), Some(hour), Some(minute)) =>
      var d := DateTime(year, month, day, hour, minute);
      if IsValid(d) then Ok(d) else Err(LibraryValueError)
    case _ => Err(LibraryValueError)
  }

  /** The slices `[0:4] [4:6] [6:8] [8:10] [10:12]` of a local date. */
  function LocalFields(s: string): (f: seq<string>)
    ensures |f| == 5
  {
    [Slice(s, 0, 4), Slice(s, 4, 6), Slice(s, 6, 8), Slice(s, 8, 10), Slice(s, 10, 12)]
  }

  /** The slices `[0:4] [5:7] [8:10] [11:13] [14:16]` of an ISO date. */
  function IsoFields(s: string): (f: seq<string>)
    ensures |f| == 5
  {
    [Slice(s, 0, 4), Slice(s, 5, 7), Slice(s, 8, 10), Slice(s, 11, 13), Slice(s, 14, 16)]
  }

  /** The `datetime` that `_check_date_format` and `_local2ISO` build. */
  function ParseLocal(s: string): Result<DateTime> {
    ReadFields(LocalFields(s))
  }

  /** The `datetime` that `_check_date_range` builds from an ISO string. */
  function ParseIso(s: string): Result<DateTime> {
    ReadFields(IsoFields(s))
  }

  /** `_check_date_format`: a date of any length but 12, or one whose
      fields `datetime` refuses, raises the format message naming the bound. */
  function CheckDateFormat(date: string, dateName: string): (r: Outcome)
    ensures r == Pass <==> |date| == 12 && ParseLocal(date).Ok?
    ensures r.Fail? ==> r.error == ValueError(FormatMessage(dateName))
  {
    if |date| != 12 then Fail(ValueError(FormatMessage(dateName)))
    else if ParseLocal(date).Err? then Fail(ValueError(FormatMessage(dateName)))
    else Pass
  }

  /** The date a string of twelve digits spells, field by field. */
  function DigitDate(date: string): DateTime
    requires |date| == 12 && AllDigits(date)
  {
    DateTime(DecimalValue(date[0..4]), DecimalValue(date[4..6]), DecimalValue(date[6..8]),
             DecimalValue(date[8..10]), DecimalValue(date[10..12]))
  }

  /** A twelve-digit date passes the format check exactly when it names a
      real minute: year at least 1, month 1-12, a day of that month (29
      February only in leap years), hour below 24, minute below 60. */
  lemma DigitDateAccepted(date: string, dateName: string)
    requires |date| == 12 && AllDigits(date)
    ensures CheckDateFormat(date, dateName) == Pass <==> IsValid(DigitDate(date))
    ensures CheckDateFormat(date, dateName) == Pass ==> ParseLocal(date) == Ok(DigitDate(date))
  {
    DigitLocalFields(date);
    DigitFieldsParsed(LocalFields(date));
  }

  lemma DigitLocalFields(date: string)
    requires |date| == 12 && AllDigits(date)
    ensures var f := LocalFields(date);
      && f[0] == date[0..4] && f[1] == date[4..6] && f[2] == date[6..8] && f[3] == date[8..10] && f[4] == date[10..12]
      && AllDigits(f[0]) && AllDigits(f[1]) && AllDigits(f[2]) && AllDigits(f[3]) && AllDigits(f[4])
  {
  }

  /** Five non-empty digit fields are read as their decimal values. */
  lemma DigitFieldsParsed(f: seq<string>)
    requires |f| == 5 && forall i :: 0 <= i < 5 ==> |f[i]| > 0 && AllDigits(f[i])
    ensures var d := DateTime(DecimalValue(f[0]), DecimalValue(f[1]), DecimalValue(f[2]), DecimalValue(f[3]), DecimalValue(f[4]));
      ReadFields(f) == if IsValid(d) then Ok(d) else Err(LibraryValueError)
  {
    var d := DateTime(DecimalValue(f[0]), DecimalValue(f[1]), DecimalValue(f[2]), DecimalValue(f[3]), DecimalValue(f[4]));
    ParseDigits(f[0]);
    ParseDigits(f[1]);
    ParseDigits(f[2]);
    ParseDigits(f[3]);
    ParseDigits(f[4]);
    FieldsRead(f, d);
  }

  /** The `yyyymmddHHMM` text of a date whose fields fit their widths. */
  function LocalFormat(d: DateTime): (s: string)
    requires Fits(d)
    ensures |s| == 12
  {
    Digits(d.year, 4) + Digits(d.month, 2) + Digits(d.day, 2) + Digits(d.hour, 2) + Digits(d.minute, 2)
  }

  predicate Fits(d: DateTime) {
    0 <= d.year < 10000 && 0 <= d.month < 100 && 0 <= d.day < 100 && 0 <= d.hour < 100 && 0 <= d.minute < 100
  }

  /** Writing a date in the documented format and checking it: the check
      passes exactly for the dates `datetime` accepts, and reads back the
      same date. */
  lemma LocalRoundTrip(d: DateTime, dateName: string)
    requires Fits(d)
    ensures CheckDateFormat(LocalFormat(d), dateName) == Pass <==> IsValid(d)
    ensures IsValid(d) ==> ParseLocal(LocalFormat(d)) == Ok(d)
  {
    LocalFieldsOfFormat(d);
    DigitFieldsRead(LocalFields(LocalFormat(d)), d);
  }

  /** Five fields written as the padded digits of `d` make `d`, if it exists. */
  lemma DigitFieldsRead(f: seq<string>, d: DateTime)
    requires Fits(d) && |f| == 5
    requires f[0] == Digits(d.year, 4) && f[1] == Digits(d.month, 2) && f[2] == Digits(d.day, 2)
    requires f[3] == Digits(d.hour, 2) && f[4] == Digits(d.minute, 2)
    ensures ReadFields(f) == if IsValid(d) then Ok(d) else Err(LibraryValueError)
  {
    PaddedFields(d);
    FieldsRead(f, d);
  }

  lemma PaddedFields(d: DateTime)
    requires Fits(d)
    ensures ParseInt(Digits(d.year, 4)) == Some(d.year) && ParseInt(Digits(d.month, 2)) == Some(d.month)
    ensures ParseInt(Digits(d.day, 2)) == Some(d.day) && ParseInt(Digits(d.hour, 2)) == Some(d.hour)
    ensures ParseInt(Digits(d.minute, 2)) == Some(d.minute)
  {
    PaddedField(d.year, 4);
    PaddedField(d.month, 2);
    PaddedField(d.day, 2);
    PaddedField(d.hour, 2);
    PaddedField(d.minute, 2);
  }

  /** Five fields that `int()` reads as the fields of `d` make `d`, if it exists. */
  lemma FieldsRead(f: seq<string>, d: DateTime)
    requires |f| == 5
    requires ParseInt(f[0]) == Some(d.year) && ParseInt(f[1]) == Some(d.month)
    requires ParseInt(f[2]) == Some(d.day) && ParseInt(f[3]) == Some(d.hour)
    requires ParseInt(f[4]) == Some(d.minute)
    ensures ReadFields(f) == if IsValid(d) then Ok(d) else Err(LibraryValueError)
  {
  }

  lemma LocalFieldsOfFormat(d: DateTime)
    requires Fits(d)
    ensures var f := LocalFields(LocalFormat(d));
      && f[0] == Digits(d.year, 4) && f[1] == Digits(d.month, 2) && f[2] == Digits(d.day, 2)
      && f[3] == Digits(d.hour, 2) && f[4] == Digits(d.minute, 2)
  {
    var s := LocalFormat(d);
    var p2 := Digits(d.year, 4) + Digits(d.month, 2);
    var p3 := p2 + Digits(d.day, 2);
    var p4 := p3 + Digits(d.hour, 2);
    assert s == p4 + Digits(d.minute, 2);
    assert s[10..12] == Digits(d.minute, 2);
    assert s[..10] == p4;
    assert p4[8..10] == Digits(d.hour, 2) && p4[..8] == p3;
    assert p3[6..8] == Digits(d.day, 2) && p3[..6] == p2;
    assert p2[4..6] == Digits(d.month, 2) && p2[..4] == Digits(d.year, 4);
  }

  /** 29 February passes the check exactly in leap years. */
  lemma LeapDayChecked(year: int, hour: int, minute: int, dateName: string)
    requires 1 <= year <= 9999 && 0 <= hour < 24 && 0 <= minute < 60
    ensures CheckDateFormat(LocalFormat(DateTime(year, 2, 29, hour, minute)), dateName) == Pass <==> IsLeapYear(year)
  {
    LocalRoundTrip(DateTime(year, 2, 29, hour, minute), dateName);
  }

  /** `int()` allows blanks around a field, so a two-character field made of
      a space and a digit is read as that digit: the format check is laxer
      than the documented `yyyymmddHHMM`. */
  lemma SpacedDigit(c: char)
    requires IsDigit(c)
    ensures ParseInt([' ', c]) == Some(c as int - '0' as int)
  {
    var s := [' ', c];
    ParseLeadingBlank(s);
    assert s[1..] == [c];
    ParseOneDigit(c);
  }

  /** An eleven-character date is refused before any field is read. */
  lemma ShortDateRefused(date: string)
    requires date == "20241101200"
    ensures CheckDateFormat(date, "start") == Fail(ValueError(FormatMessage("start")))
  {
  }

  // ---------------------------------------------------------------------
  // The ISO text of a UTC instant
  // ---------------------------------------------------------------------

  function Pow10(n: nat): (p: nat)
    ensures p >= 1
  {
    if n == 0 then 1 else 10 * Pow10(n - 1)
  }

  function DigitChar(d: int): (c: char)
    requires 0 <= d < 10
    ensures IsDigit(c) && c as int - '0' as int == d
  {
    ('0' as int + d) as char
  }

  /** The last `width` decimal digits of `n`, zero-padded. */
  function Digits(n: nat, width: nat): (s: string)
    ensures |s| == width && AllDigits(s)
  {
    if width == 0 then [] else Digits(n / 10, width - 1) + [DigitChar(n % 10)]
  }

  /** Reading the padded digits back gives `n` when `n` fits in the width. */
  lemma {:induction false} DigitsValue(n: nat, width: nat)
    requires n < Pow10(width)
    ensures DecimalValue(Digits(n, width)) == n
  {
    if width > 0 {
      var s := Digits(n, width);
      assert s[..|s| - 1] == Digits(n / 10, width - 1);
      DigitsValue(n / 10, width - 1);
    }
  }

  /** `datetime.isoformat()` of a UTC instant built without seconds. */
  function IsoFormat(d: DateTime): (s: string)
    requires IsValid(d)
    ensures |s| == 25
  {
    Digits(d.year, 4) + "-" + Digits(d.month, 2) + "-" + Digits(d.day, 2) + "T" +
    Digits(d.hour, 2) + ":" + Digits(d.minute, 2) + ":00+00:00"
  }

  /** Reading an ISO string at the fixed offsets recovers the instant it was
      written from. */
  lemma IsoRoundTrip(d: DateTime)
    requires IsValid(d)
    ensures ParseIso(IsoFormat(d)) == Ok(d)
  {
    IsoFieldsOfFormat(d);
    DigitFieldsRead(IsoFields(IsoFormat(d)), d);
  }

  lemma IsoFieldsOfFormat(d: DateTime)
    requires IsValid(d)
    ensures var f := IsoFields(IsoFormat(d));
      && f[0] == Digits(d.year, 4) && f[1] == Digits(d.month, 2) && f[2] == Digits(d.day, 2)
      && f[3] == Digits(d.hour, 2) && f[4] == Digits(d.minute, 2)
  {
    var s := IsoFormat(d);
    assert s[0..4] == Digits(d.year, 4);
    assert s[5..7] == Digits(d.month, 2);
    assert s[8..10] == Digits(d.day, 2);
    assert s[11..13] == Digits(d.hour, 2);
    assert s[14..16] == Digits(d.minute, 2);
  }

  lemma PaddedField(n: nat, width: nat)
    requires 0 < width && n < Pow10(width)
    ensures ParseInt(Digits(n, width)) == Some(n)
  {
    var s := Digits(n, width);
    DigitsValue(n, width);
    ParseDigits(s);
  }

  /** Only the first sixteen characters of an ISO string are read: seconds,
      fractions and the offset make no difference. */
  lemma IsoIgnoresSeconds(s: string, t: string)
    requires |s| >= 16 && |t| >= 16 && s[..16] == t[..16]
    ensures ParseIso(s) == ParseIso(t)
  {
    assert s[0..4] == t[0..4] && s[5..7] == t[5..7] && s[8..10] == t[8..10];
    assert s[11..13] == t[11..13] && s[14..16] == t[14..16];
    assert IsoFields(s) == IsoFields(t);
  }

  // ---------------------------------------------------------------------
  // Comparison and the range test
  // ---------------------------------------------------------------------

  /** `a <= b` on datetimes: lexicographic on year, month, day, hour, minute. */
  predicate DateLe(a: DateTime, b: DateTime) {
    a.year < b.year || (a.year == b.year &&
    (a.month < b.month || (a.month == b.month &&
    (a.day < b.day || (a.day == b.day &&
    (a.hour < b.hour || (a.hour == b.hour && a.minute <= b.minute)))))))
  }

  lemma DateLeTotalOrder()
    ensures forall a :: DateLe(a, a)
    ensures forall a, b :: DateLe(a, b) || DateLe(b, a)
    ensures forall a, b :: DateLe(a, b) && DateLe(b, a) ==> a == b
    ensures forall a, b, c :: DateLe(a, b) && DateLe(b, c) ==> DateLe(a, c)
  {
  }

  /** The last step of `_check_date_range`: both requested bounds must lie
      in the available range, whose ends count as inside. */
  function CompareRange(start: DateTime, stop: DateTime, first: DateTime, last: DateTime): (r: Outcome)
    ensures r.Fail? ==> r.error == ValueError(RangeMessage)
    ensures r == Pass <==> InRange(start, first, last) && InRange(stop, first, last)
  {
    if DateLe(first, start) && DateLe(start, last) && DateLe(first, stop) && DateLe(stop, last) then Pass
    else Fail(ValueError(RangeMessage))
  }

  /** `first <= d <= last` */
  predicate InRange(d: DateTime, first: DateTime, last: DateTime) {
    DateLe(first, d) && DateLe(d, last)
  }

  /** Both ends of the available range are accepted as bounds, and so is a
      start later than the stop: the order of the bounds is not checked. */
  lemma RangeEndsIncluded(first: DateTime, last: DateTime)
    requires DateLe(first, last)
    ensures CompareRange(first, last, first, last) == Pass
    ensures CompareRange(last, first, first, last) == Pass
  {
    DateLeTotalOrder();
  }

  /** A bound one minute before the first available minute is refused. */
  lemma RangeRefusesEarlier(first: DateTime, last: DateTime, start: DateTime)
    requires start == first.(minute := first.minute - 1)
    ensures CompareRange(start, last, first, last).Fail?
  {
  }

  /** The two bounds pass exactly when the earlier of them is not before the
      first available minute and the later is not after the last. */
  lemma RangeAsMinMax(start: DateTime, stop: DateTime, first: DateTime, last: DateTime)
    ensures CompareRange(start, stop, first, last) == Pass <==>
      var lo := if DateLe(start, stop) then start else stop;
      var hi := if DateLe(start, stop) then stop else start;
      DateLe(first, lo) && DateLe(hi, last)
  {
    DateLeTotalOrder();
  }
}
