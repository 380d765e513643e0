/**
 * The part of Python's `datetime` the API's due-date check uses: a datetime as its fields,
 * naive (no offset) or aware (an offset from UTC), the instant an aware datetime denotes,
 * `replace(tzinfo=timezone.utc)` and `isoformat()`.
 */
module DateTimes {
  import opened Wrappers
  import opened Text

  const MicrosPerSecond: int := 1_000_000
  const MicrosPerMinute: int := 60 * MicrosPerSecond
  const MicrosPerHour: int := 60 * MicrosPerMinute
  const MicrosPerDay: int := 24 * MicrosPerHour

  /** `offset` is the utcoffset in microseconds east of UTC; None is a naive datetime. */
  datatype DateTime = DateTime(
    year: int, month: int, day: int,
    hour: int, minute: int, second: int, microsecond: int,
    offset: Option<int>)

  predicate IsLeap(y: int) {
    y % 4 == 0 && (y % 100 != 0 || y % 400 == 0)
  }

  function DaysInMonth(y: int, m: int): int
    requires 1 <= m <= 12
  {
    if m == 2 then (if IsLeap(y) then 29 else 28)
    else if m == 4 || m == 6 || m == 9 || m == 11 then 30
    else 31
  }

  /** The ranges Python's datetime constructor enforces, and a utcoffset strictly inside one day. */
  predicate ValidDateTime(d: DateTime) {
    && 1 <= d.year <= 9999
    && 1 <= d.month <= 12
    && 1 <= d.day <= DaysInMonth(d.year, d.month)
    && 0 <= d.hour < 24
    && 0 <= d.minute < 60
    && 0 <= d.second < 60
    && 0 <= d.microsecond < MicrosPerSecond
    && (d.offset.Some? ==> -MicrosPerDay < d.offset.value < MicrosPerDay)
  }

  /** Days in the months before `m` of year `y` (CPython's `_days_before_month`). */
  function DaysBeforeMonth(y: int, m: int): (r: int)
    requires 1 <= m <= 12
  {
    var common :=
      if m == 1 then 0 else if m == 2 then 31 else if m == 3 then 59
      else if m == 4 then 90 else if m == 5 then 120 else if m == 6 then 151
      else if m == 7 then 181 else if m == 8 then 212 else if m == 9 then 243
      else if m == 10 then 273 else if m == 11 then 304 else 334;
    common + (if m > 2 && IsLeap(y) then 1 else 0)
  }

  /** Days in the years before `y` (CPython's `_days_before_year`). */
  function DaysBeforeYear(y: int): int
    requires y >= 1
  {
    var y1 := y - 1;
    y1 * 365 + y1 / 4 - y1 / 100 + y1 / 400
  }

  /** The proleptic Gregorian ordinal, 0001-01-01 being day 1 (`date.toordinal()`). */
  function Ordinal(y: int, m: int, d: int): int
    requires y >= 1 && 1 <= m <= 12
  {
    DaysBeforeYear(y) + DaysBeforeMonth(y, m) + d
  }

  /** Microseconds since midnight of the wall-clock time. */
  function TimeOfDay(d: DateTime): int {
    d.hour * MicrosPerHour + d.minute * MicrosPerMinute + d.second * MicrosPerSecond + d.microsecond
  }

  /**
   * The instant an aware datetime denotes, in microseconds of UTC since 0001-01-01T00:00Z;
   * Python orders aware datetimes by exactly this (wall clock minus utcoffset).
   */
  function Instant(d: DateTime): (t: int)
    requires ValidDateTime(d) && d.offset.Some?
    ensures var o := Ordinal(d.year, d.month, d.day);
      (o - 2) * MicrosPerDay < t < (o + 1) * MicrosPerDay
  {
    (Ordinal(d.year, d.month, d.day) - 1) * MicrosPerDay + TimeOfDay(d) - d.offset.value
  }

  /** `d.replace(tzinfo=timezone.utc)`: same wall clock, offset zero. */
  function WithUtc(d: DateTime): (r: DateTime)
    ensures ValidDateTime(d) ==> ValidDateTime(r)
    ensures r.offset == Some(0)
    ensures WallClock(r) == WallClock(d)
  {
    d.(offset := Some(0))
  }

  // ------------------------------------------------------------ chronological order

  lemma DaysBeforeNextYear(y: int)
    requires y >= 1
    ensures DaysBeforeYear(y + 1) == DaysBeforeYear(y) + DaysBeforeMonth(y, 12) + 31
  {
    LeapCounts(y);
    MultipleOfCentury(y);
  }

  /** Counting one more year passes a multiple of 4, 100 or 400 exactly when the new year is one. */
  lemma LeapCounts(y: int)
    ensures y / 4 == (y - 1) / 4 + (if y % 4 == 0 then 1 else 0)
    ensures y / 100 == (y - 1) / 100 + (if y % 100 == 0 then 1 else 0)
    ensures y / 400 == (y - 1) / 400 + (if y % 400 == 0 then 1 else 0)
  {
  }

  /** A multiple of 400 is one of 100, and a multiple of 100 one of 4. */
  lemma MultipleOfCentury(y: int)
    ensures y % 400 == 0 ==> y % 100 == 0
    ensures y % 100 == 0 ==> y % 4 == 0
  {
    MultipleOf400(y);
    MultipleOf100(y);
  }

  lemma MultipleOf400(y: int)
    ensures y % 400 == 0 ==> y % 100 == 0
  {
    if y % 400 == 0 {
      var q := y / 400;
      assert y == 400 * q;
      assert y == 100 * (4 * q);
    }
  }

  lemma MultipleOf100(y: int)
    ensures y % 100 == 0 ==> y % 4 == 0
  {
    if y % 100 == 0 {
      var q := y / 100;
      assert y == 100 * q;
      assert y == 4 * (25 * q);
    }
  }

  lemma DaysBeforeMonthStep(y: int, m: int)
    requires 1 <= m < 12
    ensures DaysBeforeMonth(y, m + 1) == DaysBeforeMonth(y, m) + DaysInMonth(y, m)
  {
  }

  lemma {:induction false} DaysBeforeMonthMonotone(y: int, m1: int, m2: int)
    requires 1 <= m1 < m2 <= 12
    ensures DaysBeforeMonth(y, m1) + DaysInMonth(y, m1) <= DaysBeforeMonth(y, m2)
    decreases m2 - m1
  {
    DaysBeforeMonthStep(y, m1);
    if m1 + 1 < m2 {
      DaysBeforeMonthMonotone(y, m1 + 1, m2);
    }
  }

  lemma {:induction false} DaysBeforeYearMonotone(y1: int, y2: int)
    requires 1 <= y1 < y2
    ensures DaysBeforeYear(y1) + DaysBeforeMonth(y1, 12) + 31 <= DaysBeforeYear(y2)
    decreases y2 - y1
  {
    DaysBeforeNextYear(y1);
    if y1 + 1 < y2 {
      DaysBeforeYearMonotone(y1 + 1, y2);
      DaysBeforeNextYear(y1 + 1);
    }
  }

  predicate DateBefore(y1: int, m1: int, d1: int, y2: int, m2: int, d2: int) {
    y1 < y2 || (y1 == y2 && (m1 < m2 || (m1 == m2 && d1 < d2)))
  }

  /** A calendar date earlier than another has a smaller ordinal. */
  lemma OrdinalMonotone(y1: int, m1: int, d1: int, y2: int, m2: int, d2: int)
    requires 1 <= y1 && 1 <= m1 <= 12 && 1 <= d1 <= DaysInMonth(y1, m1)
    requires 1 <= y2 && 1 <= m2 <= 12 && 1 <= d2 <= DaysInMonth(y2, m2)
    requires DateBefore(y1, m1, d1, y2, m2, d2)
    ensures Ordinal(y1, m1, d1) < Ordinal(y2, m2, d2)
  {
    if y1 < y2 {
      if m1 < 12 {
        DaysBeforeMonthMonotone(y1, m1, 12);
      }
      DaysBeforeYearMonotone(y1, y2);
    } else if m1 < m2 {
      DaysBeforeMonthMonotone(y1, m1, m2);
    }
  }

  predicate FieldsBefore(a: DateTime, b: DateTime) {
    DateBefore(a.year, a.month, a.day, b.year, b.month, b.day)
    || (a.year == b.year && a.month == b.month && a.day == b.day && TimeOfDay(a) < TimeOfDay(b))
  }

  /**
   * For two datetimes with the same utcoffset, the one whose wall clock reads earlier is
   * the earlier instant: `Instant` orders datetimes chronologically.
   */
  lemma InstantChronological(a: DateTime, b: DateTime)
    requires ValidDateTime(a) && ValidDateTime(b) && a.offset.Some? && a.offset == b.offset
    requires FieldsBefore(a, b)
    ensures Instant(a) < Instant(b)
  {
    var oa, ob := Ordinal(a.year, a.month, a.day), Ordinal(b.year, b.month, b.day);
    TimeOfDayBounds(a);
    TimeOfDayBounds(b);
    if DateBefore(a.year, a.month, a.day, b.year, b.month, b.day) {
      OrdinalMonotone(a.year, a.month, a.day, b.year, b.month, b.day);
      DayTimeOrder(oa, TimeOfDay(a), ob, TimeOfDay(b));
    }
  }

  lemma TimeOfDayBounds(d: DateTime)
    requires ValidDateTime(d)
    ensures 0 <= TimeOfDay(d) < MicrosPerDay
  {
  }

  /** An earlier day is earlier whatever the times of day. */
  lemma DayTimeOrder(oa: int, ta: int, ob: int, tb: int)
    requires oa < ob && 0 <= ta < MicrosPerDay && 0 <= tb
    ensures (oa - 1) * MicrosPerDay + ta < (ob - 1) * MicrosPerDay + tb
  {
    assert (ob - 1) * MicrosPerDay == (oa - 1) * MicrosPerDay + (ob - oa) * MicrosPerDay;
  }

  /** Moving the wall clock and the utcoffset by the same amount leaves the instant unchanged. */
  lemma InstantIgnoresOffsetShift(a: DateTime, b: DateTime, shift: int)
    requires ValidDateTime(a) && ValidDateTime(b) && a.offset.Some? && b.offset.Some?
    requires Ordinal(b.year, b.month, b.day) * MicrosPerDay + TimeOfDay(b)
          == Ordinal(a.year, a.month, a.day) * MicrosPerDay + TimeOfDay(a) + shift
    requires b.offset.value == a.offset.value + shift
    ensures Instant(a) == Instant(b)
  {
  }

  // ------------------------------------------------------------ isoformat

  /**
   * CPython's `_format_offset`: sign, HH:MM, then :SS when the offset has seconds or
   * microseconds, then .ffffff when it has microseconds.
   */
  function FormatOffset(off: int): string {
    var sign := if off < 0 then "-" else "+";
    var a := if off < 0 then -off else off;
    var hh := a / MicrosPerHour;
    var mm := (a % MicrosPerHour) / MicrosPerMinute;
    var rest := a % MicrosPerMinute;
    var ss := rest / MicrosPerSecond;
    var us := rest % MicrosPerSecond;
    sign + Pad(hh, 2) + ":" + Pad(mm, 2)
    + (if rest != 0 then ":" + Pad(ss, 2) else "")
    + (if us != 0 then "." + Pad(us, 6) else "")
  }

  /** The wall clock alone, without the offset. */
  function WallClock(d: DateTime): DateTime {
    d.(offset := None)
  }

  /** The date and time part of `isoformat()`, with .ffffff only when microseconds are nonzero. */
  function IsoLocal(d: DateTime): string
    requires ValidDateTime(d)
  {
    Pad(d.year, 4) + "-" + Pad(d.month, 2) + "-" + Pad(d.day, 2)
    + "T" + Pad(d.hour, 2) + ":" + Pad(d.minute, 2) + ":" + Pad(d.second, 2)
    + (if d.microsecond != 0 then "." + Pad(d.microsecond, 6) else "")
  }

  /** `d.isoformat()`: the offset is written only for an aware datetime. */
  function IsoFormat(d: DateTime): (s: string)
    requires ValidDateTime(d)
    ensures |s| >= 19
    ensures s[4] == '-' && s[7] == '-' && s[10] == 'T' && s[13] == ':' && s[16] == ':'
    ensures d.offset.None? ==> |s| == if d.microsecond == 0 then 19 else 26
  {
    IsoLocalShape(WallClock(d));
    IsoLocal(WallClock(d)) + (match d.offset case None => "" case Some(off) => FormatOffset(off))
  }

  /** Every field of the date and time part has its full width: YYYY-MM-DDTHH:MM:SS[.ffffff]. */
  lemma IsoLocalShape(d: DateTime)
    requires ValidDateTime(d)
    ensures var s := IsoLocal(d);
      && |s| == (if d.microsecond == 0 then 19 else 26)
      && s[4] == '-' && s[7] == '-' && s[10] == 'T' && s[13] == ':' && s[16] == ':'
  {
    assert Pow10(2) == 100 && Pow10(4) == 10000 && Pow10(6) == 1_000_000 by {
      assert Pow10(1) == 10;
      assert Pow10(3) == 1000;
      assert Pow10(5) == 100_000;
    }
    PadWidth(d.year, 4);
    PadWidth(d.month, 2);
    assert d.day < 100 by {
      DaysInMonthAtMost31(d.year, d.month);
    }
    PadWidth(d.day, 2);
    PadWidth(d.hour, 2);
    PadWidth(d.minute, 2);
    PadWidth(d.second, 2);
    var frac := if d.microsecond != 0 then "." + Pad(d.microsecond, 6) else "";
    if d.microsecond != 0 {
      PadWidth(d.microsecond, 6);
    }
    Layout(Pad(d.year, 4), Pad(d.month, 2), Pad(d.day, 2), Pad(d.hour, 2), Pad(d.minute, 2), Pad(d.second, 2), frac);
  }

  lemma DaysInMonthAtMost31(y: int, m: int)
    requires 1 <= m <= 12
    ensures DaysInMonth(y, m) <= 31
  {
  }

  lemma PadWidth(n: nat, w: nat)
    requires 1 <= w && n < Pow10(w)
    ensures |Pad(n, w)| == w
  {
    DecimalAtMost(n, w);
  }

  /** Where the separators of a datetime laid out from fixed-width fields fall. */
  lemma Layout(y: string, mo: string, dd: string, h: string, mi: string, sec: string, frac: string)
    requires |y| == 4 && |mo| == 2 && |dd| == 2 && |h| == 2 && |mi| == 2 && |sec| == 2
    ensures var s := y + "-" + mo + "-" + dd + "T" + h + ":" + mi + ":" + sec + frac;
      && |s| == 19 + |frac|
      && s[4] == '-' && s[7] == '-' && s[10] == 'T' && s[13] == ':' && s[16] == ':'
  {
  }

  lemma FormatZeroOffset()
    ensures FormatOffset(0) == "+00:00"
  {
    assert Pad(0, 2) == "00";
  }

  /**
   * A naive datetime marked as UTC is written as the naive one followed by "+00:00",
   * so its text starts with the naive datetime's own isoformat.
   */
  lemma IsoFormatWithUtc(d: DateTime)
    requires ValidDateTime(d) && d.offset.None?
    ensures IsoFormat(WithUtc(d)) == IsoFormat(d) + "+00:00"
  {
    assert WallClock(WithUtc(d)) == WallClock(d);
    FormatZeroOffset();
  }
}
