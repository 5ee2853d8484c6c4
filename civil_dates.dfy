/**
 * Calendar dates without time of day or time zone, in the proleptic
 * Gregorian calendar, with the weekday numbering of `Date.getDay()`
 * (0 = Sunday … 6 = Saturday) and the "YYYY/MM/DD" text form the program
 * uses as a date key.
 */
module CivilDates {
  import opened Wrappers
  import opened JsStrings

  datatype CivilDate = CivilDate(year: int, month: int, day: int)

  predicate IsLeapYear(y: int) { y % 4 == 0 && (y % 100 != 0 || y % 400 == 0) }

  function DaysInMonth(y: int, m: int): (n: int)
    requires 1 <= m <= 12
    ensures 28 <= n <= 31
  {
    if m == 2 then (if IsLeapYear(y) then 29 else 28)
    else if m == 4 || m == 6 || m == 9 || m == 11 then 30
    else 31
  }

  predicate Valid(d: CivilDate)
  {
    1 <= d.year && 1 <= d.month <= 12 && 1 <= d.day <= DaysInMonth(d.year, d.month)
  }

  /** A date that exists in the calendar. */
  type ValidDate = d: CivilDate | Valid(d) witness CivilDate(1, 1, 1)

  /** Days in the years before `y`, counted from 0001-01-01. */
  function DaysBeforeYear(y: int): int
    requires y >= 1
  {
    if y == 1 then 0 else DaysBeforeYear(y - 1) + DaysBeforeMonth(y - 1, 13)
  }

  /** Days in the months of year `y` before month `m`. */
  function DaysBeforeMonth(y: int, m: int): (n: int)
    requires 1 <= m <= 13
  {
    [0, 31, 59, 90, 120, 151, 181, 212, 243, 273, 304, 334, 365][m - 1]
      + (if IsLeapYear(y) && m > 2 then 1 else 0)
  }

  /** The table adds each month's length to the month before. */
  lemma DaysBeforeMonthStep(y: int, m: int)
    requires 2 <= m <= 13
    ensures DaysBeforeMonth(y, m) == DaysBeforeMonth(y, m - 1) + DaysInMonth(y, m - 1)
  {
  }

  /** The day number of `d`, 0001-01-01 being day 1. */
  function Ordinal(d: CivilDate): int
    requires Valid(d)
  {
    DaysBeforeYear(d.year) + DaysBeforeMonth(d.year, d.month) + d.day
  }

  /** `Date.getDay()`: 0001-01-01 was a Monday. */
  function Weekday(d: CivilDate): (w: int)
    requires Valid(d)
    ensures 0 <= w < 7
  {
    Ordinal(d) % 7
  }

  /** The date after `d` (what `setDate(getDate() + 1)` does). */
  function NextDay(d: CivilDate): CivilDate
    requires Valid(d)
  {
    if d.day < DaysInMonth(d.year, d.month) then CivilDate(d.year, d.month, d.day + 1)
    else if d.month < 12 then CivilDate(d.year, d.month + 1, 1)
    else CivilDate(d.year + 1, 1, 1)
  }

  function AddDays(d: CivilDate, n: nat): (r: CivilDate)
    requires Valid(d)
    ensures Valid(r)
    decreases n
  {
    if n == 0 then d else NextDayIsValid(d); AddDays(NextDay(d), n - 1)
  }

  lemma NextDayIsValid(d: CivilDate)
    requires Valid(d)
    ensures Valid(NextDay(d))
  {
  }

  lemma NextDayValid(d: CivilDate)
    requires Valid(d)
    ensures Valid(NextDay(d)) && Ordinal(NextDay(d)) == Ordinal(d) + 1
  {
    if d.day == DaysInMonth(d.year, d.month) {
      if d.month == 12 {
        assert DaysBeforeYear(d.year + 1) == DaysBeforeYear(d.year) + DaysBeforeMonth(d.year, 13);
      } else {
        DaysBeforeMonthStep(d.year, d.month + 1);
      }
    }
  }

  lemma {:induction false} AddDaysOrdinal(d: CivilDate, n: nat)
    requires Valid(d)
    ensures Ordinal(AddDays(d, n)) == Ordinal(d) + n
    decreases n
  {
    if n > 0 {
      NextDayValid(d);
      AddDaysOrdinal(NextDay(d), n - 1);
    }
  }

  /** Moving `n` days ahead moves the weekday `n` steps round the week. */
  lemma WeekdayAddDays(d: CivilDate, n: nat)
    requires Valid(d)
    ensures Weekday(AddDays(d, n)) == (Weekday(d) + n) % 7
  {
    AddDaysOrdinal(d, n);
    ModSevenShift(Ordinal(d), n);
  }

  lemma ModSevenShift(o: int, n: int)
    ensures (o + n) % 7 == (o % 7 + n) % 7
  {
    var q := o / 7;
    assert o + n == 7 * q + (o % 7 + n);
  }

  lemma {:induction false} AddDaysAdd(d: CivilDate, m: nat, n: nat)
    requires Valid(d)
    ensures AddDays(AddDays(d, m), n) == AddDays(d, m + n)
    decreases m
  {
    if m > 0 {
      NextDayIsValid(d);
      AddDaysAdd(NextDay(d), m - 1, n);
    }
  }

  /** "YYYY/MM/DD" with the month and the day padded to two digits. */
  function FormatYMD(d: CivilDate): string
    requires Valid(d)
  {
    NatToString(d.year) + "/" + Pad2(NatToString(d.month)) + "/" + Pad2(NatToString(d.day))
  }

  /** "yyyy/MM": the year and month a ledger date falls in. */
  function FormatYM(d: CivilDate): string
    requires Valid(d)
  {
    NatToString(d.year) + "/" + Pad2(NatToString(d.month))
  }

  predicate IsNumeral(s: string) { s != [] && AllDigits(s) }

  /**
   * Reading a "Y/M/D" string back as a calendar date: three '/'-separated
   * digit strings naming an existing date, otherwise `None`.
   */
  function ParseYMD(s: string): (r: Option<CivilDate>)
    ensures r.Some? ==> Valid(r.value)
  {
    var parts := Split(s, '/');
    if |parts| != 3 || !IsNumeral(parts[0]) || !IsNumeral(parts[1]) || !IsNumeral(parts[2]) then None
    else
      var d := CivilDate(DigitsValue(parts[0]), DigitsValue(parts[1]), DigitsValue(parts[2]));
      if Valid(d) then Some(d) else None
  }

  lemma DigitsHaveNoSlash(s: string)
    requires AllDigits(s)
    ensures '/' !in s
  {
    forall k | 0 <= k < |s| ensures s[k] != '/' { assert IsDigit(s[k]); }
  }

  lemma SplitFormatYMD(d: CivilDate)
    requires Valid(d)
    ensures Split(FormatYMD(d), '/') == [NatToString(d.year), Pad2(NatToString(d.month)), Pad2(NatToString(d.day))]
  {
    var parts := [NatToString(d.year), Pad2(NatToString(d.month)), Pad2(NatToString(d.day))];
    Pad2Value(d.month);
    Pad2Value(d.day);
    DigitsHaveNoSlash(parts[0]);
    DigitsHaveNoSlash(parts[1]);
    DigitsHaveNoSlash(parts[2]);
    assert parts[1..][1..] == [parts[2]];
    assert Join(parts[1..], "/") == parts[1] + "/" + parts[2];
    assert Join(parts, "/") == FormatYMD(d);
    SplitJoin(parts, '/');
  }

  /** The text form of a date reads back as that date. */
  lemma ParseFormatYMD(d: CivilDate)
    requires Valid(d)
    ensures ParseYMD(FormatYMD(d)) == Some(d)
  {
    SplitFormatYMD(d);
    Pad2Value(d.month);
    Pad2Value(d.day);
    DigitsValueOfNatToString(d.year);
  }

  /** Distinct valid dates have distinct text forms. */
  lemma FormatYMDInjective(a: CivilDate, b: CivilDate)
    requires Valid(a) && Valid(b) && FormatYMD(a) == FormatYMD(b)
    ensures a == b
  {
    ParseFormatYMD(a);
    ParseFormatYMD(b);
  }
}
