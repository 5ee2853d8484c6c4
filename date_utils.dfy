/**
 * src/utils/dateUtils.js: the Monday-to-Friday dates of the coming week and
 * the short Japanese form of a date. A base date is a calendar date; its
 * time of day plays no part in either result.
 */
module DateUtils {
  import opened Wrappers
  import opened JsStrings
  import opened CivilDates

  /** `(1 - dayOfWeek + 7) % 7`, where 0 (a Monday base) becomes a whole week. */
  function DaysUntilNextMonday(dow: int): (n: int)
    requires 0 <= dow < 7
    ensures 1 <= n <= 7
    ensures (dow + n) % 7 == 1
    ensures dow == 1 <==> n == 7
  {
    var k := (1 - dow + 7) % 7;
    if k == 0 then 7 else k
  }

  /** The Monday that `getNextWeekdays` starts from. */
  function NextMonday(base: ValidDate): ValidDate
  {
    AddDays(base, DaysUntilNextMonday(Weekday(base)))
  }

  /**
   * The first returned day is a Monday one to seven days after the base;
   * exactly seven when the base itself is a Monday.
   */
  lemma NextMondayFacts(base: ValidDate)
    ensures Weekday(NextMonday(base)) == 1
    ensures Ordinal(base) + 1 <= Ordinal(NextMonday(base)) <= Ordinal(base) + 7
    ensures Weekday(base) == 1 <==> Ordinal(NextMonday(base)) == Ordinal(base) + 7
  {
    var n := DaysUntilNextMonday(Weekday(base));
    AddDaysOrdinal(base, n);
    MondayAfter(Ordinal(base), n);
  }

  /** Adding the days to the next Monday to a day number gives a Monday's number. */
  lemma MondayAfter(o: int, n: int)
    requires (o % 7 + n) % 7 == 1
    ensures (o + n) % 7 == 1
  {
    ModSevenShift(o, n);
  }

  /**
   * `getNextWeekdays`: five "YYYY/MM/DD" strings, the i-th being the date
   * `i` days after the next Monday.
   */
  method GetNextWeekdays(base: ValidDate) returns (days: seq<string>)
    ensures |days| == 5
    ensures forall i :: 0 <= i < 5 ==> days[i] == FormatYMD(AddDays(NextMonday(base), i))
    ensures days == NextWeekdays(base)
  {
    var monday := NextMonday(base);
    ghost var week := NextWeekdays(base);
    days := [];
    for i := 0 to 5
      invariant days == week[..i]
    {
      assert week[..i + 1] == week[..i] + [FormatYMD(AddDays(monday, i))];
      days := days + [FormatYMD(AddDays(monday, i))];
    }
    assert week[..5] == week;
  }

  /** The list `getNextWeekdays` returns, as a value. */
  function NextWeekdays(base: ValidDate): (days: seq<string>)
    ensures |days| == 5
  {
    seq(5, i requires 0 <= i < 5 => FormatYMD(AddDays(NextMonday(base), i)))
  }

  /**
   * The i-th returned date is the weekday i + 1 (Monday .. Friday), the
   * dates are consecutive, and each string reads back as its date.
   */
  lemma NextWeekdaysAreMondayToFriday(base: ValidDate, i: nat)
    requires i < 5
    ensures var d := AddDays(NextMonday(base), i);
      NextWeekdays(base)[i] == FormatYMD(d)
      && Weekday(d) == i + 1
      && Ordinal(d) == Ordinal(NextMonday(base)) + i
      && ParseYMD(NextWeekdays(base)[i]) == Some(d)
  {
    var m := NextMonday(base);
    var d := AddDays(m, i);
    NextMondayFacts(base);
    WeekdayAddDays(m, i);
    SmallMod(1 + i);
    AddDaysOrdinal(m, i);
    ParseFormatYMD(d);
  }

  lemma SmallMod(k: int)
    requires 0 <= k < 7
    ensures k % 7 == k
  {
  }

  /** The five strings are pairwise different. */
  lemma NextWeekdaysDistinct(base: ValidDate, i: nat, j: nat)
    requires i < j < 5
    ensures NextWeekdays(base)[i] != NextWeekdays(base)[j]
  {
    NextWeekdaysAreMondayToFriday(base, i);
    NextWeekdaysAreMondayToFriday(base, j);
  }

  const DAY_NAMES: seq<string> := ["日", "月", "火", "水", "木", "金", "土"]

  /**
   * `formatJapaneseDateWithDay`: "MM/DD (曜)". A string `new Date` cannot
   * read gives the text of NaN fields: "NaN/NaN (undefined)".
   */
  function FormatJapaneseDateWithDay(dateString: string): (r: string)
  {
    match ParseYMD(dateString)
    case Some(d) =>
      Pad2(NatToString(d.month)) + "/" + Pad2(NatToString(d.day)) + " (" + DAY_NAMES[Weekday(d)] + ")"
    case None => "NaN/NaN (undefined)"
  }

  /**
   * On a date's own "YYYY/MM/DD" text the result is the padded month and day
   * of that date and the name of its weekday; the year is not shown.
   */
  lemma JapaneseDateOfFormatted(d: ValidDate)
    ensures var r := FormatJapaneseDateWithDay(FormatYMD(d));
      r == Pad2(NatToString(d.month)) + "/" + Pad2(NatToString(d.day)) + " (" + DAY_NAMES[Weekday(d)] + ")"
      && |r| == 9 && r[2] == '/' && r[5] == ' '
  {
    ParseFormatYMD(d);
    NatToStringBelow100(d.month);
    NatToStringBelow100(d.day);
    var mm, dd := Pad2(NatToString(d.month)), Pad2(NatToString(d.day));
    var name := DAY_NAMES[Weekday(d)];
    DayNameLength(Weekday(d));
    assert FormatJapaneseDateWithDay(FormatYMD(d)) == mm + "/" + dd + " (" + name + ")";
    JapaneseShape(mm, dd, name);
  }

  lemma JapaneseShape(mm: string, dd: string, name: string)
    requires |mm| == 2 && |dd| == 2 && |name| == 1
    ensures var r := mm + "/" + dd + " (" + name + ")"; |r| == 9 && r[2] == '/' && r[5] == ' '
  {
    var front := mm + "/" + dd;
    assert front[2] == '/';
    assert mm + "/" + dd + " (" + name + ")" == front + (" (" + name + ")");
  }

  lemma DayNameLength(k: nat)
    requires k < 7
    ensures |DAY_NAMES[k]| == 1
  {
  }
}
