/**
 * src/services/gmailSearchService.js: whether the order mail for a period
 * has already been sent, decided by a Gmail search on the sent folder.
 */
module GmailSearch {
  import opened Wrappers
  import opened JsStrings
  import opened CivilDates

  const SUBJECT_KEYWORDS: seq<string> := ["弁当", "お弁当"]
  const SEARCH_DAYS_BACK: nat := 30

  /** "M/D" from "YYYY/MM/DD": `parseInt` of the second and third '/'-parts. */
  function MonthDay(date: string): string
  {
    var parts := Split(date, '/');
    ParsedToString(ParseInt(PartOrUndefined(parts, 1))) + "/" + ParsedToString(ParseInt(PartOrUndefined(parts, 2)))
  }

  /** `keywords.map(kw => `subject:${kw}`)`. */
  function SubjectTerms(keywords: seq<string>): (r: seq<string>)
    ensures |r| == |keywords|
    ensures forall i :: 0 <= i < |r| ==> r[i] == "subject:" + keywords[i]
  {
    if keywords == [] then [] else ["subject:" + keywords[0]] + SubjectTerms(keywords[1..])
  }

  /** `buildOrderEmailSearchQuery`. */
  function BuildOrderEmailSearchQuery(startDate: string, endDate: string): string
  {
    "in:sent subject:" + MonthDay(startDate) + " subject:" + MonthDay(endDate) + " " + QueryTail()
  }

  /** The keyword terms joined by blanks, then the age limit. */
  function QueryTail(): string
  {
    Join(SubjectTerms(SUBJECT_KEYWORDS), " ") + " newer_than:" + NatToString(SEARCH_DAYS_BACK) + "d"
  }

  /**
   * For a date's own text the month and the day appear without leading
   * zeros and the year does not appear at all.
   */
  function UnpaddedMonthDay(d: ValidDate): string
  {
    NatToString(d.month) + "/" + NatToString(d.day)
  }

  lemma MonthDayOfFormatted(d: ValidDate)
    ensures MonthDay(FormatYMD(d)) == UnpaddedMonthDay(d)
  {
    SplitFormatYMD(d);
    ParseIntOfPadded(d.month);
    ParseIntOfPadded(d.day);
  }

  /** Two dates on the same month and day give the same "M/D", whatever their years. */
  lemma MonthDayIgnoresYear(a: ValidDate, b: ValidDate)
    requires a.month == b.month && a.day == b.day
    ensures MonthDay(FormatYMD(a)) == MonthDay(FormatYMD(b))
  {
    MonthDayOfFormatted(a);
    MonthDayOfFormatted(b);
  }

  /**
   * The whole query for a period given as two dates:
   * "in:sent subject:M/D subject:M/D subject:弁当 subject:お弁当 newer_than:30d".
   */
  lemma QueryOfPeriod(start: ValidDate, end: ValidDate)
    ensures BuildOrderEmailSearchQuery(FormatYMD(start), FormatYMD(end))
      == "in:sent subject:" + UnpaddedMonthDay(start) + " subject:" + UnpaddedMonthDay(end)
        + " " + "subject:弁当 subject:お弁当 newer_than:30d"
  {
    MonthDayOfFormatted(start);
    MonthDayOfFormatted(end);
    FixedQueryTail();
  }

  lemma FixedQueryTail()
    ensures QueryTail() == "subject:弁当 subject:お弁当 newer_than:30d"
  {
    var terms := SubjectTerms(SUBJECT_KEYWORDS);
    assert |terms| == 2 && terms[0] == "subject:弁当" && terms[1] == "subject:お弁当";
    assert terms[1..] == [terms[1]];
    assert Join(terms, " ") == "subject:弁当 subject:お弁当";
    assert NatToString(30) == NatToString(3) + [DigitChar(0)];
  }

  /**
   * `hasOrderEmailBeenSent`: `search` is the number of threads the search
   * found, or `None` when the search threw. Sent iff at least one thread
   * was found; an error counts as not sent.
   */
  function HasOrderEmailBeenSent(search: Option<nat>): (sent: bool)
    ensures sent <==> search.Some? && search.value >= 1
    ensures search.None? ==> !sent
  {
    match search
    case Some(threads) => threads > 0
    case None => false
  }
}
