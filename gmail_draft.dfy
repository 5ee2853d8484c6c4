/**
 * src/services/gmailDraftCreator.js: the subject, the body and the
 * quantity-change section of the order mail.
 *
 * The change map is the one the weekly processor builds: year-month ->
 * date -> size label -> {previous, current, diff}, each level an object
 * whose keys keep insertion order. The store and sender names read from
 * sheets are parameters ("" when the cell is empty or unreadable).
 */
module GmailDraft {
  import opened Wrappers
  import opened JsStrings
  import opened JsObjects
  import opened CivilDates
  import opened DateUtils
  import opened Sorting
  import WeeklyOrderProcessor

  type SizeChange = WeeklyOrderProcessor.SizeChange
  type DateChanges = Assoc<SizeChange>
  type MonthChanges = Assoc<DateChanges>
  type Changes = Assoc<MonthChanges>

  const SUBJECT_PREFIX: string := "のお弁当について"
  const GREETING: string := "様\n\nいつもお世話になります。"
  const BODY_MAIN: string := "次回のお弁当のオーダーカードを添付の通り送付させて頂きます。"
  const CLOSING: string := "以上、よろしくお願いいたします。"
  const CHANGE_HEADING: string := "【数量変更】"

  // ---------------------------------------------------------------- subject

  /**
   * `getMonth() + 1` and `getDate()` of `new Date(s)`, as text; a string
   * that is not a date gives NaN for both.
   */
  function MonthText(s: string): string
  {
    match ParseYMD(s)
    case Some(d) => NatToString(d.month)
    case None => "NaN"
  }

  function DayText(s: string): string
  {
    match ParseYMD(s)
    case Some(d) => NatToString(d.day)
    case None => "NaN"
  }

  /** `generateEmailSubject`: "M/DD~M/DDのお弁当について". */
  function GenerateEmailSubject(start: string, end: string): (r: string)
    ensures |r| > |SUBJECT_PREFIX| && r[|r| - |SUBJECT_PREFIX|..] == SUBJECT_PREFIX
  {
    MonthText(start) + "/" + Pad2(DayText(start)) + "~" + MonthText(end) + "/" + Pad2(DayText(end)) + SUBJECT_PREFIX
  }

  /**
   * For a period given by two dates the month stays unpadded and the day is
   * always two digits; so the day agrees with the unpadded "M/D" of the
   * sent-mail search only from the 10th on.
   */
  lemma SubjectOfPeriod(a: ValidDate, b: ValidDate)
    ensures GenerateEmailSubject(FormatYMD(a), FormatYMD(b))
      == NatToString(a.month) + "/" + Pad2(NatToString(a.day)) + "~"
        + NatToString(b.month) + "/" + Pad2(NatToString(b.day)) + SUBJECT_PREFIX
    ensures |Pad2(NatToString(a.day))| == 2 && |Pad2(NatToString(b.day))| == 2
    ensures Pad2(NatToString(a.day)) == NatToString(a.day) <==> a.day >= 10
  {
    ParseFormatYMD(a);
    ParseFormatYMD(b);
    NatToStringBelow100(a.day);
    NatToStringBelow100(b.day);
  }

  // ------------------------------------------------------------------ names

  /** `extractNameFromEmail`: the part before the first '@', or the whole address when that part is empty. */
  function ExtractNameFromEmail(email: string): (r: string)
    ensures '@' !in email ==> r == email
    ensures email != [] && email[0] == '@' ==> r == email
    ensures '@' in email && email[0] != '@' ==>
      r != [] && '@' !in r && |r| < |email| && email[..|r|] == r && email[|r|] == '@'
  {
    var namePart := Split(email, '@')[0];
    if namePart != "" then namePart else email
  }

  // ----------------------------------------------------- previous-is-zero check

  predicate SizesZero(sizes: DateChanges)
  {
    forall k :: 0 <= k < |sizes| ==> sizes[k].1.previous <= 0
  }

  predicate DatesZero(dates: MonthChanges)
  {
    forall j :: 0 <= j < |dates| ==> SizesZero(dates[j].1)
  }

  /** No entry anywhere in the change map has a previous count above zero. */
  predicate AllPreviousZero(changes: Changes)
  {
    forall i :: 0 <= i < |changes| ==> DatesZero(changes[i].1)
  }

  /**
   * `isAllPreviousValuesZero`: the three nested walks set a flag on the
   * first previous count above zero; the answer is the flag negated, so an
   * empty map answers true.
   */
  method IsAllPreviousValuesZero(changes: Changes) returns (allZero: bool)
    ensures allZero <==> AllPreviousZero(changes)
    ensures changes == [] ==> allZero
  {
    var hasNonZeroPrevious := false;
    for i := 0 to |changes|
      invariant hasNonZeroPrevious <==> !AllPreviousZero(changes[..i])
    {
      var monthChanges := changes[i].1;
      for j := 0 to |monthChanges|
        invariant hasNonZeroPrevious <==> !AllPreviousZero(changes[..i]) || !DatesZero(monthChanges[..j])
      {
        var dateChanges := monthChanges[j].1;
        for k := 0 to |dateChanges|
          invariant hasNonZeroPrevious
            <==> !AllPreviousZero(changes[..i]) || !DatesZero(monthChanges[..j]) || !SizesZero(dateChanges[..k])
        {
          if dateChanges[k].1.previous > 0 {
            hasNonZeroPrevious := true;
          }
          assert dateChanges[..k + 1][k] == dateChanges[k];
        }
        assert dateChanges[..|dateChanges|] == dateChanges;
        assert monthChanges[..j + 1][j] == monthChanges[j];
      }
      assert monthChanges[..|monthChanges|] == monthChanges;
      assert changes[..i + 1][i] == changes[i];
    }
    assert changes[..|changes|] == changes;
    allZero := !hasNonZeroPrevious;
  }

  // ------------------------------------------------------------- change text

  /** `allDateChanges[dateStr] = …` for each date of one month, in key order. */
  function PutAll(acc: MonthChanges, dates: MonthChanges): MonthChanges
  {
    if dates == [] then acc
    else Put(PutAll(acc, dates[..|dates| - 1]), dates[|dates| - 1].0, dates[|dates| - 1].1)
  }

  /** All months' dates merged into one object, month after month. */
  function Merged(changes: Changes): MonthChanges
  {
    if changes == [] then []
    else PutAll(Merged(changes[..|changes| - 1]), changes[|changes| - 1].1)
  }

  /**
   * After the merge a date holds the entry of the month given last that
   * has it; dates of the merged months are exactly its keys.
   */
  lemma {:induction false} PutAllMeaning(acc: MonthChanges, dates: MonthChanges, d: string)
    requires DistinctKeys(dates)
    ensures Get(PutAll(acc, dates), d) == if d in Keys(dates) then Get(dates, d) else Get(acc, d)
    ensures d in Keys(PutAll(acc, dates)) <==> d in Keys(acc) || d in Keys(dates)
  {
    if dates != [] {
      var init := dates[..|dates| - 1];
      var last := dates[|dates| - 1];
      assert dates == init + [last];
      assert DistinctKeys(init);
      PutAllMeaning(acc, init, d);
      KeysSnoc(init, last);
      var before := PutAll(acc, init);
      assert PutAll(acc, dates) == Put(before, last.0, last.1);
      GetPut(before, last.0, last.1, d);
      GetSnoc(init, last, d);
    }
  }

  lemma KeysSnoc<V>(a: Assoc<V>, x: (string, V))
    ensures Keys(a + [x]) == Keys(a) + [x.0]
  {
    assert forall i :: 0 <= i < |a| ==> (a + [x])[i] == a[i];
  }

  /** Without repeated keys, reading from `a + [x]` finds `x` only for its own key. */
  lemma {:induction false} GetSnoc<V>(a: Assoc<V>, x: (string, V), d: string)
    requires DistinctKeys(a + [x])
    ensures Get(a + [x], d) == if d == x.0 then Some(x.1) else Get(a, d)
  {
    if a == [] {
    } else {
      assert (a + [x])[1..] == a[1..] + [x];
      assert (a + [x])[0] == a[0];
      if a[0].0 != d {
        assert DistinctKeys(a[1..] + [x]) by {
          forall p, q | 0 <= p < q < |a[1..] + [x]| ensures (a[1..] + [x])[p].0 != (a[1..] + [x])[q].0 {
            assert (a[1..] + [x])[p] == (a + [x])[p + 1] && (a[1..] + [x])[q] == (a + [x])[q + 1];
          }
        }
        GetSnoc(a[1..], x, d);
      } else {
        assert (a + [x])[|a|] == x;
      }
    }
  }

  /** Every month's dates, with no date repeated within a month, as the source's objects guarantee. */
  predicate WellKeyed(changes: Changes)
  {
    forall i :: 0 <= i < |changes| ==> DistinctKeys(changes[i].1)
  }

  /** A later month's entry for a date replaces the one merged before it. */
  lemma MergedSnoc(changes: Changes, month: string, dates: MonthChanges, d: string)
    requires DistinctKeys(dates)
    ensures Get(Merged(changes + [(month, dates)]), d)
      == if d in Keys(dates) then Get(dates, d) else Get(Merged(changes), d)
  {
    var c := changes + [(month, dates)];
    assert c[..|c| - 1] == changes;
    PutAllMeaning(Merged(changes), dates, d);
  }

  /** Some month of `changes` has the date `d`. */
  predicate InSomeMonth(changes: Changes, d: string)
  {
    exists i :: 0 <= i < |changes| && d in Keys(changes[i].1)
  }

  lemma InSomeMonthSnoc(changes: Changes, d: string)
    requires changes != []
    ensures InSomeMonth(changes, d) <==>
      InSomeMonth(changes[..|changes| - 1], d) || d in Keys(changes[|changes| - 1].1)
  {
    var init := changes[..|changes| - 1];
    if InSomeMonth(changes, d) && d !in Keys(changes[|changes| - 1].1) {
      var i :| 0 <= i < |changes| && d in Keys(changes[i].1);
      assert changes[i] == init[i];
    }
    if InSomeMonth(init, d) {
      var i :| 0 <= i < |init| && d in Keys(init[i].1);
      assert changes[i] == init[i];
    }
  }

  lemma WellKeyedInit(changes: Changes)
    requires changes != [] && WellKeyed(changes)
    ensures WellKeyed(changes[..|changes| - 1]) && DistinctKeys(changes[|changes| - 1].1)
  {
    var init := changes[..|changes| - 1];
    forall i | 0 <= i < |init| ensures DistinctKeys(init[i].1) {
      assert init[i] == changes[i];
    }
  }

  /** A date is in the merge iff some month has it. */
  lemma {:induction false} MergedKeys(changes: Changes, d: string)
    requires WellKeyed(changes)
    ensures d in Keys(Merged(changes)) <==> InSomeMonth(changes, d)
    decreases |changes|
  {
    if changes != [] {
      var init := changes[..|changes| - 1];
      var last := changes[|changes| - 1];
      WellKeyedInit(changes);
      MergedKeys(init, d);
      PutAllMeaning(Merged(init), last.1, d);
      InSomeMonthSnoc(changes, d);
    }
  }

  /** The merged object has no repeated dates. */
  lemma {:induction false} MergedDistinct(changes: Changes)
    ensures DistinctKeys(Merged(changes))
    decreases |changes|
  {
    if changes != [] {
      MergedDistinct(changes[..|changes| - 1]);
      PutAllDistinct(Merged(changes[..|changes| - 1]), changes[|changes| - 1].1);
    }
  }

  lemma {:induction false} PutAllDistinct(acc: MonthChanges, dates: MonthChanges)
    requires DistinctKeys(acc)
    ensures DistinctKeys(PutAll(acc, dates))
  {
    if dates != [] {
      PutAllDistinct(acc, dates[..|dates| - 1]);
      PutDistinct(PutAll(acc, dates[..|dates| - 1]), dates[|dates| - 1].0, dates[|dates| - 1].1);
    }
  }

  /** "M/D(曜)" of `new Date(dateStr)`: month and day unpadded. */
  function DateLabel(dateStr: string): string
  {
    match ParseYMD(dateStr)
    case Some(d) => NatToString(d.month) + "/" + NatToString(d.day) + "(" + DAY_NAMES[Weekday(d)] + ")"
    case None => "NaN/NaN(undefined)"
  }

  /** On a date's own text the label is its unpadded month and day and its weekday's name. */
  lemma DateLabelOfFormatted(d: ValidDate)
    ensures DateLabel(FormatYMD(d)) == NatToString(d.month) + "/" + NatToString(d.day) + "(" + DAY_NAMES[Weekday(d)] + ")"
  {
    ParseFormatYMD(d);
  }

  /** One line: "M/D(曜) 大盛1個 → 2個". */
  function ChangeLine(formatted: string, size: string, change: SizeChange): string
  {
    formatted + " " + size + IntToString(change.previous) + "個 → " + IntToString(change.current) + "個"
  }

  function LineOf(formatted: string): (string, SizeChange) -> string
  {
    (size, change) => ChangeLine(formatted, size, change)
  }

  /** The lines of one date, one per size entry in key order. */
  function SizeLines(line: (string, SizeChange) -> string, sizes: DateChanges): (lines: seq<string>)
    ensures |lines| == |sizes|
    ensures forall k :: 0 <= k < |sizes| ==> lines[k] == line(sizes[k].0, sizes[k].1)
  {
    if sizes == [] then []
    else SizeLines(line, sizes[..|sizes| - 1]) + [line(sizes[|sizes| - 1].0, sizes[|sizes| - 1].1)]
  }

  function EntriesOf(all: MonthChanges, dateStr: string): DateChanges
  {
    Get(all, dateStr).GetOr([])
  }

  /** The lines of the given dates, date after date. */
  function LinesFor(dates: seq<string>, all: MonthChanges): seq<string>
  {
    if dates == [] then []
    else
      var d := dates[|dates| - 1];
      LinesFor(dates[..|dates| - 1], all) + SizeLines(LineOf(DateLabel(d)), EntriesOf(all, d))
  }

  /** Every (date, size) entry of the listed dates has its line. */
  lemma {:induction false} EntryHasLine(dates: seq<string>, all: MonthChanges, i: nat, k: nat)
    requires i < |dates| && k < |EntriesOf(all, dates[i])|
    ensures ChangeLine(DateLabel(dates[i]), EntriesOf(all, dates[i])[k].0, EntriesOf(all, dates[i])[k].1)
      in LinesFor(dates, all)
  {
    var init := dates[..|dates| - 1];
    var last := dates[|dates| - 1];
    var own := SizeLines(LineOf(DateLabel(last)), EntriesOf(all, last));
    assert LinesFor(dates, all) == LinesFor(init, all) + own;
    var target := ChangeLine(DateLabel(dates[i]), EntriesOf(all, dates[i])[k].0, EntriesOf(all, dates[i])[k].1);
    if i < |init| {
      assert dates[i] == init[i];
      EntryHasLine(init, all, i, k);
      assert target in LinesFor(init, all);
    } else {
      assert i == |dates| - 1;
      assert dates[i] == last;
      assert |own| == |EntriesOf(all, last)|;
      assert k < |own|;
      assert own[k] == target;
      assert target in own;
    }
  }

  /** Every line is the line of some (date, size) entry of the listed dates. */
  lemma {:induction false} LineHasEntry(dates: seq<string>, all: MonthChanges, p: nat)
    requires p < |LinesFor(dates, all)|
    ensures exists i, k ::
      0 <= i < |dates| && 0 <= k < |EntriesOf(all, dates[i])|
      && LinesFor(dates, all)[p] == ChangeLine(DateLabel(dates[i]), EntriesOf(all, dates[i])[k].0, EntriesOf(all, dates[i])[k].1)
  {
    var init := dates[..|dates| - 1];
    var i := |dates| - 1;
    var before := LinesFor(init, all);
    if p < |before| {
      LineHasEntry(init, all, p);
      var j, k :| 0 <= j < |init| && 0 <= k < |EntriesOf(all, init[j])|
        && before[p] == ChangeLine(DateLabel(init[j]), EntriesOf(all, init[j])[k].0, EntriesOf(all, init[j])[k].1);
      assert dates[j] == init[j];
    } else {
      var k := p - |before|;
      assert LinesFor(dates, all)[p] == SizeLines(LineOf(DateLabel(dates[i])), EntriesOf(all, dates[i]))[k];
    }
  }

  /** The merged dates in ascending string order. */
  function SortedDates(changes: Changes): (dates: seq<string>)
    ensures SortedBy(dates, Identity)
    ensures forall i, j :: 0 <= i < j < |dates| ==> dates[i] != dates[j]
    ensures forall d :: d in dates <==> d in Keys(Merged(changes))
  {
    var keys := Keys(Merged(changes));
    MergedDistinct(changes);
    assert forall i, j :: 0 <= i < j < |keys| ==> keys[i] != keys[j];
    var sorted := SortStrings(keys);
    PermutationKeepsDistinct(keys, sorted);
    assert forall d :: d in sorted <==> d in multiset(keys);
    sorted
  }

  /** The text `formatOrderChanges` returns. */
  function ChangeText(changes: Changes): (text: string)
    ensures AllPreviousZero(changes) ==> text == ""
  {
    if AllPreviousZero(changes) then ""
    else Join(LinesFor(SortedDates(changes), Merged(changes)), "\n")
  }

  /**
   * `formatOrderChanges`: merge all months' dates, answer "" for a map
   * whose previous counts are all zero (a first order), otherwise one line
   * per (date, size) entry, dates in ascending order, joined by newlines.
   */
  method FormatOrderChanges(changes: Changes) returns (text: string)
    ensures text == ChangeText(changes)
  {
    var allDateChanges := MergeAllDates(changes);
    var allZero := IsAllPreviousValuesZero(changes);
    if allZero {
      return "";
    }
    var sortedDates := SortedDates(changes);
    var lines := ChangeLines(sortedDates, allDateChanges);
    text := Join(lines, "\n");
  }

  /** The merge loop: each month's dates assigned into one object in turn. */
  method MergeAllDates(changes: Changes) returns (allDateChanges: MonthChanges)
    ensures allDateChanges == Merged(changes)
  {
    allDateChanges := [];
    for i := 0 to |changes|
      invariant allDateChanges == Merged(changes[..i])
    {
      var monthChanges := changes[i].1;
      for j := 0 to |monthChanges|
        invariant allDateChanges == PutAll(Merged(changes[..i]), monthChanges[..j])
      {
        assert monthChanges[..j + 1][..j] == monthChanges[..j];
        allDateChanges := Put(allDateChanges, monthChanges[j].0, monthChanges[j].1);
      }
      assert monthChanges[..|monthChanges|] == monthChanges;
      assert changes[..i + 1][..i] == changes[..i];
    }
    assert changes[..|changes|] == changes;
  }

  /** The line loop: for each date in the given order, one line per size entry. */
  method ChangeLines(sortedDates: seq<string>, allDateChanges: MonthChanges) returns (lines: seq<string>)
    ensures lines == LinesFor(sortedDates, allDateChanges)
  {
    lines := [];
    for i := 0 to |sortedDates|
      invariant lines == LinesFor(sortedDates[..i], allDateChanges)
    {
      var dateStr := sortedDates[i];
      var dateLines := DateLines(DateLabel(dateStr), EntriesOf(allDateChanges, dateStr));
      assert sortedDates[..i + 1][..i] == sortedDates[..i] && sortedDates[..i + 1][i] == dateStr;
      lines := lines + dateLines;
    }
    assert sortedDates[..|sortedDates|] == sortedDates;
  }

  /** The inner loop: one line per size entry of one date. */
  method DateLines(formatted: string, dateChanges: DateChanges) returns (lines: seq<string>)
    ensures lines == SizeLines(LineOf(formatted), dateChanges)
  {
    lines := [];
    for k := 0 to |dateChanges|
      invariant lines == SizeLines(LineOf(formatted), dateChanges[..k])
    {
      assert dateChanges[..k + 1][..k] == dateChanges[..k];
      lines := lines + [LineOf(formatted)(dateChanges[k].0, dateChanges[k].1)];
    }
    assert dateChanges[..|dateChanges|] == dateChanges;
  }

  // ------------------------------------------------------------------- body

  /** The lines `generateEmailBody` joins with newlines. */
  function BodyLines(storeName: string, senderName: string, changeText: string): (lines: seq<string>)
    ensures |lines| == if changeText != "" then 9 else 6
    ensures lines[|lines| - 1] == CLOSING
  {
    [storeName + GREETING, senderName + "です。", "", BODY_MAIN, ""]
      + (if changeText != "" then [CHANGE_HEADING, changeText, ""] else [])
      + [CLOSING]
  }

  /**
   * The heading of the quantity-change block appears among the lines iff
   * there is change text, whatever the names; the text then follows the
   * heading and the closing line comes last.
   */
  lemma ChangeBlockIffText(storeName: string, senderName: string, changeText: string)
    ensures CHANGE_HEADING in BodyLines(storeName, senderName, changeText) <==> changeText != ""
    ensures changeText != "" ==> BodyLines(storeName, senderName, changeText)[5..7] == [CHANGE_HEADING, changeText]
  {
    var lines := BodyLines(storeName, senderName, changeText);
    assert |lines[0]| > |CHANGE_HEADING|;
    var s := senderName + "です。";
    assert s[|s| - 1] == '。';
    assert CHANGE_HEADING[|CHANGE_HEADING| - 1] == '】';
    assert lines[1] != CHANGE_HEADING;
    assert BODY_MAIN != CHANGE_HEADING && CLOSING != CHANGE_HEADING;
  }

  /**
   * `generateEmailBody`: the store name falls back to the recipient
   * address's name part and the sender name to the user address's.
   */
  function GenerateEmailBody(storeCell: string, senderCell: string, recipientEmail: string, userEmail: string, changes: Changes)
    : (body: string)
  {
    var storeName := if storeCell != "" then storeCell else ExtractNameFromEmail(recipientEmail);
    var senderName := if senderCell != "" then senderCell else ExtractNameFromEmail(userEmail);
    Join(BodyLines(storeName, senderName, ChangeText(changes)), "\n")
  }

  /**
   * Without change text (a first order, by `ChangeText`) the body is six
   * lines: greeting, sender, blank, main text, blank, closing.
   */
  lemma BodyWithoutChanges(storeName: string, senderName: string)
    ensures Join(BodyLines(storeName, senderName, ""), "\n")
      == storeName + GREETING + "\n" + senderName + "です。" + "\n\n" + BODY_MAIN + "\n\n" + CLOSING
  {
    var a, b := storeName + GREETING, senderName + "です。";
    assert BodyLines(storeName, senderName, "") == [a, b, "", BODY_MAIN, "", CLOSING];
    JoinSix(a, b, "", BODY_MAIN, "", CLOSING, "\n");
  }

  /** Six lines joined by `sep`. */
  lemma JoinSix(a: string, b: string, c: string, d: string, e: string, f: string, sep: string)
    ensures Join([a, b, c, d, e, f], sep) == a + sep + b + sep + c + sep + d + sep + e + sep + f
  {
    JoinCons(e, [f], sep);
    assert [e, f] == [e] + [f];
    JoinCons(d, [e, f], sep);
    assert [d, e, f] == [d] + [e, f];
    JoinCons(c, [d, e, f], sep);
    assert [c, d, e, f] == [c] + [d, e, f];
    JoinCons(b, [c, d, e, f], sep);
    assert [b, c, d, e, f] == [b] + [c, d, e, f];
    JoinCons(a, [b, c, d, e, f], sep);
    assert [a, b, c, d, e, f] == [a] + [b, c, d, e, f];
  }
}
