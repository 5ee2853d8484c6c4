/**
 * src/processors/pdfMenuProcessor.js: the menu rows built from a parsed
 * menu PDF, the rules that skip a file, the order in which files and rows
 * are handled, and the rename that marks a file as processed.
 *
 * The parse (an LLM call) and the spreadsheet write are external: their
 * outcomes are parameters. A file's content type and name are its only
 * properties; renaming replaces the name in the folder's file list.
 */
module PdfMenuProcessor {
  import opened Wrappers
  import opened JsStrings
  import opened Constants
  import opened FileNames
  import opened Sorting

  /** One item as the parser returns it. */
  datatype MenuItem = MenuItem(date: string, menu: string)

  /** One row for the menu sheet. */
  datatype MenuRow = MenuRow(date: string, storeName: string, menu: string)

  // ------------------------------------------------------------ _transformMenuData

  /**
   * `item.date.split('/')[2] || item.date.split('-')[2]`: the third '/'
   * part when it is non-empty, else the third '-' part; `None` when that
   * is missing too (the following `padStart` then throws).
   */
  function DayOf(itemDate: string): (day: Option<string>)
    ensures day.Some? ==> ('/' !in day.value || '-' !in day.value)
  {
    var slashParts := Split(itemDate, '/');
    if |slashParts| > 2 && slashParts[2] != "" then Some(slashParts[2])
    else
      var dashParts := Split(itemDate, '-');
      if |dashParts| > 2 then Some(dashParts[2]) else None
  }

  /** The filter `item.date.split('-')[2]`: a non-empty third '-' part. */
  predicate HasDay(date: string)
  {
    var parts := Split(date, '-');
    |parts| > 2 && parts[2] != ""
  }

  function RowDate(year: string, month: string, day: string): string
  {
    year + "-" + month + "-" + Pad2(day)
  }

  predicate AllDaysPresent(items: seq<MenuItem>)
  {
    forall i :: 0 <= i < |items| ==> DayOf(items[i].date).Some?
  }

  function Menus(items: seq<MenuItem>): (menus: seq<string>)
    ensures |menus| == |items|
    ensures forall i :: 0 <= i < |items| ==> menus[i] == items[i].menu
  {
    if items == [] then [] else Menus(items[..|items| - 1]) + [items[|items| - 1].menu]
  }

  /**
   * `items.map(toRow).filter(keep)`, where `toRow` answers `None` for an
   * item on which the mapping throws.
   */
  function MapThenFilter(items: seq<MenuItem>, toRow: MenuItem -> Option<MenuRow>, keep: MenuRow -> bool)
    : (rows: Option<seq<MenuRow>>)
    ensures rows.None? <==> exists i :: 0 <= i < |items| && toRow(items[i]).None?
    ensures rows.Some? ==> |rows.value| <= |items|
    ensures rows.Some? ==> forall r :: r in rows.value ==>
      keep(r) && exists i :: 0 <= i < |items| && toRow(items[i]) == Some(r)
  {
    if items == [] then Some([])
    else
      var init, item := items[..|items| - 1], items[|items| - 1];
      var rest := MapThenFilter(init, toRow, keep);
      assert forall i :: 0 <= i < |init| ==> init[i] == items[i];
      if rest.None? || toRow(item).None? then None
      else
        var row := toRow(item).value;
        Some(rest.value + (if keep(row) then [row] else []))
  }

  /** Every item's row, in order, when every item has one: `items.map(toRow)`. */
  function MappedRows(items: seq<MenuItem>, toRow: MenuItem -> Option<MenuRow>): (rows: seq<MenuRow>)
    requires forall i :: 0 <= i < |items| ==> toRow(items[i]).Some?
  {
    seq(|items|, i requires 0 <= i < |items| => toRow(items[i]).value)
  }

  /** The rows `keep` accepts, in order: `rows.filter(keep)`, scanning from the front. */
  function KeptRows(rows: seq<MenuRow>, keep: MenuRow -> bool): seq<MenuRow>
  {
    if rows == [] then [] else (if keep(rows[0]) then [rows[0]] else []) + KeptRows(rows[1..], keep)
  }

  lemma {:induction false} KeptRowsSnoc(rows: seq<MenuRow>, row: MenuRow, keep: MenuRow -> bool)
    ensures KeptRows(rows + [row], keep) == KeptRows(rows, keep) + (if keep(row) then [row] else [])
  {
    if rows == [] {
      assert [row][1..] == [];
    } else {
      assert (rows + [row])[1..] == rows[1..] + [row];
      KeptRowsSnoc(rows[1..], row, keep);
    }
  }

  /** The single pass yields exactly the filter of the map: the kept mapped items, in order. */
  lemma {:induction false} MapThenFilterIsFilterOfMap(items: seq<MenuItem>, toRow: MenuItem -> Option<MenuRow>, keep: MenuRow -> bool)
    requires forall i :: 0 <= i < |items| ==> toRow(items[i]).Some?
    ensures MapThenFilter(items, toRow, keep) == Some(KeptRows(MappedRows(items, toRow), keep))
  {
    if items != [] {
      var init, item := items[..|items| - 1], items[|items| - 1];
      assert forall i :: 0 <= i < |init| ==> init[i] == items[i];
      MapThenFilterIsFilterOfMap(init, toRow, keep);
      assert MappedRows(items, toRow) == MappedRows(init, toRow) + [toRow(item).value];
      KeptRowsSnoc(MappedRows(init, toRow), toRow(item).value, keep);
    }
  }

  /** When every item maps to a row that is kept, the rows are the mapped items, in order. */
  lemma {:induction false} MapThenFilterKeepsAll(items: seq<MenuItem>, toRow: MenuItem -> Option<MenuRow>, keep: MenuRow -> bool)
    requires forall i :: 0 <= i < |items| ==> toRow(items[i]).Some? && keep(toRow(items[i]).value)
    ensures MapThenFilter(items, toRow, keep).Some?
    ensures var rows := MapThenFilter(items, toRow, keep).value;
      |rows| == |items| && forall i :: 0 <= i < |items| ==> rows[i] == toRow(items[i]).value
  {
    if items != [] {
      var init := items[..|items| - 1];
      assert forall i :: 0 <= i < |init| ==> init[i] == items[i];
      MapThenFilterKeepsAll(init, toRow, keep);
    }
  }

  /** The row of an item: its date becomes "{year}-{month}-{DD}" and the store is attached. */
  function ToRow(yearFromFile: string, monthFromFile: string, storeName: string): MenuItem -> Option<MenuRow>
  {
    (item: MenuItem) =>
      var day := DayOf(item.date);
      if day.None? then None else Some(MenuRow(RowDate(yearFromFile, monthFromFile, day.value), storeName, item.menu))
  }

  function KeepRow(row: MenuRow): bool { HasDay(row.date) }

  /**
   * `_transformMenuData`: each item becomes a row dated
   * "{year}-{month}-{DD}" for the given store, and rows without a third
   * '-' part are dropped. `None` when some item has no day.
   */
  function TransformMenuData(items: seq<MenuItem>, yearFromFile: string, monthFromFile: string, storeName: string)
    : (rows: Option<seq<MenuRow>>)
    ensures rows.None? <==> !AllDaysPresent(items)
    ensures rows.Some? ==> |rows.value| <= |items|
    ensures rows.Some? ==> forall k :: 0 <= k < |rows.value| ==>
      (rows.value[k].storeName == storeName && rows.value[k].menu in Menus(items) && HasDay(rows.value[k].date))
  {
    var toRow := ToRow(yearFromFile, monthFromFile, storeName);
    var r := MapThenFilter(items, toRow, KeepRow);
    if r.Some? then
      assert forall k :: 0 <= k < |r.value| ==>
        (r.value[k].storeName == storeName && r.value[k].menu in Menus(items) && HasDay(r.value[k].date)) by {
        forall k | 0 <= k < |r.value|
          ensures r.value[k].storeName == storeName && r.value[k].menu in Menus(items) && HasDay(r.value[k].date)
        {
          assert r.value[k] in r.value;
          var i :| 0 <= i < |items| && toRow(items[i]) == Some(r.value[k]);
          assert Menus(items)[i] == items[i].menu;
        }
      }
      r
    else r
  }

  /** Splitting at the first separator. */
  lemma SplitAtFirst(a: string, sep: char, b: string)
    requires sep !in a
    ensures Split(a + [sep] + b, sep) == [a] + Split(b, sep)
  {
    var s := a + [sep] + b;
    assert s[..|a|] == a;
    IndexOfFirst(s, sep, |a|);
    assert s[|a| + 1..] == b;
  }

  lemma DigitsHaveNoDash(s: string)
    requires AllDigits(s)
    ensures '-' !in s
  {
    forall i | 0 <= i < |s| ensures s[i] != '-' { assert IsDigit(s[i]); }
  }

  /** The first part of a split is empty exactly when the text is empty or starts with the separator. */
  lemma FirstPartEmpty(t: string, sep: char)
    ensures Split(t, sep)[0] == "" <==> t == "" || t[0] == sep
  {
    var i := IndexOf(t, sep);
    if t != [] && t[0] == sep {
      IndexOfFirst(t, sep, 0);
    }
    if i != -1 {
      assert Split(t, sep)[0] == t[..i];
    }
  }

  /**
   * With the digit year and month read from a file name, the filter drops
   * an item exactly when its padded day starts with '-'.
   */
  lemma RowKeptUnlessDayStartsWithDash(year: string, month: string, day: string)
    requires AllDigits(year) && AllDigits(month)
    ensures HasDay(RowDate(year, month, day)) <==> Pad2(day)[0] != '-'
  {
    DigitsHaveNoDash(year);
    DigitsHaveNoDash(month);
    var t := Pad2(day);
    SplitDashed(year, month, t);
    FirstPartEmpty(t, '-');
  }

  /** "a-b-t" with no '-' in a or b has t's first part as its third. */
  lemma SplitDashed(a: string, b: string, t: string)
    requires '-' !in a && '-' !in b
    ensures var parts := Split(a + "-" + b + "-" + t, '-'); |parts| > 2 && parts[2] == Split(t, '-')[0]
  {
    DashedShape(a, b, t);
    SplitAtFirst(a, '-', b + ['-'] + t);
    SplitAtFirst(b, '-', t);
  }

  lemma DashedShape(a: string, b: string, t: string)
    ensures a + "-" + b + "-" + t == a + ['-'] + (b + ['-'] + t)
  {
  }

  /** Items whose padded day does not start with '-' all become rows, in order. */
  lemma TransformKeepsEveryItem(items: seq<MenuItem>, year: string, month: string, storeName: string)
    requires AllDigits(year) && AllDigits(month) && AllDaysPresent(items)
    requires forall i :: 0 <= i < |items| ==> Pad2(DayOf(items[i].date).value)[0] != '-'
    ensures TransformMenuData(items, year, month, storeName).Some?
    ensures var rows := TransformMenuData(items, year, month, storeName).value;
      |rows| == |items| && forall i :: 0 <= i < |items| ==>
        rows[i] == MenuRow(RowDate(year, month, DayOf(items[i].date).value), storeName, items[i].menu)
  {
    var toRow := ToRow(year, month, storeName);
    forall i | 0 <= i < |items| ensures toRow(items[i]).Some? && KeepRow(toRow(items[i]).value) {
      RowKeptUnlessDayStartsWithDash(year, month, DayOf(items[i].date).value);
    }
    MapThenFilterKeepsAll(items, toRow, KeepRow);
  }

  // ------------------------------------------------------------ processSinglePdfFile

  datatype Outcome = Processed | Skipped | Threw

  /**
   * What handling one file does: its outcome, the rows handed to the
   * sheet write (if it got that far) and the file's name afterwards.
   */
  datatype Step = Step(outcome: Outcome, written: Option<seq<MenuRow>>, newName: string)

  function DateKey(row: MenuRow): string { row.date }

  /**
   * `processSinglePdfFile` for a file called `fileName`, with a name that
   * has no "YYYY.MM" skipped as its guard intends. `parsed` is the parser's
   * data (`None` for a failure or null data) and `writeOk` the outcome of
   * the sheet write.
   */
  function ProcessSingle(fileName: string, storeName: string, parsed: Option<seq<MenuItem>>, writeOk: bool): (st: Step)
    ensures st.outcome == Processed ==> st.newName == AddProcessedSuffix(fileName, PROCESSED_SUFFIX)
    ensures st.outcome != Processed ==> st.newName == fileName
  {
    if HasProcessedSuffix(fileName, PROCESSED_SUFFIX) then Step(Skipped, None, fileName)
    else
      match ExtractYearMonthFromFileName(fileName)
      case None => Step(Skipped, None, fileName)
      case Some(ym) =>
        if parsed.None? || parsed.value == [] then Step(Skipped, None, fileName)
        else
          match TransformMenuData(parsed.value, ym.year, ym.month, storeName)
          case None => Step(Threw, None, fileName)
          case Some(rows) =>
            if rows == [] then Step(Skipped, None, fileName)
            else
              var sorted := SortBy(rows, DateKey);
              if writeOk then Step(Processed, Some(sorted), AddProcessedSuffix(fileName, PROCESSED_SUFFIX))
              else Step(Skipped, Some(sorted), fileName)
  }

  /**
   * `processSinglePdfFile` as written: the year and month are destructured
   * from `extractYearMonthFromFileName`, which is `null` for a name with no
   * "YYYY.MM", so such a file throws before the guard is reached.
   */
  function ProcessSingleAsWritten(fileName: string, storeName: string, parsed: Option<seq<MenuItem>>, writeOk: bool): (st: Step)
    ensures st.outcome == Threw ==> st.written.None?
    ensures st.outcome == Processed ==> st.newName == AddProcessedSuffix(fileName, PROCESSED_SUFFIX)
    ensures st.outcome != Processed ==> st.newName == fileName
  {
    if !HasProcessedSuffix(fileName, PROCESSED_SUFFIX) && ExtractYearMonthFromFileName(fileName).None? then
      Step(Threw, None, fileName)
    else ProcessSingle(fileName, storeName, parsed, writeOk)
  }

  /**
   * An unmarked PDF without "YYYY.MM" in its name, "menu.pdf" say, throws as
   * written, which ends the whole batch; the guard meant it to be skipped.
   */
  lemma UndatedNameThrowsAsWritten(fileName: string, storeName: string, parsed: Option<seq<MenuItem>>, writeOk: bool)
    requires !HasProcessedSuffix(fileName, PROCESSED_SUFFIX) && ExtractYearMonthFromFileName(fileName).None?
    ensures ProcessSingleAsWritten(fileName, storeName, parsed, writeOk).outcome == Threw
    ensures ProcessSingle(fileName, storeName, parsed, writeOk) == Step(Skipped, None, fileName)
  {
  }

  /** The concrete name "menu.pdf" has no "YYYY.MM" and is not marked. */
  lemma MenuPdfIsUndated()
    ensures !HasProcessedSuffix("menu.pdf", PROCESSED_SUFFIX) && ExtractYearMonthFromFileName("menu.pdf").None?
  {
    var name := "menu.pdf";
    forall q | 0 <= q <= |name| ensures !YearMonthAt(name, q) {
      if q <= 1 {
        assert !IsDigit(name[q]);
        assert name[q..q + 4][0] == name[q];
      }
    }
    ShortNameHasNoSuffix(name, PROCESSED_SUFFIX);
  }

  lemma {:induction false} ShortNameHasNoSuffix(s: string, sub: string)
    requires |s| < |sub|
    ensures !Contains(s, sub)
  {
    if s != [] {
      ShortNameHasNoSuffix(s[1..], sub);
    }
  }

  /** A marked file, or one without "YYYY.MM" in its name, is skipped: nothing written, no rename. */
  lemma SkipRules(fileName: string, storeName: string, parsed: Option<seq<MenuItem>>, writeOk: bool)
    requires HasProcessedSuffix(fileName, PROCESSED_SUFFIX) || ExtractYearMonthFromFileName(fileName).None?
    ensures ProcessSingle(fileName, storeName, parsed, writeOk) == Step(Skipped, None, fileName)
  {
  }

  /**
   * The rows written are the transformed rows ordered by date, and the
   * file is renamed with the suffix exactly when the write succeeded.
   */
  lemma WrittenRowsAndRename(fileName: string, storeName: string, parsed: Option<seq<MenuItem>>, writeOk: bool)
    ensures var st := ProcessSingle(fileName, storeName, parsed, writeOk);
      st.written.Some? ==>
        (var ym := ExtractYearMonthFromFileName(fileName).value;
         var rows := TransformMenuData(parsed.value, ym.year, ym.month, storeName).value;
         SortedBy(st.written.value, DateKey) && multiset(st.written.value) == multiset(rows) && rows != [])
    ensures var st := ProcessSingle(fileName, storeName, parsed, writeOk);
      (st.outcome == Processed <==> st.written.Some? && writeOk)
      && (st.outcome == Processed ==> st.newName == AddProcessedSuffix(fileName, PROCESSED_SUFFIX))
      && (st.outcome != Processed ==> st.newName == fileName)
  {
  }

  /** A ".pdf" file once processed is skipped by every later run. */
  lemma ProcessedOnce(fileName: string, storeName: string, parsed: Option<seq<MenuItem>>, writeOk: bool,
                      parsed2: Option<seq<MenuItem>>, writeOk2: bool)
    requires EndsWithIgnoreCase(fileName, ".pdf")
    requires ProcessSingle(fileName, storeName, parsed, writeOk).outcome == Processed
    ensures var renamed := ProcessSingle(fileName, storeName, parsed, writeOk).newName;
      ProcessSingle(renamed, storeName, parsed2, writeOk2) == Step(Skipped, None, renamed)
  {
    MarkedNameIsRecognised(fileName);
  }

  // ------------------------------------------------------------ folder and batch

  datatype DriveFile = DriveFile(name: string, mimeType: string)

  /** The menu folder: its files, whose names the processor renames. */
  class MenuFolder {
    var files: seq<DriveFile>

    constructor (files0: seq<DriveFile>)
      ensures files == files0
    {
      files := files0;
    }

    /** `getFilesByType(MimeType.PDF)`, collected into an array. */
    method PdfFiles() returns (pdfFiles: seq<nat>)
      ensures pdfFiles == PdfIndices(files)
    {
      pdfFiles := [];
      var i := 0;
      while i < |files|
        invariant 0 <= i <= |files|
        invariant pdfFiles == PdfIndices(files[..i])
      {
        assert files[..i + 1][..i] == files[..i];
        if files[i].mimeType == MIME_PDF {
          pdfFiles := pdfFiles + [i];
        }
        i := i + 1;
      }
      assert files[..i] == files;
    }

    /** `file.setName(newName)` for the file at `index`. */
    method Rename(index: nat, newName: string)
      requires index < |files|
      modifies this
      ensures files == old(files)[index := old(files)[index].(name := newName)]
    {
      files := files[index := files[index].(name := newName)];
    }
  }

  /** The positions of the PDF files, in folder order. */
  function PdfIndices(files: seq<DriveFile>): (ix: seq<nat>)
    ensures forall k :: 0 <= k < |ix| ==> ix[k] < |files| && files[ix[k]].mimeType == MIME_PDF
    ensures forall i :: 0 <= i < |files| && files[i].mimeType == MIME_PDF ==> i in ix
    ensures forall k, l :: 0 <= k < l < |ix| ==> ix[k] < ix[l]
  {
    if files == [] then []
    else
      var init := PdfIndices(files[..|files| - 1]);
      assert forall i :: 0 <= i < |files| - 1 ==> files[..|files| - 1][i] == files[i];
      if files[|files| - 1].mimeType == MIME_PDF then init + [|files| - 1] else init
  }

  function NameKey(files: seq<DriveFile>): nat -> string
  {
    (i: nat) => if i < |files| then files[i].name else ""
  }

  /** `getSortedPdfFiles`: the PDF files in ascending name order. */
  method GetSortedPdfFiles(folder: MenuFolder) returns (pdfFiles: seq<nat>)
    ensures SortedBy(pdfFiles, NameKey(folder.files))
    ensures multiset(pdfFiles) == multiset(PdfIndices(folder.files))
    ensures forall k :: 0 <= k < |pdfFiles| ==> pdfFiles[k] < |folder.files| && folder.files[pdfFiles[k]].mimeType == MIME_PDF
    ensures forall i :: 0 <= i < |folder.files| && folder.files[i].mimeType == MIME_PDF ==> i in pdfFiles
    ensures forall k, l :: 0 <= k < l < |pdfFiles| ==> pdfFiles[k] != pdfFiles[l]
  {
    var collected := folder.PdfFiles();
    pdfFiles := SortBy(collected, NameKey(folder.files));
    forall k | 0 <= k < |pdfFiles|
      ensures pdfFiles[k] < |folder.files| && folder.files[pdfFiles[k]].mimeType == MIME_PDF
    {
      assert pdfFiles[k] in multiset(collected);
    }
    forall i | 0 <= i < |folder.files| && folder.files[i].mimeType == MIME_PDF
      ensures i in pdfFiles
    {
      assert i in multiset(collected);
    }
    PermutationKeepsDistinct(collected, pdfFiles);
  }

  /** The folder, the count and whether an exception ended the batch, after some files. */
  datatype Batch = Batch(files: seq<DriveFile>, processedCount: nat, aborted: bool)

  /**
   * The loop of `processPdfMenuFiles` over `order`: each file is handled by
   * `step` with its parse and write outcomes, a success is counted and its
   * rename applied, and an exception ends the loop (it is caught outside).
   */
  function RunBatch(files: seq<DriveFile>, order: seq<nat>, storeName: string,
                    parsedOf: nat -> Option<seq<MenuItem>>, writeOkOf: nat -> bool,
                    step: (string, string, Option<seq<MenuItem>>, bool) -> Step): (b: Batch)
    ensures |b.files| == |files|
    ensures b.processedCount <= |order|
  {
    if order == [] then Batch(files, 0, false)
    else
      var b := RunBatch(files, order[..|order| - 1], storeName, parsedOf, writeOkOf, step);
      var i := order[|order| - 1];
      if b.aborted || i >= |b.files| then b
      else
        var st := step(b.files[i].name, storeName, parsedOf(i), writeOkOf(i));
        Batch(b.files[i := b.files[i].(name := st.newName)],
              b.processedCount + (if st.outcome == Processed then 1 else 0),
              st.outcome == Threw)
  }

  /**
   * `processPdfMenuFiles`: without a store name (no parent folder) nothing
   * happens; otherwise every PDF file is handled in name order and the
   * successes are counted.
   */
  method ProcessPdfMenuFiles(folder: MenuFolder, storeName: Option<string>,
                             parsedOf: nat -> Option<seq<MenuItem>>, writeOkOf: nat -> bool)
    returns (processedCount: nat)
    modifies folder
    ensures storeName.None? ==> processedCount == 0 && folder.files == old(folder.files)
    ensures storeName.Some? ==> exists order: seq<nat> ::
      SortedBy(order, NameKey(old(folder.files))) && multiset(order) == multiset(PdfIndices(old(folder.files)))
      && var b := RunBatch(old(folder.files), order, storeName.value, parsedOf, writeOkOf, ProcessSingle);
         folder.files == b.files && processedCount == b.processedCount
  {
    if storeName.None? {
      return 0;
    }
    var pdfFiles := GetSortedPdfFiles(folder);
    ghost var files0 := folder.files;
    processedCount := 0;
    var aborted := false;
    var k := 0;
    while k < |pdfFiles| && !aborted
      invariant 0 <= k <= |pdfFiles|
      invariant |folder.files| == |files0|
      invariant RunBatch(files0, pdfFiles[..k], storeName.value, parsedOf, writeOkOf, ProcessSingle)
        == Batch(folder.files, processedCount, aborted)
    {
      assert pdfFiles[..k + 1][..k] == pdfFiles[..k];
      var i := pdfFiles[k];
      var st := ProcessSingle(folder.files[i].name, storeName.value, parsedOf(i), writeOkOf(i));
      if st.outcome == Processed {
        processedCount := processedCount + 1;
      }
      folder.Rename(i, st.newName);
      aborted := st.outcome == Threw;
      k := k + 1;
    }
    AbortedStaysAborted(files0, pdfFiles, k, storeName.value, parsedOf, writeOkOf, ProcessSingle);
  }

  /** Once the batch has ended, the remaining files change nothing. */
  lemma {:induction false} AbortedStaysAborted(files: seq<DriveFile>, order: seq<nat>, k: nat, storeName: string,
                                               parsedOf: nat -> Option<seq<MenuItem>>, writeOkOf: nat -> bool,
                                               step: (string, string, Option<seq<MenuItem>>, bool) -> Step)
    requires k <= |order|
    requires k < |order| ==> RunBatch(files, order[..k], storeName, parsedOf, writeOkOf, step).aborted
    ensures RunBatch(files, order, storeName, parsedOf, writeOkOf, step) == RunBatch(files, order[..k], storeName, parsedOf, writeOkOf, step)
    decreases |order| - k
  {
    if k == |order| {
      assert order[..k] == order;
    } else {
      assert order[..k + 1][..k] == order[..k];
      AbortedStaysAborted(files, order, k + 1, storeName, parsedOf, writeOkOf, step);
    }
  }

  /**
   * Over distinct files, every file ends either under its own name or
   * under that name with the processed suffix, and only PDFs in the order
   * are touched.
   */
  lemma {:induction false} BatchOnlyMarks(files: seq<DriveFile>, order: seq<nat>, storeName: string,
                                          parsedOf: nat -> Option<seq<MenuItem>>, writeOkOf: nat -> bool,
                                          step: (string, string, Option<seq<MenuItem>>, bool) -> Step, j: nat)
    requires forall n, st, p, w :: step(n, st, p, w).newName == n || step(n, st, p, w).newName == AddProcessedSuffix(n, PROCESSED_SUFFIX)
    requires forall k, l :: 0 <= k < l < |order| ==> order[k] != order[l]
    requires j < |files|
    ensures var b := RunBatch(files, order, storeName, parsedOf, writeOkOf, step);
      b.files[j].mimeType == files[j].mimeType
      && (b.files[j].name == files[j].name || b.files[j].name == AddProcessedSuffix(files[j].name, PROCESSED_SUFFIX))
      && (j !in order ==> b.files[j] == files[j])
  {
    if order != [] {
      var init := order[..|order| - 1];
      var i := order[|order| - 1];
      assert forall k, l :: 0 <= k < l < |init| ==> init[k] != init[l] by {
        forall k, l | 0 <= k < l < |init| ensures init[k] != init[l] {
          assert init[k] == order[k] && init[l] == order[l];
        }
      }
      BatchOnlyMarks(files, init, storeName, parsedOf, writeOkOf, step, j);
      if j == i {
        forall k | 0 <= k < |init| ensures init[k] != i {
          assert init[k] == order[k];
        }
        BatchOnlyMarks(files, init, storeName, parsedOf, writeOkOf, step, j);
      }
    }
  }

  /**
   * As written, an unmarked file without "YYYY.MM" at position `k` of the
   * batch throws and ends it: every later file keeps its name and the count
   * stays what it was after the first `k` files.
   */
  lemma AsWrittenUndatedEndsBatch(files: seq<DriveFile>, order: seq<nat>, k: nat, storeName: string,
                                  parsedOf: nat -> Option<seq<MenuItem>>, writeOkOf: nat -> bool)
    requires forall a, b :: 0 <= a < b < |order| ==> order[a] != order[b]
    requires k < |order| && order[k] < |files|
    requires !HasProcessedSuffix(files[order[k]].name, PROCESSED_SUFFIX)
    requires ExtractYearMonthFromFileName(files[order[k]].name).None?
    ensures var before := RunBatch(files, order[..k], storeName, parsedOf, writeOkOf, ProcessSingleAsWritten);
      var after := RunBatch(files, order, storeName, parsedOf, writeOkOf, ProcessSingleAsWritten);
      after.aborted && after.files == before.files && after.processedCount == before.processedCount
  {
    var before := RunBatch(files, order[..k], storeName, parsedOf, writeOkOf, ProcessSingleAsWritten);
    assert order[..k + 1][..k] == order[..k];
    if !before.aborted {
      var i := order[k];
      forall a, b | 0 <= a < b < k ensures order[..k][a] != order[..k][b] {
        assert order[..k][a] == order[a] && order[..k][b] == order[b];
      }
      assert i !in order[..k] by {
        forall a | 0 <= a < k ensures order[..k][a] != i {
          assert order[..k][a] == order[a];
        }
      }
      BatchOnlyMarks(files, order[..k], storeName, parsedOf, writeOkOf, ProcessSingleAsWritten, i);
      assert before.files[i] == files[i];
      assert before.files[i := before.files[i].(name := files[i].name)] == before.files;
    }
    AbortedStaysAborted(files, order, k + 1, storeName, parsedOf, writeOkOf, ProcessSingleAsWritten);
  }
}
