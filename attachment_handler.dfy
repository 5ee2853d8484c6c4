/**
 * src/processors/gmailAttachmentHandler.js: which mail attachments are
 * kept, the name and folder each goes to, and the save that skips a name
 * the folder already holds.
 *
 * A Drive folder is a class holding the files it contains; Gmail search,
 * Drive conversion and the logger are outside the model. `formatToTwoDigits`
 * is not part of this model and is taken as padding to two digits.
 */
module AttachmentHandler {
  import opened Wrappers
  import opened JsStrings
  import opened CivilDates
  import opened Constants
  import opened FileNames
  import WeeklyOrderProcessor

  const ORDER_CARD_NAME_PREFIX: string := "オーダーカード"

  /** The attachment as the handler sees it: its name and content type. */
  datatype Attachment = Attachment(name: string, contentType: string)

  /** A file in a folder; a converted spreadsheet carries what was written to its J3 cell. */
  datatype StoredFile = StoredFile(name: string, spreadsheet: bool, initCell: string)

  /** A Drive folder: the files it holds, in creation order. */
  class Folder {
    var files: seq<StoredFile>

    constructor (files0: seq<StoredFile>)
      ensures files == files0
    {
      files := files0;
    }

    /** `getFilesByName(name).hasNext()`. */
    function HasFileNamed(name: string): (found: bool)
      reads this
      ensures found <==> exists i :: 0 <= i < |files| && files[i].name == name
    {
      HasName(files, name)
    }

    /**
     * Create `file` unless a file of that name is already here; answers
     * whether it was created.
     */
    method CreateIfAbsent(file: StoredFile) returns (created: bool)
      modifies this
      ensures created <==> !old(HasFileNamed(file.name))
      ensures files == if created then old(files) + [file] else old(files)
    {
      if HasFileNamed(file.name) {
        created := false;
      } else {
        files := files + [file];
        created := true;
      }
    }
  }

  predicate HasName(files: seq<StoredFile>, name: string)
  {
    exists i :: 0 <= i < |files| && files[i].name == name
  }

  predicate IsExcel(contentType: string)
  {
    contentType == MIME_XLSX || contentType == MIME_XLS
  }

  /**
   * `isTargetAttachment`: Excel always; a PDF when the body of its
   * normalised name (before the last '.') fits the menu pattern; nothing else.
   */
  function IsTargetAttachment(contentType: string, finalNormalizedFileName: string): (target: bool)
    ensures IsExcel(contentType) ==> target
    ensures contentType != MIME_PDF && !IsExcel(contentType) ==> !target
    ensures contentType == MIME_PDF ==> (target <==> IsMenuPdfPattern(GetFileNameWithoutExtension(finalNormalizedFileName)))
  {
    if contentType == MIME_PDF then IsMenuPdfPattern(GetFileNameWithoutExtension(finalNormalizedFileName))
    else IsExcel(contentType)
  }

  /**
   * `new Date(year, month0 + 1, 1)`: the month after the received one,
   * December rolling over to January of the next year.
   */
  function NextMonth(year: nat, month: nat): (r: (nat, nat))
    requires 1 <= month <= 12
    ensures 1 <= r.1 <= 12
    ensures month < 12 ==> r == (year, month + 1)
    ensures month == 12 ==> r == (year + 1, 1)
    ensures r.0 * 12 + r.1 == year * 12 + month + 1
  {
    if month == 12 then (year + 1, 1) else (year, month + 1)
  }

  /** "YYYY.MM" of a year and month. */
  function YearMonthText(year: nat, month: nat): string
  {
    NatToString(year) + "." + Pad2(NatToString(month))
  }

  datatype FolderKind = MenuFolder | OrderCardFolder
  datatype Destination = Destination(newFileName: string, folder: FolderKind)

  /**
   * `getAttachmentDestination`: a PDF becomes "YYYY.MM.pdf" in the menu
   * folder, an Excel file "オーダーカードYYYY.MM" in the order-card folder,
   * for the month after the mail was received. Any other type has no
   * destination (the handler never asks for one).
   */
  function GetAttachmentDestination(contentType: string, receivedYear: nat, receivedMonth: nat): (r: Option<Destination>)
    requires 1 <= receivedMonth <= 12
    ensures r.Some? <==> contentType == MIME_PDF || IsExcel(contentType)
  {
    var (year, month) := NextMonth(receivedYear, receivedMonth);
    if contentType == MIME_PDF then Some(Destination(YearMonthText(year, month) + ".pdf", MenuFolder))
    else if IsExcel(contentType) then Some(Destination(ORDER_CARD_NAME_PREFIX + YearMonthText(year, month), OrderCardFolder))
    else None
  }

  /**
   * A menu PDF's name carries the next month as "YYYY.MM", which the menu
   * processor reads back; an Excel card's name is the one the order-card
   * lookup builds from the month key of any date in that month.
   */
  lemma DestinationNames(contentType: string, receivedYear: nat, receivedMonth: nat, d: ValidDate)
    requires 1 <= receivedMonth <= 12
    requires (d.year, d.month) == NextMonth(receivedYear, receivedMonth)
    ensures contentType == MIME_PDF ==>
      GetAttachmentDestination(contentType, receivedYear, receivedMonth)
        == Some(Destination(WeeklyOrderProcessor.MonthKey(FormatYMD(d)) + ".pdf", MenuFolder))
    ensures IsExcel(contentType) ==>
      GetAttachmentDestination(contentType, receivedYear, receivedMonth)
        == Some(Destination(ORDER_CARD_NAME_PREFIX + WeeklyOrderProcessor.MonthKey(FormatYMD(d)), OrderCardFolder))
  {
    WeeklyOrderProcessor.MonthKeyOfFormatted(d);
  }

  /** A menu file name built for a month after year 999 reads back as that year and month. */
  lemma MenuNameReadsBack(year: nat, month: nat)
    requires 1000 <= year <= 9999 && 1 <= month <= 12
    ensures ExtractYearMonthFromFileName(YearMonthText(year, month) + ".pdf")
      == Some(YearMonth(NatToString(year), Pad2(NatToString(month))))
  {
    var s := YearMonthText(year, month) + ".pdf";
    var y, m := NatToString(year), Pad2(NatToString(month));
    FourDigitYear(year);
    NatToStringBelow100(month);
    Pad2Value(month);
    assert s[..4] == y && s[4] == '.' && s[5..7] == m;
    assert YearMonthAt(s, 0);
  }

  lemma FourDigitYear(year: nat)
    requires 1000 <= year <= 9999
    ensures |NatToString(year)| == 4 && AllDigits(NatToString(year))
  {
    assert NatToString(year) == NatToString(year / 10) + [DigitChar(year % 10)];
    assert NatToString(year / 10) == NatToString(year / 100) + [DigitChar(year / 10 % 10)];
    assert NatToString(year / 100) == NatToString(year / 1000) + [DigitChar(year / 100 % 10)];
    assert NatToString(year / 1000) == [DigitChar(year / 1000)];
  }

  /**
   * `saveFileToDrive` with `saveExcelAsSpreadsheet`: an Excel file becomes a
   * spreadsheet whose J3 holds the company name (left empty when there is
   * none), anything else is stored as it is; either way nothing is created
   * when the folder already has the name.
   */
  method SaveFileToDrive(newFileName: string, targetFolder: Folder, contentType: string, companyName: string)
    returns (created: bool)
    modifies targetFolder
    ensures created <==> !old(targetFolder.HasFileNamed(newFileName))
    ensures targetFolder.files == if created then old(targetFolder.files) + [FileFor(newFileName, contentType, companyName)]
      else old(targetFolder.files)
  {
    created := targetFolder.CreateIfAbsent(FileFor(newFileName, contentType, companyName));
  }

  function FileFor(newFileName: string, contentType: string, companyName: string): StoredFile
  {
    if IsExcel(contentType) then StoredFile(newFileName, true, companyName)
    else StoredFile(newFileName, false, "")
  }

  /** The folders' contents after handling one attachment. */
  function FilesAfter(attachment: Option<Attachment>, receivedYear: nat, receivedMonth: nat, kind: FolderKind,
                      files: seq<StoredFile>, companyName: string): seq<StoredFile>
    requires 1 <= receivedMonth <= 12
  {
    if attachment.None? then files
    else
      var a := attachment.value;
      if !IsTargetAttachment(a.contentType, NormalizeFileName(a.name)) then files
      else
        var dest := GetAttachmentDestination(a.contentType, receivedYear, receivedMonth);
        if dest.None? || dest.value.folder != kind || HasName(files, dest.value.newFileName) then files
        else files + [FileFor(dest.value.newFileName, a.contentType, companyName)]
  }

  /**
   * `saveAttachment`: a missing attachment is ignored; a kept one is saved
   * under its destination name unless that name already exists. When the
   * menu and order-card folder are one folder, it gets the one file either
   * destination would add.
   */
  method SaveAttachment(attachment: Option<Attachment>, receivedYear: nat, receivedMonth: nat,
                        menu: Folder, orderCard: Folder, companyName: string)
    requires 1 <= receivedMonth <= 12
    modifies menu, orderCard
    ensures menu != orderCard ==>
      menu.files == FilesAfter(attachment, receivedYear, receivedMonth, MenuFolder, old(menu.files), companyName)
    ensures menu != orderCard ==>
      orderCard.files == FilesAfter(attachment, receivedYear, receivedMonth, OrderCardFolder, old(orderCard.files), companyName)
    ensures menu == orderCard ==>
      menu.files == FilesAfter(attachment, receivedYear, receivedMonth, MenuFolder,
        FilesAfter(attachment, receivedYear, receivedMonth, OrderCardFolder, old(menu.files), companyName), companyName)
  {
    if attachment.None? {
      return;
    }
    var a := attachment.value;
    var finalNormalizedFileName := NormalizeFileName(a.name);
    if !IsTargetAttachment(a.contentType, finalNormalizedFileName) {
      return;
    }
    var dest := GetAttachmentDestination(a.contentType, receivedYear, receivedMonth);
    if dest.value.folder == MenuFolder {
      var _ := SaveFileToDrive(dest.value.newFileName, menu, a.contentType, companyName);
    } else {
      var _ := SaveFileToDrive(dest.value.newFileName, orderCard, a.contentType, companyName);
    }
  }

  /** Handling an attachment a second time leaves both folders as the first time did. */
  lemma SavingTwiceCreatesOnce(attachment: Option<Attachment>, receivedYear: nat, receivedMonth: nat, kind: FolderKind,
                               files: seq<StoredFile>, companyName: string)
    requires 1 <= receivedMonth <= 12
    ensures var once := FilesAfter(attachment, receivedYear, receivedMonth, kind, files, companyName);
      FilesAfter(attachment, receivedYear, receivedMonth, kind, once, companyName) == once
  {
    var once := FilesAfter(attachment, receivedYear, receivedMonth, kind, files, companyName);
    if once != files {
      var a := attachment.value;
      var dest := GetAttachmentDestination(a.contentType, receivedYear, receivedMonth).value;
      assert once[|once| - 1].name == dest.newFileName;
      assert HasName(once, dest.newFileName);
    }
  }

  /** A missing attachment changes no folder. */
  lemma NullAttachmentIgnored(receivedYear: nat, receivedMonth: nat, kind: FolderKind, files: seq<StoredFile>, companyName: string)
    requires 1 <= receivedMonth <= 12
    ensures FilesAfter(None, receivedYear, receivedMonth, kind, files, companyName) == files
  {
  }
}
