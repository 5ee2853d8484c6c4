/**
 * The older attachment handler, src/gmailAttachmentHandler.js: the same
 * routing as the newer one, except that a PDF's body is cut at
 * `lastIndexOf('.')` (so a name without a '.' has an empty body), the month
 * is padded with `('0' + m).slice(-2)`, and an Excel attachment is stored as
 * it is under a name that keeps its ".xlsx" or ".xls" extension.
 */
module LegacyAttachmentHandler {
  import opened Wrappers
  import opened JsStrings
  import opened Constants
  import opened FileNames
  import opened AttachmentHandler

  /** `name.substring(0, name.lastIndexOf('.'))`: a negative end counts as 0, so no '.' gives "". */
  function LegacyBody(finalNormalizedFileName: string): (body: string)
    ensures '.' !in finalNormalizedFileName ==> body == ""
    ensures '.' in finalNormalizedFileName ==> body == GetFileNameWithoutExtension(finalNormalizedFileName)
  {
    var lastDot := LastIndexOf(finalNormalizedFileName, '.');
    if lastDot < 0 then "" else finalNormalizedFileName[..lastDot]
  }

  /** The legacy `isTargetAttachment`: the menu pattern is matched against that body. */
  function LegacyIsTargetAttachment(contentType: string, finalNormalizedFileName: string): (target: bool)
    ensures IsExcel(contentType) ==> target
    ensures contentType != MIME_PDF && !IsExcel(contentType) ==> !target
    ensures contentType == MIME_PDF ==> (target <==> IsMenuPdfPattern(LegacyBody(finalNormalizedFileName)))
  {
    if contentType == MIME_PDF then IsMenuPdfPattern(LegacyBody(finalNormalizedFileName))
    else IsExcel(contentType)
  }

  /**
   * The two handlers keep the same attachments, except for a PDF whose
   * normalised name has no '.': the legacy one always drops it.
   */
  lemma TargetsAgreeUnlessDotless(contentType: string, finalNormalizedFileName: string)
    ensures '.' in finalNormalizedFileName ==>
      LegacyIsTargetAttachment(contentType, finalNormalizedFileName) == IsTargetAttachment(contentType, finalNormalizedFileName)
    ensures '.' !in finalNormalizedFileName && contentType == MIME_PDF ==>
      !LegacyIsTargetAttachment(contentType, finalNormalizedFileName)
  {
  }

  /** `s.slice(-2)`: the last two characters, or all of a shorter `s`. */
  function SliceLast2(s: string): (r: string)
    ensures |s| >= 2 ==> |r| == 2 && s == s[..|s| - 2] + r
  {
    if |s| >= 2 then s[|s| - 2..] else s
  }

  /** `('0' + m).slice(-2)`. */
  function LegacyMonthText(month: nat): string
  {
    SliceLast2("0" + NatToString(month))
  }

  /** For a month 1..12 the legacy padding and `padStart(2, '0')` agree. */
  lemma LegacyMonthTextIsPad2(month: nat)
    requires 1 <= month <= 12
    ensures LegacyMonthText(month) == Pad2(NatToString(month))
  {
    NatToStringBelow100(month);
    if month >= 10 {
      assert NatToString(month) == NatToString(month / 10) + [DigitChar(month % 10)];
    }
  }

  /**
   * The legacy `getAttachmentDestination`: a PDF becomes "YYYY.MM.pdf" in
   * the menu folder, an Excel file "オーダーカードYYYY.MM.xlsx" or ".xls" in
   * the order-card folder; any other type has no destination.
   */
  function LegacyGetAttachmentDestination(contentType: string, receivedYear: nat, receivedMonth: nat): (r: Option<Destination>)
    requires 1 <= receivedMonth <= 12
    ensures r.Some? <==> contentType == MIME_PDF || IsExcel(contentType)
  {
    var (year, month) := NextMonth(receivedYear, receivedMonth);
    var ym := NatToString(year) + "." + LegacyMonthText(month);
    if contentType == MIME_PDF then Some(Destination(ym + ".pdf", MenuFolder))
    else if contentType == MIME_XLSX then Some(Destination(ORDER_CARD_NAME_PREFIX + ym + ".xlsx", OrderCardFolder))
    else if contentType == MIME_XLS then Some(Destination(ORDER_CARD_NAME_PREFIX + ym + ".xls", OrderCardFolder))
    else None
  }

  /**
   * A PDF goes to the same place under both handlers; an Excel card keeps
   * its extension after the name the newer handler (and the order-card
   * lookup) uses, so the two names never coincide.
   */
  lemma LegacyDestinationVersusCurrent(contentType: string, receivedYear: nat, receivedMonth: nat)
    requires 1 <= receivedMonth <= 12
    ensures contentType == MIME_PDF ==>
      LegacyGetAttachmentDestination(contentType, receivedYear, receivedMonth)
        == GetAttachmentDestination(contentType, receivedYear, receivedMonth)
    ensures IsExcel(contentType) ==>
      var legacy := LegacyGetAttachmentDestination(contentType, receivedYear, receivedMonth).value;
      var current := GetAttachmentDestination(contentType, receivedYear, receivedMonth).value;
      legacy.folder == current.folder == OrderCardFolder
      && legacy.newFileName == current.newFileName + (if contentType == MIME_XLSX then ".xlsx" else ".xls")
      && legacy.newFileName != current.newFileName
  {
    var (year, month) := NextMonth(receivedYear, receivedMonth);
    LegacyMonthTextIsPad2(month);
  }

  /** The legacy `saveFileToDrive`: the attachment is stored as it is, unless the name exists. */
  method LegacySaveFileToDrive(newFileName: string, targetFolder: Folder) returns (created: bool)
    modifies targetFolder
    ensures created <==> !old(targetFolder.HasFileNamed(newFileName))
    ensures targetFolder.files == if created then old(targetFolder.files) + [StoredFile(newFileName, false, "")]
      else old(targetFolder.files)
  {
    created := targetFolder.CreateIfAbsent(StoredFile(newFileName, false, ""));
  }

  /** A folder's contents after the legacy handler has seen one attachment. */
  function LegacyFilesAfter(attachment: Option<Attachment>, receivedYear: nat, receivedMonth: nat, kind: FolderKind,
                            files: seq<StoredFile>): seq<StoredFile>
    requires 1 <= receivedMonth <= 12
  {
    if attachment.None? then files
    else
      var a := attachment.value;
      if !LegacyIsTargetAttachment(a.contentType, NormalizeSteps(a.name)) then files
      else
        var dest := LegacyGetAttachmentDestination(a.contentType, receivedYear, receivedMonth);
        if dest.None? || dest.value.folder != kind || HasName(files, dest.value.newFileName) then files
        else files + [StoredFile(dest.value.newFileName, false, "")]
  }

  /** The legacy `saveAttachment`: the name is normalised without the empty-name guard. */
  method LegacySaveAttachment(attachment: Option<Attachment>, receivedYear: nat, receivedMonth: nat,
                              menu: Folder, orderCard: Folder)
    requires 1 <= receivedMonth <= 12
    modifies menu, orderCard
    ensures menu != orderCard ==>
      menu.files == LegacyFilesAfter(attachment, receivedYear, receivedMonth, MenuFolder, old(menu.files))
    ensures menu != orderCard ==>
      orderCard.files == LegacyFilesAfter(attachment, receivedYear, receivedMonth, OrderCardFolder, old(orderCard.files))
    ensures menu == orderCard ==>
      menu.files == LegacyFilesAfter(attachment, receivedYear, receivedMonth, MenuFolder,
        LegacyFilesAfter(attachment, receivedYear, receivedMonth, OrderCardFolder, old(menu.files)))
  {
    if attachment.None? {
      return;
    }
    var a := attachment.value;
    var finalNormalizedFileName := NormalizeSteps(a.name);
    if !LegacyIsTargetAttachment(a.contentType, finalNormalizedFileName) {
      return;
    }
    var dest := LegacyGetAttachmentDestination(a.contentType, receivedYear, receivedMonth);
    if dest.value.folder == MenuFolder {
      var _ := LegacySaveFileToDrive(dest.value.newFileName, menu);
    } else {
      var _ := LegacySaveFileToDrive(dest.value.newFileName, orderCard);
    }
  }

  /** A second pass over the same attachment creates nothing, and a missing attachment changes nothing. */
  lemma LegacySavingIsIdempotent(attachment: Option<Attachment>, receivedYear: nat, receivedMonth: nat, kind: FolderKind,
                                 files: seq<StoredFile>)
    requires 1 <= receivedMonth <= 12
    ensures var once := LegacyFilesAfter(attachment, receivedYear, receivedMonth, kind, files);
      LegacyFilesAfter(attachment, receivedYear, receivedMonth, kind, once) == once
    ensures LegacyFilesAfter(None, receivedYear, receivedMonth, kind, files) == files
  {
    var once := LegacyFilesAfter(attachment, receivedYear, receivedMonth, kind, files);
    if once != files {
      var dest := LegacyGetAttachmentDestination(attachment.value.contentType, receivedYear, receivedMonth).value;
      assert once[|once| - 1].name == dest.newFileName;
      assert HasName(once, dest.newFileName);
    }
  }
}
