/**
 * The older menu processor, src/pdfMenuProcessor.js. It skips a marked
 * file or one without "YYYY.MM" (its regex match is checked before use, so
 * nothing throws there), transforms and sorts the rows exactly as the newer
 * one does, and on a successful write renames the file by dropping a final
 * ".pdf" (any case) and appending "_processed.pdf" whatever the name was.
 * Listing and sorting the folder's PDF files is the same code as
 * `PdfMenuProcessor.GetSortedPdfFiles`.
 */
module LegacyPdfMenuProcessor {
  import opened Wrappers
  import opened JsStrings
  import opened Constants
  import opened FileNames
  import opened PdfMenuProcessor

  /** `` `${fileName.replace(/\.pdf$/i, '')}${PROCESSED_SUFFIX}.pdf` ``. */
  function LegacyRenamed(fileName: string): (r: string)
    ensures EndsWith(r, PROCESSED_SUFFIX + ".pdf")
    ensures EndsWithIgnoreCase(fileName, ".pdf") ==> r == AddProcessedSuffix(fileName, PROCESSED_SUFFIX)
    ensures !EndsWithIgnoreCase(fileName, ".pdf") ==> r == fileName + PROCESSED_SUFFIX + ".pdf"
  {
    var stem := if EndsWithIgnoreCase(fileName, ".pdf") then fileName[..|fileName| - 4] else fileName;
    assert (stem + PROCESSED_SUFFIX + ".pdf")[|stem|..] == PROCESSED_SUFFIX + ".pdf";
    stem + PROCESSED_SUFFIX + ".pdf"
  }

  /**
   * The legacy `processSinglePdfFile`: the same skips, rows and write as
   * the newer processor with the undated-name guard in force, but a
   * processed file gets the legacy name.
   */
  function LegacyProcessSingle(fileName: string, storeName: string, parsed: Option<seq<MenuItem>>, writeOk: bool): (st: Step)
    ensures st.outcome == ProcessSingle(fileName, storeName, parsed, writeOk).outcome
    ensures st.written == ProcessSingle(fileName, storeName, parsed, writeOk).written
    ensures st.outcome == Processed ==> st.newName == LegacyRenamed(fileName)
    ensures st.outcome != Processed ==> st.newName == fileName
  {
    var st := ProcessSingle(fileName, storeName, parsed, writeOk);
    WrittenRowsAndRename(fileName, storeName, parsed, writeOk);
    if st.outcome == Processed then st.(newName := LegacyRenamed(fileName)) else st
  }

  /** The legacy name always carries the marker, so the suffix is detected. */
  lemma LegacyRenamedIsMarked(fileName: string)
    ensures HasProcessedSuffix(LegacyRenamed(fileName), PROCESSED_SUFFIX)
  {
    var r := LegacyRenamed(fileName);
    var p := |r| - |PROCESSED_SUFFIX + ".pdf"|;
    assert r[p..p + |PROCESSED_SUFFIX|] == PROCESSED_SUFFIX;
    ContainsAt(r, PROCESSED_SUFFIX, p);
  }

  /**
   * A file the legacy processor has handled is skipped by every later run,
   * whatever its name; the newer processor only guarantees this for names
   * ending in ".pdf", since it leaves any other name as it was.
   */
  lemma LegacyProcessedOnce(fileName: string, storeName: string, parsed: Option<seq<MenuItem>>, writeOk: bool,
                            parsed2: Option<seq<MenuItem>>, writeOk2: bool)
    requires LegacyProcessSingle(fileName, storeName, parsed, writeOk).outcome == Processed
    ensures var renamed := LegacyProcessSingle(fileName, storeName, parsed, writeOk).newName;
      LegacyProcessSingle(renamed, storeName, parsed2, writeOk2) == Step(Skipped, None, renamed)
  {
    LegacyRenamedIsMarked(fileName);
    var renamed := LegacyRenamed(fileName);
    SkipRules(renamed, storeName, parsed2, writeOk2);
  }

  /**
   * On a processed file without a ".pdf" ending the two processors part:
   * the legacy one marks it, the newer one keeps its name, so it is
   * processed again on the next run.
   */
  lemma RenameRulesDiffer(fileName: string, storeName: string, parsed: Option<seq<MenuItem>>, writeOk: bool)
    requires ProcessSingle(fileName, storeName, parsed, writeOk).outcome == Processed
    ensures EndsWithIgnoreCase(fileName, ".pdf") ==>
      LegacyProcessSingle(fileName, storeName, parsed, writeOk) == ProcessSingle(fileName, storeName, parsed, writeOk)
    ensures !EndsWithIgnoreCase(fileName, ".pdf") ==>
      ProcessSingle(fileName, storeName, parsed, writeOk).newName == fileName
      && LegacyProcessSingle(fileName, storeName, parsed, writeOk).newName == fileName + PROCESSED_SUFFIX + ".pdf"
  {
    WrittenRowsAndRename(fileName, storeName, parsed, writeOk);
  }
}
