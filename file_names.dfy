/**
 * src/utils/fileNameUtils.js: cleaning attachment names, reading the
 * "YYYY.MM" year and month out of a name, the menu-name pattern, and the
 * "_processed" mark on handled menu files.
 *
 * Each regular expression is written out as a scan over positions in the
 * order the expression engine tries them (leftmost position first, greedy
 * repetition longest first). A `null` or non-string argument is the empty
 * string here, the only falsy string.
 */
module FileNames {
  import opened Wrappers
  import opened JsStrings
  import Constants

  // ------------------------------------------------------ character classes

  /** The ASCII case folding of the `i` flag. */
  function LowerAscii(c: char): char
  {
    if 'A' <= c <= 'Z' then (c as int + 32) as char else c
  }

  predicate EqualsIgnoreCase(a: string, b: string)
  {
    |a| == |b| && forall i :: 0 <= i < |a| ==> LowerAscii(a[i]) == LowerAscii(b[i])
  }

  predicate EndsWithIgnoreCase(s: string, suffix: string)
  {
    |suffix| <= |s| && EqualsIgnoreCase(s[|s| - |suffix|..], suffix)
  }

  /** `[a-zA-Z0-9.]`. */
  predicate AllowedChar(c: char)
  {
    'a' <= c <= 'z' || 'A' <= c <= 'Z' || IsDigit(c) || c == '.'
  }

  // ------------------------------------------------------- normalizeFileName

  /** "pdf" or "PDF" (exactly these two spellings) at `i`. */
  predicate PdfWordAt(s: string, i: nat)
  {
    i + 3 <= |s| && (s[i..i + 3] == "pdf" || s[i..i + 3] == "PDF")
  }

  /** `n` digits at `p` followed by "pdf"/"PDF". */
  predicate DigitsThenPdf(s: string, p: nat, n: nat)
  {
    p + n <= |s| && AllDigits(s[p..p + n]) && PdfWordAt(s, p + n)
  }

  /** `(\d{2,4})(?:pdf|PDF)` tried at `p`: the digit count the greedy group settles on. */
  function DigitRunAt(s: string, p: nat): (r: Option<nat>)
    ensures r.Some? ==> 2 <= r.value <= 4 && DigitsThenPdf(s, p, r.value)
    ensures r.None? <==> !DigitsThenPdf(s, p, 2) && !DigitsThenPdf(s, p, 3) && !DigitsThenPdf(s, p, 4)
  {
    if DigitsThenPdf(s, p, 4) then Some(4)
    else if DigitsThenPdf(s, p, 3) then Some(3)
    else if DigitsThenPdf(s, p, 2) then Some(2)
    else None
  }

  /** The leftmost position from `p` on where the expression matches, with its digit count. */
  function FirstDigitRun(s: string, p: nat): (r: Option<(nat, nat)>)
    requires p <= |s|
    ensures r.Some? ==> p <= r.value.0 && DigitRunAt(s, r.value.0) == Some(r.value.1)
    ensures r.Some? ==> forall q :: p <= q < r.value.0 ==> DigitRunAt(s, q).None?
    ensures r.None? ==> forall q :: p <= q <= |s| ==> DigitRunAt(s, q).None?
    decreases |s| - p
  {
    if p == |s| then None
    else
      match DigitRunAt(s, p)
      case Some(n) => Some((p, n))
      case None => FirstDigitRun(s, p + 1)
  }

  /** Step A: the first "digits then pdf" has its "pdf" replaced by a '.'. */
  function DotForPdfAfterDigits(s: string): (r: string)
    ensures FirstDigitRun(s, 0).None? ==> r == s
    ensures FirstDigitRun(s, 0).Some? ==>
      var (p, n) := FirstDigitRun(s, 0).value;
      r == s[..p + n] + "." + s[p + n + 3..]
    ensures |r| <= |s|
  {
    match FirstDigitRun(s, 0)
    case None => s
    case Some((p, n)) => s[..p + n] + "." + s[p + n + 3..]
  }

  /** Step B: every character outside `[a-zA-Z0-9.]` removed. */
  function KeepAllowed(s: string): string
  {
    if s == [] then [] else KeepAllowed(s[..|s| - 1]) + (if AllowedChar(s[|s| - 1]) then [s[|s| - 1]] else [])
  }

  /**
   * Step B keeps exactly the allowed characters, each as often as before,
   * and leaves a name made only of them as it was.
   */
  lemma KeepAllowedMeaning(s: string)
    ensures forall i :: 0 <= i < |KeepAllowed(s)| ==> AllowedChar(KeepAllowed(s)[i])
    ensures forall c :: AllowedChar(c) ==> multiset(KeepAllowed(s))[c] == multiset(s)[c]
    ensures forall c :: !AllowedChar(c) ==> c !in KeepAllowed(s)
    ensures (forall i :: 0 <= i < |s| ==> AllowedChar(s[i])) ==> KeepAllowed(s) == s
  {
    KeepAllowedOnlyAllowed(s);
    KeepAllowedCounts(s);
    if forall i :: 0 <= i < |s| ==> AllowedChar(s[i]) {
      KeepAllowedClean(s);
    }
  }

  lemma {:induction false} KeepAllowedOnlyAllowed(s: string)
    ensures forall i :: 0 <= i < |KeepAllowed(s)| ==> AllowedChar(KeepAllowed(s)[i])
  {
    if s != [] {
      KeepAllowedOnlyAllowed(s[..|s| - 1]);
    }
  }

  lemma {:induction false} KeepAllowedCounts(s: string)
    ensures forall c :: AllowedChar(c) ==> multiset(KeepAllowed(s))[c] == multiset(s)[c]
  {
    if s != [] {
      var init, last := s[..|s| - 1], s[|s| - 1];
      var kept, tail := KeepAllowed(init), if AllowedChar(last) then [last] else [];
      KeepAllowedCounts(init);
      assert s == init + [last];
      assert multiset(s) == multiset(init) + multiset{last};
      assert multiset(KeepAllowed(s)) == multiset(kept) + multiset(tail);
    }
  }

  lemma {:induction false} KeepAllowedClean(s: string)
    requires forall i :: 0 <= i < |s| ==> AllowedChar(s[i])
    ensures KeepAllowed(s) == s
  {
    if s != [] {
      var init := s[..|s| - 1];
      assert forall i :: 0 <= i < |init| ==> init[i] == s[i];
      KeepAllowedClean(init);
      assert s == init + [s[|s| - 1]];
    }
  }

  /** Step C: `/(?:\.pdf)?\.pdf$/i` replaced by ".pdf". */
  function NormalizePdfExtension(s: string): (r: string)
  {
    if EndsWithIgnoreCase(s, ".pdf.pdf") then s[..|s| - 8] + ".pdf"
    else if EndsWithIgnoreCase(s, ".pdf") then s[..|s| - 4] + ".pdf"
    else s
  }

  /** A name ending in ".pdf" or ".pdf.pdf" in any case ends in one lower-case ".pdf" afterwards. */
  lemma PdfExtensionNormalized(s: string)
    ensures EndsWithIgnoreCase(s, ".pdf") ==> EndsWith(NormalizePdfExtension(s), ".pdf")
    ensures EndsWithIgnoreCase(s, ".pdf.pdf") ==> NormalizePdfExtension(s) == s[..|s| - 8] + ".pdf"
    ensures !EndsWithIgnoreCase(s, ".pdf") ==> NormalizePdfExtension(s) == s
    ensures (forall i :: 0 <= i < |s| ==> AllowedChar(s[i])) ==>
      forall i :: 0 <= i < |NormalizePdfExtension(s)| ==> AllowedChar(NormalizePdfExtension(s)[i])
  {
    if EndsWithIgnoreCase(s, ".pdf.pdf") {
      assert EqualsIgnoreCase(s[|s| - 4..], ".pdf") by {
        forall i | 0 <= i < 4 ensures LowerAscii(s[|s| - 4..][i]) == LowerAscii(".pdf"[i]) {
          assert s[|s| - 4..][i] == s[|s| - 8..][i + 4];
          assert ".pdf.pdf"[i + 4] == ".pdf"[i];
        }
      }
    }
  }

  /** The three steps in order, as the legacy handler applies them, with no guard. */
  function NormalizeSteps(name: string): (r: string)
    ensures forall i :: 0 <= i < |r| ==> AllowedChar(r[i])
  {
    var cleaned := KeepAllowed(DotForPdfAfterDigits(name));
    KeepAllowedMeaning(DotForPdfAfterDigits(name));
    PdfExtensionNormalized(cleaned);
    NormalizePdfExtension(cleaned)
  }

  /**
   * `normalizeFileName`: the three steps, or "" for an empty or missing
   * name. Only `[A-Za-z0-9.]` is left.
   */
  function NormalizeFileName(originalFileName: string): (r: string)
    ensures originalFileName == "" ==> r == ""
    ensures forall i :: 0 <= i < |r| ==> AllowedChar(r[i])
  {
    if originalFileName == "" then "" else NormalizeSteps(originalFileName)
  }

  /** Step A finds nothing when no "pdf"/"PDF" directly follows two digits. */
  lemma NoDigitRun(s: string)
    requires forall j :: 2 <= j < |s| && (s[j] == 'p' || s[j] == 'P') ==> !(IsDigit(s[j - 2]) && IsDigit(s[j - 1]))
    ensures FirstDigitRun(s, 0).None?
  {
    forall q: nat | q <= |s| ensures DigitRunAt(s, q).None? {
      NoRunAt(s, q, 2);
      NoRunAt(s, q, 3);
      NoRunAt(s, q, 4);
    }
    NoRunFrom(s, 0);
  }

  lemma NoRunAt(s: string, q: nat, n: nat)
    requires forall j :: 2 <= j < |s| && (s[j] == 'p' || s[j] == 'P') ==> !(IsDigit(s[j - 2]) && IsDigit(s[j - 1]))
    requires 2 <= n
    ensures !DigitsThenPdf(s, q, n)
  {
    if q + n + 3 <= |s| && AllDigits(s[q..q + n]) {
      assert IsDigit(s[q..q + n][n - 2]) && IsDigit(s[q..q + n][n - 1]);
      assert s[q + n..q + n + 3][0] == s[q + n];
    }
  }

  /** With no match at any position from `p` on, the scan from `p` finds none. */
  lemma {:induction false} NoRunFrom(s: string, p: nat)
    requires p <= |s|
    requires forall q :: p <= q <= |s| ==> DigitRunAt(s, q).None?
    ensures FirstDigitRun(s, p).None?
    decreases |s| - p
  {
    if p < |s| {
      NoRunFrom(s, p + 1);
    }
  }

  /** Step B works piece by piece. */
  lemma {:induction false} KeepAllowedAppend(a: string, b: string)
    ensures KeepAllowed(a + b) == KeepAllowed(a) + KeepAllowed(b)
  {
    if b != [] {
      var init, last := b[..|b| - 1], b[|b| - 1];
      var tail := if AllowedChar(last) then [last] else [];
      assert (a + b)[..|a + b| - 1] == a + init && (a + b)[|a + b| - 1] == last;
      assert KeepAllowed(a + b) == KeepAllowed(a + init) + tail;
      assert KeepAllowed(b) == KeepAllowed(init) + tail;
      KeepAllowedAppend(a, init);
    } else {
      assert a + b == a;
    }
  }

  /** Step B removes a piece made only of disallowed characters. */
  lemma {:induction false} KeepAllowedDropsAll(s: string)
    requires forall i :: 0 <= i < |s| ==> !AllowedChar(s[i])
    ensures KeepAllowed(s) == []
  {
    if s != [] {
      KeepAllowedDropsAll(s[..|s| - 1]);
    }
  }

  /** Digits and dots only: a "YYYY.M" or "YY" head. */
  predicate DigitsAndDots(s: string)
  {
    forall i :: 0 <= i < |s| ==> IsDigit(s[i]) || s[i] == '.'
  }

  /** Step C on `head + ".pdf"` when `head` has only digits and dots: nothing to fold. */
  lemma SinglePdfKept(head: string)
    requires head != [] && DigitsAndDots(head)
    ensures NormalizePdfExtension(head + ".pdf") == head + ".pdf"
  {
    var b := head + ".pdf";
    assert b[|b| - 4..] == ".pdf";
    if |b| >= 8 {
      assert b[|b| - 8..][3] == head[|head| - 1];
      assert LowerAscii(b[|b| - 8..][3]) != LowerAscii(".pdf.pdf"[3]);
    }
    assert b[..|b| - 4] == head;
  }

  /**
   * The doc comment's second example, '2024.9[更新済み].pdf' → '2024.9.pdf'
   * (head "2024.9", note "[更新済み]"): step B removes the note.
   */
  lemma NoteRemoved(head: string, note: string)
    requires head != [] && DigitsAndDots(head)
    requires forall i :: 0 <= i < |note| ==> !AllowedChar(note[i])
    ensures NormalizeFileName(head + note + ".pdf") == head + ".pdf"
  {
    var name := head + note + ".pdf";
    NoteNoRun(head, note);
    assert DotForPdfAfterDigits(name) == name;
    NoteDropped(head, note, ".pdf");
    SinglePdfKept(head);
  }

  /** Step B on `head + note + ext` drops exactly the note. */
  lemma NoteDropped(head: string, note: string, ext: string)
    requires DigitsAndDots(head)
    requires forall i :: 0 <= i < |note| ==> !AllowedChar(note[i])
    requires forall i :: 0 <= i < |ext| ==> AllowedChar(ext[i])
    ensures KeepAllowed(head + note + ext) == head + ext
  {
    var hn := head + note;
    KeepAllowedAppend(head, note);
    KeepAllowedClean(head);
    KeepAllowedDropsAll(note);
    assert KeepAllowed(hn) == head;
    KeepAllowedAppend(hn, ext);
    KeepAllowedClean(ext);
  }

  /** Step A finds nothing in `head + note + ".pdf"`: the only "p" follows a '.'. */
  lemma NoteNoRun(head: string, note: string)
    requires head != [] && DigitsAndDots(head)
    requires forall i :: 0 <= i < |note| ==> !AllowedChar(note[i])
    ensures FirstDigitRun(head + note + ".pdf", 0).None?
  {
    var name := head + note + ".pdf";
    forall j | 2 <= j < |name| && (name[j] == 'p' || name[j] == 'P') ensures !(IsDigit(name[j - 2]) && IsDigit(name[j - 1])) {
      if j >= |head| + |note| {
        assert name[j] == ".pdf"[j - |head| - |note|];
        assert name[j - 1] == '.';
      }
    }
    NoDigitRun(name);
  }

  /** The doc comment's third example, '24.pdf.pdf' → '24.pdf' (head "24"): step C folds the doubled extension. */
  lemma DoubledExtensionFolded(head: string)
    requires head != [] && DigitsAndDots(head)
    ensures NormalizeFileName(head + ".pdf.pdf") == head + ".pdf"
  {
    var name := head + ".pdf.pdf";
    forall j | 2 <= j < |name| && (name[j] == 'p' || name[j] == 'P') ensures !(IsDigit(name[j - 2]) && IsDigit(name[j - 1])) {
      if j >= |head| {
        assert name[j] == ".pdf.pdf"[j - |head|];
        assert name[j - 1] == '.';
      }
    }
    NoDigitRun(name);
    KeepAllowedClean(name);
    assert name[|name| - 8..] == ".pdf.pdf";
    assert name[..|name| - 8] == head;
  }

  /**
   * As written, the doc comment's first example '24pdf.pdf' → '24.pdf' does
   * not hold: step A keeps the two digits and adds a '.', and the extension
   * keeps its own '.', giving '24..pdf'.
   */
  lemma DigitsPdfGivesTwoDotsAsWritten(d1: char, d2: char)
    requires IsDigit(d1) && IsDigit(d2)
    ensures NormalizeFileName([d1, d2] + "pdf.pdf") == [d1, d2] + "..pdf"
  {
    var name := [d1, d2] + "pdf.pdf";
    assert DigitsThenPdf(name, 0, 2) by { assert name[0..2] == [d1, d2] && name[2..5] == "pdf"; }
    assert !DigitsThenPdf(name, 0, 3) by { assert name[0..3][2] == 'p'; }
    assert !DigitsThenPdf(name, 0, 4) by { assert name[0..4][2] == 'p'; }
    assert FirstDigitRun(name, 0) == Some((0, 2));
    var a := [d1, d2] + "..pdf";
    assert DotForPdfAfterDigits(name) == a by { assert name[..2] == [d1, d2] && name[5..] == ".pdf"; }
    KeepAllowedClean(a);
    assert a == [d1, d2, '.'] + ".pdf";
    SinglePdfKept([d1, d2, '.']);
  }

  /**
   * As written, the doc comment's example '2024.2pdf.pdf' → '2024.2.pdf' does
   * not hold: a single digit before "pdf" is too few for step A, so the name
   * (head "2024.", digit '2') comes back unchanged.
   */
  lemma OneDigitPdfUnchangedAsWritten(head: string, d: char)
    requires head != [] && DigitsAndDots(head) && head[|head| - 1] == '.' && IsDigit(d)
    ensures NormalizeFileName(head + [d] + "pdf.pdf") == head + [d] + "pdf.pdf"
  {
    var name := head + [d] + "pdf.pdf";
    OneDigitNoRun(head, d);
    assert DotForPdfAfterDigits(name) == name;
    assert forall i :: 0 <= i < |name| ==> AllowedChar(name[i]);
    KeepAllowedClean(name);
    OneDigitExtensionKept(name, d);
  }

  /** Step A finds nothing in `head + [d] + "pdf.pdf"`: one digit before "pdf" is too few. */
  lemma OneDigitNoRun(head: string, d: char)
    requires head != [] && DigitsAndDots(head) && head[|head| - 1] == '.' && IsDigit(d)
    ensures FirstDigitRun(head + [d] + "pdf.pdf", 0).None?
  {
    var name := head + [d] + "pdf.pdf";
    forall j | 2 <= j < |name| && (name[j] == 'p' || name[j] == 'P') ensures !(IsDigit(name[j - 2]) && IsDigit(name[j - 1])) {
      if j > |head| {
        assert name[j] == "pdf.pdf"[j - |head| - 1];
        if j == |head| + 1 { assert name[j - 2] == head[|head| - 1]; }
        else { assert name[j - 1] == '.'; }
      }
    }
    NoDigitRun(name);
  }

  /** Step C leaves a name ending in `d + "pdf.pdf"` alone apart from re-adding its ".pdf". */
  lemma OneDigitExtensionKept(name: string, d: char)
    requires |name| >= 8 && name[|name| - 8] == d && IsDigit(d) && name[|name| - 4..] == ".pdf"
    ensures NormalizePdfExtension(name) == name
  {
    assert name[|name| - 8..][0] == d;
    assert LowerAscii(name[|name| - 8..][0]) != LowerAscii(".pdf.pdf"[0]);
    assert name == name[..|name| - 4] + ".pdf";
  }

  // ------------------------------- normalizeFileName as its doc comment describes

  /**
   * Step A as the doc comment describes it: a "pdf"/"PDF" that directly
   * follows a digit and directly precedes the ".pdf" extension is removed, so
   * the extension's own '.' is the only one left.
   */
  function DropPdfBeforeExtension(s: string): string
  {
    if |s| >= 8 && IsDigit(s[|s| - 8]) && PdfWordAt(s, |s| - 7) && s[|s| - 4..] == ".pdf"
    then s[..|s| - 7] + ".pdf"
    else s
  }

  /** `normalizeFileName` with the intended step A; steps B and C as written. */
  function NormalizeFileNameIntended(originalFileName: string): (r: string)
    ensures originalFileName == "" ==> r == ""
    ensures forall i :: 0 <= i < |r| ==> AllowedChar(r[i])
  {
    if originalFileName == "" then ""
    else
      var cleaned := KeepAllowed(DropPdfBeforeExtension(originalFileName));
      KeepAllowedMeaning(DropPdfBeforeExtension(originalFileName));
      PdfExtensionNormalized(cleaned);
      NormalizePdfExtension(cleaned)
  }

  /**
   * With the intended step A the doc comment's first two examples hold:
   * '24pdf.pdf' → '24.pdf' (head "24") and '2024.2pdf.pdf' → '2024.2.pdf'
   * (head "2024.2").
   */
  lemma IntendedDropsPdfBeforeExtension(head: string)
    requires head != [] && DigitsAndDots(head) && IsDigit(head[|head| - 1])
    ensures NormalizeFileNameIntended(head + "pdf.pdf") == head + ".pdf"
  {
    var name := head + "pdf.pdf";
    assert name[|name| - 8] == head[|head| - 1];
    assert name[|name| - 7..|name| - 4] == "pdf";
    assert name[|name| - 4..] == ".pdf";
    assert name[..|name| - 7] == head;
    assert DropPdfBeforeExtension(name) == head + ".pdf";
    var kept := head + ".pdf";
    assert forall i :: 0 <= i < |kept| ==> AllowedChar(kept[i]);
    KeepAllowedClean(kept);
    SinglePdfKept(head);
  }

  /** The intended step A leaves the third example alone: '24.pdf.pdf' → '24.pdf' still. */
  lemma IntendedFoldsDoubledExtension(head: string)
    requires head != [] && DigitsAndDots(head)
    ensures NormalizeFileNameIntended(head + ".pdf.pdf") == head + ".pdf"
  {
    var name := head + ".pdf.pdf";
    assert name[|name| - 8] == '.';
    assert DropPdfBeforeExtension(name) == name;
    KeepAllowedClean(name);
    assert name[|name| - 8..] == ".pdf.pdf";
    assert name[..|name| - 8] == head;
  }

  // ------------------------------------------------ extractYearMonthFromFileName

  /** `(\d{4})\.(\d{2})` at `p`. */
  predicate YearMonthAt(s: string, p: nat)
  {
    p + 7 <= |s| && AllDigits(s[p..p + 4]) && s[p + 4] == '.' && AllDigits(s[p + 5..p + 7])
  }

  function FirstYearMonth(s: string, p: nat): (r: Option<nat>)
    requires p <= |s|
    ensures r.Some? ==> p <= r.value && YearMonthAt(s, r.value)
    ensures r.Some? ==> forall q :: p <= q < r.value ==> !YearMonthAt(s, q)
    ensures r.None? ==> forall q :: p <= q <= |s| ==> !YearMonthAt(s, q)
    decreases |s| - p
  {
    if p == |s| then None
    else if YearMonthAt(s, p) then Some(p)
    else FirstYearMonth(s, p + 1)
  }

  datatype YearMonth = YearMonth(year: string, month: string)

  /**
   * `extractYearMonthFromFileName`: the four and two digits of the first
   * "DDDD.DD" in the name, or `None` when there is none.
   */
  function ExtractYearMonthFromFileName(fileName: string): (r: Option<YearMonth>)
    ensures r.None? <==> forall q :: 0 <= q <= |fileName| ==> !YearMonthAt(fileName, q)
    ensures r.Some? ==> (|r.value.year| == 4 && |r.value.month| == 2
      && AllDigits(r.value.year) && AllDigits(r.value.month))
    ensures r.Some? ==> exists p ::
      0 <= p <= |fileName| && YearMonthAt(fileName, p)
      && (forall q :: 0 <= q < p ==> !YearMonthAt(fileName, q))
      && r.value == YearMonth(fileName[p..p + 4], fileName[p + 5..p + 7])
  {
    if fileName == "" then None
    else
      match FirstYearMonth(fileName, 0)
      case None => None
      case Some(p) => Some(YearMonth(fileName[p..p + 4], fileName[p + 5..p + 7]))
  }

  // ------------------------------------------------------------ isMenuPdfPattern

  /** Two digits and a '.' at `p`. */
  predicate TwoDigitsDotAt(s: string, p: nat)
  {
    p + 3 <= |s| && IsDigit(s[p]) && IsDigit(s[p + 1]) && s[p + 2] == '.'
  }

  function HasTwoDigitsDotFrom(s: string, p: nat): (found: bool)
    requires p <= |s|
    ensures found <==> exists q :: p <= q <= |s| && TwoDigitsDotAt(s, q)
    decreases |s| - p
  {
    if p == |s| then false
    else TwoDigitsDotAt(s, p) || HasTwoDigitsDotFrom(s, p + 1)
  }

  /**
   * `isMenuPdfPattern`: `/^\d{4}|\d{2}\./` — four digits at the start, or
   * two digits followed by a '.' anywhere; false for an empty name.
   */
  function IsMenuPdfPattern(fileName: string): (r: bool)
    ensures r <==> ((|fileName| >= 4 && AllDigits(fileName[..4]))
      || exists q :: 0 <= q <= |fileName| && TwoDigitsDotAt(fileName, q))
    ensures fileName == "" ==> !r
  {
    if fileName == "" then false
    else (|fileName| >= 4 && AllDigits(fileName[..4])) || HasTwoDigitsDotFrom(fileName, 0)
  }

  /** Every name with a "YYYY.MM" in it passes the menu pattern. */
  lemma YearMonthNameIsMenuPattern(fileName: string)
    requires ExtractYearMonthFromFileName(fileName).Some?
    ensures IsMenuPdfPattern(fileName)
  {
    var p := FirstYearMonth(fileName, 0).value;
    assert fileName[p..p + 4][2] == fileName[p + 2] && fileName[p..p + 4][3] == fileName[p + 3];
    assert TwoDigitsDotAt(fileName, p + 2);
  }

  // ------------------------------------------------- getFileNameWithoutExtension

  /**
   * `getFileNameWithoutExtension`: the text before the last '.', the whole
   * name when it has no '.', and "" for an empty name.
   */
  function GetFileNameWithoutExtension(fileName: string): (r: string)
    ensures '.' !in fileName ==> r == fileName
    ensures '.' in fileName ==>
      |r| < |fileName| && fileName[..|r|] == r && fileName[|r|] == '.' && '.' !in fileName[|r| + 1..]
  {
    if fileName == "" then ""
    else
      var lastDotIndex := LastIndexOf(fileName, '.');
      if lastDotIndex == -1 then fileName else fileName[..lastDotIndex]
  }

  // --------------------------------------------------------- processed marker

  /** `addProcessedSuffix`: `/\.pdf$/i` becomes the suffix and a lower-case ".pdf"; other names are unchanged. */
  function AddProcessedSuffix(fileName: string, suffix: string): (r: string)
    ensures !EndsWithIgnoreCase(fileName, ".pdf") ==> r == fileName
    ensures EndsWithIgnoreCase(fileName, ".pdf") ==>
      r == fileName[..|fileName| - 4] + suffix + ".pdf" && EndsWith(r, suffix + ".pdf")
  {
    if fileName == "" then fileName
    else if EndsWithIgnoreCase(fileName, ".pdf") then fileName[..|fileName| - 4] + suffix + ".pdf"
    else fileName
  }

  /** `hasProcessedSuffix`: the suffix occurs anywhere in the name. */
  function HasProcessedSuffix(fileName: string, suffix: string): (r: bool)
    ensures r <==> fileName != "" && Contains(fileName, suffix)
  {
    if fileName == "" then false else Contains(fileName, suffix)
  }

  /**
   * A ".pdf" name once marked is recognised as marked, so the menu
   * processor never handles it twice.
   */
  lemma MarkedNameIsRecognised(fileName: string)
    requires EndsWithIgnoreCase(fileName, ".pdf")
    ensures HasProcessedSuffix(AddProcessedSuffix(fileName, Constants.PROCESSED_SUFFIX), Constants.PROCESSED_SUFFIX)
  {
    var r := AddProcessedSuffix(fileName, Constants.PROCESSED_SUFFIX);
    var p := |fileName| - 4;
    assert r[p..p + |Constants.PROCESSED_SUFFIX|] == Constants.PROCESSED_SUFFIX;
    ContainsAt(r, Constants.PROCESSED_SUFFIX, p);
  }
}
