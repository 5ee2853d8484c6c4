/**
 * Shared constants and the configuration checks of src/utils/constants.js:
 * size categories and their keywords, the order-card layout, the required
 * script properties and sheets.
 */
module Constants {
  import opened Wrappers
  import opened JsStrings

  const SHEET_PROMPT: string := "情報"
  const SHEET_MENU: string := "メニュー"
  const SHEET_ORDER_HISTORY: string := "注文履歴"
  const SHEET_SNAPSHOT: string := "注文スナップショット"

  // Products with ROWS_PER_WEEK and COLUMNS_PER_DAY are written with their
  // values, 5 and 2, so that the row and column arithmetic stays linear.
  const FIRST_WEEK_BASE_ROW: int := 8
  const ROWS_PER_WEEK: int := 5
  const COLUMN_OFFSET: int := 4
  const COLUMNS_PER_DAY: int := 2

  const PROCESSED_SUFFIX: string := "_processed"

  const MIME_PDF: string := "application/pdf"
  const MIME_XLSX: string := "application/vnd.openxmlformats-officedocument.spreadsheetml.sheet"
  const MIME_XLS: string := "application/vnd.ms-excel"

  const PROPERTY_SPREADSHEET_ID: string := "SPREADSHEET_ID"
  const REQUIRED_PROPERTIES: seq<string> :=
    ["FOLDER_ID_MENU", "FOLDER_ID_ORDER_CARD", "FOLDER_ID_INVOICE", PROPERTY_SPREADSHEET_ID, "GEMINI_API_KEY"]
  const REQUIRED_SHEETS: seq<string> := [SHEET_PROMPT, SHEET_MENU, SHEET_ORDER_HISTORY]

  /** The three size categories of an order. */
  datatype Size = Large | Regular | Small

  /** The category names written to sheets and mails. */
  function SizeLabel(s: Size): string
  {
    match s
    case Large => "大盛"
    case Regular => "普通"
    case Small => "小盛"
  }

  const LARGE_KEYWORDS: seq<string> := ["大", "L"]
  const SMALL_KEYWORDS: seq<string> := ["小", "S"]

  /** The keyword scan: does `size` include one of `keywords`? */
  predicate IncludesAny(size: string, keywords: seq<string>)
  {
    keywords != [] && (Contains(size, keywords[0]) || IncludesAny(size, keywords[1..]))
  }

  /**
   * `normalizeSizeCategory` as a category: empty (null, undefined, '') is
   * regular; 大 or L anywhere is large, checked first; then 小 or S is small;
   * anything else is regular.
   */
  function NormalizeSize(size: string): (r: Size)
    ensures size == "" ==> r == Regular
    ensures r == Large <==> ('大' in size || 'L' in size)
    ensures r == Small <==> !('大' in size || 'L' in size) && ('小' in size || 'S' in size)
  {
    ContainsChar(size, '大');
    ContainsChar(size, 'L');
    ContainsChar(size, '小');
    ContainsChar(size, 'S');
    assert IncludesAny(size, LARGE_KEYWORDS) <==> Contains(size, ['大']) || Contains(size, ['L']) by {
      assert LARGE_KEYWORDS[0] == ['大'] && LARGE_KEYWORDS[1..] == ["L"];
      assert !IncludesAny(size, []);
      assert IncludesAny(size, ["L"]) <==> Contains(size, ['L']);
    }
    assert IncludesAny(size, SMALL_KEYWORDS) <==> Contains(size, ['小']) || Contains(size, ['S']) by {
      assert SMALL_KEYWORDS[0] == ['小'] && SMALL_KEYWORDS[1..] == ["S"];
      assert !IncludesAny(size, []);
      assert IncludesAny(size, ["S"]) <==> Contains(size, ['S']);
    }
    if size == "" then Regular
    else if IncludesAny(size, LARGE_KEYWORDS) then Large
    else if IncludesAny(size, SMALL_KEYWORDS) then Small
    else Regular
  }

  /** `normalizeSizeCategory`: the category name. */
  function NormalizeSizeCategory(size: string): (r: string)
    ensures r == "大盛" || r == "普通" || r == "小盛"
  {
    SizeLabel(NormalizeSize(size))
  }

  predicate IsSizeLabel(s: string) { s == "大盛" || s == "普通" || s == "小盛" }

  /** Each category name normalises to its own category. */
  lemma NormalizeSizeLabel(s: Size)
    ensures NormalizeSize(SizeLabel(s)) == s
  {
    var name := SizeLabel(s);
    assert name == [name[0], name[1]];
  }

  /** Normalising twice is normalising once. */
  lemma NormalizeSizeCategoryIdempotent(size: string)
    ensures NormalizeSizeCategory(NormalizeSizeCategory(size)) == NormalizeSizeCategory(size)
  {
    NormalizeSizeLabel(NormalizeSize(size));
  }

  lemma LabelOfCategory(category: string)
    requires IsSizeLabel(category)
    ensures NormalizeSizeCategory(category) == category
  {
    if category == "大盛" { NormalizeSizeLabel(Large); }
    else if category == "普通" { NormalizeSizeLabel(Regular); }
    else { NormalizeSizeLabel(Small); }
  }

  lemma SizeLabelInjective(a: Size, b: Size)
    requires SizeLabel(a) == SizeLabel(b)
    ensures a == b
  {
    NormalizeSizeLabel(a);
    NormalizeSizeLabel(b);
  }

  /** `properties.getProperty(key)` is truthy: present and non-empty. */
  predicate IsSet(props: map<string, string>, key: string)
  {
    key in props && props[key] != ""
  }

  /** The keys among `keys` that are not set, in their order. */
  function UnsetKeys(keys: seq<string>, props: map<string, string>): (r: seq<string>)
  {
    if keys == [] then []
    else
      var last := keys[|keys| - 1];
      UnsetKeys(keys[..|keys| - 1], props) + (if IsSet(props, last) then [] else [last])
  }

  lemma {:induction false} UnsetKeysMembers(keys: seq<string>, props: map<string, string>)
    ensures forall k :: k in UnsetKeys(keys, props) <==> k in keys && !IsSet(props, k)
  {
    if keys != [] {
      UnsetKeysMembers(keys[..|keys| - 1], props);
      assert keys == keys[..|keys| - 1] + [keys[|keys| - 1]];
    }
  }

  datatype Validation = Validation(valid: bool, missing: seq<string>, error: Option<string>)

  /**
   * `validateScriptProperties`: the required keys that are unset, in
   * declaration order; valid iff there are none.
   */
  method ValidateScriptProperties(props: map<string, string>) returns (r: Validation)
    ensures r.missing == UnsetKeys(REQUIRED_PROPERTIES, props)
    ensures forall k :: k in r.missing <==> k in REQUIRED_PROPERTIES && !IsSet(props, k)
    ensures r.valid <==> forall k :: k in REQUIRED_PROPERTIES ==> IsSet(props, k)
    ensures r.error.None?
  {
    var missing: seq<string> := [];
    for i := 0 to |REQUIRED_PROPERTIES|
      invariant missing == UnsetKeys(REQUIRED_PROPERTIES[..i], props)
    {
      assert REQUIRED_PROPERTIES[..i + 1][..i] == REQUIRED_PROPERTIES[..i];
      if !IsSet(props, REQUIRED_PROPERTIES[i]) {
        missing := missing + [REQUIRED_PROPERTIES[i]];
      }
    }
    assert REQUIRED_PROPERTIES[..|REQUIRED_PROPERTIES|] == REQUIRED_PROPERTIES;
    UnsetKeysMembers(REQUIRED_PROPERTIES, props);
    r := Validation(missing == [], missing, None);
    if !r.valid {
      assert missing[0] in missing;
    }
  }

  /** What `SpreadsheetApp.openById` gives: the sheet names, or the message of the exception. */
  datatype SpreadsheetAccess = Opened(sheetNames: set<string>) | OpenFailed(message: string)

  /** The required sheets absent from `names`, in declaration order. */
  function AbsentSheets(required: seq<string>, names: set<string>): (r: seq<string>)
  {
    if required == [] then []
    else
      var last := required[|required| - 1];
      AbsentSheets(required[..|required| - 1], names) + (if last in names then [] else [last])
  }

  lemma {:induction false} AbsentSheetsMembers(required: seq<string>, names: set<string>)
    ensures forall s :: s in AbsentSheets(required, names) <==> s in required && s !in names
  {
    if required != [] {
      AbsentSheetsMembers(required[..|required| - 1], names);
      assert required == required[..|required| - 1] + [required[|required| - 1]];
    }
  }

  /**
   * `validateRequiredSheets`: the missing required sheets; when the
   * spreadsheet cannot be opened, invalid with every required sheet listed.
   */
  method ValidateRequiredSheets(access: SpreadsheetAccess) returns (r: Validation)
    ensures access.OpenFailed? ==> r == Validation(false, REQUIRED_SHEETS, Some(access.message))
    ensures access.Opened? ==> r.error.None?
    ensures access.Opened? ==> forall s :: s in r.missing <==> s in REQUIRED_SHEETS && s !in access.sheetNames
    ensures access.Opened? ==> (r.valid <==> forall s :: s in REQUIRED_SHEETS ==> s in access.sheetNames)
    ensures access.Opened? ==> r.missing == AbsentSheets(REQUIRED_SHEETS, access.sheetNames)
  {
    match access
    case OpenFailed(message) =>
      r := Validation(false, REQUIRED_SHEETS, Some(message));
    case Opened(names) =>
      var missing: seq<string> := [];
      for i := 0 to |REQUIRED_SHEETS|
        invariant missing == AbsentSheets(REQUIRED_SHEETS[..i], names)
      {
        assert REQUIRED_SHEETS[..i + 1][..i] == REQUIRED_SHEETS[..i];
        if REQUIRED_SHEETS[i] !in names {
          missing := missing + [REQUIRED_SHEETS[i]];
        }
      }
      assert REQUIRED_SHEETS[..|REQUIRED_SHEETS|] == REQUIRED_SHEETS;
      AbsentSheetsMembers(REQUIRED_SHEETS, names);
      r := Validation(missing == [], missing, None);
      if !r.valid {
        assert missing[0] in missing;
      }
  }

  function PropertyErrorMessage(missing: seq<string>): string
  {
    "未設定のスクリプトプロパティ: " + Join(missing, ", ")
  }

  /** The message `validateConfiguration` gives an invalid sheet check. */
  function SheetErrorMessage(v: Validation): string
  {
    if v.error.Some? && v.error.value != "" then "スプレッドシートへのアクセスエラー: " + v.error.value
    else "未作成のシート: " + Join(v.missing, ", ")
  }

  /**
   * `validateConfiguration`: a property error when a required property is
   * unset, then a sheet error only when SPREADSHEET_ID is set and the sheet
   * check fails (an access error when opening threw with a message); valid
   * iff there is no error. `access` is what opening that spreadsheet gives.
   */
  method ValidateConfiguration(props: map<string, string>, access: SpreadsheetAccess)
    returns (valid: bool, errors: seq<string>)
    ensures valid <==> errors == []
    ensures |errors| <= 2
    ensures (exists k :: k in REQUIRED_PROPERTIES && !IsSet(props, k))
        <==> (errors != [] && errors[0] == PropertyErrorMessage(UnsetKeys(REQUIRED_PROPERTIES, props)))
    ensures !IsSet(props, PROPERTY_SPREADSHEET_ID) ==> |errors| <= 1
    ensures access.OpenFailed? && IsSet(props, PROPERTY_SPREADSHEET_ID)
        ==> errors != [] && errors[|errors| - 1] == SheetErrorMessage(Validation(false, REQUIRED_SHEETS, Some(access.message)))
    ensures access.Opened? && IsSet(props, PROPERTY_SPREADSHEET_ID) && (exists s :: s in REQUIRED_SHEETS && s !in access.sheetNames)
        ==> errors != [] && errors[|errors| - 1] == SheetErrorMessage(Validation(false, AbsentSheets(REQUIRED_SHEETS, access.sheetNames), None))
    ensures access.Opened? && (forall s :: s in REQUIRED_SHEETS ==> s in access.sheetNames)
        ==> errors == if exists k :: k in REQUIRED_PROPERTIES && !IsSet(props, k)
                      then [PropertyErrorMessage(UnsetKeys(REQUIRED_PROPERTIES, props))] else []
  {
    errors := [];
    var properties := ValidateScriptProperties(props);
    if !properties.valid {
      errors := errors + [PropertyErrorMessage(properties.missing)];
    }
    if IsSet(props, PROPERTY_SPREADSHEET_ID) {
      var sheets := ValidateRequiredSheets(access);
      if !sheets.valid {
        ErrorMessagesDiffer(properties.missing, sheets);
        ErrorMessagesDiffer(UnsetKeys(REQUIRED_PROPERTIES, props), sheets);
        errors := errors + [SheetErrorMessage(sheets)];
      }
    }
    valid := |errors| == 0;
  }

  /** The two kinds of message differ in their second character (設 against 作 or プ). */
  lemma ErrorMessagesDiffer(missing: seq<string>, v: Validation)
    ensures PropertyErrorMessage(missing) != SheetErrorMessage(v)
  {
    assert PropertyErrorMessage(missing)[1] == '設';
    assert SheetErrorMessage(v)[1] != '設';
  }
}
