# Lunch-order bookkeeping, modelled and verified in Dafny

The system is a Google Apps Script automation that handles a company's weekly lunch order from a caterer. Each week it does the following:

- It reads the order ledger (注文履歴) for the next working week, Monday to Friday.
- It totals the orders per date and per size. There are three size categories: 大盛 (large), 普通 (regular) and 小盛 (small).
- It writes those totals into a 3 × 10 block of the month's order card (オーダーカード), which has one block per week of the month. It then compares the new card values with the ones that were there before.
- It drafts the order e-mail to the caterer.
- After the order mail has been sent, it keeps one snapshot of the orders per week in a snapshot sheet. Later runs diff the current orders against that snapshot:
  - orders added or cancelled, keyed by date, name, size and count;
  - quantity changes per date and size.
- Once a month it reconciles the caterer's invoice against a tally of the ledger. The tally uses a three-tier flat unit price.
- It files mail attachments into Drive:
  - menu PDFs are named "YYYY.MM.pdf";
  - order cards are named "オーダーカードYYYY.MM".
- It turns a parsed menu PDF into menu rows and marks the PDF as processed.

Around this sit a few supporting pieces:

- a `Result` algebra;
- a level-gated logger;
- a cached configuration loaded from the settings sheet;
- validation of script properties and sheets;
- the Slack order listing.

The repository also keeps older root-level versions of several of these files. Each of them is modelled as a separately named variant:

- the order-card writer;
- the attachment handler;
- the menu processor;
- the ledger reader.

## How the model is built

Sheets are values:

- a ledger is a sequence of rows;
- a card is a map from (row, column) to cell;
- a folder is a sequence of file records;
- the snapshot sheet is a class whose data rows the methods delete, append and filter.

Calls into Gmail, Drive, Slack, Gemini, the clock and the script's time zone become parameters.

- Dates are "YYYY/MM/DD" strings.
- A civil-date helper (`CivilDates`) gives each date a day number and a weekday.
- JavaScript objects and Maps are association lists that keep insertion order (`JsObjects`).
- JavaScript string operations are written out in `JsStrings`: `includes`, `split`, `padStart`, `parseInt`, `substring` with a negative end, and `slice(-2)`.

Code the source writes as loops is modelled as methods with loops. Each such method is proved against a function that states the result, and the properties are proved about that function as lemmas. Pure code is modelled as functions.

Prices are flat per tier. The settings loader (src/utils/configService.js) reads a per-size price matrix as well, but the invoice tally never uses it (src/services/invoiceService.js:111-120), so the model has only the flat price.


## Model

| member | source | states |
|---|---|---|
| Constants.NormalizeSize | src/utils/constants.js:296-315 | an empty size is regular; a size containing 大 or L is large, and that test comes first; otherwise one containing 小 or S is small; anything else is regular |
| Constants.NormalizeSizeCategory | src/utils/constants.js:296-315 | the result is always one of 大盛, 普通, 小盛 |
| Constants.NormalizeSizeLabel | src/utils/constants.js:208-217 | each category name normalises back to its own category |
| Constants.NormalizeSizeCategoryIdempotent | src/utils/constants.js:296-315 | normalising twice gives the same name as normalising once |
| Constants.LabelOfCategory | src/utils/constants.js:296-315 | a category name is left unchanged by normalisation |
| Constants.SizeLabelInjective | src/utils/constants.js:208-212 | the three categories have three different names |
| Constants.UnsetKeysMembers | src/utils/constants.js:246-260 | a key is reported missing iff it is required and its value is absent or empty |
| Constants.ValidateScriptProperties | src/utils/constants.js:246-260 | missing lists exactly the unset required keys in declaration order; valid iff none is missing |
| Constants.AbsentSheetsMembers | src/utils/constants.js:267-289 | a sheet is reported missing iff it is required and the spreadsheet lacks it |
| Constants.ValidateRequiredSheets | src/utils/constants.js:267-289 | when opening throws, invalid with every required sheet listed and the error kept; otherwise missing is the absent required sheets and valid iff none is absent |
| Constants.ValidateConfiguration | src/utils/constants.js:321-348 | valid iff no error; at most two errors; the property error comes first exactly when a required key is unset; the sheet check only runs, and can only add an error, when SPREADSHEET_ID is set; then an access failure ends the list with the access error, a missing required sheet ends it with the "未作成のシート" error naming the absent sheets in order, and all sheets present adds nothing |
| Constants.ErrorMessagesDiffer | src/utils/constants.js:329-343 | the property and sheet error messages can never be confused |
| CivilDates.ParseFormatYMD | src/utils/dateUtils.js:28-33 | a date's "YYYY/MM/DD" text reads back as that date |
| CivilDates.FormatYMDInjective | src/utils/dateUtils.js:28-33 | different dates have different "YYYY/MM/DD" texts |
| DateUtils.DaysUntilNextMonday | src/utils/dateUtils.js:24-25 | the offset is 1..7 days, lands on a Monday, and is 7 exactly for a Monday base |
| DateUtils.NextMondayFacts | src/utils/dateUtils.js:17-25 | the start day is a Monday 1 to 7 days after the base, and 7 days after exactly when the base is a Monday |
| DateUtils.GetNextWeekdays | src/utils/dateUtils.js:12-42 | five strings, the i-th being the formatted date i days after the next Monday |
| DateUtils.NextWeekdays | src/utils/dateUtils.js:36-39 | the list has exactly five entries |
| DateUtils.NextWeekdaysAreMondayToFriday | src/utils/dateUtils.js:28-39 | the i-th string is the date of weekday i+1, consecutive from the Monday, and reads back as that date |
| DateUtils.NextWeekdaysDistinct | src/utils/dateUtils.js:36-39 | the five strings are pairwise different |
| DateUtils.JapaneseDateOfFormatted | src/utils/dateUtils.js:49-56 | on a date's own text the result is "MM/DD (曜)" with the padded month, padded day and the weekday's name |
| Orders.CountOrOne | src/processors/weeklyOrderProcessor.js:272 | a missing or zero count reads as 1, any other count as itself |
| Orders.CellCount | src/utils/dataFetcher.js:89-90 | a blank, zero or non-numeric count cell gives 1, a non-zero number gives itself |
| WeeklyOrderProcessor.SizeCounts.Add | src/processors/weeklyOrderProcessor.js:284 | adding to one size changes that size by the amount and leaves the other two as they were |
| WeeklyOrderProcessor.AggregateMeaning | src/processors/weeklyOrderProcessor.js:266-287 | the keys are exactly the input dates, each once; bucket (d, s) is the sum of count-or-1 over the orders of date d whose size normalises to s, and an unordered size stays 0 |
| WeeklyOrderProcessor.SizeSumPermutation | src/processors/weeklyOrderProcessor.js:268-285 | the per-date, per-size sums do not depend on the order of the input |
| WeeklyOrderProcessor.AggregateOrderIndependent | src/processors/weeklyOrderProcessor.js:266-287 | reordering the orders gives the same bucket for every date |
| WeeklyOrderProcessor.AggregateOrdersByDateAndSize | src/processors/weeklyOrderProcessor.js:266-287 | the loop builds the aggregation table above |
| WeeklyOrderProcessor.MonthKeyOfFormatted | src/processors/weeklyOrderProcessor.js:216-220 | the key of a "YYYY/MM/DD" date is "YYYY.MM" |
| WeeklyOrderProcessor.MonthKeySameMonth | src/processors/weeklyOrderProcessor.js:216-220 | two dates share a key iff they share year and month |
| WeeklyOrderProcessor.GroupedMeaning | src/processors/weeklyOrderProcessor.js:212-229 | each key maps to exactly the input dates of that month in input order; a key exists iff its month has a date; no key repeats |
| WeeklyOrderProcessor.InMonthMembers | src/processors/weeklyOrderProcessor.js:215-226 | a date is in a month's group iff it is an input date with that month key |
| WeeklyOrderProcessor.GroupDateStringsByMonth | src/processors/weeklyOrderProcessor.js:212-229 | the loop builds the grouping above |
| WeeklyOrderProcessor.LayoutRows | src/processors/weeklyOrderProcessor.js:314-318 | week 1 starts at row 8 and each week 5 rows lower; large, regular and small sit at base, +1, +2; no two (week, size) pairs share a row |
| WeeklyOrderProcessor.DayColumns | src/processors/weeklyOrderProcessor.js:388-391 | Monday..Friday map to distinct even block columns 0..8 (sheet columns D..L) |
| WeeklyOrderProcessor.BlankMatrix | src/processors/weeklyOrderProcessor.js:371-373 | a 3 × 10 block of '' cells |
| WeeklyOrderProcessor.MatrixCells | src/processors/weeklyOrderProcessor.js:364-412 | a cell no date writes stays ''; any other cell holds a positive count written by one of the dates |
| WeeklyOrderProcessor.OddColumnsBlank | src/processors/weeklyOrderProcessor.js:364-412 | the second column of each day is always '' |
| WeeklyOrderProcessor.MatrixOfWeek | src/processors/weeklyOrderProcessor.js:376-409 | for one week's dates, cell (size, day) holds the day's total for that size when positive and '' otherwise |
| WeeklyOrderProcessor.OthersSkipColumn | src/processors/weeklyOrderProcessor.js:386-391 | in a week no other date writes into a date's column |
| WeeklyOrderProcessor.CellWrite | src/processors/weeklyOrderProcessor.js:400-408 | whatever a date writes into the block is a positive count |
| WeeklyOrderProcessor.CreateOrderMatrix | src/processors/weeklyOrderProcessor.js:364-412 | the loop returns the block above: dates with no totals, weekend dates and zero totals write nothing |
| WeeklyOrderProcessor.PlaceOrders | src/processors/weeklyOrderProcessor.js:376-409 | one date's step writes its positive totals in its weekday column and nothing else |
| WeeklyOrderProcessor.DateChangesMeaning | src/processors/weeklyOrderProcessor.js:472-486 | a size has an entry iff its two values differ, holding both values and diff = current − previous ≠ 0; a date has no entry iff nothing changed |
| WeeklyOrderProcessor.ChangesForMeaning | src/processors/weeklyOrderProcessor.js:454-494 | a date is reported iff it is a target date and some size differs, a missing side counting as zeros; its entry holds exactly the differing sizes |
| WeeklyOrderProcessor.CalculateOrderChanges | src/processors/weeklyOrderProcessor.js:454-494 | the loop builds the change table above |
| WeeklyOrderProcessor.SizeChanges | src/processors/weeklyOrderProcessor.js:469-486 | the inner loop builds one date's entries, and hasChange iff there is one |
| OrderCardSheets.Cleared | src/processors/weeklyOrderProcessor.js:331 | after the clear every cell of the rectangle reads '' and every other cell is unchanged |
| OrderCardSheets.Overlaid | src/services/spreadsheetService.js:52-57 | after setValues every cell of the covered rectangle holds its matrix entry and every other cell is unchanged |
| OrderCardSheets.OrderCardSheet.GetValue | src/processors/weeklyOrderProcessor.js:436-440 | a cell reads as what it holds, '' when empty |
| OrderCardSheets.OrderCardSheet.SetValue | src/processors/orderCardWriter.js:196-204 | exactly the one cell takes the value |
| OrderCardSheets.OrderCardSheet.ClearRange | src/processors/weeklyOrderProcessor.js:331 | the sheet becomes the cleared sheet above |
| OrderCardSheets.OrderCardSheet.WriteData | src/services/spreadsheetService.js:43-72 | no rows: success with 0 and nothing written; rows of unequal length: failure with nothing written; otherwise the rectangle is overlaid and the row count returned |
| WeeklyOrderCard.PreviousForMeaning | src/processors/weeklyOrderProcessor.js:421-445 | the read succeeds iff every text is a date; it then has an entry exactly for the Monday..Friday dates, holding that column's three cells with '' read as 0 |
| WeeklyOrderCard.ReadPreviousOrderValues | src/processors/weeklyOrderProcessor.js:421-445 | the loop returns the read above |
| WeeklyOrderCard.ReadDateValues | src/processors/weeklyOrderProcessor.js:428-442 | one date's step adds that weekday column's counts, skips a weekend date, and fails on a NaN column |
| WeeklyOrderCard.WithBlockCells | src/processors/weeklyOrderProcessor.js:331-343 | after the clear and the write the 3 × 10 block equals the matrix whatever it held before, and no other cell changes |
| WeeklyOrderCard.WithBlockIdempotent | src/processors/weeklyOrderProcessor.js:331-343 | writing the same block twice leaves the sheet as writing it once |
| WeeklyOrderCard.WriteIsIdempotent | src/processors/weeklyOrderProcessor.js:296-355 | a second write of the same week with the same totals changes nothing more |
| WeeklyOrderCard.RereadAfterWrite | src/processors/weeklyOrderProcessor.js:421-445 | reading the week back after the write gives each Monday..Friday date its own totals |
| WeeklyOrderCard.RereadCounts | src/processors/weeklyOrderProcessor.js:436-440 | the three cells of a written date's column read back as its totals |
| WeeklyOrderCard.RereadCell | src/processors/weeklyOrderProcessor.js:436-440 | one written cell reads back as its total, 0 when nothing was ordered |
| WeeklyOrderCard.RerunReportsNoChanges | src/processors/weeklyOrderProcessor.js:454-494 | a second run with the same totals reports no change |
| WeeklyOrderCard.WriteAggregatedOrdersToSpreadsheet | src/processors/weeklyOrderProcessor.js:296-355 | the card becomes the cleared-and-written card when the previous values could be read and the clear exists, and is unchanged otherwise; the result is the change table, or {} after an error |
| WeeklyOrderCard.AsWrittenCardNeverWritten | src/processors/weeklyOrderProcessor.js:331 | as written, with no `clearRange` on the service, the card keeps its cells and no change is reported |
| WeeklyOrderCard.CorrectedCardHoldsTotals | src/processors/weeklyOrderProcessor.js:296-355 | with a working `clearRange`, a readable week holds each weekday's totals after the write |
| WeeklyOrderCard.CardRerunIsQuiet | src/processors/weeklyOrderProcessor.js:296-355 | a second run over the same dates and totals leaves the card as it was and, once the first run wrote, reports nothing |
| WeeklyOrderCard.ChangesByMonthMeaning | src/processors/weeklyOrderProcessor.js:159-183 | over distinct months, a month is reported iff it was visited and has a card, with the changes of its own card and dates |
| WeeklyOrderCard.WithCardMembers | src/processors/weeklyOrderProcessor.js:166-183 | a month gets a file entry iff it was visited and has a card |
| WeeklyOrderCard.WriteOrdersToOrderCard | src/processors/weeklyOrderProcessor.js:135-205 | no orders: hasOrders false, nothing written, empty changes; otherwise each month of the week is written into its own card and changes and files are those described above; the period is the first and last date |
| WeeklyOrderCard.WriteMonths | src/processors/weeklyOrderProcessor.js:159-183 | the loop over months gives the changes, files and cards above |
| WeeklyOrderCard.WriteMonth | src/processors/weeklyOrderProcessor.js:160-182 | a month without a card is skipped; otherwise only its card is written and its changes and file recorded |
| WeeklyRun.FirstWeekFromMeaning | src/processors/weeklyOrderProcessor.js:22-36 | the search from week w returns the first week below 4 that has a menu, and nothing exactly when none of them has one |
| WeeklyRun.MenuWeekMeaning | src/processors/weeklyOrderProcessor.js:17-43 | the week ordered for is the first of the next four with a menu; none is chosen only when none of the four has one |
| WeeklyRun.FindMenuWeek | src/processors/weeklyOrderProcessor.js:14-36 | the loop finds a menu iff one of the four weeks has one, and then returns that week's Monday..Friday dates |
| WeeklyRun.NextWeek | src/processors/weeklyOrderProcessor.js:32-35 | one step moves the base date on by seven days and recomputes the weekdays from it |
| WeeklyRun.AsWrittenNeverDrafts | src/processors/weeklyOrderProcessor.js:71-81 | with `config.bentoMailAddress`, which the settings never carry, no run creates a draft; every run with orders and settings stops at the address check |
| WeeklyRun.CorrectedDraftsWhenReady | src/processors/weeklyOrderProcessor.js:58-99 | with the caterer's address taken from `lunchProviderEmail`, a draft is made iff there are orders, settings with an address, at least one exported file and a successful draft call |
| WeeklyRun.ProcessWeeklyOrdersAndCreateDraft | src/processors/weeklyOrderProcessor.js:9-126 | no menu in four weeks: nothing changes; otherwise the cards are written only when the run gets past the sent-mail check, and the snapshot is saved only after a draft was created, with the second ledger read's orders; the caterer's address is the settings' `lunchProviderEmail` (`WeeklyRun.LunchProviderAddress`), the corrected reading of the Findings below |
| WeeklyRun.ProcessWeek | src/processors/weeklyOrderProcessor.js:45-122 | the outcome, cards, settings cache and snapshot sheet after the run for a found week, as above, with the address read from `lunchProviderEmail` |
| WeeklyRun.CreateDraft | src/processors/weeklyOrderProcessor.js:70-122 | settings, the `lunchProviderEmail` address, export and draft are checked in that order; the cards are left as they are; the snapshot is replaced only on a draft with orders, and a snapshot step never changes the draft outcome |
| DataFetcher.OrdersOnDateMembers | src/utils/dataFetcher.js:75-92 | the records for one date are exactly those built from rows whose date formats to it and whose name and size are non-empty |
| DataFetcher.OrdersForDatesMembers | src/utils/dataFetcher.js:75-92 | the output holds exactly the records of rows dated on some target with a name and a size; each has a target date and a non-zero count |
| DataFetcher.OrdersForDatesOrdered | src/utils/dataFetcher.js:75-76 | records are grouped by target date in target order |
| DataFetcher.OrdersOnDateDates | src/utils/dataFetcher.js:78-85 | every record read for a date carries that date |
| DataFetcher.OrdersForDatesDates | src/utils/dataFetcher.js:75-85 | every record read for the week carries one of the target dates |
| DataFetcher.GetLunchOrdersForNextWeek | src/utils/dataFetcher.js:55-111 | a failed read gives []; otherwise the nested loops return the filtered records above |
| DataFetcher.EmptySheetGivesNothing | src/utils/dataFetcher.js:63-72 | a sheet without data rows gives [] |
| DataFetcher.MenuOnMeans | src/utils/dataFetcher.js:33-38 | the inner `some` holds iff some menu row's date formats to the target |
| DataFetcher.AnyMenuOnMeans | src/utils/dataFetcher.js:33-40 | the outer `some` holds iff some target matches some menu row |
| DataFetcher.HasMenuForRange | src/utils/dataFetcher.js:11-47 | true iff some target equals the formatted date of some menu row; false on a failed read or an empty sheet |
| SnapshotService.FormatDateToString | src/services/snapshotService.js:224-234 | text is returned unchanged, a Date is written so that it parses back to the same day, anything else gives '' |
| SnapshotService.DateOrTextReadsTheSame | src/services/snapshotService.js:224-234 | a stored date reads the same whether the sheet kept it as text or turned it into a Date |
| SnapshotService.PeriodKeyOfDates | src/services/snapshotService.js:60-73 | the key is the start date with '.' for '/', a '-', and the end month and day; the end year is dropped |
| SnapshotService.PeriodKeyIgnoresEndYear | src/services/snapshotService.js:60-73 | periods differing only in the end year share a key |
| SnapshotService.WithoutKeyMembers | src/services/snapshotService.js:187-208 | the rows kept are exactly the rows whose key differs |
| SnapshotService.DeleteBottomUp | src/services/snapshotService.js:197-207 | deleting the collected row numbers from the bottom up removes exactly the matching rows and keeps the others in order |
| SnapshotService.Stored | src/services/snapshotService.js:100-111 | a saved order reads back as its date, name and normalised size, without a count |
| SnapshotService.LoadedWithoutKey | src/services/snapshotService.js:148-156 | nothing loads for a key once its rows are deleted |
| SnapshotService.LoadedSnapshotRows | src/services/snapshotService.js:100-156 | the rows written for a list load back as the stored form of that list |
| SnapshotService.LoadAfterSave | src/services/snapshotService.js:80-170 | after a non-empty save the key loads exactly the new orders (normalised size, no count), whatever it held before; an empty save leaves every row as it was |
| SnapshotService.SaveSaveLoad | src/services/snapshotService.js:80-170 | saving A then B under one key and loading gives B's records with nothing of A |
| SnapshotService.SaveKeepsOtherKeys | src/services/snapshotService.js:93-117 | a save leaves what every other key loads unchanged |
| SnapshotService.LoadedDropsKey | src/services/snapshotService.js:187-208 | deleting one key's rows leaves what every other key loads unchanged |
| SnapshotService.LoadedNonEmpty | src/services/snapshotService.js:148-161 | a key loads something iff some row carries it |
| SnapshotService.HasSnapshotIff | src/services/snapshotService.js:177-180 | `hasSnapshot` holds iff some row carries the key |
| SnapshotService.SnapshotSheet.constructor | src/services/snapshotService.js:10-52 | a sheet with the given presence and rows |
| SnapshotService.SnapshotSheet.GetOrCreate | src/services/snapshotService.js:10-52 | afterwards the sheet exists and its data rows are unchanged (a new sheet has only its header) |
| SnapshotService.SnapshotSheet.DeleteSnapshotRows | src/services/snapshotService.js:187-217 | the data rows become those whose key differs, in their order |
| SnapshotService.SnapshotSheet.SaveOrderSnapshot | src/services/snapshotService.js:80-124 | an empty list changes nothing; otherwise the key's rows are deleted and the new rows appended after all remaining rows |
| SnapshotService.SnapshotSheet.LoadOrderSnapshot | src/services/snapshotService.js:131-170 | the rows are unchanged and the result is null without a match, else the key's records in sheet order without a count |
| SnapshotService.SnapshotSheet.HasSnapshot | src/services/snapshotService.js:177-180 | true iff some row carries the key; the rows are unchanged |
| OrderChangeDetector.KeyWithCountExtendsKey | src/processors/orderChangeDetector.js:242-244 | the key with count is the plain key, an '_' and the count defaulted to 1 |
| OrderChangeDetector.KeyWithCountDetermines | src/processors/orderChangeDetector.js:242-244 | equal keys with count mean equal plain keys and equal counts (each defaulted to 1) |
| OrderChangeDetector.KeyedRecordsShape | src/processors/orderChangeDetector.js:146-167 | the map built from a list has each key once, exactly the list's keys, and each entry is a normalised record of the list under its own key |
| OrderChangeDetector.DiffKeys | src/processors/orderChangeDetector.js:170-195 | the changes collected from one map stand for exactly its keys that the other map lacks |
| OrderChangeDetector.DiffType | src/processors/orderChangeDetector.js:170-195 | every collected change carries the requested type |
| OrderChangeDetector.DiffDistinct | src/processors/orderChangeDetector.js:170-195 | no two collected changes stand for the same key |
| OrderChangeDetector.DiffFrom | src/processors/orderChangeDetector.js:170-195 | every collected change is built from an entry of its own map |
| OrderChangeDetector.QtyKeyInjective | src/processors/orderChangeDetector.js:198-223 | the (date, size) key gives back its date and its two-character size |
| OrderChangeDetector.AddedAndCancelledAreKeyDifferences | src/processors/orderChangeDetector.js:137-195 | `added` stands for exactly the keys of current records that no previous record has, `cancelled` for the reverse; no key twice and none in both |
| OrderChangeDetector.ChangesComeFromRecords | src/processors/orderChangeDetector.js:170-195 | every added entry is a normalised current record and every cancelled entry a normalised previous record |
| OrderChangeDetector.SameKeysNoChanges | src/processors/orderChangeDetector.js:137-195 | lists with the same keys give nothing added and nothing cancelled |
| OrderChangeDetector.HasChangesIff | src/processors/orderChangeDetector.js:462-464 | changes are reported iff the two lists' key sets differ; quantity changes alone do not count |
| OrderChangeDetector.CountChangeIsCancelPlusAdd | src/processors/orderChangeDetector.js:170-195 | changing only the count of a record gives one cancellation and one addition |
| OrderChangeDetector.OwnSnapshotShowsCountsOtherThanOne | src/processors/orderChangeDetector.js:149 | since snapshots keep no count, orders compared with their own snapshot show a change iff some order's count, defaulted to 1, is not 1 |
| OrderChangeDetector.QuantityChangesMeaning | src/processors/orderChangeDetector.js:198-223 | one entry per (date, normalised size) whose summed the count defaulted to 1 differs between the lists, duplicates counted, holding both sums; no (date, size) twice |
| OrderChangeDetector.BuildKeyedMap | src/processors/orderChangeDetector.js:146-167 | the loop builds the keyed map above |
| OrderChangeDetector.CollectMissing | src/processors/orderChangeDetector.js:170-195 | the loop collects the entries whose key the other map lacks, in map order |
| OrderChangeDetector.CountInto | src/processors/orderChangeDetector.js:200-218 | the loop adds each record's count to its (date, size) entry |
| OrderChangeDetector.KeepChanged | src/processors/orderChangeDetector.js:221-223 | the loop keeps exactly the entries whose before and after differ, in order |
| OrderChangeDetector.CompareOrderSnapshots | src/processors/orderChangeDetector.js:137-234 | the method returns the added, cancelled and quantity changes described above |
| OrderChangeDetector.DetectChangesForWeek | src/processors/orderChangeDetector.js:77-129 | nothing is reported and nothing stored before the order mail is sent; a first run stores the current orders and reports nothing; later a key change is reported over weekdays[0]..last and the snapshot replaced, and no change leaves the sheet as it was |
| GmailSearch.SubjectTerms | src/services/gmailSearchService.js:52 | each keyword becomes "subject:" and the keyword, in order |
| GmailSearch.MonthDayOfFormatted | src/services/gmailSearchService.js:44-48 | month and day come from parseInt, so leading zeros are dropped and the year is not used |
| GmailSearch.MonthDayIgnoresYear | src/services/gmailSearchService.js:44-48 | dates on the same month and day give the same "M/D" whatever their years |
| GmailSearch.QueryOfPeriod | src/services/gmailSearchService.js:42-56 | the query is "in:sent subject:M/D subject:M/D subject:弁当 subject:お弁当 newer_than:30d" |
| GmailSearch.HasOrderEmailBeenSent | src/services/gmailSearchService.js:12-34 | sent iff the search found at least one thread; a search error counts as not sent |
| GmailDraft.GenerateEmailSubject | src/services/gmailDraftCreator.js:57-68 | the subject always ends with "のお弁当について" |
| GmailDraft.SubjectOfPeriod | src/services/gmailDraftCreator.js:57-68 | for two dates the subject is "M/DD~M/DD" with the month unpadded and the day always two digits, so it agrees with the search's unpadded day only from the 10th |
| GmailDraft.ExtractNameFromEmail | src/services/gmailDraftCreator.js:109-113 | the text before the first '@', or the whole address when there is no '@' or nothing precedes it |
| GmailDraft.IsAllPreviousValuesZero | src/services/gmailDraftCreator.js:246-262 | true iff no entry of any month and date has a previous count above zero; true on {} |
| GmailDraft.PutAllMeaning | src/services/gmailDraftCreator.js:275-280 | after the merge a date holds the entry of the last month that has it, and the merged dates are exactly the months' dates |
| GmailDraft.MergedSnoc | src/services/gmailDraftCreator.js:275-280 | a later month's entry for a date replaces the one merged before |
| GmailDraft.MergedKeys | src/services/gmailDraftCreator.js:275-280 | a date is in the merge iff some month has it |
| GmailDraft.MergedDistinct | src/services/gmailDraftCreator.js:275-280 | the merged object has no date twice |
| GmailDraft.DateLabelOfFormatted | src/services/gmailDraftCreator.js:291-295 | the label of a date is its unpadded month and day and its weekday name |
| GmailDraft.SizeLines | src/services/gmailDraftCreator.js:299-302 | one line per size entry of a date, in key order |
| GmailDraft.EntryHasLine | src/services/gmailDraftCreator.js:288-303 | every (date, size) entry of the listed dates has its line |
| GmailDraft.LineHasEntry | src/services/gmailDraftCreator.js:288-303 | every line is the line of some (date, size) entry |
| GmailDraft.SortedDates | src/services/gmailDraftCreator.js:288 | the merged dates, each once, in ascending string order |
| GmailDraft.ChangeText | src/services/gmailDraftCreator.js:283-285 | the text is '' when every previous count is zero |
| GmailDraft.FormatOrderChanges | src/services/gmailDraftCreator.js:269-306 | the method returns the change text: '' for a first order, otherwise the entries' lines, dates ascending, joined by newlines |
| GmailDraft.MergeAllDates | src/services/gmailDraftCreator.js:274-280 | the loop builds the merged object |
| GmailDraft.ChangeLines | src/services/gmailDraftCreator.js:290-303 | the loop gives the lines of the dates in order |
| GmailDraft.DateLines | src/services/gmailDraftCreator.js:299-302 | the inner loop gives one date's lines |
| GmailDraft.BodyLines | src/services/gmailDraftCreator.js:77-102 | nine lines with change text, six without; the closing line is always last |
| GmailDraft.ChangeBlockIffText | src/services/gmailDraftCreator.js:92-97 | the 【数量変更】 heading appears iff there is change text, and the text then follows it |
| GmailDraft.BodyWithoutChanges | src/services/gmailDraftCreator.js:81-101 | without change text the body is greeting, sender, blank, main text, blank, closing |
| MessageFormatter.DetailsOn | src/utils/messageFormatter.js:17-24 | a date's pairs are at most the orders |
| MessageFormatter.GroupedMeaning | src/utils/messageFormatter.js:17-24 | a date has a group iff it has an order, and its group is its "name size" pairs in input order |
| MessageFormatter.SortedDates | src/utils/messageFormatter.js:29 | the orders' dates, each once, in ascending order |
| MessageFormatter.GroupKeys | src/utils/messageFormatter.js:17-24 | the groups' keys are distinct and are exactly the orders' dates |
| MessageFormatter.SlackMessage | src/utils/messageFormatter.js:11-38 | no orders or null gives the fixed header and "no orders" line; every message starts with the header |
| MessageFormatter.FormatLunchOrdersForSlack | src/utils/messageFormatter.js:11-38 | the method returns the message above |
| MessageFormatter.AppendDateLines | src/utils/messageFormatter.js:29-35 | the loop appends one line per date, in order, to the header |
| MessageFormatter.EveryOrderListedOnce | src/utils/messageFormatter.js:26-35 | over distinct dates covering the orders, the lines hold exactly as many pairs as there are orders and each order's pair is on its own date's line |
| MessageFormatter.PairCountSnoc | src/utils/messageFormatter.js:17-24 | one more order adds one pair, on its date's line |
| MessageFormatter.MessageListsEveryOrder | src/utils/messageFormatter.js:26-35 | the message's date lines hold as many pairs as there are orders |
| InvoiceService.SizeTotalsPartition | src/services/invoiceService.js:103-109 | each counted row adds to exactly one size, so the three sizes add up to the month's total |
| InvoiceService.MonthTotalAppend | src/services/invoiceService.js:87-107 | the total over two row lists is the sum of their totals |
| InvoiceService.MonthTotalAtLeastRows | src/services/invoiceService.js:101 | each of the month's rows adds at least 1, so the total is at least their number |
| InvoiceService.UnitPriceTiers | src/services/invoiceService.js:111-119 | 8 and 9, 13 and 14 fall in different tiers, 0 costs 0, and one tier keeps one price |
| InvoiceService.HistorySummaryMeaning | src/services/invoiceService.js:47-136 | a summary exists iff the settings and the sheet exist and no date fails; the total is the sum of the sizes and the amount the total times the tier price; no data rows give the all-zero summary |
| InvoiceService.AggregateOrderHistory | src/services/invoiceService.js:87-130 | the counting loop gives the summary above |
| InvoiceService.CompareInvoiceAndSystemData | src/services/invoiceService.js:144-161 | a count line iff the totals differ, an amount line iff the amounts differ, count first; a match iff there is no line |
| InvoiceService.DiffLinesDiffer | src/services/invoiceService.js:147-153 | the count line and the amount line never coincide |
| InvoiceService.ReconcileAndProcessInvoice | src/services/invoiceService.js:10-40 | no action when the month cannot be summed; otherwise the approval draft iff count and amount match, else the Slack alert carrying exactly the one or two differences the comparison of the invoice with the month's summary lists |
| ConfigService.LoadAndBuildFullConfig | src/utils/configService.js:48-136 | a config exists iff the spreadsheet id and the 情報 sheet exist and the six required settings are non-empty; the model name defaults to 'gemini-pro-vision'; the other fields are copied |
| ConfigService.ConfigCache.constructor | src/utils/configService.js:13-21 | the cache starts empty |
| ConfigService.ConfigCache.GetConfig | src/utils/configService.js:13-21 | a cached config is returned without building; otherwise the builder runs and its result is cached, a null result included |
| ConfigService.ConfigCache.RefreshConfig | src/utils/configService.js:28-39 | the cache is dropped and the config is built afresh |
| ConfigService.CachedConfigIsStable | src/utils/configService.js:13-21 | once a config is produced, a later call returns it whatever the sheet holds; a null result is rebuilt on the next call |
| FileNames.DigitRunAt | src/utils/fileNameUtils.js:27 | the greedy two-to-four-digit group before "pdf" at one position settles on 2 to 4 digits followed by "pdf" or "PDF", and fails iff none of the three lengths fits |
| FileNames.FirstDigitRun | src/utils/fileNameUtils.js:27 | the first match is the leftmost position where that expression matches |
| FileNames.DotForPdfAfterDigits | src/utils/fileNameUtils.js:27 | step A leaves a name without a match unchanged; at the first match it keeps the digits, puts one '.' in place of the three letters "pdf" and keeps the rest |
| FileNames.NoDigitRun | src/utils/fileNameUtils.js:27 | step A finds no match in a name where no "p"/"P" follows two digits |
| FileNames.KeepAllowedMeaning | src/utils/fileNameUtils.js:30 | step B keeps exactly the `[a-zA-Z0-9.]` characters, each as often as before, and leaves a clean name unchanged |
| FileNames.PdfExtensionNormalized | src/utils/fileNameUtils.js:33 | step C turns a final ".pdf" or ".pdf.pdf" of any case into one ".pdf" and leaves other names unchanged |
| FileNames.NormalizeSteps | src/utils/fileNameUtils.js:26-33 | after the three steps only `[A-Za-z0-9.]` is left |
| FileNames.NormalizeFileName | src/utils/fileNameUtils.js:19-34 | an empty name gives ''; the result holds only `[A-Za-z0-9.]` |
| FileNames.NoteRemoved | src/utils/fileNameUtils.js:11-12 | the doc comment's example '2024.9[更新済み].pdf' → '2024.9.pdf', for every head of digits and dots and every note of characters outside `[a-zA-Z0-9.]` |
| FileNames.NoteDropped | src/utils/fileNameUtils.js:29-30 | step B removes a run of disallowed characters and keeps what surrounds it |
| FileNames.DoubledExtensionFolded | src/utils/fileNameUtils.js:13-14 | the doc comment's example '24.pdf.pdf' → '24.pdf', for every head of digits and dots |
| FileNames.DigitsPdfGivesTwoDotsAsWritten | src/utils/fileNameUtils.js:26-33 | as written, two digits followed by "pdf.pdf" come out as the digits and "..pdf" ('24pdf.pdf' → '24..pdf'), not as the doc comment's '24.pdf' |
| FileNames.OneDigitPdfUnchangedAsWritten | src/utils/fileNameUtils.js:26-33 | as written, a name like '2024.2pdf.pdf', one digit after the '.' before "pdf.pdf", comes out unchanged, not as the doc comment's '2024.2.pdf' |
| FileNames.NormalizeFileNameIntended | src/utils/fileNameUtils.js:9-10 | with step A as the doc comment describes it, an empty name gives '' and the result holds only `[A-Za-z0-9.]` |
| FileNames.IntendedDropsPdfBeforeExtension | src/utils/fileNameUtils.js:9-10 | with the intended step A, a head of digits and dots ending in a digit followed by "pdf.pdf" gives the head and ".pdf": '24pdf.pdf' → '24.pdf' and '2024.2pdf.pdf' → '2024.2.pdf' |
| FileNames.IntendedFoldsDoubledExtension | src/utils/fileNameUtils.js:13-14 | the intended step A keeps the example '24.pdf.pdf' → '24.pdf' |
| FileNames.FirstYearMonth | src/utils/fileNameUtils.js:47 | the first position holding "DDDD.DD", or none when there is none |
| FileNames.ExtractYearMonthFromFileName | src/utils/fileNameUtils.js:42-56 | null iff the name has no "DDDD.DD"; otherwise the four and two digits of the first occurrence |
| FileNames.HasTwoDigitsDotFrom | src/utils/constants.js:84 | two digits followed by '.' occur from the given position on |
| FileNames.IsMenuPdfPattern | src/utils/fileNameUtils.js:64-71 | true iff the name starts with four digits or holds two digits followed by '.'; false for '' |
| FileNames.YearMonthNameIsMenuPattern | src/utils/fileNameUtils.js:64-71 | every name holding "YYYY.MM" fits the menu pattern |
| FileNames.GetFileNameWithoutExtension | src/utils/fileNameUtils.js:79-90 | the text before the last '.', or the whole name when it has no '.' |
| FileNames.AddProcessedSuffix | src/utils/fileNameUtils.js:99-105 | a final ".pdf" of any case becomes the suffix and ".pdf"; other names are unchanged |
| FileNames.HasProcessedSuffix | src/utils/fileNameUtils.js:114-120 | true iff the name is non-empty and contains the suffix |
| FileNames.MarkedNameIsRecognised | src/utils/fileNameUtils.js:99-120 | a marked name is always recognised as marked |
| AttachmentHandler.Folder.constructor | src/processors/gmailAttachmentHandler.js:211-235 | a folder holding the given files |
| AttachmentHandler.Folder.HasFileNamed | src/processors/gmailAttachmentHandler.js:220-222 | true iff some file has the name |
| AttachmentHandler.Folder.CreateIfAbsent | src/processors/gmailAttachmentHandler.js:220-233 | the file is appended iff no file has its name, and the answer says whether it was |
| AttachmentHandler.IsTargetAttachment | src/processors/gmailAttachmentHandler.js:161-170 | Excel always; a PDF iff the body of its normalised name fits the menu pattern; any other type never |
| AttachmentHandler.NextMonth | src/processors/gmailAttachmentHandler.js:183-185 | the month after the received one, December rolling over to January of the next year |
| AttachmentHandler.GetAttachmentDestination | src/processors/gmailAttachmentHandler.js:179-201 | a destination exists iff the type is PDF or Excel |
| AttachmentHandler.DestinationNames | src/processors/gmailAttachmentHandler.js:179-201 | a PDF goes to the menu folder as "YYYY.MM.pdf" and Excel to the order-card folder as "オーダーカードYYYY.MM", the name the card lookup builds for that month |
| AttachmentHandler.MenuNameReadsBack | src/processors/gmailAttachmentHandler.js:192 | the menu file name reads back as its year and month |
| AttachmentHandler.SaveFileToDrive | src/processors/gmailAttachmentHandler.js:211-304 | nothing is created when the name exists; otherwise Excel is stored as a spreadsheet with the company name in J3 and anything else as it is |
| AttachmentHandler.SaveAttachment | src/processors/gmailAttachmentHandler.js:122-153 | a missing attachment is ignored; a target is saved under its destination name in its own folder unless the name exists there; when both folder settings name one folder, that folder gets the one file either destination would add |
| AttachmentHandler.SavingTwiceCreatesOnce | src/processors/gmailAttachmentHandler.js:220-259 | handling the same attachment again leaves the folders as the first time did |
| AttachmentHandler.NullAttachmentIgnored | src/processors/gmailAttachmentHandler.js:125-128 | a missing attachment changes no folder |
| PdfMenuProcessor.DayOf | src/processors/pdfMenuProcessor.js:163 | the day is the third '/' part when non-empty, else the third '-' part |
| PdfMenuProcessor.MapThenFilter | src/processors/pdfMenuProcessor.js:161-170 | the pass throws iff some item cannot be mapped; otherwise every kept row is a mapped item and there are at most as many rows as items |
| PdfMenuProcessor.MapThenFilterIsFilterOfMap | src/processors/pdfMenuProcessor.js:161-170 | when every item can be mapped, the single pass yields exactly `items.map(toRow).filter(keep)`: the kept mapped items, in order |
| PdfMenuProcessor.MapThenFilterKeepsAll | src/processors/pdfMenuProcessor.js:161-170 | when every row is kept the rows are the mapped items, in order |
| PdfMenuProcessor.TransformMenuData | src/processors/pdfMenuProcessor.js:160-171 | fails iff some item has no day; otherwise at most one row per item, each carrying the store name, an item's menu and a day |
| PdfMenuProcessor.FirstPartEmpty | src/processors/pdfMenuProcessor.js:163 | the first split part is empty iff the text is empty or starts with the separator |
| PdfMenuProcessor.RowKeptUnlessDayStartsWithDash | src/processors/pdfMenuProcessor.js:165-170 | with digit year and month a row is dropped iff its padded day starts with '-' |
| PdfMenuProcessor.TransformKeepsEveryItem | src/processors/pdfMenuProcessor.js:160-171 | when no day starts with '-' every item becomes its "{year}-{month}-{DD}" row, in order |
| PdfMenuProcessor.ProcessSingle | src/processors/pdfMenuProcessor.js:86-141 | one file with the undated-name guard working as intended: only a success renames the file, to its marked name; a skip or a throw keeps the name |
| PdfMenuProcessor.ProcessSingleAsWritten | src/processors/pdfMenuProcessor.js:86-141 | the code as written: a throw writes nothing, and the file is renamed to its marked name exactly on success |
| PdfMenuProcessor.UndatedNameThrowsAsWritten | src/processors/pdfMenuProcessor.js:97-101 | an unmarked name without "YYYY.MM" throws as written, while the guard meant it to be skipped |
| PdfMenuProcessor.MenuPdfIsUndated | src/processors/pdfMenuProcessor.js:97-101 | "menu.pdf" is unmarked and has no "YYYY.MM" |
| PdfMenuProcessor.SkipRules | src/processors/pdfMenuProcessor.js:90-101 | a marked or undated file is skipped: nothing written, no rename |
| PdfMenuProcessor.WrittenRowsAndRename | src/processors/pdfMenuProcessor.js:103-140 | the rows written are the non-empty transformed rows in date order; the file is renamed with the suffix iff the write succeeded |
| PdfMenuProcessor.ProcessedOnce | src/processors/pdfMenuProcessor.js:90-93 | a file once processed is skipped by every later run |
| PdfMenuProcessor.MenuFolder.constructor | src/processors/pdfMenuProcessor.js:64-69 | a folder holding the given files |
| PdfMenuProcessor.MenuFolder.PdfFiles | src/processors/pdfMenuProcessor.js:65-69 | the loop collects the PDF files in folder order |
| PdfMenuProcessor.MenuFolder.Rename | src/processors/pdfMenuProcessor.js:178-183 | exactly the one file takes the new name |
| PdfMenuProcessor.PdfIndices | src/processors/pdfMenuProcessor.js:65-69 | exactly the PDF files, each once, in folder order |
| PdfMenuProcessor.GetSortedPdfFiles | src/processors/pdfMenuProcessor.js:64-78 | the PDF files, each once, in ascending name order |
| PdfMenuProcessor.RunBatch | src/processors/pdfMenuProcessor.js:17-22 | for any per-file step, the count is at most the number of files handled and the folder keeps its size |
| PdfMenuProcessor.ProcessPdfMenuFiles | src/processors/pdfMenuProcessor.js:8-32 | no store name: nothing happens; otherwise the files are handled in name order and the count is the number of successes |
| PdfMenuProcessor.AbortedStaysAborted | src/processors/pdfMenuProcessor.js:18-31 | once an exception ends the loop, the remaining files change nothing |
| PdfMenuProcessor.AsWrittenUndatedEndsBatch | src/processors/pdfMenuProcessor.js:17-31 | as written, an unmarked undated file at position k of the batch ends it: the folder and the count stay as after the first k files |
| PdfMenuProcessor.BatchOnlyMarks | src/processors/pdfMenuProcessor.js:17-22 | for a step that only ever marks a name, each file keeps its type and ends under its own name or its marked name; files outside the order are untouched |
| Results.SuccessOf | src/utils/result.js:16-22 | a success, never a failure, carrying the data |
| Results.FailureOf | src/utils/result.js:30-37 | a failure, never a success, whose error is an Error's message or the value's text |
| Results.SuccessXorFailure | src/utils/result.js:44-55 | no result is both, every present result is one, a missing one is neither |
| Results.GetData | src/utils/result.js:63-68 | the data of a success, else the default |
| Results.GetError | src/utils/result.js:75-80 | the error of a failure, else null |
| Results.CombineResults | src/utils/result.js:90-108 | the loop collects the failures' errors and all present data in order; success iff every result succeeded |
| Results.NoErrorsIffAllSucceed | src/utils/result.js:103-105 | no error is collected iff every result succeeded |
| Results.ErrorsAppend | src/utils/result.js:94-97 | errors keep the input order across batches |
| Results.DataListAppend | src/utils/result.js:98-100 | data keep the input order across batches, failures included |
| Results.CombinedSizes | src/utils/result.js:90-108 | one error per failure and at most one datum per result |
| Results.BooleanToResult | src/utils/result.js:118-124 | true is a success with the data, false a failure with the message |
| Results.ResultToBoolean | src/utils/result.js:132-134 | true iff the result is a success |
| Results.BooleanRoundTrip | src/utils/result.js:118-134 | a boolean survives the trip through a result |
| Logging.NoneSilencesDebugPassesAll | src/utils/logger.js:8-14 | NONE silences every severity and DEBUG lets every severity through |
| Logging.EmitsMonotone | src/utils/logger.js:50-87 | lowering the level never hides a shown message, and a graver message is shown whenever a milder one is |
| Logging.PrefixPart | src/utils/logger.js:96-105 | "[prefix] " when there is a prefix, nothing otherwise |
| Logging.LogLineParts | src/utils/logger.js:96-105 | a line reads back its timestamp, label, prefix part and message |
| Logging.ChildPrefix | src/utils/logger.js:112-115 | "parent:child", or just "child" under an unprefixed parent |
| Logging.GrandchildPrefix | src/utils/logger.js:112-115 | a grandchild of the unprefixed logger carries both names joined by ':' |
| Logging.Console.constructor | src/utils/logger.js:96-105 | the console starts with no lines |
| Logging.Logger.constructor | src/utils/logger.js:24-27 | a logger with the given level and prefix |
| Logging.Logger.SetLevel | src/utils/logger.js:33-35 | the level becomes the given one, the prefix stays |
| Logging.Logger.GetLevel | src/utils/logger.js:41-43 | returns the current level, so it reads back what was set |
| Logging.Logger.Log | src/utils/logger.js:50-105 | one line is written iff the level lets the severity through |
| Logging.Logger.Child | src/utils/logger.js:112-115 | a new logger on the same console with the parent's current level and the joined prefix |
| Logging.GlobalLogger.constructor | src/utils/logger.js:127-135 | no global logger yet |
| Logging.GlobalLogger.GetLogger | src/utils/logger.js:127-135 | the same instance on every call, created at INFO without a prefix on the first |
| Logging.GlobalLogger.SetGlobalLogLevel | src/utils/logger.js:141-144 | the global logger exists afterwards, keeps its identity and has the given level |
| Logging.GlobalLogger.GetContextLogger | src/utils/logger.js:151-154 | a new child of the global logger named after the context, at its level; an existing global logger is kept, and a first call creates it at INFO |
| LegacyOrderCard.LegacyIgnoresCounts | src/processors/orderCardWriter.js:121-141 | the legacy table is the newer aggregation of the same orders with every count taken as 1 |
| LegacyOrderCard.UncountedSums | src/processors/orderCardWriter.js:137 | with counts dropped, a bucket's sum is the number of its orders |
| LegacyOrderCard.LegacyAggregateMeaning | src/processors/orderCardWriter.js:121-141 | the keys are exactly the orders' dates and bucket (d, s) is the number of orders dated d whose size normalises to s |
| LegacyOrderCard.LegacyAggregateOrdersByDateAndSize | src/processors/orderCardWriter.js:121-141 | the loop builds the legacy table |
| LegacyOrderCard.LegacyWeekRows | src/processors/orderCardWriter.js:157-167 | the week is ceil(day/7), between 1 and 5, and its block starts at row 8 + (week-1)*5 |
| LegacyOrderCard.LegacyOnlySetsPositiveCounts | src/processors/orderCardWriter.js:172-205 | a cell is either untouched or replaced by a positive count in a size row of the week's block and a weekday column D, F, H, J or L; nothing is cleared |
| LegacyOrderCard.LegacyNoOrdersKeepsCard | src/processors/orderCardWriter.js:175-178 | with no orders for any date the card stays exactly as it was, stale counts included |
| LegacyOrderCard.LegacyWriteAggregatedOrdersToSpreadsheet | src/processors/orderCardWriter.js:149-212 | the card becomes the card after the date-by-date sets, the writing ending at the first set that throws |
| LegacyOrderCard.WriteDate | src/processors/orderCardWriter.js:173-204 | one date's sets are applied, or the step reports a throw and changes nothing |
| LegacyOrderCard.LegacyStoppedStays | src/processors/orderCardWriter.js:172-211 | once a set has thrown, the remaining dates change nothing |
| LegacyDataFetcher.LegacyGetLunchOrdersForNextWeek | src/dataFetcher.js:18-68 | a failed read gives []; otherwise the newer reader's records, target by target in row order, without a count |
| LegacyDataFetcher.LegacyOrdersOnDate | src/dataFetcher.js:43-60 | the inner loop gives one date's records without a count |
| LegacyDataFetcher.LegacyRecordsCountOnce | src/dataFetcher.js:52-56 | the legacy records carry no count, so the order card counts each as one meal |
| LegacyAttachmentHandler.LegacyBody | src/gmailAttachmentHandler.js:150 | a name without '.' has an empty body; otherwise the text before the last '.' |
| LegacyAttachmentHandler.LegacyIsTargetAttachment | src/gmailAttachmentHandler.js:146-157 | Excel always; a PDF iff that body fits the menu pattern; anything else never |
| LegacyAttachmentHandler.TargetsAgreeUnlessDotless | src/gmailAttachmentHandler.js:146-157 | both handlers keep the same attachments except a PDF whose normalised name has no '.', which the legacy one drops |
| LegacyAttachmentHandler.SliceLast2 | src/gmailAttachmentHandler.js:172 | the last two characters of a text of two or more |
| LegacyAttachmentHandler.LegacyMonthTextIsPad2 | src/gmailAttachmentHandler.js:170-172 | for a month 1..12 the legacy padding gives the same two digits as padStart |
| LegacyAttachmentHandler.LegacyGetAttachmentDestination | src/gmailAttachmentHandler.js:166-191 | a destination exists iff the type is PDF or Excel |
| LegacyAttachmentHandler.LegacyDestinationVersusCurrent | src/gmailAttachmentHandler.js:178-189 | a PDF goes to the same place under both handlers; an Excel card keeps ".xlsx" or ".xls" after the newer name, so the names never coincide |
| LegacyAttachmentHandler.LegacySaveFileToDrive | src/gmailAttachmentHandler.js:200-211 | the attachment is stored as it is unless the name exists |
| LegacyAttachmentHandler.LegacySaveAttachment | src/gmailAttachmentHandler.js:94-119 | a target is normalised without a guard and saved under its destination name unless it exists; one shared folder gets that one file |
| LegacyAttachmentHandler.LegacySavingIsIdempotent | src/gmailAttachmentHandler.js:200-211 | a second pass over the same attachment creates nothing, and a missing attachment changes nothing |
| LegacyPdfMenuProcessor.LegacyRenamed | src/pdfMenuProcessor.js:131 | the name always ends in "_processed.pdf"; equal to the newer rename for ".pdf" names, the whole name plus "_processed.pdf" otherwise |
| LegacyPdfMenuProcessor.LegacyProcessSingle | src/pdfMenuProcessor.js:86-139 | the same skips, rows and write as the newer processor, with the legacy rename on success |
| LegacyPdfMenuProcessor.LegacyRenamedIsMarked | src/pdfMenuProcessor.js:89-92 | every legacy name is recognised as marked |
| LegacyPdfMenuProcessor.LegacyProcessedOnce | src/pdfMenuProcessor.js:86-139 | a file once processed is skipped by every later run, whatever its name |
| LegacyPdfMenuProcessor.RenameRulesDiffer | src/pdfMenuProcessor.js:130-134 | for ".pdf" names the two processors agree; otherwise the newer one keeps the name and the legacy one marks it |

## Left out

- Calls into Google and other services are not modelled as code. Their results are parameters of the operations that use them:
  - Gmail search, thread and draft calls;
  - Drive folder listing, file creation and renaming;
  - the Gemini menu and invoice parsers;
  - Slack posting;
  - the Excel export of order cards.
- The clock, the script time zone, `Utilities.formatDate` and `new Date(...)` parsing are not modelled. The model uses civil dates; `now` and `today` are parameters.
- Dynamic JavaScript types are not modelled:
  - a non-string size;
  - NaN prices;
  - a count given as text.
  Sizes and names are strings. Counts and yen amounts are integers.
- The unlocked read-modify-write of the snapshot sheet by overlapping runs is not modelled, because it is a concurrency concern.
- `getWeekNumberInMonth` is not part of this model. Its result is a parameter, a function from a date to a week number.
- `clearRange`: src/services/spreadsheetService.js does not define it. Whether the call succeeds is a parameter, `clearRangeAvailable`, so the model covers the code as written (false) and the evidently intended service (true); see the Findings.
- `formatToTwoDigits` is not part of this model. The month is padded with `padStart(2, '0')`, as the rest of the handler does.
- `getCurrentWeekdays` is not part of this model. The week's dates are a parameter.
- `formatOrderChangesForSlack`, `createOrderChangeEmailDraft` and `formatOrderAnnouncementForSlack` are not part of this model.
- `detectOrderChangesAndNotify`, `createEmailDraftForChanges` and the Slack notification paths are not modelled, because they only orchestrate service calls.
- `shouldDetectChanges` and `getOrLoadSnapshot` are folded into `OrderChangeDetector.DetectChangesForWeek`:
  - whether the order mail was sent is its `mailSent` parameter;
  - the snapshot load and save happen on its `SnapshotSheet`.
- OrderChangeDetector.DetectChangesForWeek: the call to `updateOrderCard` on a detected change (src/processors/orderChangeDetector.js:117) is not modelled. Only the snapshot and the reported changes are stated.
- OrderChangeDetector.DetectChangesForWeek: a snapshot read or write that throws is not modelled. The sheet always answers.
- WeeklyRun.CreateDraft: the draft is a boolean outcome. The export result is the number of exported files. Nothing is stated about the draft's attachments.
- PdfMenuProcessor.WrittenRowsAndRename: the rows are sorted by their date text rather than by `new Date(date).getTime()`. This is the same order for the zero-padded dates the transform produces, but not for arbitrary text.
- LegacyPdfMenuProcessor.LegacyProcessSingle: the rows are sorted by date text, for the same reason.
- Sorting is modelled on sequences, not in place: `Array.prototype.sort` of menu rows and of file lists, and the Slack date list.
- Logging.Logger.Log: the extra arguments appended to a log line are not modelled. The timestamp is a parameter.
- The legacy `writeOrdersToOrderCard`, `saveGmailAttachmentsToDrive` and `processGmailThreads` are not modelled, because they only orchestrate service calls.
- The legacy `groupDateStringsByMonth` and `getSortedPdfFiles` have the same code as the newer ones and reuse those members.
- PdfMenuProcessor.ProcessPdfMenuFiles: the method runs the corrected per-file step `ProcessSingle`, in which an undated name is skipped. The batch as written is `RunBatch` with `ProcessSingleAsWritten`, and `AsWrittenUndatedEndsBatch` states what it does.
- The legacy `processPdfMenuFiles` batch is the same as the newer one apart from the rename rule, which `LegacyPdfMenuProcessor.LegacyProcessSingle` covers.
- The legacy `normalizeFileName` is the newer one's steps without the empty-name guard, `FileNames.NormalizeSteps`.
- Per-size unit prices are not modelled. The source loads them but never uses them.
- The concrete before/after example of src/debug.js is not modelled. src/debug.js is a script for manual runs.
- The attachment handlers save files under the name `normalizeFileName` produces as written (`FileNames.NormalizeFileName`), not under the intended name of the findings below, because that is the name the source stores.

## Findings

| source | as written | input that shows it | evidently intended | confidence | as-written member | corrected member |
|---|---|---|---|---|---|---|
| src/processors/weeklyOrderProcessor.js:76-81 | the run takes the caterer's address from `config.bentoMailAddress`. `_loadAndBuildFullConfig` never sets that field; it stores the address as `lunchProviderEmail` (src/utils/configService.js:70, 116). So the check always fails, and the run stops before any draft | any week with orders and a loaded configuration: the run ends at the missing-address error | the address read from the settings sheet, `lunchProviderEmail`, so that a draft is created when there are orders, an address, an export and a successful draft call The same read of `bentoMailAddress` recurs in `createEmailDraftForChanges` (src/processors/orderChangeDetector.js:356), which this model leaves out | not executed | WeeklyRun.AsWrittenNeverDrafts | WeeklyRun.CorrectedDraftsWhenReady |
| src/processors/weeklyOrderProcessor.js:331 | `spreadsheetService.clearRange` is called, but src/services/spreadsheetService.js defines no `clearRange`. The call throws, the handler catches it, and the order card is never written | any week with orders for a month whose card exists | the three rows of the week are cleared and then hold the week's totals | not executed | WeeklyOrderCard.AsWrittenCardNeverWritten | WeeklyOrderCard.CorrectedCardHoldsTotals |
| src/utils/fileNameUtils.js:27 | step A puts a '.' in place of "pdf" after two to four digits, and the extension keeps its own '.' | '24pdf.pdf' gives '24..pdf' | '24.pdf', as the doc comment at lines 9-10 says: the "pdf" before the extension goes and one '.' is left | not executed | FileNames.DigitsPdfGivesTwoDotsAsWritten | FileNames.IntendedDropsPdfBeforeExtension |
| src/utils/fileNameUtils.js:27 | step A needs at least two digits just before "pdf" | '2024.2pdf.pdf' comes back unchanged | '2024.2.pdf', as the doc comment at line 10 says | not executed | FileNames.OneDigitPdfUnchangedAsWritten | FileNames.IntendedDropsPdfBeforeExtension |
| src/processors/pdfMenuProcessor.js:97-101 | `const { year, month } = _extractYearMonthFromFile(fileName)` destructures the result before the guard tests it. For a name without "YYYY.MM" that result is `null`, so the destructuring throws. The guard that was meant to skip such a file is never reached, and the throw ends the whole batch | an unmarked file named "menu.pdf" | such a file is logged and skipped, and the batch goes on | not executed | PdfMenuProcessor.AsWrittenUndatedEndsBatch | PdfMenuProcessor.ProcessSingle |
