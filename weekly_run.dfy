/**
 * `processWeeklyOrdersAndCreateDraft` of src/processors/weeklyOrderProcessor.js:
 * find the first of the next four weeks that has a menu, stop when its order
 * mail was already sent, write the week's orders into the order cards, then
 * export the cards, create the mail draft and keep a snapshot of the orders.
 *
 * The current date, the menu and ledger reads, the Gmail search, the Excel
 * export and the draft creation are parameters.
 */
module WeeklyRun {
  import opened Wrappers
  import opened JsObjects
  import opened CivilDates
  import opened Orders
  import opened DataFetcher
  import opened DateUtils
  import opened GmailSearch
  import opened ConfigService
  import opened SnapshotService
  import opened WeeklyOrderProcessor
  import opened OrderCardSheets
  import opened WeeklyOrderCard

  const MAX_WEEKS_AHEAD: nat := 4

  // ---------------------------------------------------------------------
  // Finding the week to order
  // ---------------------------------------------------------------------

  /** The Monday..Friday dates looked at after `w` one-week steps from `today`. */
  function WeekDays(today: ValidDate, w: nat): seq<string>
  {
    NextWeekdays(AddDays(today, 7 * w))
  }

  /** Whether the menu sheet has a row for one of the dates of week `w`. */
  predicate WeekHasMenu(menu: Option<seq<MenuRow>>, today: ValidDate, w: nat)
  {
    HasMenuForRange(menu, WeekDays(today, w))
  }

  /** The menu check of each of the weeks looked at, in order. */
  function MenuWeeks(menu: Option<seq<MenuRow>>, today: ValidDate): seq<bool>
  {
    seq(MAX_WEEKS_AHEAD, w requires 0 <= w => WeekHasMenu(menu, today, w))
  }

  /** The first of the checks from `w` on that passed. */
  function FirstWeekFrom(checks: seq<bool>, w: nat): Option<nat>
    decreases |checks| - w
  {
    if w >= |checks| then None
    else if checks[w] then Some(w)
    else FirstWeekFrom(checks, w + 1)
  }

  /** The week the run orders for: the first of the next four weeks that has a menu. */
  function MenuWeek(menu: Option<seq<MenuRow>>, today: ValidDate): Option<nat>
  {
    FirstWeekFrom(MenuWeeks(menu, today), 0)
  }

  /**
   * The week found is the first from w on whose check passed; none is found
   * exactly when none of them did.
   */
  lemma {:induction false} FirstWeekFromMeaning(checks: seq<bool>, w: nat)
    ensures var r := FirstWeekFrom(checks, w);
      r.Some? ==> w <= r.value < |checks| && checks[r.value] && forall v :: w <= v < r.value ==> !checks[v]
    ensures FirstWeekFrom(checks, w).None? <==> forall v :: w <= v < |checks| ==> !checks[v]
    decreases |checks| - w
  {
    if w < |checks| && !checks[w] {
      FirstWeekFromMeaning(checks, w + 1);
    }
  }

  /** The checks are the weeks' menu checks. */
  lemma MenuWeeksAt(menu: Option<seq<MenuRow>>, today: ValidDate)
    ensures |MenuWeeks(menu, today)| == MAX_WEEKS_AHEAD
    ensures forall v: nat :: v < MAX_WEEKS_AHEAD ==> MenuWeeks(menu, today)[v] == WeekHasMenu(menu, today, v)
  {
  }

  lemma MenuWeekFound(menu: Option<seq<MenuRow>>, today: ValidDate)
    ensures var r := MenuWeek(menu, today);
      r.Some? ==>
        r.value < MAX_WEEKS_AHEAD && WeekHasMenu(menu, today, r.value) && forall v: nat :: v < r.value ==> !WeekHasMenu(menu, today, v)
  {
    FirstWeekFromMeaning(MenuWeeks(menu, today), 0);
    MenuWeeksAt(menu, today);
  }

  lemma MenuWeekAbsent(menu: Option<seq<MenuRow>>, today: ValidDate)
    ensures MenuWeek(menu, today).None? <==> forall v: nat :: v < MAX_WEEKS_AHEAD ==> !WeekHasMenu(menu, today, v)
  {
    FirstWeekFromMeaning(MenuWeeks(menu, today), 0);
    MenuWeeksAt(menu, today);
  }

  /** So the week ordered for is the first of the next four with a menu, and none is found only when none has one. */
  lemma MenuWeekMeaning(menu: Option<seq<MenuRow>>, today: ValidDate)
    ensures var r := MenuWeek(menu, today);
      r.Some? ==>
        r.value < MAX_WEEKS_AHEAD && WeekHasMenu(menu, today, r.value) && forall v: nat :: v < r.value ==> !WeekHasMenu(menu, today, v)
    ensures MenuWeek(menu, today).None? <==> forall v: nat :: v < MAX_WEEKS_AHEAD ==> !WeekHasMenu(menu, today, v)
  {
    MenuWeekFound(menu, today);
    MenuWeekAbsent(menu, today);
  }

  /**
   * The search loop: the base date moves on by seven days per week without a
   * menu, at most `MAX_WEEKS_AHEAD` times.
   */
  method FindMenuWeek(menu: Option<seq<MenuRow>>, today: ValidDate) returns (menuFound: bool, nextWeekdays: seq<string>)
    ensures menuFound <==> MenuWeek(menu, today).Some?
    ensures menuFound ==> nextWeekdays == WeekDays(today, MenuWeek(menu, today).value)
  {
    ghost var checks := MenuWeeks(menu, today);
    MenuWeeksAt(menu, today);
    var targetBaseDate: ValidDate := today;
    nextWeekdays := GetNextWeekdays(targetBaseDate);
    var weeksChecked: nat := 0;
    menuFound := false;
    while weeksChecked < MAX_WEEKS_AHEAD
      invariant weeksChecked <= MAX_WEEKS_AHEAD
      invariant targetBaseDate == AddDays(today, 7 * weeksChecked)
      invariant nextWeekdays == WeekDays(today, weeksChecked)
      invariant MenuWeek(menu, today) == FirstWeekFrom(checks, weeksChecked)
      invariant !menuFound
      decreases MAX_WEEKS_AHEAD - weeksChecked
    {
      assert checks[weeksChecked] == WeekHasMenu(menu, today, weeksChecked);
      if HasMenuForRange(menu, nextWeekdays) {
        menuFound := true;
        break;
      }
      targetBaseDate, nextWeekdays := NextWeek(today, weeksChecked, targetBaseDate);
      weeksChecked := weeksChecked + 1;
    }
  }

  /** `targetBaseDate.setDate(targetBaseDate.getDate() + 7)`, then the new week's dates. */
  method NextWeek(today: ValidDate, weeksChecked: nat, targetBaseDate: ValidDate) returns (nextBase: ValidDate, nextWeekdays: seq<string>)
    requires targetBaseDate == AddDays(today, 7 * weeksChecked)
    ensures nextBase == AddDays(today, 7 * (weeksChecked + 1))
    ensures nextWeekdays == WeekDays(today, weeksChecked + 1)
  {
    AddDaysAdd(today, 7 * weeksChecked, 7);
    nextBase := AddDays(targetBaseDate, 7);
    nextWeekdays := GetNextWeekdays(nextBase);
  }

  // ---------------------------------------------------------------------
  // The outcome of a run
  // ---------------------------------------------------------------------

  /** Where a run ends. */
  datatype Outcome =
    | NoMenu                                 // none of the next four weeks has a menu
    | AlreadySent                            // the order mail of the week is in the sent folder
    | NoOrders                               // nobody ordered for the week
    | NoConfig                               // `getConfig` gave null
    | NoAddress                              // the caterer's address is empty
    | ExportFailed                           // no Excel attachment came back
    | DraftFailed                            // the draft was not created
    | DraftCreated(snapshotSaved: bool)      // the draft exists; whether a snapshot was kept

  /**
   * `config.bentoMailAddress` as written: the settings object has no such
   * property, so it reads as `undefined`, which `!bentoMailAddress` treats
   * like an empty address.
   */
  function BentoMailAddressAsWritten(c: Config): string
  {
    ""
  }

  /** The caterer's address the settings do carry, `lunchProviderEmail`. */
  function LunchProviderAddress(c: Config): string
  {
    c.lunchProviderEmail
  }

  /** Whether the search for the order mail of `days` finds a sent thread. */
  predicate AlreadyMailed(search: string -> Option<nat>, days: seq<string>)
    requires |days| == 5
  {
    HasOrderEmailBeenSent(search(BuildOrderEmailSearchQuery(days[0], days[4])))
  }

  /**
   * Where a run that found its week, with orders or not, ends, in the order
   * the source checks: the settings, the caterer's address (read by
   * `address`), the number of exported files, the draft; the snapshot is
   * kept when the second ledger read still has orders.
   */
  function Decide(hasOrders: bool, config: Option<Config>, address: Config -> string, files: nat, draftMade: bool, ordersAgain: bool)
    : Outcome
  {
    if !hasOrders then NoOrders
    else if config.None? then NoConfig
    else if address(config.value) == "" then NoAddress
    else if files == 0 then ExportFailed
    else if !draftMade then DraftFailed
    else DraftCreated(ordersAgain)
  }

  /**
   * Where the run for the week `days` ends. `exportCards` gives the number of
   * Excel files made from the months' cards, `draftMade` whether the draft
   * was created, `ledgerAgain` is the second ledger read taken for the snapshot.
   */
  function WeekOutcome(days: seq<string>, search: string -> Option<nat>, ledger: Option<seq<LedgerRow>>, cardMonths: set<string>,
                       config: Option<Config>, address: Config -> string, exportCards: seq<string> -> nat, draftMade: bool,
                       ledgerAgain: Option<seq<LedgerRow>>): Outcome
    requires |days| == 5
  {
    if AlreadyMailed(search, days) then AlreadySent
    else Decide(OrdersOf(ledger, days) != [], config, address, exportCards(WithCard(Keys(Grouped(days)), cardMonths)),
                draftMade, OrdersOf(ledgerAgain, days) != [])
  }

  /** Where the whole run ends. */
  function RunOutcome(menu: Option<seq<MenuRow>>, today: ValidDate, search: string -> Option<nat>, ledger: Option<seq<LedgerRow>>,
                      cardMonths: set<string>, config: Option<Config>, address: Config -> string,
                      exportCards: seq<string> -> nat, draftMade: bool, ledgerAgain: Option<seq<LedgerRow>>): Outcome
  {
    match MenuWeek(menu, today)
    case None => NoMenu
    case Some(w) => WeekOutcome(WeekDays(today, w), search, ledger, cardMonths, config, address, exportCards, draftMade, ledgerAgain)
  }

  /** Whether the run got as far as writing the order cards. */
  predicate CardsWritten(o: Outcome)
  {
    !(o.NoMenu? || o.AlreadySent? || o.NoOrders?)
  }

  /**
   * With the address read as written, no draft is ever created: every run
   * with orders and settings stops at the address check.
   */
  lemma AsWrittenNeverDrafts(hasOrders: bool, config: Option<Config>, files: nat, draftMade: bool, ordersAgain: bool)
    ensures var o := Decide(hasOrders, config, BentoMailAddressAsWritten, files, draftMade, ordersAgain);
      !o.DraftCreated? && (hasOrders && config.Some? ==> o == NoAddress)
  {
  }

  /**
   * With the address taken from `lunchProviderEmail`, a draft is created
   * exactly when there are orders, the settings load with an address, the
   * export gives a file and the draft call succeeds.
   */
  lemma CorrectedDraftsWhenReady(hasOrders: bool, config: Option<Config>, files: nat, draftMade: bool, ordersAgain: bool)
    ensures Decide(hasOrders, config, LunchProviderAddress, files, draftMade, ordersAgain).DraftCreated?
      <==> hasOrders && config.Some? && config.value.lunchProviderEmail != "" && files > 0 && draftMade
  {
  }

  /** The settings `getConfig` gives from the cache as it was. */
  function ConfigFrom(cached: Option<Config>, spreadsheetId: string, info: Option<InfoCells>): Option<Config>
  {
    if cached.Some? then cached else LoadAndBuildFullConfig(spreadsheetId, info)
  }

  /**
   * `processWeeklyOrdersAndCreateDraft`, with the caterer's address read from
   * `lunchProviderEmail`. Nothing is written when no week of the next four
   * has a menu.
   */
  method ProcessWeeklyOrdersAndCreateDraft(
    today: ValidDate, menu: Option<seq<MenuRow>>, search: string -> Option<nat>, ledger: Option<seq<LedgerRow>>,
    cards: map<string, OrderCardSheet>, weekNumber: string -> int, clearRangeAvailable: bool,
    cache: ConfigCache, spreadsheetId: string, info: Option<InfoCells>,
    exportCards: seq<string> -> nat, draftMade: bool, ledgerAgain: Option<seq<LedgerRow>>, snapshots: SnapshotSheet, now: int)
    returns (outcome: Outcome)
    requires forall a, b :: a in cards && b in cards && a != b ==> cards[a] != cards[b]
    requires snapshots.Valid()
    modifies cards.Values
    modifies cache, snapshots
    ensures outcome == RunOutcome(menu, today, search, ledger, cards.Keys, ConfigFrom(old(cache.cached), spreadsheetId, info),
                                  LunchProviderAddress, exportCards, draftMade, ledgerAgain)
    ensures snapshots.Valid()
    ensures MenuWeek(menu, today).None? ==>
      outcome == NoMenu && unchanged(cache, snapshots) && forall m :: m in cards ==> cards[m].cells == old(cards[m].cells)
    ensures MenuWeek(menu, today).Some? ==>
      var days := WeekDays(today, MenuWeek(menu, today).value);
      (outcome == DraftCreated(true) ==>
        snapshots.rows == SaveSpec(old(snapshots.rows), GeneratePeriodKey(days[0], days[4]), OrdersOf(ledgerAgain, days), now))
      && (outcome != DraftCreated(true) ==> snapshots.rows == old(snapshots.rows))
      && cache.cached == (if CardsWritten(outcome) then ConfigFrom(old(cache.cached), spreadsheetId, info) else old(cache.cached))
    ensures MenuWeek(menu, today).Some? ==> forall m :: m in cards ==>
      cards[m].cells == if CardsWritten(outcome)
        then CardAfterWeek(old(cards[m].cells), m, WeekDays(today, MenuWeek(menu, today).value), ledger, weekNumber, clearRangeAvailable)
        else old(cards[m].cells)
  {
    var menuFound, nextWeekdays := FindMenuWeek(menu, today);
    if !menuFound {
      return NoMenu;
    }
    outcome := ProcessWeek(nextWeekdays, search, ledger, cards, weekNumber, clearRangeAvailable, cache, spreadsheetId, info,
                           exportCards, draftMade, ledgerAgain, snapshots, now);
  }

  /** The run once the week `nextWeekdays` is found. */
  method ProcessWeek(
    nextWeekdays: seq<string>, search: string -> Option<nat>, ledger: Option<seq<LedgerRow>>,
    cards: map<string, OrderCardSheet>, weekNumber: string -> int, clearRangeAvailable: bool,
    cache: ConfigCache, spreadsheetId: string, info: Option<InfoCells>,
    exportCards: seq<string> -> nat, draftMade: bool, ledgerAgain: Option<seq<LedgerRow>>, snapshots: SnapshotSheet, now: int)
    returns (outcome: Outcome)
    requires |nextWeekdays| == 5
    requires forall a, b :: a in cards && b in cards && a != b ==> cards[a] != cards[b]
    requires snapshots.Valid()
    modifies cards.Values
    modifies cache, snapshots
    ensures outcome == WeekOutcome(nextWeekdays, search, ledger, cards.Keys, ConfigFrom(old(cache.cached), spreadsheetId, info),
                                   LunchProviderAddress, exportCards, draftMade, ledgerAgain)
    ensures snapshots.Valid()
    ensures outcome == DraftCreated(true) ==>
      snapshots.rows == SaveSpec(old(snapshots.rows), GeneratePeriodKey(nextWeekdays[0], nextWeekdays[4]), OrdersOf(ledgerAgain, nextWeekdays), now)
    ensures outcome != DraftCreated(true) ==> snapshots.rows == old(snapshots.rows)
    ensures cache.cached == (if CardsWritten(outcome) then ConfigFrom(old(cache.cached), spreadsheetId, info) else old(cache.cached))
    ensures forall m :: m in cards ==>
      cards[m].cells == if CardsWritten(outcome)
        then CardAfterWeek(old(cards[m].cells), m, nextWeekdays, ledger, weekNumber, clearRangeAvailable)
        else old(cards[m].cells)
  {
    var startDate, endDate := nextWeekdays[0], nextWeekdays[4];
    if HasOrderEmailBeenSent(search(BuildOrderEmailSearchQuery(startDate, endDate))) {
      return AlreadySent;
    }
    outcome := OrderWeek(nextWeekdays, ledger, cards, weekNumber, clearRangeAvailable, cache, spreadsheetId, info,
                         exportCards, draftMade, ledgerAgain, snapshots, now);
  }

  /** The run once the order mail of `nextWeekdays` is known not to be sent: the cards, then the draft. */
  method OrderWeek(
    nextWeekdays: seq<string>, ledger: Option<seq<LedgerRow>>,
    cards: map<string, OrderCardSheet>, weekNumber: string -> int, clearRangeAvailable: bool,
    cache: ConfigCache, spreadsheetId: string, info: Option<InfoCells>,
    exportCards: seq<string> -> nat, draftMade: bool, ledgerAgain: Option<seq<LedgerRow>>, snapshots: SnapshotSheet, now: int)
    returns (outcome: Outcome)
    requires |nextWeekdays| == 5
    requires forall a, b :: a in cards && b in cards && a != b ==> cards[a] != cards[b]
    requires snapshots.Valid()
    modifies cards.Values
    modifies cache, snapshots
    ensures outcome == Decide(OrdersOf(ledger, nextWeekdays) != [], ConfigFrom(old(cache.cached), spreadsheetId, info), LunchProviderAddress,
                              exportCards(WithCard(Keys(Grouped(nextWeekdays)), cards.Keys)), draftMade, OrdersOf(ledgerAgain, nextWeekdays) != [])
    ensures snapshots.Valid()
    ensures outcome == DraftCreated(true) ==>
      snapshots.rows == SaveSpec(old(snapshots.rows), GeneratePeriodKey(nextWeekdays[0], nextWeekdays[4]), OrdersOf(ledgerAgain, nextWeekdays), now)
    ensures outcome != DraftCreated(true) ==> snapshots.rows == old(snapshots.rows)
    ensures cache.cached == (if CardsWritten(outcome) then ConfigFrom(old(cache.cached), spreadsheetId, info) else old(cache.cached))
    ensures forall m :: m in cards ==>
      cards[m].cells == if CardsWritten(outcome)
        then CardAfterWeek(old(cards[m].cells), m, nextWeekdays, ledger, weekNumber, clearRangeAvailable)
        else old(cards[m].cells)
  {
    var result := WriteOrdersToOrderCard(nextWeekdays, ledger, cards, weekNumber, clearRangeAvailable);
    if !result.hasOrders {
      return NoOrders;
    }
    assert nextWeekdays[|nextWeekdays| - 1] == nextWeekdays[4];
    outcome := CreateDraft(nextWeekdays, result, cards, cache, spreadsheetId, info, exportCards, draftMade, ledgerAgain, snapshots, now);
  }

  /** The settings, the address, the export, the draft and the snapshot, once the cards hold the orders. */
  method CreateDraft(
    nextWeekdays: seq<string>, result: CardResult, cards: map<string, OrderCardSheet>, cache: ConfigCache, spreadsheetId: string, info: Option<InfoCells>,
    exportCards: seq<string> -> nat, draftMade: bool, ledgerAgain: Option<seq<LedgerRow>>, snapshots: SnapshotSheet, now: int)
    returns (outcome: Outcome)
    requires |nextWeekdays| == 5 && result.hasOrders
    requires snapshots.Valid()
    modifies cache, snapshots
    ensures outcome == Decide(true, ConfigFrom(old(cache.cached), spreadsheetId, info), LunchProviderAddress,
                              exportCards(result.orderCardFiles), draftMade, OrdersOf(ledgerAgain, nextWeekdays) != [])
    ensures snapshots.Valid()
    ensures outcome == DraftCreated(true) ==>
      snapshots.rows == SaveSpec(old(snapshots.rows), GeneratePeriodKey(result.periodStart, result.periodEnd), OrdersOf(ledgerAgain, nextWeekdays), now)
    ensures outcome != DraftCreated(true) ==> snapshots.rows == old(snapshots.rows)
    ensures cache.cached == ConfigFrom(old(cache.cached), spreadsheetId, info)
    ensures CardsWritten(outcome)
    ensures forall m :: m in cards ==> cards[m].cells == old(cards[m].cells)
  {
    var config := cache.GetConfig(spreadsheetId, info);
    if config.None? {
      return NoConfig;
    }
    var providerAddress := LunchProviderAddress(config.value);
    if providerAddress == "" {
      return NoAddress;
    }
    var excelAttachments := exportCards(result.orderCardFiles);
    if excelAttachments == 0 {
      return ExportFailed;
    }
    if !draftMade {
      return DraftFailed;
    }
    var periodKey := GeneratePeriodKey(result.periodStart, result.periodEnd);
    var orders := GetLunchOrdersForNextWeek(ledgerAgain, nextWeekdays);
    if |orders| > 0 {
      snapshots.SaveOrderSnapshot(periodKey, orders, now);
      outcome := DraftCreated(true);
    } else {
      outcome := DraftCreated(false);
    }
  }
}
