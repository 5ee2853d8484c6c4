/**
 * src/utils/configService.js: the settings object built from the 情報 sheet
 * and the module-level cache in front of it.
 *
 * A cell is read as text ("" when blank) and a price cell as integer yen.
 */
module ConfigService {
  import opened Wrappers

  /** The cells of 情報 that the builder reads. */
  datatype InfoCells = InfoCells(
    modelName: string, prompt: string, gmailQuery: string, botToken: string, channelId: string,
    orderAppUrl: string, lunchProviderEmail: string, gaName: string, gaEmail: string,
    price1_8: int, price9_13: int, price14Plus: int, gmailQueryInvoice: string, invoicePrompt: string)

  datatype Slack = Slack(botToken: string, channelId: string)
  datatype GeneralAffairs = GeneralAffairs(name: string, email: string)
  /** The flat unit prices of the three order-count tiers. */
  datatype Prices = Prices(range1_8: int, range9_13: int, range14Plus: int)

  /** The settings object. It has no `bentoMailAddress` field. */
  datatype Config = Config(
    spreadsheetId: string, prompt: string, invoicePrompt: string, modelName: string,
    gmailQuery: string, gmailQueryInvoice: string, orderAppUrl: string, lunchProviderEmail: string,
    slack: Slack, generalAffairs: GeneralAffairs, prices: Prices)

  const DEFAULT_MODEL_NAME: string := "gemini-pro-vision"

  /** The six settings without which no config is built. */
  predicate RequiredPresent(c: InfoCells)
  {
    c.prompt != "" && c.gmailQuery != "" && c.botToken != "" && c.channelId != ""
      && c.gmailQueryInvoice != "" && c.invoicePrompt != ""
  }

  /**
   * `_loadAndBuildFullConfig`. `spreadsheetId` is the script property ("" when
   * unset or unreadable); `info` is the 情報 sheet, `None` when the spreadsheet
   * has no such sheet.
   */
  function LoadAndBuildFullConfig(spreadsheetId: string, info: Option<InfoCells>): (r: Option<Config>)
    ensures r.Some? <==> spreadsheetId != "" && info.Some? && RequiredPresent(info.value)
    ensures r.Some? ==> r.value.modelName != ""
    ensures r.Some? ==> r.value.modelName == (if info.value.modelName == "" then DEFAULT_MODEL_NAME else info.value.modelName)
    ensures r.Some? ==> r.value.spreadsheetId == spreadsheetId
    ensures r.Some? ==> r.value.lunchProviderEmail == info.value.lunchProviderEmail
    ensures r.Some? ==> r.value.prices == Prices(info.value.price1_8, info.value.price9_13, info.value.price14Plus)
    ensures r.Some? ==> r.value.slack == Slack(info.value.botToken, info.value.channelId)
  {
    if spreadsheetId == "" then None
    else if info.None? then None
    else
      var c := info.value;
      var modelName := if c.modelName != "" then c.modelName else DEFAULT_MODEL_NAME;
      if !RequiredPresent(c) then None
      else Some(Config(spreadsheetId, c.prompt, c.invoicePrompt, modelName, c.gmailQuery, c.gmailQueryInvoice,
        c.orderAppUrl, c.lunchProviderEmail, Slack(c.botToken, c.channelId),
        GeneralAffairs(c.gaName, c.gaEmail), Prices(c.price1_8, c.price9_13, c.price14Plus)))
  }

  /**
   * The `cachedConfig` module variable. `loads` counts the calls of the
   * builder, so that "returned from the cache" can be stated.
   */
  class ConfigCache {
    var cached: Option<Config>
    var loads: nat

    constructor ()
      ensures cached == None && loads == 0
    {
      cached := None;
      loads := 0;
    }

    /**
     * `getConfig`: a cached config is returned without building; otherwise
     * the builder runs and its result is cached, `null` included (which is
     * why a failed build is retried on the next call).
     */
    method GetConfig(spreadsheetId: string, info: Option<InfoCells>) returns (r: Option<Config>)
      modifies this
      ensures old(cached).Some? ==> r == old(cached) && cached == old(cached) && loads == old(loads)
      ensures old(cached).None? ==> r == LoadAndBuildFullConfig(spreadsheetId, info) && cached == r && loads == old(loads) + 1
    {
      if cached.Some? {
        return cached;
      }
      cached := LoadAndBuildFullConfig(spreadsheetId, info);
      loads := loads + 1;
      r := cached;
    }

    /** `refreshConfig`: the cache is dropped, then `getConfig` builds afresh. */
    method RefreshConfig(spreadsheetId: string, info: Option<InfoCells>) returns (r: Option<Config>)
      modifies this
      ensures r == LoadAndBuildFullConfig(spreadsheetId, info) && cached == r
      ensures loads == old(loads) + 1
    {
      cached := None;
      r := GetConfig(spreadsheetId, info);
    }
  }

  /**
   * Once a call has produced a config, later calls return that same config
   * whatever the sheet then holds, and build nothing.
   */
  method CachedConfigIsStable(cache: ConfigCache, id1: string, info1: Option<InfoCells>, id2: string, info2: Option<InfoCells>)
    returns (first: Option<Config>, second: Option<Config>)
    modifies cache
    ensures first.Some? ==> second == first && cache.loads <= old(cache.loads) + 1
    ensures old(cache.cached).None? && first.None? ==> second == LoadAndBuildFullConfig(id2, info2)
  {
    first := cache.GetConfig(id1, info1);
    second := cache.GetConfig(id2, info2);
  }
}
