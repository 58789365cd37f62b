/**
 * The preflight checks run before an AI task: the ADB keyboard check, the
 * model API check and the subscription check, their aggregation by runAll,
 * and the short-lived cache of check results.
 * Source: desktop/copilot/utils/PreflightChecker.js
 *
 * A result's name and message are the i18n keys the checker passes to
 * window.t; the translated text and the details record are not modelled.
 * The IPC replies of the main process and the clock are parameters.
 */
module Preflight {
  import opened Wrappers
  import opened Strings
  import opened JsValues

  datatype CheckStatus = Pass | Warn | Fail | Skip

  /** The suggested action; NoAction is the source's 'none'. */
  datatype ActionType = Install | Configure | Subscribe | NoAction

  datatype CheckResult = CheckResult(name: string, status: CheckStatus, message: string, actionType: ActionType)

  /** How long a cached result stays valid, in milliseconds. */
  const CacheExpiry := 500

  const KeyboardName := "copilot.check.adb.name"
  const ApiName := "copilot.check.api.name"
  const SubscriptionName := "copilot.check.subscription.name"

  /** The message of the TypeError thrown when apiKey has no slice method. */
  const SliceTypeError := "apiKey.slice is not a function"

  /** The copilot configuration fields the checks read. */
  datatype CopilotConfig = CopilotConfig(baseUrl: Value, apiKey: Value, model: Value)

  /** The subscription store fields the checks read. */
  datatype SubscribeStore = SubscribeStore(accessToken: Value, userInfo: Value)

  /** A cached result and the time it was stored. */
  datatype CacheEntry = CacheEntry(result: CheckResult, timestamp: int)

  /** _isCacheValid on a cache: the key is cached and younger than the expiry. */
  predicate CacheValid(cache: map<string, CacheEntry>, key: string, now: int) {
    key in cache && now - cache[key].timestamp < CacheExpiry
  }

  /** The cache key of a device's keyboard check. */
  function KeyboardKey(deviceId: string): string {
    "keyboard-" + deviceId
  }

  function Min(a: int, b: int): int {
    if a <= b then a else b
  }

  /**
   * The text `apiKey.slice(0, 8)` contributes to the cache key: the first
   * eight characters of a string, or the first eight items of an array as
   * the template literal prints them; None where apiKey has no slice
   * method and the call throws a TypeError.
   */
  function ApiKeySlice(apiKey: Value): (r: Option<string>)
    ensures r.Some? <==> apiKey.Str? || apiKey.Arr?
    ensures apiKey.Str? ==> r == Some(apiKey.s[..Min(8, |apiKey.s|)])
  {
    match apiKey
    case Str(s) => Some(s[..Min(8, |s|)])
    case Arr(items) => Some(ToStr(Arr(items[..Min(8, |items|)])))
    case _ => None
  }

  /** The cache key of an API check: `api-${baseUrl}-${apiKey.slice(0, 8)}`. */
  function ApiCacheKey(baseUrl: Value, apiKey: Value): (r: Option<string>)
    ensures r.Some? <==> ApiKeySlice(apiKey).Some?
    ensures r.Some? ==> StartsWith(r.value, "api-")
  {
    match ApiKeySlice(apiKey)
    case None => None
    case Some(prefix) => Some("api-" + ToStr(baseUrl) + "-" + prefix)
  }

  /** No keyboard key is an API key, so the two checks never share a cache entry. */
  lemma KeyboardKeyNotApi(deviceId: string)
    ensures !StartsWith(KeyboardKey(deviceId), "api-")
  {
    assert KeyboardKey(deviceId)[0] == 'k';
  }

  /** No key starts with both prefixes. */
  lemma PrefixesDisjoint(k: string)
    ensures StartsWith(k, "api-") ==> !StartsWith(k, "keyboard-")
  {
    if StartsWith(k, "api-") {
      assert k[0] == 'a';
    }
  }

  /** A keyboard key starts with its prefix. */
  lemma KeyboardKeyPrefix(deviceId: string)
    ensures StartsWith(KeyboardKey(deviceId), "keyboard-")
  {
    assert KeyboardKey(deviceId)[..|"keyboard-"|] == "keyboard-";
  }

  /**
   * Two API keys that agree on their first eight characters share a cache
   * entry under the same base URL, so within the expiry one key's passing
   * check is returned for the other.
   */
  lemma {:induction false} ApiCacheKeyShared(baseUrl: Value, a: string, b: string)
    requires |a| >= 8 && |b| >= 8 && a[..8] == b[..8]
    ensures ApiCacheKey(baseUrl, Str(a)) == ApiCacheKey(baseUrl, Str(b))
  {
    assert ApiKeySlice(Str(a)) == Some(a[..8]) && ApiKeySlice(Str(b)) == Some(b[..8]);
  }

  /**
   * Every entry under a keyboard key holds a keyboard check's result, and
   * every entry under an API key a passing API check's result: only
   * successful API checks are cached.
   */
  ghost predicate CacheConsistent(cache: map<string, CacheEntry>) {
    forall k :: k in cache ==>
      && (StartsWith(k, "keyboard-") ==> cache[k].result.name == KeyboardName)
      && (StartsWith(k, "api-") ==> cache[k].result.name == ApiName && cache[k].result.status == Pass)
  }

  /**
   * The keyboard check's result for the main process's reply: PASS when the
   * reply is truthy, FAIL with the 'install' action when it is falsy (as
   * when window.electron is missing and the call yields undefined), and FAIL
   * with no action when the call throws.
   */
  function KeyboardResult(installed: Result<Value, string>): (r: CheckResult)
    ensures r.name == KeyboardName
    ensures r.status == Pass <==> installed.Ok? && Truthy(installed.value)
    ensures r.status != Pass ==> r.status == Fail
    ensures r.actionType == Install <==> installed.Ok? && !Truthy(installed.value)
    ensures r.status == Pass || installed.Err? ==> r.actionType == NoAction
  {
    match installed
    case Err(_) => CheckResult(KeyboardName, Fail, "copilot.check.adb.checkError", NoAction)
    case Ok(v) =>
      if Truthy(v) then CheckResult(KeyboardName, Pass, "copilot.check.adb.installed", NoAction)
      else CheckResult(KeyboardName, Fail, "copilot.check.adb.notInstalled", Install)
  }

  /** baseUrl and apiKey are both truthy. */
  predicate ConfigComplete(config: CopilotConfig) {
    Truthy(config.baseUrl) && Truthy(config.apiKey)
  }

  /** The API check's result for an incomplete configuration. */
  const ConfigIncomplete := CheckResult(ApiName, Fail, "copilot.check.api.configIncomplete", Configure)

  /**
   * The API check's result for the main process's reply: PASS exactly when
   * the reply's success property is truthy; a reply without success, a
   * reply that is undefined or null (reading success throws inside the try)
   * and a call that throws all give FAIL with the 'configure' action.
   */
  function ApiResult(apiStatus: Result<Value, string>): (r: CheckResult)
    ensures r.name == ApiName
    ensures r.status == Pass <==>
      apiStatus.Ok? && !apiStatus.value.Undefined? && !apiStatus.value.Null? && Truthy(Get(apiStatus.value, "success"))
    ensures r.status != Pass ==> r.status == Fail && r.actionType == Configure
    ensures r.status == Pass ==> r.actionType == NoAction
  {
    match apiStatus
    case Err(_) => CheckResult(ApiName, Fail, "copilot.check.api.checkError", Configure)
    case Ok(v) =>
      if v.Undefined? || v.Null? then CheckResult(ApiName, Fail, "copilot.check.api.checkError", Configure)
      else if Truthy(Get(v, "success")) then CheckResult(ApiName, Pass, "copilot.check.api.success", NoAction)
      else CheckResult(ApiName, Fail, "copilot.check.api.failure", Configure)
  }

  /** The subscription statuses the checker names. */
  const Active := "ACTIVE"
  const Expired := "EXPIRED"
  const Exhausted := "EXHAUSTED"
  const NotPurchased := "NOT_PURCHASED"

  /** `subscribeStore.userInfo?.purchase_status || 'NOT_PURCHASED'` */
  function PurchaseStatus(store: SubscribeStore): (r: Value)
    ensures Truthy(r)
  {
    var p := if store.userInfo.Undefined? || store.userInfo.Null? then Undefined else Get(store.userInfo, "purchase_status");
    if Truthy(p) then p else Str(NotPurchased)
  }

  /**
   * The statusMessages entry for a property key: ACTIVE passes, the three
   * named failing statuses ask to subscribe, and any other key falls back
   * to the NOT_PURCHASED entry.
   */
  function StatusInfo(key: string): (CheckStatus, string, ActionType) {
    if key == Active then (Pass, "copilot.check.subscription.active", NoAction)
    else if key == Expired then (Fail, "copilot.check.subscription.expired", Subscribe)
    else if key == Exhausted then (Fail, "copilot.check.subscription.exhausted", Subscribe)
    else (Fail, "copilot.check.subscription.notPurchased", Subscribe)
  }

  /**
   * checkSubscription: SKIP when the configured key is not the store's
   * access token (a custom key); otherwise PASS exactly for an ACTIVE
   * purchase status (looked up as a property key) and FAIL with the
   * 'subscribe' action for every other or missing status.
   */
  function CheckSubscription(config: CopilotConfig, store: SubscribeStore): (r: CheckResult)
    ensures r.name == SubscriptionName
    ensures r.status == Skip <==> !StrictEquals(config.apiKey, store.accessToken)
    ensures r.status == Pass <==> StrictEquals(config.apiKey, store.accessToken) && ToStr(PurchaseStatus(store)) == Active
    ensures r.status == Fail <==> StrictEquals(config.apiKey, store.accessToken) && ToStr(PurchaseStatus(store)) != Active
    ensures r.status == Fail ==> r.actionType == Subscribe
    ensures r.status != Fail ==> r.actionType == NoAction
  {
    if !StrictEquals(config.apiKey, store.accessToken) then
      CheckResult(SubscriptionName, Skip, "copilot.check.subscription.customKeySkipped", NoAction)
    else
      var info := StatusInfo(ToStr(PurchaseStatus(store)));
      CheckResult(SubscriptionName, info.0, info.1, info.2)
  }

  /** With the built-in key, a store without user info is reported as not purchased. */
  lemma SubscriptionWithoutUserInfo(config: CopilotConfig, store: SubscribeStore)
    requires StrictEquals(config.apiKey, store.accessToken) && (store.userInfo.Undefined? || store.userInfo.Null?)
    ensures CheckSubscription(config, store) ==
      CheckResult(SubscriptionName, Fail, "copilot.check.subscription.notPurchased", Subscribe)
  {
    assert ToStr(PurchaseStatus(store)) == NotPurchased;
    assert NotPurchased != Active && NotPurchased != Expired && NotPurchased != Exhausted by {
      assert NotPurchased[0] == 'N';
    }
  }

  /** `results.filter(r => r.status === 'FAIL')` */
  function Failed(results: seq<CheckResult>): (r: seq<CheckResult>)
    ensures |r| <= |results|
    ensures forall x :: x in r <==> x in results && x.status == Fail
    ensures r == [] <==> forall i :: 0 <= i < |results| ==> results[i].status != Fail
  {
    if results == [] then []
    else
      var last := results[|results| - 1];
      Failed(results[..|results| - 1]) + (if last.status == Fail then [last] else [])
  }

  /** The options runAll reads; the skip flags are raw values, read for truthiness. */
  datatype RunOptions = RunOptions(
    deviceId: string,
    copilotConfig: CopilotConfig,
    subscribeStore: Option<SubscribeStore>,
    skipKeyboardCheck: Value,
    skipApiCheck: Value,
    skipSubscriptionCheck: Value)

  datatype RunResult = RunResult(passed: bool, results: seq<CheckResult>, failedChecks: seq<CheckResult>)

  /** The names of the checks runAll performs, in order: each layer not skipped, and the subscription only with a store. */
  function EnabledChecks(options: RunOptions): (r: seq<string>)
    ensures KeyboardName in r <==> !Truthy(options.skipKeyboardCheck)
    ensures ApiName in r <==> !Truthy(options.skipApiCheck)
    ensures SubscriptionName in r <==> !Truthy(options.skipSubscriptionCheck) && options.subscribeStore.Some?
    ensures |r| <= 3
  {
    (if Truthy(options.skipKeyboardCheck) then [] else [KeyboardName])
    + (if Truthy(options.skipApiCheck) then [] else [ApiName])
    + (if Truthy(options.skipSubscriptionCheck) || options.subscribeStore.None? then [] else [SubscriptionName])
  }

  /** No result has the FAIL status. */
  predicate NoneFailed(results: seq<CheckResult>) {
    forall i :: 0 <= i < |results| ==> results[i].status != Fail
  }

  lemma NoneFailedAppend(a: seq<CheckResult>, b: seq<CheckResult>)
    ensures NoneFailed(a + b) <==> NoneFailed(a) && NoneFailed(b)
  {
    if NoneFailed(a) && NoneFailed(b) {
      forall i | 0 <= i < |a + b| ensures (a + b)[i].status != Fail {
        if i >= |a| {
          assert (a + b)[i] == b[i - |a|];
        }
      }
    }
    if NoneFailed(a + b) {
      forall i | 0 <= i < |a| ensures a[i].status != Fail {
        assert a[i] == (a + b)[i];
      }
      forall i | 0 <= i < |b| ensures b[i].status != Fail {
        assert b[i] == (a + b)[|a| + i];
      }
    }
  }

  /** The value runAll resolves to: passed exactly when no result failed, and the failing results. */
  function Outcome(results: seq<CheckResult>): (r: RunResult)
    ensures r.results == results && r.failedChecks == Failed(results)
    ensures r.passed <==> NoneFailed(results)
  {
    var failed := Failed(results);
    RunResult(|failed| == 0, results, failed)
  }

  function Names(results: seq<CheckResult>): (r: seq<string>)
    ensures |r| == |results| && forall i :: 0 <= i < |r| ==> r[i] == results[i].name
  {
    seq(|results|, i requires 0 <= i < |results| => results[i].name)
  }

  lemma NamesSnoc(results: seq<CheckResult>, x: CheckResult)
    ensures Names(results + [x]) == Names(results) + [x.name]
  {
    assert Names(results + [x])[..|results|] == Names(results);
  }

  lemma NamesAppend(a: seq<CheckResult>, b: seq<CheckResult>)
    ensures Names(a + b) == Names(a) + Names(b)
  {
    assert Names(a + b)[..|a|] == Names(a);
    assert Names(a + b)[|a|..] == Names(b);
  }

  /**
   * What checkADBKeyboard resolves to for a cache: the device's valid
   * cached result, else the result of the main process's reply.
   */
  function KeyboardOutcome(cache: map<string, CacheEntry>, deviceId: string, now: int, installed: Result<Value, string>): (r: CheckResult)
    ensures CacheConsistent(cache) ==> r.name == KeyboardName
    ensures !CacheValid(cache, KeyboardKey(deviceId), now) ==> r == KeyboardResult(installed)
  {
    KeyboardKeyPrefix(deviceId);
    var key := KeyboardKey(deviceId);
    if CacheValid(cache, key, now) then cache[key].result else KeyboardResult(installed)
  }

  /**
   * What checkAPIService settles to for a cache: the incomplete-configuration
   * failure, the TypeError of an unsliceable key, a valid cached result
   * (always a pass), else the result of the main process's reply.
   */
  function ApiOutcome(cache: map<string, CacheEntry>, config: CopilotConfig, now: int, apiStatus: Result<Value, string>): (r: Result<CheckResult, string>)
    ensures r.Err? <==> ConfigComplete(config) && ApiCacheKey(config.baseUrl, config.apiKey).None?
    ensures !ConfigComplete(config) ==> r == Ok(ConfigIncomplete)
    ensures CacheConsistent(cache) && r.Ok? ==> r.value.name == ApiName
    ensures CacheConsistent(cache) && ConfigComplete(config) && r.Ok? ==>
      r.value.status == Pass || r.value == ApiResult(apiStatus)
  {
    if !ConfigComplete(config) then Ok(ConfigIncomplete)
    else match ApiCacheKey(config.baseUrl, config.apiKey)
      case None => Err(SliceTypeError)
      case Some(key) => if CacheValid(cache, key, now) then Ok(cache[key].result) else Ok(ApiResult(apiStatus))
  }

  /** The keyboard check only touches keyboard keys, so the API check sees the same cache entries after it. */
  lemma ApiOutcomeIgnoresKeyboard(c1: map<string, CacheEntry>, c2: map<string, CacheEntry>, deviceId: string,
                                  config: CopilotConfig, now: int, apiStatus: Result<Value, string>)
    requires c1 - {KeyboardKey(deviceId)} == c2 - {KeyboardKey(deviceId)}
    ensures ApiOutcome(c1, config, now, apiStatus) == ApiOutcome(c2, config, now, apiStatus)
  {
    var k := ApiCacheKey(config.baseUrl, config.apiKey);
    if ConfigComplete(config) && k.Some? {
      var key := k.value;
      assert key != KeyboardKey(deviceId) by {
        PrefixesDisjoint(key);
        KeyboardKeyPrefix(deviceId);
      }
      assert key in c1 <==> key in c1 - {KeyboardKey(deviceId)};
      assert key in c2 <==> key in c2 - {KeyboardKey(deviceId)};
      if key in c1 {
        assert c1[key] == (c1 - {KeyboardKey(deviceId)})[key];
        assert c2[key] == (c2 - {KeyboardKey(deviceId)})[key];
      }
    }
  }

  /**
   * The cache after checkADBKeyboard: unchanged when the device's entry is
   * valid or the call rejects, else the reply's result stored at now.
   */
  function KeyboardCache(cache: map<string, CacheEntry>, deviceId: string, now: int, installed: Result<Value, string>)
    : (r: map<string, CacheEntry>)
    ensures r - {KeyboardKey(deviceId)} == cache - {KeyboardKey(deviceId)}
    ensures CacheValid(r, KeyboardKey(deviceId), now) <==> CacheValid(cache, KeyboardKey(deviceId), now) || installed.Ok?
    ensures CacheConsistent(cache) ==> CacheConsistent(r)
  {
    var key := KeyboardKey(deviceId);
    if CacheValid(cache, key, now) || installed.Err? then cache
    else
      KeyboardKeyPrefix(deviceId);
      KeyboardKeyNotApi(deviceId);
      cache[key := CacheEntry(KeyboardResult(installed), now)]
  }

  /**
   * The cache after checkAPIService: a new entry only for a complete
   * configuration with a sliceable key, no valid entry, and a passing reply.
   */
  function ApiCache(cache: map<string, CacheEntry>, config: CopilotConfig, now: int, apiStatus: Result<Value, string>)
    : (r: map<string, CacheEntry>)
    ensures r.Keys >= cache.Keys
    ensures forall k :: k in cache && (k !in r || r[k] != cache[k]) ==>
      ApiCacheKey(config.baseUrl, config.apiKey) == Some(k)
    ensures r != cache ==> ConfigComplete(config) && ApiResult(apiStatus).status == Pass
    ensures CacheConsistent(cache) ==> CacheConsistent(r)
  {
    if !ConfigComplete(config) then cache
    else match ApiCacheKey(config.baseUrl, config.apiKey)
      case None => cache
      case Some(key) =>
        if CacheValid(cache, key, now) || ApiResult(apiStatus).status != Pass then cache
        else
          PrefixesDisjoint(key);
          cache[key := CacheEntry(ApiResult(apiStatus), now)]
  }

  /**
   * A second keyboard check at the same moment answers from the cache the
   * first one left, whatever the main process would reply, unless the
   * first call rejected.
   */
  lemma KeyboardCacheRepeat(cache: map<string, CacheEntry>, deviceId: string, now: int,
                            installed: Result<Value, string>, again: Result<Value, string>)
    requires installed.Ok? || CacheValid(cache, KeyboardKey(deviceId), now)
    ensures KeyboardOutcome(KeyboardCache(cache, deviceId, now, installed), deviceId, now, again)
      == KeyboardOutcome(cache, deviceId, now, installed)
  {
  }

  /**
   * A second API check at the same moment answers from the cache the first
   * one left whenever the first one passed, whatever the second reply.
   */
  lemma ApiCacheRepeat(cache: map<string, CacheEntry>, config: CopilotConfig, now: int,
                       apiStatus: Result<Value, string>, again: Result<Value, string>)
    requires ApiOutcome(cache, config, now, apiStatus).Ok?
    requires ApiOutcome(cache, config, now, apiStatus).value.status == Pass
    ensures ApiOutcome(ApiCache(cache, config, now, apiStatus), config, now, again)
      == ApiOutcome(cache, config, now, apiStatus)
  {
  }

  /** The keyboard layer's cache effect: the check's, unless it is skipped. */
  function KeyboardLayerCache(cache: map<string, CacheEntry>, options: RunOptions, now: int, installed: Result<Value, string>)
    : (r: map<string, CacheEntry>)
    ensures Truthy(options.skipKeyboardCheck) ==> r == cache
    ensures r - {KeyboardKey(options.deviceId)} == cache - {KeyboardKey(options.deviceId)}
  {
    if Truthy(options.skipKeyboardCheck) then cache else KeyboardCache(cache, options.deviceId, now, installed)
  }

  /** The API layer's cache effect: the check's, unless it is skipped. */
  function ApiLayerCache(cache: map<string, CacheEntry>, options: RunOptions, now: int, apiStatus: Result<Value, string>)
    : (r: map<string, CacheEntry>)
    ensures Truthy(options.skipApiCheck) ==> r == cache
    ensures r.Keys >= cache.Keys
  {
    if Truthy(options.skipApiCheck) then cache else ApiCache(cache, options.copilotConfig, now, apiStatus)
  }

  /**
   * The cache runAll leaves: the keyboard layer's effect, then the API
   * layer's; a rejected API check has written nothing.
   */
  function RunCache(cache: map<string, CacheEntry>, options: RunOptions, now: int,
                    installed: Result<Value, string>, apiStatus: Result<Value, string>): (r: map<string, CacheEntry>)
    ensures CacheConsistent(cache) ==> CacheConsistent(r)
    ensures Truthy(options.skipKeyboardCheck) && Truthy(options.skipApiCheck) ==> r == cache
    ensures r.Keys >= cache.Keys
  {
    ApiLayerCache(KeyboardLayerCache(cache, options, now, installed), options, now, apiStatus)
  }

  /** The keyboard layer's results: the check's outcome unless it is skipped. */
  function KeyboardLayer(cache: map<string, CacheEntry>, options: RunOptions, now: int, installed: Result<Value, string>): (r: seq<CheckResult>)
    ensures CacheConsistent(cache) ==> Names(r) == if Truthy(options.skipKeyboardCheck) then [] else [KeyboardName]
  {
    if Truthy(options.skipKeyboardCheck) then [] else [KeyboardOutcome(cache, options.deviceId, now, installed)]
  }

  /** The API layer's results when the check settles: its outcome unless it is skipped. */
  function ApiLayer(cache: map<string, CacheEntry>, options: RunOptions, now: int, apiStatus: Result<Value, string>): (r: seq<CheckResult>)
    requires Truthy(options.skipApiCheck) || ApiOutcome(cache, options.copilotConfig, now, apiStatus).Ok?
    ensures CacheConsistent(cache) ==> Names(r) == if Truthy(options.skipApiCheck) then [] else [ApiName]
  {
    if Truthy(options.skipApiCheck) then [] else [ApiOutcome(cache, options.copilotConfig, now, apiStatus).value]
  }

  /** The subscription layer's results: the check when it is enabled and a store is given. */
  function SubscriptionLayer(options: RunOptions): (r: seq<CheckResult>)
    ensures |r| <= 1
    ensures r != [] <==> !Truthy(options.skipSubscriptionCheck) && options.subscribeStore.Some?
    ensures r != [] ==> r[0] == CheckSubscription(options.copilotConfig, options.subscribeStore.value)
  {
    if Truthy(options.skipSubscriptionCheck) || options.subscribeStore.None? then []
    else [CheckSubscription(options.copilotConfig, options.subscribeStore.value)]
  }

  /**
   * The results runAll collects from a cache: the keyboard layer's outcome,
   * the API layer's outcome and the subscription check, each unless it is
   * skipped; the API check's rejection is the call's.
   */
  function LayerResults(cache: map<string, CacheEntry>, options: RunOptions, now: int,
                        installed: Result<Value, string>, apiStatus: Result<Value, string>): (r: Result<seq<CheckResult>, string>)
    ensures r.Err? <==> !Truthy(options.skipApiCheck) && ApiOutcome(cache, options.copilotConfig, now, apiStatus).Err?
    ensures CacheConsistent(cache) && r.Ok? ==> Names(r.value) == EnabledChecks(options)
  {
    var api := ApiOutcome(cache, options.copilotConfig, now, apiStatus);
    if !Truthy(options.skipApiCheck) && api.Err? then Err(api.error)
    else
      var keyboard := KeyboardLayer(cache, options, now, installed);
      var apiLayer := ApiLayer(cache, options, now, apiStatus);
      NamesAppend(keyboard + apiLayer, SubscriptionLayer(options));
      NamesAppend(keyboard, apiLayer);
      Ok(keyboard + apiLayer + SubscriptionLayer(options))
  }

  /**
   * runAll passes exactly when none of the layers that ran failed: the
   * keyboard layer's outcome, the API layer's outcome and the subscription
   * check.
   */
  lemma {:induction false} LayerResultsPassed(cache: map<string, CacheEntry>, options: RunOptions, now: int,
                                             installed: Result<Value, string>, apiStatus: Result<Value, string>)
    requires LayerResults(cache, options, now, installed, apiStatus).Ok?
    ensures Outcome(LayerResults(cache, options, now, installed, apiStatus).value).passed <==>
      && (Truthy(options.skipKeyboardCheck) || KeyboardOutcome(cache, options.deviceId, now, installed).status != Fail)
      && (Truthy(options.skipApiCheck) || ApiOutcome(cache, options.copilotConfig, now, apiStatus).value.status != Fail)
      && (Truthy(options.skipSubscriptionCheck) || options.subscribeStore.None?
          || CheckSubscription(options.copilotConfig, options.subscribeStore.value).status != Fail)
  {
    var keyboard := KeyboardLayer(cache, options, now, installed);
    var apiLayer := ApiLayer(cache, options, now, apiStatus);
    var sub := SubscriptionLayer(options);
    assert LayerResults(cache, options, now, installed, apiStatus).value == keyboard + apiLayer + sub;
    NoneFailedAppend(keyboard + apiLayer, sub);
    NoneFailedAppend(keyboard, apiLayer);
  }

  /**
   * With nothing cached, runAll passes exactly when every layer that ran
   * was answered well: the keyboard is installed, the configuration is
   * complete and the API replies with success, and the subscription is
   * active or the key is a custom one.
   */
  lemma FreshRunPassed(options: RunOptions, now: int, installed: Result<Value, string>, apiStatus: Result<Value, string>)
    requires LayerResults(map[], options, now, installed, apiStatus).Ok?
    ensures Outcome(LayerResults(map[], options, now, installed, apiStatus).value).passed <==>
      && (Truthy(options.skipKeyboardCheck) || (installed.Ok? && Truthy(installed.value)))
      && (Truthy(options.skipApiCheck) || (ConfigComplete(options.copilotConfig) && ApiResult(apiStatus).status == Pass))
      && (Truthy(options.skipSubscriptionCheck) || options.subscribeStore.None?
          || CheckSubscription(options.copilotConfig, options.subscribeStore.value).status != Fail)
  {
    LayerResultsPassed(map[], options, now, installed, apiStatus);
    assert !CacheValid(map[], KeyboardKey(options.deviceId), now);
    var api := ApiOutcome(map[], options.copilotConfig, now, apiStatus);
    if !Truthy(options.skipApiCheck) && ConfigComplete(options.copilotConfig) {
      assert api == Ok(ApiResult(apiStatus));
    }
  }

  /** The checker: its cache of results, keyed by check and device or configuration. */
  class PreflightChecker {
    var cache: map<string, CacheEntry>

    /** Each cache entry holds a result of the check its key names, and API entries only passing ones. */
    ghost predicate Valid()
      reads this
    {
      CacheConsistent(cache)
    }

    constructor ()
      ensures Valid() && cache == map[]
    {
      cache := map[];
    }

    predicate IsCacheValid(key: string, now: int)
      reads this
    {
      CacheValid(cache, key, now)
    }

    /** _cacheResult: store the result with the current time; a fresh entry is valid. */
    method CacheResult(key: string, result: CheckResult, now: int)
      modifies this`cache
      ensures cache == old(cache)[key := CacheEntry(result, now)]
      ensures IsCacheValid(key, now)
    {
      cache := cache[key := CacheEntry(result, now)];
    }

    /** clearCache */
    method ClearCache()
      modifies this`cache
      ensures Valid() && cache == map[]
    {
      cache := map[];
    }

    /** clearKeyboardCache: forget the device's keyboard result only. */
    method ClearKeyboardCache(deviceId: string)
      requires Valid()
      modifies this`cache
      ensures Valid() && cache == old(cache) - {KeyboardKey(deviceId)}
      ensures !IsCacheValid(KeyboardKey(deviceId), 0)
    {
      cache := cache - {KeyboardKey(deviceId)};
    }

    /**
     * checkADBKeyboard: a valid cached result is returned as is; otherwise
     * the reply decides the result, which is cached unless the call threw.
     */
    method CheckADBKeyboard(deviceId: string, now: int, installed: Result<Value, string>) returns (r: CheckResult)
      requires Valid()
      modifies this`cache
      ensures Valid()
      ensures r.name == KeyboardName
      ensures r == KeyboardOutcome(old(cache), deviceId, now, installed)
      ensures cache == KeyboardCache(old(cache), deviceId, now, installed)
      ensures cache - {KeyboardKey(deviceId)} == old(cache) - {KeyboardKey(deviceId)}
      ensures old(IsCacheValid(KeyboardKey(deviceId), now)) ==>
        r == old(cache)[KeyboardKey(deviceId)].result && cache == old(cache)
      ensures !old(IsCacheValid(KeyboardKey(deviceId), now)) ==>
        && r == KeyboardResult(installed)
        && cache == if installed.Ok? then old(cache)[KeyboardKey(deviceId) := CacheEntry(r, now)] else old(cache)
    {
      var key := KeyboardKey(deviceId);
      KeyboardKeyPrefix(deviceId);
      if IsCacheValid(key, now) {
        return cache[key].result;
      }
      r := KeyboardResult(installed);
      if installed.Ok? {
        KeyboardKeyNotApi(deviceId);
        CacheResult(key, r, now);
      }
    }

    /**
     * checkAPIService: an incomplete configuration fails at once; an apiKey
     * without a slice method makes the call reject; a valid cached result is
     * returned, and it is always a pass; otherwise the reply decides the
     * result, which is cached only when it passes.
     */
    method CheckAPIService(config: CopilotConfig, now: int, apiStatus: Result<Value, string>) returns (r: Result<CheckResult, string>)
      requires Valid()
      modifies this`cache
      ensures Valid()
      ensures !ConfigComplete(config) ==> r == Ok(ConfigIncomplete) && cache == old(cache)
      ensures r.Err? <==> ConfigComplete(config) && ApiCacheKey(config.baseUrl, config.apiKey).None?
      ensures r.Err? ==> r.error == SliceTypeError && cache == old(cache)
      ensures r.Ok? ==> r.value.name == ApiName
      ensures r == ApiOutcome(old(cache), config, now, apiStatus)
      ensures cache == ApiCache(old(cache), config, now, apiStatus)
      ensures ConfigComplete(config) && ApiCacheKey(config.baseUrl, config.apiKey).Some? ==>
        var key := ApiCacheKey(config.baseUrl, config.apiKey).value;
        if old(IsCacheValid(key, now)) then
          r == Ok(old(cache)[key].result) && r.value.status == Pass && r.value.name == ApiName && cache == old(cache)
        else
          && r == Ok(ApiResult(apiStatus))
          && cache == if r.value.status == Pass then old(cache)[key := CacheEntry(r.value, now)] else old(cache)
    {
      if !Truthy(config.baseUrl) || !Truthy(config.apiKey) {
        return Ok(ConfigIncomplete);
      }
      var k := ApiCacheKey(config.baseUrl, config.apiKey);
      if k.None? {
        return Err(SliceTypeError);
      }
      var key := k.value;
      if IsCacheValid(key, now) {
        return Ok(cache[key].result);
      }
      var result := ApiResult(apiStatus);
      PrefixesDisjoint(key);
      if result.status == Pass {
        CacheResult(key, result, now);
      }
      r := Ok(result);
    }

    /**
     * runAll: the checks that are not skipped, in order, the subscription
     * check only with a store; passed exactly when no result failed, and
     * failedChecks the failing results. The call rejects when the API check
     * does.
     */
    method RunAll(options: RunOptions, now: int, installed: Result<Value, string>, apiStatus: Result<Value, string>)
      returns (r: Result<RunResult, string>)
      requires Valid()
      modifies this`cache
      ensures Valid()
      ensures r.Err? <==> (!Truthy(options.skipApiCheck) && ConfigComplete(options.copilotConfig)
        && ApiCacheKey(options.copilotConfig.baseUrl, options.copilotConfig.apiKey).None?)
      ensures r.Ok? ==> Names(r.value.results) == EnabledChecks(options)
      ensures r.Ok? ==> r.value == Outcome(r.value.results)
      ensures r.Err? <==> LayerResults(old(cache), options, now, installed, apiStatus).Err?
      ensures r.Ok? ==> r.value.results == LayerResults(old(cache), options, now, installed, apiStatus).value
      ensures cache == RunCache(old(cache), options, now, installed, apiStatus)
    {
      ghost var before := cache;
      ghost var expected := LayerResults(before, options, now, installed, apiStatus);
      var results := KeyboardStep(options, now, installed);
      ghost var afterKeyboard := cache;
      ApiOutcomeIgnoresKeyboard(afterKeyboard, before, options.deviceId, options.copilotConfig, now, apiStatus);
      var afterApi := ApiStep(options, now, apiStatus, results);
      assert cache == RunCache(before, options, now, installed, apiStatus);
      if afterApi.Err? {
        assert expected.Err?;
        return Err(afterApi.error);
      }
      assert ApiLayer(afterKeyboard, options, now, apiStatus) == ApiLayer(before, options, now, apiStatus);
      results := afterApi.value;
      if !Truthy(options.skipSubscriptionCheck) && options.subscribeStore.Some? {
        var subscription := CheckSubscription(options.copilotConfig, options.subscribeStore.value);
        results := results + [subscription];
      }
      assert results == afterApi.value + SubscriptionLayer(options);
      assert expected.Ok? && results == expected.value;
      r := Ok(Outcome(results));
    }

    /** The first step of runAll: the keyboard check's result, unless it is skipped. */
    method KeyboardStep(options: RunOptions, now: int, installed: Result<Value, string>) returns (results: seq<CheckResult>)
      requires Valid()
      modifies this`cache
      ensures Valid()
      ensures Names(results) == if Truthy(options.skipKeyboardCheck) then [] else [KeyboardName]
      ensures results == KeyboardLayer(old(cache), options, now, installed)
      ensures cache == KeyboardLayerCache(old(cache), options, now, installed)
    {
      results := [];
      if !Truthy(options.skipKeyboardCheck) {
        var keyboard := CheckADBKeyboard(options.deviceId, now, installed);
        NamesSnoc(results, keyboard);
        results := results + [keyboard];
      }
    }

    /** The second step of runAll: the API check's result appended, unless it is skipped; the check's rejection passes through. */
    method ApiStep(options: RunOptions, now: int, apiStatus: Result<Value, string>, results: seq<CheckResult>)
      returns (r: Result<seq<CheckResult>, string>)
      requires Valid()
      modifies this`cache
      ensures Valid()
      ensures r.Err? <==> (!Truthy(options.skipApiCheck) && ConfigComplete(options.copilotConfig)
        && ApiCacheKey(options.copilotConfig.baseUrl, options.copilotConfig.apiKey).None?)
      ensures r.Ok? ==> Names(r.value) == Names(results) + if Truthy(options.skipApiCheck) then [] else [ApiName]
      ensures Truthy(options.skipApiCheck) ==> r == Ok(results) && cache == old(cache)
      ensures r.Ok? ==> r.value == results + ApiLayer(old(cache), options, now, apiStatus)
      ensures cache == ApiLayerCache(old(cache), options, now, apiStatus)
    {
      if Truthy(options.skipApiCheck) {
        assert Names(results) + [] == Names(results);
        return Ok(results);
      }
      var api := CheckAPIService(options.copilotConfig, now, apiStatus);
      if api.Err? {
        return Err(api.error);
      }
      NamesSnoc(results, api.value);
      r := Ok(results + [api.value]);
    }
  }
}
