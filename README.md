# escrcpy core logic in Dafny

This project models the core logic of escrcpy, a desktop front-end for
scrcpy and ADB (Android device mirroring and control) built on Electron.
It does not model the Electron shell, the child processes or the UI. It
models the parts of the code that keep state or parse and build data:

- **The file explorer** (`PathManager`, `Selection`, `FileClipboard`,
  `FileEntries`, `FilePreview`, `IconMap`). This covers the path history,
  the selection, the copy/cut clipboard, the preview rules and the
  file-icon table with its extension cache.
- **Parsers and formatters for data crossing process boundaries**
  (`CommandArgs`, `DeviceId`, `ScrcpyHelper`, `Battery`,
  `ClipboardFormats`, `ModelClient`). These are the scrcpy command-line
  builder, the adb device-id parser, the parsers for scrcpy's app, encoder
  and display listings, the `dumpsys battery` parser, the Windows CF_HDROP
  payload and plist escaping, and the agent's message builders and reply
  splitter.
- **The IPC layer** (`IpcxErrors`, `IpcxValidators`, `IpcxSerialize`,
  `ChannelPool`). This covers error envelopes, invoke-envelope checks,
  argument cloning with function extraction, and reply-channel pooling.
- **Registries and managers**:
  - `ModularApp`: the plugin host, with dependency-ordered installation;
  - `ServiceRegistry`: the service registry;
  - `TaskStore`: the scheduled-task store and its cron expressions;
  - `CopilotSessions`: the copilot session manager;
  - `Preflight`: the preflight checker;
  - `ErrorHandling`: the renderer's error handler;
  - `Validation`: the storage layer's field validation.

Shared modules:

- `Wrappers` holds `Option`/`Result`.
- `Strings` holds the JavaScript string operations the code relies on.
- `JsValues` holds JavaScript values: primitives, arrays, plain objects as
  ordered entries, and functions. Numbers are integers plus NaN and
  ±Infinity.

Each core source file is one module, in one `.dfy` file.

Code that updates state in place is modelled as classes whose methods
update their fields and relate the new fields to the old ones in their
`ensures`. This covers the explorer stores, the pools and
registries, the plugin host, the session manager and the error handler.
Loops in the source are `while` loops proved equal to a specification
function. Pure code is modelled as functions with lemmas.

Clocks, random ids (nanoid, randomUUID), IPC replies and plugin `apply`
results are parameters of the operations that use them.

## Model

| member | source | states |
|---|---|---|
| Battery.CamelKeyOfTwoWords | desktop/electron/middleware/adb/helpers/battery/index.js:58-59 | a dump key of two words becomes the first word in lower case followed by the second capitalised, as lodash camelCase does for words it splits no further (no hump, letter–digit boundary or capital run; see Left out) |
| Battery.CamelKeyOfWord | desktop/electron/middleware/adb/helpers/battery/index.js:58-59 | a one-word key becomes that word in lower case, as lodash does for a word it splits no further (see Left out) |
| Battery.ParseValue | desktop/electron/middleware/adb/helpers/battery/index.js:16-31 | a value becomes a boolean, a number or the trimmed text, and text is returned trimmed; numbers are decimal integers and ±Infinity, and other forms Number reads stay text (see Left out) |
| Battery.ParseValueOfBool | desktop/electron/middleware/adb/helpers/battery/index.js:19-23 | "true" and "false" in any letter case become the matching boolean |
| Battery.ParseValueOfInt | desktop/electron/middleware/adb/helpers/battery/index.js:25-28 | the decimal text of an integer is read back as that number; JavaScript agrees up to 2^53 in magnitude and rounds above it (see Left out) |
| Battery.NonBlankLines | desktop/electron/middleware/adb/helpers/battery/index.js:39 | every kept line is a non-blank input line and there are no more of them than input lines (NonBlankLinesCount and NonBlankLinesAppend state multiplicity and order) |
| Battery.NonBlankLinesCount | desktop/electron/middleware/adb/helpers/battery/index.js:39 | each line occurs among the kept lines as often as in the input when it is not blank, and never when it is |
| Battery.NonBlankLinesAppend | desktop/electron/middleware/adb/helpers/battery/index.js:39 | filtering keeps the input order: the kept lines of two blocks are the kept lines of the first followed by those of the second |
| Battery.LineEntryOfPair | desktop/electron/middleware/adb/helpers/battery/index.js:41-62 | a `key: value` line with a non-empty key and value records the parsed value under the camel-cased key |
| Battery.RecordsMeaning | desktop/electron/middleware/adb/helpers/battery/index.js:41-63 | a key is recorded iff some line supplies it, and it holds the value of the last such line |
| Battery.RawMeaning | desktop/electron/middleware/adb/helpers/battery/index.js:38-63 | the raw record of a dump: key present iff some line supplies it, later lines overwrite earlier ones |
| Battery.ComputedOf | desktop/electron/middleware/adb/helpers/battery/index.js:65-88 | charging iff one of the four power flags is truthy; the power source is AC iff acPowered is truthy, USB, wireless and dock iff theirs is the first truthy flag, and "Battery" iff not charging; the percentage is the level when it is truthy, else 0; temperature and voltage are null iff the raw field is falsy, else the raw field over 10 and over 1000 |
| Battery.PercentageOfLastLevel | desktop/electron/middleware/adb/helpers/battery/index.js:39-88 | when the last "level" line of the dump has a truthy value, the computed percentage is that value |
| Battery.ParseBatteryDump | desktop/electron/middleware/adb/helpers/battery/index.js:14-91 | the loop over the lines builds exactly the raw and computed records of the whole dump |
| ChannelPool.ChannelName | packages/electron-ipcx/shared/channel-pool.ts:68-71 | a generated name is the prefix, an underscore and the suffix, or the bare suffix without a prefix |
| ChannelPool.ChannelNameInjective | packages/electron-ipcx/shared/channel-pool.ts:68-71 | different suffixes under the same prefix give different names |
| ChannelPool.Pool.constructor | packages/electron-ipcx/shared/channel-pool.ts:43-53 | options default to 10, true, 5 and ""; poolSize fresh channels are pre-allocated and none is in use |
| ChannelPool.Pool.Generate | packages/electron-ipcx/shared/channel-pool.ts:68-71 | each generated channel is new: never issued before |
| ChannelPool.Pool.Expand | packages/electron-ipcx/shared/channel-pool.ts:58-63 | count new channels are appended to the pool, none for a non-positive count |
| ChannelPool.Pool.Acquire | packages/electron-ipcx/shared/channel-pool.ts:76-93 | pops the last pooled channel into use; an empty pool grows by expandSize first when autoExpand is on (undefined when expandSize is not positive) and otherwise a fresh channel goes straight into use; the acquired channel was not in use before |
| ChannelPool.Pool.Release | packages/electron-ipcx/shared/channel-pool.ts:98-109 | a channel not in use is ignored; otherwise it leaves the in-use set and returns to the pool only while the pool is shorter than twice poolSize |
| ChannelPool.Pool.ReleaseAll | packages/electron-ipcx/shared/channel-pool.ts:114-116 | the same as releasing each channel in turn |
| ChannelPool.ReleasedBounds | packages/electron-ipcx/shared/channel-pool.ts:98-109 | a release never grows the pool past the larger of its length and the cap, never increases the total, and takes the channel out of use |
| ChannelPool.ReleasedAllBounds | packages/electron-ipcx/shared/channel-pool.ts:105-116 | after releaseAll the same bounds hold and none of the released channels is still in use |
| ChannelPool.Pool.GetStats | packages/electron-ipcx/shared/channel-pool.ts:121-127 | poolSize and inUse are the two counts and total their sum; with the pool valid, total is the number of distinct channels the pool holds |
| ChannelPool.Pool.Clear | packages/electron-ipcx/shared/channel-pool.ts:132-135 | the pool and the in-use set are both empty |
| ChannelPool.CountTextFourDigits | packages/electron-ipcx/shared/channel-pool.ts:155-162 | every counter value is written with exactly four digits that read back as the counter |
| ChannelPool.Generator.constructor | packages/electron-ipcx/shared/channel-pool.ts:141-147 | the counter starts at 0 with the given prefix |
| ChannelPool.Generator.Generate | packages/electron-ipcx/shared/channel-pool.ts:153-164 | the name is `<now>_<counter padded to four digits>` behind the prefix; the counter moves on and wraps from 9999 to 0 |
| ChannelPool.Hybrid.constructor | packages/electron-ipcx/shared/channel-pool.ts:176-183 | threshold defaults to 3; the generator takes the pool's prefix or "" |
| ChannelPool.Hybrid.Acquire | packages/electron-ipcx/shared/channel-pool.ts:188-207 | more functions than the threshold gives a generated channel named from the next id, advances the id counter and leaves the pool alone; otherwise it acquires from the pool exactly as Pool.Acquire does: the last pooled channel when there is one, else the channel-exhausted error without autoExpand, else a freshly generated channel |
| ChannelPool.Hybrid.Release | packages/electron-ipcx/shared/channel-pool.ts:197-205 | releasing a pooled channel is the pool's release; releasing a generated one changes nothing |
| ChannelPool.Hybrid.GetStats | packages/electron-ipcx/shared/channel-pool.ts:209-211 | the stats of the underlying pool; with the pool valid, total is the number of distinct channels it holds |
| ClipboardFormats.EscapeXml | desktop/electron/helpers/clipboard.js:334-337 | a value that is not a string is returned as its String() text, unescaped |
| ClipboardFormats.ReplaceChainIsEscapeEach | desktop/electron/helpers/clipboard.js:339-344 | because `&` is replaced first, the chain of five global replaces writes every character as its own entity exactly once: nothing is escaped twice |
| ClipboardFormats.EscapeEachReserved | desktop/electron/helpers/clipboard.js:339-344 | the escaped text holds none of `<`, `>`, `"` and `'` |
| ClipboardFormats.UnescapeEscapeXml | desktop/electron/helpers/clipboard.js:334-345 | reading the entities back undoes escapeXml: the plist holds the path unchanged |
| Strings.Utf16Units | desktop/electron/helpers/clipboard.js:312-313 | the UTF-16 code units of a text are 16-bit, at least one per character, and NUL-free when the text is |
| Strings.Utf16LengthUnits | desktop/src/database/utils/validation.js:93 | the UTF-16 length that `.length` reports is the number of code units of the text |
| ClipboardFormats.DecodeUtf16OfUnits | desktop/electron/helpers/clipboard.js:312-313 | decoding the UTF-16 units of a text gives the text back (surrogate pairs included) |
| ClipboardFormats.UnitsOfUtf16Le | desktop/electron/helpers/clipboard.js:313 | the 'utf16le' bytes read back, two at a time low byte first, as the code units |
| ClipboardFormats.ReadU32LeOfU32Le | desktop/electron/helpers/clipboard.js:317-321 | a word written with writeUInt32LE reads back as the same value |
| ClipboardFormats.WriteUInt32LE | desktop/electron/helpers/clipboard.js:317-321 | the four bytes at the offset become the little-endian value and the rest of the buffer is unchanged |
| ClipboardFormats.CFHDrop | desktop/electron/helpers/clipboard.js:308-326 | the payload is the 20-byte DROPFILES header, then two bytes per UTF-16 unit of the path and its NUL, then four NUL bytes |
| ClipboardFormats.CreateCFHDropBuffer | desktop/electron/helpers/clipboard.js:308-326 | the header written word by word into a zeroed 20-byte buffer, concatenated with the path and the double NUL, is exactly the CF_HDROP payload |
| ClipboardFormats.CFHDropHeader | desktop/electron/helpers/clipboard.js:316-321 | the header says the file list starts at byte 20 and is in wide characters |
| ClipboardFormats.ReadCFHDropRoundTrip | desktop/electron/helpers/clipboard.js:308-326 | a shell reading the payload (header, then the NUL-terminated list at pFiles) finds exactly the one file path that was written, for any non-empty path without NUL |
| CommandArgs.KebabCase | src/utils/command/index.js:30 | the flag body holds no upper-case letter and is at least as long as the name |
| CommandArgs.CamelCaseOfKebabCase | src/utils/command/index.js:28-30 | a camelCase option name without dashes is recovered from its flag: the renaming loses nothing |
| CommandArgs.FormatParamName | src/utils/command/index.js:18-31 | throws exactly for the empty name; a name starting with '-' is kept, a name one UTF-16 code unit long becomes "-" followed by it, a longer name gets '--' and each capital letter replaced by '-' and its lower case |
| CommandArgs.AstralParamName | src/utils/command/index.js:28 | one character above U+FFFF has `.length` 2, so it gets '--' rather than '-' |
| CommandArgs.QuoteAsWrittenUnterminated | src/utils/command/index.js:45-46 | as written, the value `a \` is quoted as `"a \"`, whose closing quote the shell reads as escaped: the word never ends |
| CommandArgs.QuoteRoundTrip | src/utils/command/index.js:45-46 | with backslashes escaped too, the shell reads the quoted word back as the original text |
| CommandArgs.QuoteAsWritten | src/utils/command/index.js:46 | the quoting as written: the value between double quotes with only its double quotes escaped |
| CommandArgs.Quote | src/utils/command/index.js:45-46 | the corrected half of the quoting finding: backslashes escaped as well as double quotes (QuoteRoundTrip proves the shell reads it back) |
| CommandArgs.QuotingsAgreeWithoutBackslash | src/utils/command/index.js:45-46 | for text without a backslash the corrected quoting is exactly the one written |
| CommandArgs.FormatString | src/utils/command/index.js:39-47 | the formatted string value is never empty; "" becomes `""`; text without whitespace or quotes passes unchanged; other text is double-quoted with only its double quotes escaped, and the shell reads it back as the text whenever the text holds no backslash |
| CommandArgs.FormatStringUnterminated | src/utils/command/index.js:45-46 | as written, formatting the text `a \` gives a word the shell never closes |
| CommandArgs.FormatValue | src/utils/command/index.js:34-65 | throws exactly for null, undefined, non-finite numbers, objects and functions; a string is formatted by formatString (read back when backslash-free); integers print in decimal, as toString does below 10^21 (see Left out); booleans give ""; an array is its items joined by commas, then formatted as a string |
| CommandArgs.ItemArgs | src/utils/command/index.js:89-96 | every argument an array option pushes is `paramName=` followed by an item formatted with the quoting as written |
| CommandArgs.ItemArgsError | src/utils/command/index.js:89-96 | once an item throws, the whole array option throws with that error |
| CommandArgs.EntryArgs | src/utils/command/index.js:68-105 | a skipped value (null, undefined, false, "") contributes nothing, and every pushed argument starts with '-'; values are formatted with the quoting as written |
| CommandArgs.EntryArgsMeaning | src/utils/command/index.js:76-104 | an option set to true becomes the bare flag; one set to text becomes `flag=` followed by the text formatted with the quoting as written |
| CommandArgs.Args | src/utils/command/index.js:67-105 | every argument of the whole options object starts with '-', built with the quoting as written |
| CommandArgs.ArgsError | src/utils/command/index.js:67-105 | once an option throws, stringify throws with that error and later options do not matter |
| CommandArgs.Stringify | src/utils/command/index.js:6-13 | a string passes through unchanged; anything but a string or a plain object throws "Options must be a plain object"; a plain object gives its arguments, quoted as written, joined by spaces |
| CommandArgs.PushItems | src/utils/command/index.js:89-96 | the forEach over an array option pushes exactly the item arguments of ItemArgs, quoted as written |
| CommandArgs.PushEntry | src/utils/command/index.js:69-104 | the loop body pushes exactly what one option contributes (EntryArgs, quoted as written), or throws its error |
| CommandArgs.StringifyOptions | src/utils/command/index.js:6-108 | the loop over Object.entries computes exactly stringify's result, quoted as written |
| CopilotSessions.WithoutWithout | desktop/copilot/electron/services/modules/session.js:474-504 | removing devices from the insertion order one batch after another is removing their union |
| CopilotSessions.AcceptedTimeoutMeaning | desktop/copilot/electron/services/modules/session.js:677-685 | the accepted timeouts are the positive integers, +Infinity and NaN; with the last two no session ever counts as idle |
| CopilotSessions.IdsDraw | desktop/copilot/electron/services/modules/session.js:116-118 | the next random id was never produced before and is not in the id index |
| CopilotSessions.ValidInsert | desktop/copilot/electron/services/modules/session.js:116-158 | indexing a new idle session under the next id keeps both indexes, the order, runningTasks and the id history in agreement |
| CopilotSessions.ValidPut | desktop/copilot/electron/services/modules/session.js:203-214 | writing a session anew under the same id, with runningTasks following its running flag, keeps the invariant |
| CopilotSessions.ValidRemove | desktop/copilot/electron/services/modules/session.js:496-504 | deleting a device from both indexes, the order and runningTasks keeps the invariant |
| CopilotSessions.RunningAmong | desktop/copilot/electron/services/modules/session.js:514-518 | the devices picked are exactly those whose session is running, in the Map's order |
| CopilotSessions.IdleAmong | desktop/copilot/electron/services/modules/session.js:648-662 | the devices picked are exactly those whose session is idle at now, in the Map's order |
| CopilotSessions.SessionManager.constructor | desktop/copilot/electron/services/modules/session.js:70-88 | no sessions, nothing running; idleTimeout is the option when truthy and 30 minutes otherwise; the idle check runs |
| CopilotSessions.SessionManager.CreateNewSession | desktop/copilot/electron/services/modules/session.js:116-158 | a new session, not running, created and active now, under a random id no session had, indexed by device (last in the Map order) and by id |
| CopilotSessions.SessionManager.GetOrCreateSession | desktop/copilot/electron/services/modules/session.js:97-107 | an existing session is reused with only lastActiveAt moved to now; otherwise a new session is created; either way runningTasks is unchanged |
| CopilotSessions.SessionManager.UpdateSessionState | desktop/copilot/electron/services/modules/session.js:203-214 | the session takes the task and running flag and is touched; its device is in runningTasks exactly when it is running |
| CopilotSessions.SessionManager.ExecuteTask | desktop/copilot/electron/services/modules/session.js:171-180 | after executeTask's synchronous part only the device's session changes: an existing one gains the task, the running flag and lastActiveAt now with its other fields kept, a new one is a fresh session under a new id doing the same, indexed and last in the Map; the device joins runningTasks |
| CopilotSessions.SessionManager.StopTask | desktop/copilot/electron/services/modules/session.js:452-467 | the device's agent is asked to abort with the reason exactly when the device has a session |
| CopilotSessions.SessionManager.CleanupSession | desktop/copilot/electron/services/modules/session.js:496-504 | the session leaves both indexes, the order and runningTasks |
| CopilotSessions.SessionManager.DestroySession | desktop/copilot/electron/services/modules/session.js:474-489 | a running session's task is aborted with the destroy reason, then the session is removed everywhere; no session, no change |
| CopilotSessions.SessionManager.StopRunning | desktop/copilot/electron/services/modules/session.js:514-518 | one abort request per running session, in the Map's order |
| CopilotSessions.SessionManager.DestroyAll | desktop/copilot/electron/services/modules/session.js:509-528 | every running task is aborted in the Map's order, all indexes are emptied and the idle check stops |
| CopilotSessions.SessionManager.GetSessionById | desktop/copilot/electron/services/modules/session.js:536-538 | a session is found iff the id is indexed, and it is its device's current session |
| CopilotSessions.SessionManager.GetSessionByDevice | desktop/copilot/electron/services/modules/session.js:546-548 | a session is found iff the device has one, and looking up its id finds the same session |
| CopilotSessions.SessionManager.ActiveSessions | desktop/copilot/electron/services/modules/session.js:555-564 | one summary per session in the Map's order, every device exactly once, running exactly when the device is in runningTasks |
| CopilotSessions.SessionManager.ClearRunningState | desktop/copilot/electron/services/modules/session.js:606-612 | the session is reset (no steps, not running, no task, touched) and its device leaves runningTasks; the indexes stay consistent exactly when the passed session does not shadow a running one |
| CopilotSessions.SessionManager.CollectIdle | desktop/copilot/electron/services/modules/session.js:644-663 | the first loop lists exactly the idle sessions' devices in the Map's order |
| CopilotSessions.SessionManager.DestroyEach | desktop/copilot/electron/services/modules/session.js:665-666 | destroying the listed idle devices removes exactly them and aborts nothing |
| CopilotSessions.SessionManager.CheckIdleSessions | desktop/copilot/electron/services/modules/session.js:644-670 | exactly the sessions that are not running and idle longer than the timeout are destroyed; the others are untouched and nothing is aborted |
| CopilotSessions.SessionManager.SetIdleTimeout | desktop/copilot/electron/services/modules/session.js:677-685 | the timeout changes only to a number that is not `<= 0`; anything else is ignored |
| CopilotSessions.ConcurrencyLimit | desktop/copilot/electron/services/modules/session.js:262-264 | the limit is the custom limit, else the stored setting, else 5, and never null or undefined |
| CopilotSessions.NormalizeExecuteError | desktop/copilot/electron/services/modules/session.js:416-444 | status 400 with an error message gives API_NOT_PURCHASED with that message; else a timeout or abort gives a retryable NETWORK_ERROR; else UNKNOWN_ERROR with the error's message or the default; the message is always truthy and the raw error is kept |
| CopilotSessions.CategorizeResults | desktop/copilot/electron/services/modules/session.js:328-349 | the loop splits the results into the fulfilled sessions and the rejected failures, in order |
| CopilotSessions.CategorizePartition | desktop/copilot/electron/services/modules/session.js:328-349 | the split is a partition: every result lands in exactly one list, and every listed entry comes from a result |
| DeviceId.PortOf | desktop/src/utils/device/index.js:29-44 | the port is always in 1..65535: a present port group in range is kept, a missing or out-of-range one becomes 5555 |
| DeviceId.LazyHostLength | desktop/src/utils/device/index.js:40 | the lazy host group ends at the first position after which the input ends or only a `:digits` port remains |
| DeviceId.BracketEnd | desktop/src/utils/device/index.js:32 | an IPv6 match has a non-empty bracketed host without ']' inside, followed by nothing or a port |
| DeviceId.ParseDeviceId | desktop/src/utils/device/index.js:20-49 | blank input gives host "" and port 5555; otherwise the host is a non-empty prefix of the trimmed input and the port is in range |
| DeviceId.ParseTrimmed | desktop/src/utils/device/index.js:27-48 | on trimmed, non-empty input the port is in range and the host is a non-empty prefix of the input |
| DeviceId.ParseFormatRoundTrip | desktop/src/utils/device/index.js:40-44 | parsing `host:port` for a plain host and a valid port gives back that host and port |
| DeviceId.ParseHostOnly | desktop/src/utils/device/index.js:40-44 | a plain host without a port gets port 5555 |
| DeviceId.ParseIpv6RoundTrip | desktop/src/utils/device/index.js:32-37 | parsing `[addr]:port` keeps the brackets on the host and gives back the port |
| ErrorHandling.NewEscrcpyError | src/utils/error-handling.js:9-17 | the error is named EscrcpyError, keeps the message text, and its code and details default to UNKNOWN_ERROR and {} only when undefined |
| ErrorHandling.AsEscrcpyError | src/utils/error-handling.js:87 | an EscrcpyError is logged as it is; any other value is wrapped with code UNKNOWN_ERROR, its message and the original under details.originalError; reading the message of undefined or null throws |
| ErrorHandling.Tail | src/utils/error-handling.js:100-102 | slice(-n) keeps the last n entries, or all when there are fewer |
| ErrorHandling.TailAppend | src/utils/error-handling.js:96-102 | trimming after every push gives the last 100 entries of everything ever logged |
| ErrorHandling.IndexOf | src/utils/error-handling.js:134 | the first position of the callback, or -1 exactly when it is not registered |
| ErrorHandling.RemoveFirst | src/utils/error-handling.js:131-139 | exactly one registration of a registered callback goes and the others keep their order; an unregistered callback changes nothing |
| ErrorHandling.RemoveFirstOthers | src/utils/error-handling.js:131-139 | every other callback keeps its number of registrations |
| ErrorHandling.Deliveries | src/utils/error-handling.js:144-153 | every 'error' listener is called once, in registration order, with the entry |
| ErrorHandling.Bump | src/utils/error-handling.js:192-196 | one more occurrence adds one to that key's count (counting from 0 when absent) and leaves the other counts alone |
| ErrorHandling.TotalBump | src/utils/error-handling.js:192-196 | one more occurrence adds one to the sum of the counts |
| ErrorHandling.TallyTotal | src/utils/error-handling.js:191-197 | the counts of a tally add up to the number of entries tallied |
| ErrorHandling.Tally | src/utils/error-handling.js:191-197 | the counter object has a key exactly for the keys counted |
| ErrorHandling.StatsTotals | src/utils/error-handling.js:182-200 | total is the log's length, the per-severity counts and the per-code counts each add up to it, and recent is the last ten entries |
| ErrorHandling.StatsOf | src/utils/error-handling.js:182-200 | getErrorStats: the total, the per-severity and per-code counter objects and the last ten entries (StatsTotals states their meaning) |
| ErrorHandling.StatsSeverities | src/utils/error-handling.js:191-193 | a severity is counted exactly when some entry of the log has it |
| ErrorHandling.StatsCodes | src/utils/error-handling.js:195-196 | a code is counted exactly when some entry of the log has it |
| ErrorHandling.ErrorHandler.constructor | src/utils/error-handling.js:77-81 | an empty log and no listeners |
| ErrorHandling.ErrorHandler.AddListener | src/utils/error-handling.js:121-126 | the callback is appended to the event's listeners, creating the list when missing |
| ErrorHandling.ErrorHandler.RemoveListener | src/utils/error-handling.js:131-139 | the first registration of the callback is removed from the event's listeners; an unknown event changes nothing |
| ErrorHandling.ErrorHandler.NotifyListeners | src/utils/error-handling.js:144-153 | the loop calls exactly the 'error' listeners, in order, with the entry |
| ErrorHandling.ErrorHandler.Log | src/utils/error-handling.js:96-102 | the log becomes the last 100 entries of the old log plus the new one |
| ErrorHandling.ErrorHandler.HandleError | src/utils/error-handling.js:86-116 | the wrapped error is logged with its context (null when omitted), severity ('error' when omitted) and time, listeners are notified, and 'error' and 'critical' entries reach the user notification; a null or undefined error throws before anything is logged, and a non-string severity throws after logging |
| ErrorHandling.ErrorHandler.GetErrorStats | src/utils/error-handling.js:182-200 | the counting loop computes exactly the statistics of the log |
| ErrorHandling.ErrorHandler.ClearErrors | src/utils/error-handling.js:205-207 | the log is empty |
| ErrorHandling.ErrorHandler.ExportErrors | src/utils/error-handling.js:212-218 | the export holds the log, its statistics and the export time |
| ErrorHandling.FirstFailure | src/utils/error-handling.js:446-460 | validation passes exactly when every schema key passes, and a failure is the verdict of some key |
| ErrorHandling.ValidateConfiguration | src/utils/error-handling.js:443-467 | the loop returns true exactly when no schema key fails its checks (a missing required key, a typeof mismatch, or a throwing access) |
| ErrorHandling.MissingRequiredRejected | src/utils/error-handling.js:447-449 | a required key missing from an object config makes validation fail |
| ErrorHandling.TypeMismatchRejected | src/utils/error-handling.js:451-457 | a present key whose typeof differs from the schema's type makes validation fail |
| FileClipboard.AsArray | desktop/src/hooks/useExplorer/modules/useClipboard.js:53-65 | a single entry becomes a one-entry list and an array is kept as it is |
| FileClipboard.Clipboard.constructor | desktop/src/hooks/useExplorer/modules/useClipboard.js:18-25 | the clipboard starts empty, without an action or a source path |
| FileClipboard.Clipboard.State | desktop/src/hooks/useExplorer/modules/useClipboard.js:37-45 | count is the number of items, isEmpty holds iff there are none, and the state is never both cut and copy |
| FileClipboard.Clipboard.ItemsToRemove | desktop/src/hooks/useExplorer/modules/useClipboard.js:102-104 | after a cut the items to remove are the clipboard's items, all shown as cut; otherwise none |
| FileClipboard.Clipboard.Copy | desktop/src/hooks/useExplorer/modules/useClipboard.js:52-57 | items, action 'copy' and source path are set together, and a paste then removes nothing |
| FileClipboard.Clipboard.HasClipboard | desktop/src/hooks/useExplorer/modules/useClipboard.js:28 | hasClipboard: the clipboard holds at least one entry |
| FileClipboard.Clipboard.IsCutOperation | desktop/src/hooks/useExplorer/modules/useClipboard.js:31 | isCutOperation: the clipboard action is cut |
| FileClipboard.Clipboard.IsCopyOperation | desktop/src/hooks/useExplorer/modules/useClipboard.js:34 | isCopyOperation: the clipboard action is copy, never at the same time as a cut |
| FileClipboard.Clipboard.IsInClipboard | desktop/src/hooks/useExplorer/modules/useClipboard.js:85-87 | isInClipboard: some clipboard entry has the item's id, which needs a non-empty clipboard |
| FileClipboard.Clipboard.IsCut | desktop/src/hooks/useExplorer/modules/useClipboard.js:94-96 | isCut: the clipboard holds a cut and the item is on it; a cut item means a non-empty clipboard that is not a copy |
| FileClipboard.Clipboard.Cut | desktop/src/hooks/useExplorer/modules/useClipboard.js:64-69 | items, action 'cut' and source path are set together; every cut entry is shown as cut and is removed after the paste |
| FileClipboard.Clipboard.Clear | desktop/src/hooks/useExplorer/modules/useClipboard.js:74-78 | no items, no action, no source path, hasClipboard false and nothing to remove |
| FileEntries.IdsOf | desktop/src/hooks/useExplorer/modules/useSelection.js:94-156 | the id set of a list holds exactly the ids of its entries |
| FileEntries.WithoutIds | desktop/src/hooks/useExplorer/modules/useSelection.js:59-157 | the filter keeps, in order, exactly the entries whose id is not removed, and its id set is the old one minus the removed ids |
| FileEntries.WithoutIdsAppend | desktop/src/hooks/useExplorer/modules/useSelection.js:57-62 | filtering a concatenation filters each part |
| FileEntries.OfKind | desktop/src/hooks/useExplorer/modules/useSelection.js:31-149 | the filter by type keeps exactly the entries of that type |
| FileEntries.OfKindNonEmpty | desktop/src/hooks/useExplorer/modules/useSelection.js:27-28 | `some(type === kind)` holds iff the filter by that type is non-empty |
| FileEntries.WithoutIdsDistinct | desktop/src/hooks/useExplorer/modules/useSelection.js:57-159 | filtering a list without repeated ids gives a list without repeated ids |
| FileEntries.WithoutIdsTwice | desktop/src/hooks/useExplorer/modules/useSelection.js:155-159 | removing the ids that survive a first removal keeps exactly the ids that were removed |
| FileEntries.AppendDistinct | desktop/src/hooks/useExplorer/modules/useSelection.js:81-87 | appending lists whose ids do not overlap keeps ids distinct |
| Selection.StateOf | desktop/src/hooks/useExplorer/modules/useSelection.js:23-34 | count is the number of items, isEmpty iff there are none, hasFiles/hasDirectories iff some item has that type, and files/directories hold exactly the items of that type |
| Selection.FilesAndDirectoriesCount | desktop/src/hooks/useExplorer/modules/useSelection.js:23-34 | the files and directories of a selection never outnumber it |
| Selection.SelectionStore.constructor | desktop/src/hooks/useExplorer/modules/useSelection.js:13-17 | nothing selected, and selectedIds agrees with selectedItems |
| Selection.SelectionStore.GetSelectionByType | desktop/src/hooks/useExplorer/modules/useSelection.js:147-149 | the selected entries of that type, exactly |
| Selection.SelectionStore.Select | desktop/src/hooks/useExplorer/modules/useSelection.js:46-51 | a selected id leaves the list unchanged; otherwise the entry is appended; the id is selected after, and no id is listed twice |
| Selection.SelectionStore.Deselect | desktop/src/hooks/useExplorer/modules/useSelection.js:57-62 | removes only that id, keeping the other entries in order |
| Selection.SelectionStore.Toggle | desktop/src/hooks/useExplorer/modules/useSelection.js:68-75 | flips whether the entry is selected: deselect when selected, select otherwise |
| Selection.ToggleTwice | desktop/src/hooks/useExplorer/modules/useSelection.js:68-75 | toggling twice restores the selected ids; an unselected entry leaves the list as it was, a selected one moves to the end |
| Selection.SelectionStore.SelectMultiple | desktop/src/hooks/useExplorer/modules/useSelection.js:81-87 | appends exactly the given entries whose ids are not selected yet, keeping ids distinct |
| Selection.AddItems | desktop/src/hooks/useExplorer/modules/useSelection.js:81-87 | the entries selectMultiple appends bring in exactly the ids of the given entries, and keep ids distinct |
| Selection.SelectionStore.IsSelected | desktop/src/hooks/useExplorer/modules/useSelection.js:121-123 | isSelected: the entry's id is among the selected ids |
| Selection.SelectionStore.HasSelection | desktop/src/hooks/useExplorer/modules/useSelection.js:37 | hasSelection: at least one entry is selected |
| Selection.SelectionStore.SelectionCount | desktop/src/hooks/useExplorer/modules/useSelection.js:40 | selectionCount: the number of selected entries, zero exactly when there is no selection |
| Selection.SelectionStore.DeselectMultiple | desktop/src/hooks/useExplorer/modules/useSelection.js:93-97 | removes exactly the entries with the given ids, keeping the others in order |
| Selection.SelectionStore.SetSelection | desktop/src/hooks/useExplorer/modules/useSelection.js:103-140 | the selection becomes the given list, and selectedIds its ids |
| Selection.SelectionStore.ClearSelection | desktop/src/hooks/useExplorer/modules/useSelection.js:111-114 | nothing selected |
| Selection.SelectionStore.InvertSelection | desktop/src/hooks/useExplorer/modules/useSelection.js:155-159 | exactly the entries of allItems that were not selected, in allItems order; each one's selected state flips |
| Selection.InvertTwice | desktop/src/hooks/useExplorer/modules/useSelection.js:155-159 | inverting twice over the same entries re-selects exactly the selected ids among them |
| FilePreview.FileExtension | desktop/src/hooks/useExplorer/modules/useFilePreview.js:73-78 | "" exactly when the name has no dot; otherwise the lower-cased suffix from the last dot, which holds no further dot |
| FilePreview.FileExtensionOfSuffix | desktop/src/hooks/useExplorer/modules/useFilePreview.js:73-78 | a name ending in a dot and a dot-free suffix has that suffix, lower-cased, as its extension |
| FilePreview.FirstCategoryFrom | desktop/src/hooks/useExplorer/modules/useFilePreview.js:96-97 | the first category, in declaration order, that lists the extension; none when no category does |
| FilePreview.PreviewVerdict | desktop/src/hooks/useExplorer/modules/useFilePreview.js:85-112 | the corrected half of the size finding: the verdict with the size limit compared with the byte count rawSize; a directory is never supported; a supported entry has an extension and, unless 'unknown', the first category listing it with a size within its limit; 'unknown' exactly when no category lists the extension |
| FilePreview.CheckPreviewSupport | desktop/src/hooks/useExplorer/modules/useFilePreview.js:85-112 | the loop over the categories computes exactly the verdict as written (CheckPreviewSupportAsWritten) |
| FilePreview.Classify | desktop/src/hooks/useExplorer/modules/useFilePreview.js:86-97 | a known type names a category of the table |
| FilePreview.ClassifyMeaning | desktop/src/hooks/useExplorer/modules/useFilePreview.js:86-97 | a directory exactly for directory entries, no extension exactly when the name has none, an unknown type exactly when no category lists the extension, otherwise a category listing it |
| FilePreview.CheckPreviewSupportAsWritten | desktop/src/hooks/useExplorer/modules/useFilePreview.js:85-112 | checkPreviewSupport as written: a directory is never supported; a supported entry has an extension and, unless 'unknown', the first category listing it, with the size field either falsy or not greater than the limit; 'unknown' exactly when no category lists the extension; a refused file with an extension has a truthy size field greater than its category's limit |
| FilePreview.TooLargeAsWritten | desktop/src/hooks/useExplorer/modules/useFilePreview.js:99 | the size test as written: a truthy size field compared with the category's maxSize |
| FilePreview.AsWrittenIgnoresTextSize | desktop/src/hooks/useExplorer/modules/useFilePreview.js:99 | as written, an entry whose size text is not a number is never refused for its size |
| FilePreview.LargeVideoRefused | desktop/src/hooks/useExplorer/modules/useFilePreview.js:47-105 | with the byte count, a video over 500 MiB is refused with the video type and the 500MB reason |
| FilePreview.PreviewSizeCheckIgnored | desktop/src/hooks/useExplorer/modules/useFilePreview.js:99-105 | a 600 MiB video listed with size "600 MiB" passes as written and is refused by the byte-count test |
| IconMap.Lookup | desktop/src/plugins/file-icon/utils/iconMap.js:228-256 | a type's config is found iff the table has an entry with that name, and it is that entry's config |
| IconMap.SetEntry | desktop/src/plugins/file-icon/utils/iconMap.js:149-256 | after `FILE_ICON_MAP[type] = config` the type maps to the config and every other type is unchanged; an existing type keeps its position; a new type that is an array index goes after the smaller array-index names, as Object.entries lists it, and any other new type goes last; property order is kept |
| IconMap.InsertionPoint | desktop/src/plugins/file-icon/utils/iconMap.js:149 | a name that is not an array index goes last; an array index goes after the leading array-index names smaller than it |
| IconMap.LeadingIndicesBelow | desktop/src/plugins/file-icon/utils/iconMap.js:149 | the longest run of leading array-index names below a bound, and the entry after it is not one |
| IconMap.InsertOrdered | desktop/src/plugins/file-icon/utils/iconMap.js:149-256 | inserting a new name at its insertion point keeps the table in property order (array indices first, ascending) |
| IconMap.LookupInsert | desktop/src/plugins/file-icon/utils/iconMap.js:256 | inserting a new name at any position adds its lookup and changes no other |
| IconMap.SetNewKey | desktop/src/plugins/file-icon/utils/iconMap.js:256 | a new name inserted at a position is found with its config, every other lookup is unchanged, and the names are the old ones with it at that position |
| IconMap.SetExistingKey | desktop/src/plugins/file-icon/utils/iconMap.js:256 | overwriting an existing name keeps every name in place and changes only that lookup |
| IconMap.AddExtensionsLookup | desktop/src/plugins/file-icon/utils/iconMap.js:151-154 | after the inner loop each listed extension, lower-cased, maps to the type, and unlisted extensions keep their old mapping |
| IconMap.ExtensionCacheLastWins | desktop/src/plugins/file-icon/utils/iconMap.js:148-156 | the cache maps an extension to the last type in table order that lists it, in any letter case |
| IconMap.ExtensionCacheUnlisted | desktop/src/plugins/file-icon/utils/iconMap.js:148-156 | an extension no type lists is not in the cache |
| IconMap.CacheEntryListed | desktop/src/plugins/file-icon/utils/iconMap.js:148-156 | every cached extension is listed by the type it maps to |
| IconMap.PdfOverridesDocument | desktop/src/plugins/file-icon/utils/iconMap.js:39-153 | in the default table '.pdf' maps to the pdf type, although document lists it too |
| IconMap.IconExtension | desktop/src/plugins/file-icon/utils/iconMap.js:166-175 | "" exactly when there is no dot or the dot ends the name; otherwise the name from its last dot on, lower-cased |
| IconMap.IconExtensionOfSuffix | desktop/src/plugins/file-icon/utils/iconMap.js:166-175 | a name ending in a dot and a non-empty, dot-free suffix has that suffix, with its dot, lower-cased as its extension |
| IconMap.IconTypeFor | desktop/src/plugins/file-icon/utils/iconMap.js:185-240 | a directory query gives 'directory'; a name without an extension gives 'default'; otherwise the type the extension cache holds for the extension when there is one and the table has it, else 'default' |
| IconMap.PdfFileIcon | desktop/src/plugins/file-icon/utils/iconMap.js:142-159 | with the default table, a name ending in ".pdf" gets the 'pdf' icon: the later pdf entry overrides document's claim on the extension |
| IconMap.IconRegistry.constructor | desktop/src/plugins/file-icon/utils/iconMap.js:11-136 | the default table, which is in property order because none of its names is an array index, and no cache |
| IconMap.IconRegistry.BuildExtensionCache | desktop/src/plugins/file-icon/utils/iconMap.js:142-159 | the nested loops build exactly the extension cache of the table, and an existing cache is returned as it is |
| IconMap.ExtensionCache | desktop/src/plugins/file-icon/utils/iconMap.js:142-159 | the map buildExtensionCache builds: each listed extension, lower-cased, to the last type listing it |
| IconMap.IconRegistry.GetFileIconInfo | desktop/src/plugins/file-icon/utils/iconMap.js:185-240 | the icon type chosen for the query, with that type's config from the table; the extension cache is built exactly when the query names a file with an extension, and left as it was otherwise |
| IconMap.IconRegistry.AddIconType | desktop/src/plugins/file-icon/utils/iconMap.js:250-260 | a config without a type, icon or colour is ignored; otherwise the entry is set where SetEntry places it (an array-index name among the array indices, any other new name last) and the cache dropped |
| IconMap.IconRegistry.AddIconTypes | desktop/src/plugins/file-icon/utils/iconMap.js:266-273 | the table after adding each entry in turn, each placed as SetEntry places it, so property order is kept; the cache dropped iff some entry was acceptable |
| IconMap.AddedAllKeeps | desktop/src/plugins/file-icon/utils/iconMap.js:250-273 | adding types never removes one: the directory and default types stay |
| IpcxErrors.CodeTextInjective | packages/electron-ipcx/shared/errors.ts:9-29 | distinct error codes have distinct string values |
| IpcxErrors.IpcxError | packages/electron-ipcx/shared/errors.ts:31-43 | an IpcxError is named "IpcxError", keeps the message and carries its code's string value |
| IpcxErrors.AsError | packages/electron-ipcx/shared/errors.ts:142-153 | a thrown Error is used as it is; any other value becomes new Error(String(value)) |
| IpcxErrors.EnvelopeLookup | packages/electron-ipcx/shared/errors.ts:155-164 | the envelope object reads back __ipcxError true and the written name, message and stack; code is read from the extra fields only |
| IpcxErrors.ToValueGet | packages/electron-ipcx/shared/errors.ts:155-164 | reading each property of the envelope gives its field; the code property exists exactly when a code was written |
| IpcxErrors.WrapError | packages/electron-ipcx/shared/errors.ts:138-167 | the message is the Error's message or String(value); the name is truthy (the Error's own when truthy, else "Error"); a code is written exactly for an Error whose code is not undefined |
| IpcxErrors.WrapIpcxError | packages/electron-ipcx/shared/errors.ts:142-164 | wrapping an IpcxError carries the name "IpcxError" and its code's string value |
| IpcxErrors.IsErrorEnvelopeMeaning | packages/electron-ipcx/shared/errors.ts:187-194 | the envelopes are exactly the non-null objects whose __ipcxError property is exactly true |
| IpcxErrors.IsErrorEnvelope | packages/electron-ipcx/shared/errors.ts:187-194 | isErrorEnvelope: a non-null object whose __ipcxError property is strictly true (IsErrorEnvelopeMeaning restates it on plain objects) |
| IpcxErrors.EnvelopeRecognised | packages/electron-ipcx/shared/errors.ts:155-194 | every wrapped error is recognised as an envelope |
| IpcxErrors.UnwrapError | packages/electron-ipcx/shared/errors.ts:172-182 | a value is returned unchanged exactly when it is not an envelope; an envelope is thrown |
| IpcxErrors.UnwrapEnvelope | packages/electron-ipcx/shared/errors.ts:173-179 | unwrapping an envelope throws an Error with its name and message, and its code and stack when truthy |
| IpcxErrors.UnwrapWrapError | packages/electron-ipcx/shared/errors.ts:138-182 | wrap then unwrap of an Error throws an Error with the same message, the same name (or "Error"), and the same code and stack when truthy |
| IpcxErrors.UnwrapWrapValue | packages/electron-ipcx/shared/errors.ts:138-182 | wrap then unwrap of a non-Error value throws an Error whose message is String(value) |
| IpcxValidators.IsInvokeEnvelopeMeaning | packages/electron-ipcx/shared/validators.ts:14-19 | the envelopes are exactly the objects (arrays included) whose args and fns are both arrays |
| IpcxValidators.IsInvokeEnvelope | packages/electron-ipcx/shared/validators.ts:14-19 | isInvokeEnvelope: a truthy object whose args and fns are both arrays |
| IpcxValidators.ArrayIsNotEnvelope | packages/electron-ipcx/shared/validators.ts:14-19 | an array is never an envelope: reading args off it gives undefined |
| IpcxValidators.TrimArgsMeaning | packages/electron-ipcx/shared/validators.ts:29 | exactly one leading 'args' segment is removed, and only when it is there |
| IpcxValidators.TrimArgs | packages/electron-ipcx/shared/validators.ts:29 | the result is the parsed path itself or the path less one leading element |
| IpcxValidators.NormalizeDescriptor | packages/electron-ipcx/shared/validators.ts:24-40 | normalising fails exactly for a null or undefined descriptor or an index the path parser rejects, and keeps label, index and channel |
| IpcxValidators.NormalizeDescriptorSegments | packages/electron-ipcx/shared/validators.ts:29-32 | non-empty own segments are kept; otherwise the parsed index less its leading 'args' is used |
| IpcxValidators.NormalizeAllOk | packages/electron-ipcx/shared/validators.ts:80-93 | when the map succeeds, each result is its descriptor normalised, in place |
| IpcxValidators.NormalizeAllErr | packages/electron-ipcx/shared/validators.ts:80-93 | when the map fails, it names the first descriptor that throws |
| IpcxValidators.NormalizeAll | packages/electron-ipcx/shared/validators.ts:80-93 | on success one descriptor per function from the start on; on failure an index in range |
| IpcxValidators.NormalizeEnvelope | packages/electron-ipcx/shared/validators.ts:46-102 | an accepted payload is an invoke envelope, and the result keeps its args and one descriptor per function |
| IpcxValidators.NormalizeEnvelopeMeaning | packages/electron-ipcx/shared/validators.ts:46-102 | accepted exactly when isInvokeEnvelope holds and every descriptor normalises; otherwise INVALID_PAYLOAD for a bad payload and INVALID_DESCRIPTOR for a bad descriptor |
| IpcxValidators.NormalizeEnvelopeDescriptors | packages/electron-ipcx/shared/validators.ts:80-101 | an accepted envelope holds each descriptor normalised, in order |
| IpcxValidators.NormalizeEnvelopeBadDescriptor | packages/electron-ipcx/shared/validators.ts:80-93 | a rejected descriptor names the first index that throws |
| IpcxValidators.ValidateEnvelope | packages/electron-ipcx/shared/validators.ts:107-121 | never throws: valid with the normalised envelope exactly when normalizeEnvelope succeeds, else invalid with its error |
| IpcxValidators.PrepareInboundArgsOfEnvelope | packages/electron-ipcx/shared/validators.ts:138-140 | an accepted envelope contributes exactly its args |
| IpcxValidators.PrepareInboundArgs | packages/electron-ipcx/shared/validators.ts:133-149 | an invoke envelope gives its args; otherwise the rest arguments are kept, as the tail, preceded by the payload exactly when it is not undefined |
| IpcxValidators.PrepareInboundArgsOther | packages/electron-ipcx/shared/validators.ts:142-148 | an undefined payload gives the rest arguments; any other non-envelope payload goes first, before them |
| IpcxSerialize.FnLabel | packages/electron-ipcx/shared/serialize.ts:33 | a function's label is its name when it has one, else the text of its last path segment, else "fn" |
| IpcxSerialize.KeyPositionOfDistinct | packages/electron-ipcx/shared/serialize.ts:82 | with the distinct keys Object.entries yields, each entry is found again by its own key |
| IpcxSerialize.LocatesInArray | packages/electron-ipcx/shared/serialize.ts:62-63 | a function found below an array item is found below the array, one index segment further |
| IpcxSerialize.LocatesInObject | packages/electron-ipcx/shared/serialize.ts:82-83 | a function found below an object entry is found below the object, under the entry's key |
| IpcxSerialize.Serializer.constructor | packages/electron-ipcx/shared/serialize.ts:117-118 | serialisation starts from the untouched source with an empty seen map and no descriptors |
| IpcxSerialize.Serializer.Describe | packages/electron-ipcx/shared/serialize.ts:33-42 | the descriptor pushed for a function copies the path it was met at and labels it by FnLabel |
| IpcxSerialize.Serializer.Clone | packages/electron-ipcx/shared/serialize.ts:13-103 | past depth 100 the circular-reference error; a function becomes null with one descriptor; primitives, already-seen objects and non-plain objects are returned as they are; otherwise the result is a recorded clone that stands for the value, source nodes stay untouched, and every new descriptor locates a function below the value |
| IpcxSerialize.Serializer.CloneArray | packages/electron-ipcx/shared/serialize.ts:57-75 | the array's empty clone is recorded in seen before its items are cloned, ends as a complete clone, and any failure inside becomes SERIALIZE_FAILED |
| IpcxSerialize.Serializer.CloneItem | packages/electron-ipcx/shared/serialize.ts:62-64 | one forEach step stores the clone of item i at position i, and descriptors found there locate functions below the array |
| IpcxSerialize.Serializer.CloneObject | packages/electron-ipcx/shared/serialize.ts:77-95 | the plain object's empty clone is recorded before its entries are cloned, ends as a complete clone with the same keys in the same order, and any failure inside becomes SERIALIZE_FAILED |
| IpcxSerialize.Serializer.CloneEntry | packages/electron-ipcx/shared/serialize.ts:82-84 | one forEach step stores the clone of entry i under its key |
| IpcxSerialize.SerializeArgs | packages/electron-ipcx/shared/serialize.ts:105-147 | empty args give empty results; otherwise each sanitised argument stands for the original one, every descriptor locates a function in the arguments (paths start at the argument index), every function passed directly as an argument has a descriptor at its index, the source is untouched, and the only error callers see is SERIALIZE_FAILED |
| ModelClient.Message.constructor | packages/autoglm.js/src/model/client.ts:12-16 | a message holds the role and content it is built with |
| ModelClient.CreateSystemMessage | packages/autoglm.js/src/model/client.ts:12-17 | a new system message whose content is the given string |
| ModelClient.CreateAssistantMessage | packages/autoglm.js/src/model/client.ts:51-56 | a new assistant message whose content is the given string |
| ModelClient.CreateUserMessage | packages/autoglm.js/src/model/client.ts:22-46 | a new user message whose content parts are UserParts(text, image) |
| ModelClient.UserPartsShape | packages/autoglm.js/src/model/client.ts:26-40 | the text part comes last, and an image part with the PNG data-URL prefix precedes it exactly when a non-empty image is given |
| ModelClient.TextOnly | packages/autoglm.js/src/model/client.ts:63-65 | the kept parts are exactly the text parts, none added, order kept |
| ModelClient.TextOnlyAppend | packages/autoglm.js/src/model/client.ts:63-65 | filtering a concatenation filters each part |
| ModelClient.TextOnlyKeepsText | packages/autoglm.js/src/model/client.ts:63-65 | removing images twice removes nothing more: the filter is idempotent on its own output |
| ModelClient.TextOfUserMessage | packages/autoglm.js/src/model/client.ts:22-46 | removing images from a user message leaves exactly its text part |
| ModelClient.RemoveImagesFromMessage | packages/autoglm.js/src/model/client.ts:61-68 | the same message is returned; array content keeps only its text parts, string content is left alone |
| ModelClient.SetProperty | packages/autoglm.js/src/model/client.ts:74-77 | after a property write the key reads back the value and every other key reads as before |
| ModelClient.SpreadLookup | packages/autoglm.js/src/model/client.ts:74-77 | after spreading extraInfo over the base, a key holds extraInfo's value for it if any, else the base's |
| ModelClient.ScreenInfoFields | packages/autoglm.js/src/model/client.ts:73-79 | the screen info holds extraInfo's fields, and current_app unless extraInfo overrides it |
| ModelClient.ScreenInfo | packages/autoglm.js/src/model/client.ts:73-79 | the screen info is an object: current_app spread with extraInfo (its fields read back by ScreenInfoFields) |
| ModelClient.SplitFirstTwo | packages/autoglm.js/src/model/client.ts:133-134 | when the separator occurs, split gives the text before it and the text between its first and second occurrences |
| ModelClient.ParseMarked | packages/autoglm.js/src/model/client.ts:131-141 | with a finish or do marker, thinking is the trimmed text before its first occurrence and action runs from it to the marker's next occurrence |
| ModelClient.ParseSingleMarker | packages/autoglm.js/src/model/client.ts:131-141 | when the chosen marker occurs once, thinking's source text followed by the action is the whole reply |
| ModelClient.FinishWins | packages/autoglm.js/src/model/client.ts:131-135 | a finish marker takes precedence even when a do marker comes first |
| ModelClient.ParseLegacy | packages/autoglm.js/src/model/client.ts:143-149 | the legacy format: thinking is the text before answer with the think tags removed, action the text after it with the closing tag removed |
| ModelClient.ParseUnmarked | packages/autoglm.js/src/model/client.ts:151-152 | a reply with no markers is all action and no thinking |
| ModelClient.ParseResponse | packages/autoglm.js/src/model/client.ts:130-153 | the reply cut into [thinking, action]: a finish marker wins over a do marker, which wins over the legacy answer tag, and without any of them the whole reply is the action (ParseMarked, ParseLegacy and ParseUnmarked state each case) |
| ModelClient.HandleReply | packages/autoglm.js/src/model/client.ts:117-124 | an absent or empty reply fails with "Empty response from model"; otherwise thinking and action are the parsed reply and the raw content is kept |
| ModularApp.PriorityOrder | packages/electron-modularity/main/app.ts:17-21 | PRIORITY_VALUES sorts pre before normal, normal before post, and only equal priorities tie |
| ModularApp.NormalizePlugin | packages/electron-modularity/main/app.ts:348-386 | nothing for a missing plugin or an object without an apply function; a function plugin gets its own name, no deps, normal priority; an object plugin keeps its fields with deps defaulting to none and priority to normal |
| ModularApp.ResolveDisposeMeaning | packages/electron-modularity/main/app.ts:388-406 | a disposer exists exactly when the plugin's dispose, a function api, api.dispose or api.destroy is a function; it always calls a function; the plugin's own dispose wins and api.destroy is used only without api.dispose |
| ModularApp.ResolveDispose | packages/electron-modularity/main/app.ts:388-406 | resolveDispose: the plugin's dispose, then a function api, then api.dispose, then api.destroy (ResolveDisposeMeaning states the order) |
| ModularApp.ProvidedApi | packages/electron-modularity/main/app.ts:325 | the value provided as `plugin:<name>` is never null or undefined, and is the api whenever the api is neither |
| ModularApp.InjectAfterProvide | packages/electron-modularity/main/app.ts:143-150 | after provide(key, value), inject(key) gives value and every other key is unaffected |
| ModularApp.InjectFrom | packages/electron-modularity/main/app.ts:148-150 | inject on a map of provided values: the value of a provided key, else the fallback |
| ModularApp.App.Inject | packages/electron-modularity/main/app.ts:148-150 | inject(key, fallback): the provided value when hasService(key), and the fallback otherwise |
| ModularApp.App.HasService | packages/electron-modularity/main/app.ts:152-154 | hasService: a value has been provided under the key |
| ModularApp.InjectFallback | packages/electron-modularity/main/app.ts:148-150 | inject returns the fallback exactly when the key was never provided |
| ModularApp.DepsInMeaning | packages/electron-modularity/main/app.ts:300-306 | the dependency check holds exactly when every declared dependency is installed |
| ModularApp.DepsInMono | packages/electron-modularity/main/app.ts:300-306 | installing more plugins never unsatisfies a dependency list |
| ModularApp.OfPriorityMembers | packages/electron-modularity/main/app.ts:267-271 | the plugins picked for one priority all have it |
| ModularApp.SortByPriorityPermutes | packages/electron-modularity/main/app.ts:267-271 | sorting the queue keeps exactly its plugins (a permutation) |
| ModularApp.SortByPriorityOrdered | packages/electron-modularity/main/app.ts:267-271 | after sorting, priority values never decrease along the queue |
| ModularApp.SortByPriorityStable | packages/electron-modularity/main/app.ts:267-271 | the sort is stable: plugins of one priority keep their relative order |
| ModularApp.SortByPriority | packages/electron-modularity/main/app.ts:267-271 | pending.sort by priority value: the pre plugins, then the normal ones, then the post ones (the three lemmas above state permutation, order and stability) |
| ModularApp.MissingMeaning | packages/electron-modularity/main/app.ts:290 | a dependency is reported missing exactly when it is declared and not installed |
| ModularApp.UnresolvedEntries | packages/electron-modularity/main/app.ts:288-291 | the unresolved warning has one entry per plugin left queued, with its name and missing dependencies |
| ModularApp.WithDisposeMeaning | packages/electron-modularity/main/app.ts:220-229 | exactly the installed plugins that have a disposer are disposed |
| ModularApp.PassFromPermutes | packages/electron-modularity/main/app.ts:273-283 | one walk of the queue only moves plugins from the queue to the installed list |
| ModularApp.PassFrom | packages/electron-modularity/main/app.ts:273-283 | one walk of the queue: the plugins left and the plugins installed together number as many as the queue |
| ModularApp.PassFromAfterDeps | packages/electron-modularity/main/app.ts:273-283 | a walk installs each plugin only after all its dependencies are installed |
| ModularApp.PassFromNothing | packages/electron-modularity/main/app.ts:273-283 | a walk that installs nothing leaves the queue unchanged and found nothing ready |
| ModularApp.FlushPermutes | packages/electron-modularity/main/app.ts:250-284 | flushing neither loses nor invents plugins: what stays queued and what was installed make up the queue |
| ModularApp.Flush | packages/electron-modularity/main/app.ts:250-284 | flushPending: the plugins left and the plugins installed together number as many as the queue |
| ModularApp.FlushStep | packages/electron-modularity/main/app.ts:250-284 | a pass that installs nothing ends the flush; otherwise the flush goes on from the queue that pass left, with its plugins installed first |
| ModularApp.FlushAfterDeps | packages/electron-modularity/main/app.ts:250-284 | flushing installs every plugin after its dependencies |
| ModularApp.FlushFixpoint | packages/electron-modularity/main/app.ts:250-284 | flushing stops at a fixpoint: what stays queued is in priority order and none of it has all its dependencies installed |
| ModularApp.DisposeInReverse | packages/electron-modularity/main/app.ts:220-229 | the disposers are called last installed first, and one plugin:error is reported per disposer that throws, in that order |
| ModularApp.CoherentInstall | packages/electron-modularity/main/app.ts:308-330 | installing a named plugin whose dependencies are installed keeps the plugins map coherent: names once, each with its dependencies installed and its service provided |
| ModularApp.App.constructor | packages/electron-modularity/main/app.ts:82-85 | a new app has no services, no plugins, an empty queue and no events |
| ModularApp.App.Provide | packages/electron-modularity/main/app.ts:143-146 | provide sets one key and changes nothing else |
| ModularApp.App.Use | packages/electron-modularity/main/app.ts:176-211 | a non-plugin is ignored; a name already installed gives a duplicate warning and is not queued; otherwise the plugin is queued, with a priority-conflict warning when a queued plugin has its name and priority |
| ModularApp.App.Install | packages/electron-modularity/main/app.ts:308-330 | a named plugin is recorded (once in insertion order) and provided as plugin:name, the api or true; an anonymous one only emits plugin:installed |
| ModularApp.App.InstallAt | packages/electron-modularity/main/app.ts:279-281 | entry i is spliced out and installed as Install does: a named plugin's state recorded, its name appended to the order when new, and its api provided as plugin:name |
| ModularApp.App.InstallPass | packages/electron-modularity/main/app.ts:267-283 | one pass sorts the queue and walks it as PassFrom does, reporting whether anything was installed; the plugins map, its order and the services are StatesAfter, OrderAfter and ProvidedAfter of the plugins installed |
| ModularApp.App.FlushRounds | packages/electron-modularity/main/app.ts:251-284 | the while loop ends in the queue Flush describes, with one plugin:installed event per installed plugin, and the plugins map, its order and the services those installs give |
| ModularApp.App.FlushPending | packages/electron-modularity/main/app.ts:250-298 | the loop's queue, plugins map, order and services, then a non-empty queue reported once as unresolved dependencies |
| ModularApp.App.Start | packages/electron-modularity/main/app.ts:213-217 | start flushes the queue, leaving the plugins map, the install order Stop reads and the plugin:name services of the plugins installed, and then emits app:started |
| ModularApp.StatesAfter | packages/electron-modularity/main/app.ts:323-324 | the plugins map after a run of installs records exactly the old names and the named plugins installed |
| ModularApp.OrderAfter | packages/electron-modularity/main/app.ts:323-324 | the Map's key order after a run of installs extends the old order, holds exactly the old and new names, and stays free of repeats |
| ModularApp.ProvidedAfter | packages/electron-modularity/main/app.ts:325 | the services after a run of installs add exactly plugin:name for each named plugin installed |
| ModularApp.ProvidedAfterRecorded | packages/electron-modularity/main/app.ts:323-326 | when every recorded plugin's service is its api, that stays true after any run of installs: inject('plugin:name') gives the recorded api, or true for a nullish one |
| ModularApp.StatesAfterAppend | packages/electron-modularity/main/app.ts:273-284 | installing in two runs records what one run over both does, so the passes of flushPending compose |
| ModularApp.OrderAfterAppend | packages/electron-modularity/main/app.ts:273-284 | the same composition for the install order |
| ModularApp.ProvidedAfterAppend | packages/electron-modularity/main/app.ts:273-284 | the same composition for the services |
| ModularApp.App.Stop | packages/electron-modularity/main/app.ts:219-232 | stop disposes last installed first, reports each failing disposer, emits app:stopped, and changes no other state |
| PathManager.CollapseSlashes | desktop/src/hooks/useExplorer/modules/usePathManager.js:190 | the result has no run of slashes, is no longer than the input, keeps its first and last characters, and leaves a path without runs unchanged |
| PathManager.NormalizePathAsWritten | desktop/src/hooks/useExplorer/modules/usePathManager.js:182-192 | the path as written: starts with a slash and has no run of slashes |
| PathManager.NormalizePathAsWrittenNotIdempotent | desktop/src/hooks/useExplorer/modules/usePathManager.js:185-190 | "/a//" normalises to "/a/", which normalises again to "/a": the as-written normaliser is not idempotent |
| PathManager.NormalizePath | desktop/src/hooks/useExplorer/modules/usePathManager.js:182-192 | the corrected half of the normalisation finding: a leading slash, no run of slashes, and no trailing slash unless the path is the root |
| PathManager.NormalizePathIdempotent | desktop/src/hooks/useExplorer/modules/usePathManager.js:182-192 | a normalised path normalises to itself |
| PathManager.JoinPath | desktop/src/hooks/useExplorer/modules/usePathManager.js:199-201 | the joined path is the as-written normalisation of the two parts with a slash between them: an absolute path |
| PathManager.BreadcrumbCut | desktop/src/hooks/useExplorer/modules/usePathManager.js:143-150 | the path cut after the first occurrence of a breadcrumb value is rooted |
| PathManager.BreadcrumbCutPrefix | desktop/src/hooks/useExplorer/modules/usePathManager.js:143-150 | for a rooted path and a non-empty value, the cut is a prefix of the path that ends with the value |
| PathManager.PushedHistory | desktop/src/hooks/useExplorer/modules/usePathManager.js:104-114 | the history after a recorded move ends with the new path and, with a positive limit, holds at most that many entries |
| PathManager.Dirname | desktop/src/hooks/useExplorer/modules/usePathManager.js:218-223 | a path with at most one segment has the root as its directory |
| PathManager.ParentPath | desktop/src/hooks/useExplorer/modules/usePathManager.js:69-76 | the root and one-segment paths have the root as parent |
| PathManager.BreadcrumbSegments | desktop/src/hooks/useExplorer/modules/usePathManager.js:47-49 | there is always at least one breadcrumb, the root's being "/" |
| PathManager.SegmentsOfPathOf | desktop/src/hooks/useExplorer/modules/usePathManager.js:209 | the segments of the path built from valid segments are those segments |
| PathManager.DirnameBasenameOfChild | desktop/src/hooks/useExplorer/modules/usePathManager.js:208-223 | getBasename and getDirname split a child path back into its parent and its name |
| PathManager.CapHistory | desktop/src/hooks/useExplorer/modules/usePathManager.js:110-112 | the history keeps its last historyLimit entries (all of them for a limit of 0) and never more |
| PathManager.PathManager.constructor | desktop/src/hooks/useExplorer/modules/usePathManager.js:27-41 | a new manager is at the initial path, with it as the only history entry; any history limit is accepted, 0 meaning no cap |
| PathManager.PathManager.NavigateTo | desktop/src/hooks/useExplorer/modules/usePathManager.js:94-118 | returns the path normalised as written; the same path changes nothing; otherwise it becomes current and, when recorded, the history becomes PushedHistory (forward entries cut, the path appended, capped) with the index on its last entry |
| PathManager.PathManager.NavigateToChild | desktop/src/hooks/useExplorer/modules/usePathManager.js:124-127 | moves to the as-written normalisation of the child path joined onto the current one; the history is unchanged when that is the current path, and is PushedHistory otherwise |
| PathManager.PathManager.NavigateToParent | desktop/src/hooks/useExplorer/modules/usePathManager.js:132-137 | stays at the root, else moves to the as-written normalisation of the parent path, with the history kept or pushed as NavigateTo does |
| PathManager.PathManager.NavigateByBreadcrumb | desktop/src/hooks/useExplorer/modules/usePathManager.js:143-150 | a value not in the current path changes nothing; otherwise moves to the as-written normalisation of the path cut after the value's first occurrence, with the history kept or pushed as NavigateTo does |
| PathManager.PathManager.GoBack | desktop/src/hooks/useExplorer/modules/usePathManager.js:153-159 | moves one entry back in the unchanged history when there is one, else stays |
| PathManager.PathManager.GoForward | desktop/src/hooks/useExplorer/modules/usePathManager.js:162-168 | moves one entry forward in the unchanged history when there is one, else stays |
| PathManager.PathManager.CanGoBack | desktop/src/hooks/useExplorer/modules/usePathManager.js:82 | canGoBack: the history index is past the first entry |
| PathManager.PathManager.CanGoForward | desktop/src/hooks/useExplorer/modules/usePathManager.js:85 | canGoForward: the history index is before the last entry |
| PathManager.PathManager.IsRoot | desktop/src/hooks/useExplorer/modules/usePathManager.js:79 | isRoot: the current path is "/" |
| PathManager.PathManager.PushHistory | desktop/src/hooks/useExplorer/modules/usePathManager.js:104-114 | the history becomes PushedHistory of the old one and the index its last entry, holding the path; the current path is untouched |
| PathManager.PathManager.Reset | desktop/src/hooks/useExplorer/modules/usePathManager.js:171-175 | back to the initial path with a one-entry history |
| Preflight.ApiKeySlice | desktop/copilot/utils/PreflightChecker.js:189 | apiKey.slice(0, 8) exists exactly for a string or an array key; for a string it is the first eight characters (see Left out) |
| Preflight.ApiCacheKey | desktop/copilot/utils/PreflightChecker.js:189 | an API cache key exists exactly when the key can be sliced, and starts with "api-" |
| Preflight.KeyboardKeyNotApi | desktop/copilot/utils/PreflightChecker.js:128-189 | a keyboard cache key never looks like an API cache key, so the two checks never share an entry |
| Preflight.PrefixesDisjoint | desktop/copilot/utils/PreflightChecker.js:128-189 | no cache key starts with both prefixes |
| Preflight.KeyboardKeyPrefix | desktop/copilot/utils/PreflightChecker.js:128 | a keyboard cache key starts with "keyboard-" |
| Preflight.ApiCacheKeyShared | desktop/copilot/utils/PreflightChecker.js:189-195 | two API keys agreeing on their first eight characters share one cache entry under the same base URL |
| Preflight.KeyboardResult | desktop/copilot/utils/PreflightChecker.js:136-166 | PASS exactly for a truthy reply; a falsy reply fails with the install action; a rejected call fails with no action |
| Preflight.ApiResult | desktop/copilot/utils/PreflightChecker.js:197-233 | PASS exactly when the reply's success is truthy; every failure, including a rejected call or a missing reply, suggests configure |
| Preflight.PurchaseStatus | desktop/copilot/utils/PreflightChecker.js:260 | the purchase status is always truthy: a missing one reads as NOT_PURCHASED |
| Preflight.CheckSubscription | desktop/copilot/utils/PreflightChecker.js:243-296 | SKIP exactly for a custom key; otherwise PASS exactly for ACTIVE and FAIL with the subscribe action for any other status |
| Preflight.SubscriptionWithoutUserInfo | desktop/copilot/utils/PreflightChecker.js:260-285 | with the built-in key and no user info the check fails as not purchased |
| Preflight.Failed | desktop/copilot/utils/PreflightChecker.js:112 | the failed checks are exactly the results whose status is FAIL; none exactly when no result failed |
| Preflight.EnabledChecks | desktop/copilot/utils/PreflightChecker.js:93-109 | a layer runs exactly when it is not skipped, the subscription layer only with a store |
| Preflight.Outcome | desktop/copilot/utils/PreflightChecker.js:111-118 | passed exactly when no result has status FAIL, with the results and the failed ones |
| Preflight.NoneFailedAppend | desktop/copilot/utils/PreflightChecker.js:111-115 | no result of a concatenation failed exactly when none of either part did |
| Preflight.KeyboardOutcome | desktop/copilot/utils/PreflightChecker.js:127-167 | what checkADBKeyboard resolves to: the device's valid cached result, else the result the reply gives; always named as the keyboard check |
| Preflight.ApiOutcome | desktop/copilot/utils/PreflightChecker.js:175-234 | what checkAPIService settles to: the incomplete-configuration failure, a rejection exactly when a complete configuration has an unsliceable key, else a pass from the cache or the result the reply gives; always named as the API check |
| Preflight.ApiOutcomeIgnoresKeyboard | desktop/copilot/utils/PreflightChecker.js:93-103 | caches that differ only in the device's keyboard entry give the same API outcome, so the keyboard layer cannot change the API layer |
| Preflight.KeyboardLayer | desktop/copilot/utils/PreflightChecker.js:93-97 | the keyboard layer's results are its outcome unless skipped, named as the enabled checks say |
| Preflight.ApiLayer | desktop/copilot/utils/PreflightChecker.js:99-103 | the API layer's results are its settled outcome unless skipped, named as the enabled checks say |
| Preflight.SubscriptionLayer | desktop/copilot/utils/PreflightChecker.js:105-109 | the subscription layer is CheckSubscription's result exactly when it is not skipped and a store is given |
| Preflight.LayerResults | desktop/copilot/utils/PreflightChecker.js:81-119 | the three layers' outcomes in order; a rejection exactly when the API layer runs and rejects; the names are exactly the enabled checks |
| Preflight.LayerResultsPassed | desktop/copilot/utils/PreflightChecker.js:81-119 | a run passes exactly when no layer that runs fails: the keyboard outcome, the API outcome and the subscription check |
| Preflight.KeyboardCache | desktop/copilot/utils/PreflightChecker.js:127-166 | checkADBKeyboard writes only the device's keyboard entry; afterwards it is valid at now exactly when it was before or the call did not reject; cache consistency is kept |
| Preflight.ApiCache | desktop/copilot/utils/PreflightChecker.js:175-234 | checkAPIService never removes an entry and changes only its own key's entry, and only for a complete configuration whose reply passes; cache consistency is kept |
| Preflight.KeyboardCacheRepeat | desktop/copilot/utils/PreflightChecker.js:131-154 | a second keyboard check at the same moment returns the first one's result from the cache, whatever the second reply, unless the first call rejected |
| Preflight.ApiCacheRepeat | desktop/copilot/utils/PreflightChecker.js:192-221 | a second API check at the same moment returns the first one's passing result from the cache, whatever the second reply |
| Preflight.KeyboardLayerCache | desktop/copilot/utils/PreflightChecker.js:93-97 | the keyboard layer leaves the cache alone when skipped and touches only the device's keyboard entry otherwise |
| Preflight.ApiLayerCache | desktop/copilot/utils/PreflightChecker.js:99-103 | the API layer leaves the cache alone when skipped and never removes an entry |
| Preflight.RunCache | desktop/copilot/utils/PreflightChecker.js:81-119 | the cache after runAll: consistency kept, no entry removed, and unchanged when both the keyboard and the API layers are skipped |
| Preflight.FreshRunPassed | desktop/copilot/utils/PreflightChecker.js:81-234 | with an empty cache a run passes exactly when the keyboard is installed, the configuration is complete and the API reply succeeds, and the subscription does not fail, each unless skipped |
| Preflight.PreflightChecker.constructor | desktop/copilot/utils/PreflightChecker.js:67-73 | a new checker has an empty cache |
| Preflight.PreflightChecker.CacheResult | desktop/copilot/utils/PreflightChecker.js:333-338 | the entry is stored with the current time and is valid at once |
| Preflight.PreflightChecker.IsCacheValid | desktop/copilot/utils/PreflightChecker.js:319-327 | _isCacheValid: an entry exists for the key and is younger than the expiry |
| Preflight.PreflightChecker.ClearCache | desktop/copilot/utils/PreflightChecker.js:301-303 | the cache is emptied |
| Preflight.PreflightChecker.ClearKeyboardCache | desktop/copilot/utils/PreflightChecker.js:310-313 | only the device's keyboard entry is removed, and it no longer counts as cached |
| Preflight.PreflightChecker.CheckADBKeyboard | desktop/copilot/utils/PreflightChecker.js:127-167 | returns KeyboardOutcome for the old cache: a valid cached result as is, otherwise the reply's result, cached unless the call rejected; the cache becomes KeyboardCache of the old one |
| Preflight.PreflightChecker.CheckAPIService | desktop/copilot/utils/PreflightChecker.js:175-234 | settles to ApiOutcome for the old cache: an incomplete configuration fails at once; an unsliceable key rejects with a TypeError; a valid cached result is returned; otherwise the reply decides and only a passing result is cached; the cache becomes ApiCache of the old one |
| Preflight.PreflightChecker.RunAll | desktop/copilot/utils/PreflightChecker.js:81-119 | rejects exactly when LayerResults does for the cache it started with, and otherwise its results are exactly LayerResults (each layer's own check result, in order) and passed means none failed; the cache it leaves is RunCache, the keyboard layer's write followed by the API layer's |
| Preflight.PreflightChecker.KeyboardStep | desktop/copilot/utils/PreflightChecker.js:93-97 | the results are exactly KeyboardLayer for the old cache (checkADBKeyboard's result unless skipped), and the cache becomes KeyboardLayerCache: unchanged when skipped, else checkADBKeyboard's write |
| Preflight.PreflightChecker.ApiStep | desktop/copilot/utils/PreflightChecker.js:99-103 | when skipped nothing changes; otherwise the earlier results are kept and followed by ApiLayer for the old cache (checkAPIService's result), its rejection passes through, and the cache becomes ApiLayerCache, checkAPIService's write |
| ScrcpyHelper.HasMarkerStartsWith | desktop/electron/exposes/scrcpy/helper.js:19-21 | a line carries a marker exactly when it starts with space, marker, space |
| ScrcpyHelper.AppOf | desktop/electron/exposes/scrcpy/helper.js:23-30 | the package name, taken after the last space, never contains a space |
| ScrcpyHelper.ParseAppLine | desktop/electron/exposes/scrcpy/helper.js:20-31 | an entry is a system app exactly when its line starts with " * " |
| ScrcpyHelper.AppsOf | desktop/electron/exposes/scrcpy/helper.js:17-32 | the filter keeps at most one entry per line |
| ScrcpyHelper.ParseScrcpyAppList | desktop/electron/exposes/scrcpy/helper.js:12-33 | a TypeError exactly for a non-string; otherwise at most one app per line |
| ScrcpyHelper.AppOfText | desktop/electron/exposes/scrcpy/helper.js:23-30 | the text after a printed entry's marker splits back into its name and package |
| ScrcpyHelper.ParseFormatAppLine | desktop/electron/exposes/scrcpy/helper.js:19-31 | a printed app line is kept and parses back to the app |
| ScrcpyHelper.ParseScrcpyAppListRoundTrip | desktop/electron/exposes/scrcpy/helper.js:12-33 | parsing a printed list, one app per line, gives back the apps in order |
| ScrcpyHelper.KeyRun | desktop/electron/exposes/scrcpy/helper.js:68 | the longest prefix of [\w-] characters |
| ScrcpyHelper.ValueRun | desktop/electron/exposes/scrcpy/helper.js:68 | the longest prefix of [\w.-] characters |
| ScrcpyHelper.PairAt | desktop/electron/exposes/scrcpy/helper.js:68 | a match at the start is "--", a non-empty key, "=", a non-empty value |
| ScrcpyHelper.Pairs | desktop/electron/exposes/scrcpy/helper.js:68-73 | every match contributes a key and a non-empty value |
| ScrcpyHelper.InfoLookup | desktop/electron/exposes/scrcpy/helper.js:72-76 | reading a key of the reduced object agrees with Lookup |
| ScrcpyHelper.LookupMeaning | desktop/electron/exposes/scrcpy/helper.js:72-76 | a key is present exactly when some pair has it, and holds the value of the last such pair |
| ScrcpyHelper.PairsVerdict | desktop/electron/exposes/scrcpy/helper.js:69-91 | a line contributes an entry only with at least two pairs |
| ScrcpyHelper.Collect | desktop/electron/exposes/scrcpy/helper.js:61-92 | the lines give at most one entry each |
| ScrcpyHelper.CodecListOf | desktop/electron/exposes/scrcpy/helper.js:52-108 | on error both lists are empty; without error at least one entry was found; a non-string is an error |
| ScrcpyHelper.PushLine | desktop/electron/exposes/scrcpy/helper.js:78-91 | one loop body pushes the line's entry onto the video or the audio list, or nothing |
| ScrcpyHelper.ParseScrcpyCodecList | desktop/electron/exposes/scrcpy/helper.js:52-108 | the loop over the lines returns the result CodecListOf describes |
| ScrcpyHelper.PairsCons | desktop/electron/exposes/scrcpy/helper.js:68 | a "--key=value" token followed by a non-value character is one match, then matching goes on |
| ScrcpyHelper.PairsOfCodecLine | desktop/electron/exposes/scrcpy/helper.js:68 | a printed encoder line yields exactly its two pairs |
| ScrcpyHelper.VideoLineRoundTrip | desktop/electron/exposes/scrcpy/helper.js:61-84 | a printed video encoder line parses back to its codec and encoder |
| ScrcpyHelper.AudioLineRoundTrip | desktop/electron/exposes/scrcpy/helper.js:61-91 | a printed audio encoder line parses back to its codec and encoder |
| ScrcpyHelper.DigitRun | desktop/electron/exposes/scrcpy/helper.js:121 | the longest prefix of decimal digits |
| ScrcpyHelper.DisplayIdAt | desktop/electron/exposes/scrcpy/helper.js:121 | a match is longer than the flag and fits in the text |
| ScrcpyHelper.Insert | desktop/electron/exposes/scrcpy/helper.js:127-129 | inserting keeps the list strictly increasing and adds exactly the new id |
| ScrcpyHelper.SortedUnique | desktop/electron/exposes/scrcpy/helper.js:127-129 | the result is strictly increasing (sorted, no repeats) and holds exactly the given ids |
| ScrcpyHelper.ParseDisplayIds | desktop/electron/exposes/scrcpy/helper.js:115-134 | [] for a falsy or non-string argument; otherwise exactly the ids matched, ascending and distinct |
| ScrcpyHelper.DisplayIdMatches | desktop/electron/exposes/scrcpy/helper.js:123 | the ids `--display-id=<digits>` occurrences give, in order of occurrence (DisplayIdMatchesCons states one step) |
| ScrcpyHelper.DisplayIdMatchesCons | desktop/electron/exposes/scrcpy/helper.js:121-125 | a flag followed by the decimal text of n and a non-digit is read as the id n |
| ServiceRegistry.Configure | desktop/electron/modules/services/registry.js:25-42 | registration fails exactly for a missing config, a falsy name or loader, or a loader that is not a function; otherwise the stored entry keeps name and loader, with enabled defaulting to true and priority to 0 |
| ServiceRegistry.SortDescPermutes | desktop/electron/modules/services/registry.js:54 | sorting keeps exactly the given services (a permutation) |
| ServiceRegistry.SortDescSorted | desktop/electron/modules/services/registry.js:54 | after sorting, priorities never increase along the list |
| ServiceRegistry.SortDescStable | desktop/electron/modules/services/registry.js:54 | the sort is stable: services of one priority keep their registration order |
| ServiceRegistry.EnabledMeaning | desktop/electron/modules/services/registry.js:52 | filtering keeps exactly the enabled services, in their order |
| ServiceRegistry.SortDesc | desktop/electron/modules/services/registry.js:54 | the sort by priority, highest first, keeps the number of services (the SortDesc lemmas state permutation, order and stability) |
| ServiceRegistry.Enabled | desktop/electron/modules/services/registry.js:52 | the enabled services are no more than all of them |
| ServiceRegistry.Registry.constructor | desktop/electron/modules/services/registry.js:19 | the registry starts empty |
| ServiceRegistry.Registry.Values | desktop/electron/modules/services/registry.js:50 | the values are the stored services in insertion order |
| ServiceRegistry.Registry.Register | desktop/electron/modules/services/registry.js:25-42 | a rejected configuration changes nothing and reports why; an accepted one is stored under its name, a new name going last in insertion order and a known one keeping its place |
| ServiceRegistry.Registry.AllServices | desktop/electron/modules/services/registry.js:49-55 | highest priority first; exactly the enabled services (enabledOnly defaulting to true), or every service, as a permutation, when enabledOnly is falsy |
| ServiceRegistry.Registry.Get | desktop/electron/modules/services/registry.js:62-73 | a service is found exactly when its name is registered, and it is the one stored under that name |
| ServiceRegistry.Registry.Has | desktop/electron/modules/services/registry.js:71-73 | hasService: whether a service is registered under the name |
| ServiceRegistry.Registry.Unregister | desktop/electron/modules/services/registry.js:80-82 | reports whether the name was registered, and removes exactly that entry, keeping the others in order |
| ServiceRegistry.Registry.Clear | desktop/electron/modules/services/registry.js:87-89 | the registry is emptied |
| ServiceRegistry.WithoutMeaning | desktop/electron/modules/services/registry.js:80-82 | deleting a key keeps every other key once, in order |
| TaskStore.DefaultTaskTypesDistinct | desktop/src/store/task/index.js:49-70 | the built-in task types have distinct values |
| TaskStore.PaddedField | desktop/src/store/task/index.js:103 | a zero-padded field has its width and reads back as its number |
| TaskStore.DateTextFields | desktop/src/store/task/index.js:103 | YYYY-MM-DD: ten characters, dashes at 4 and 7, and the padded year, month from 1 and day |
| TaskStore.TimeTextFields | desktop/src/store/task/index.js:103 | HH:mm:ss: eight characters, colons at 2 and 5, and the padded hour, minute and second |
| TaskStore.FormatMomentFields | desktop/src/store/task/index.js:102-104 | the formatted timeout is 19 characters: the date, a space, the time |
| TaskStore.FormatMoment | desktop/src/store/task/index.js:102-104 | the formatted moment is at least 19 characters, the date text followed by a space (exactly 19 for in-range fields, by FormatMomentFields) |
| TaskStore.LeadingDigits | desktop/src/store/task/index.js:140 | the leading run of digits is a prefix of the text, all digits, and stops at a non-digit |
| TaskStore.ParseInt | desktop/src/store/task/index.js:140 | parseInt without a radix yields a number or NaN; the 0x or 0X prefix selects hexadecimal (ParseIntHex) |
| TaskStore.ParseIntText | desktop/src/store/task/index.js:140 | parseInt on the text String(v) gives: a number or NaN |
| TaskStore.ParseMagnitude | desktop/src/store/task/index.js:140 | text of decimal digits without the hexadecimal prefix always has a magnitude |
| TaskStore.ParseMagnitudeDecimal | desktop/src/store/task/index.js:140 | decimal digits are read in radix 10 |
| TaskStore.ParseIntOfSigned | desktop/src/store/task/index.js:140 | text of an optional minus sign and a magnitude parses to the magnitude, negated after the sign |
| TaskStore.ParseIntHex | desktop/src/store/task/index.js:140 | "0x" or "0X" followed by hexadecimal digits, with or without a minus sign, reads as their value in radix 16 |
| TaskStore.ParseIntBarePrefix | desktop/src/store/task/index.js:140 | "0x" without digits is NaN |
| TaskStore.LeadingHexDigitsAll | desktop/src/store/task/index.js:140 | a run of hexadecimal digits is its own leading run |
| TaskStore.ParseIntOfNum | desktop/src/store/task/index.js:140 | parseInt reads an integer back from its own decimal text |
| TaskStore.StepText | desktop/src/store/task/index.js:145-157 | the interpolated step never contains a space, so it stays one cron field |
| TaskStore.CronExpressionOf | desktop/src/store/task/index.js:121-169 | null for an unknown timer type or a missing timeout or interval; a cron task gives its own expression or null; other types give an expression |
| TaskStore.TimeoutCronRoundTrip | desktop/src/store/task/index.js:125-133 | a one-off task's expression reads back as exactly the second, minute, hour, day and month (from 1) of its timeout |
| TaskStore.ReadAtCron | desktop/src/store/task/index.js:132 | a six-field "s m h D M *" text reads back as its fields |
| TaskStore.SplitFields | desktop/src/store/task/index.js:132-157 | splitting the space-joined fields gives the fields back |
| TaskStore.ReadSecondCron | desktop/src/store/task/index.js:143-145 | a second interval is a six-field expression stepping the second by n |
| TaskStore.ReadMinuteCron | desktop/src/store/task/index.js:146-157 | minute and unrecognised intervals are five-field expressions stepping the minute by n |
| TaskStore.ReadHourCron | desktop/src/store/task/index.js:148-149 | an hour interval steps the hour by n at minute 0 |
| TaskStore.ReadDayCron | desktop/src/store/task/index.js:150-151 | a day interval steps the day by n at hour and minute 0 |
| TaskStore.IntervalCronRoundTrip | desktop/src/store/task/index.js:135-159 | a repeating task runs every n units of the unit its intervalType selects, n being parseInt of its interval |
| TaskStore.MillisecondCronEverySecond | desktop/src/store/task/index.js:152-155 | a millisecond interval falls back to running every second |
| TaskStore.FinishedIn | desktop/src/store/task/index.js:300-313 | the tasks with the id are finished with no cron job; every other task and every form is unchanged |
| TaskStore.StartedIn | desktop/src/store/task/index.js:269-273 | the tasks with the id are in progress holding their id as the cron handle; every other task is unchanged |
| TaskStore.WithoutId | desktop/src/store/task/index.js:336 | exactly the tasks with another id are kept |
| TaskStore.WithoutIdAbsent | desktop/src/store/task/index.js:336 | removing an id no task carries changes nothing |
| TaskStore.WithoutIdAppend | desktop/src/store/task/index.js:336 | removal keeps the order of the remaining tasks |
| TaskStore.FinishedWithout | desktop/src/store/task/index.js:334-337 | stopping before removing does not change which tasks removal keeps |
| TaskStore.Assigned | desktop/src/store/task/index.js:269-273 | Object.assign on a listed object replaces that one entry and leaves every other entry; on an object the list does not hold it leaves the list unchanged |
| TaskStore.AssignedStartedIn | desktop/src/store/task/index.js:269-273 | with distinct ids, starting the listed object marks exactly the tasks of its id, as StartedIn states |
| TaskStore.AssignedFinishedIn | desktop/src/store/task/index.js:308-311 | with distinct ids, stopping the listed object marks exactly the tasks of its id, as FinishedIn states |
| TaskStore.WithoutIdAssigned | desktop/src/store/task/index.js:334-337 | reassigning an entry of the removed id does not change what the filter keeps, so remove leaves the same list whether or not the stopped object was listed |
| TaskStore.TaskStore.constructor | desktop/src/store/task/index.js:49-76 | a new store has the built-in task types, no tasks and no cron jobs |
| TaskStore.TaskStore.RegisterTaskType | desktop/src/store/task/index.js:84-89 | a type is appended only when no registered type has its value; afterwards one does |
| TaskStore.TaskStore.Add | desktop/src/store/task/index.js:96-114 | appends one task with the form, the new id and time, status START, no cron job, and the formatted timeout or "" |
| TaskStore.TaskStore.StartTask | desktop/src/store/task/index.js:216-282 | any task object is accepted: an expired non-cron task is refused and nothing changes; otherwise the old job of its id is stopped and the task starts exactly when it has an expression croner accepts. The passed object becomes in progress with its id as handle; the list changes only at that object's position when it is listed, and not at all for a copy such as restart's |
| TaskStore.TaskStore.Stop | desktop/src/store/task/index.js:300-313 | no task gives false and changes nothing; otherwise the job of its id is gone and the passed object is finished with no job, the list changing only at that object's position when it is listed |
| TaskStore.TaskStore.Remove | desktop/src/store/task/index.js:334-337 | the passed object is stopped, the job of its id is gone, and exactly the tasks with its id are dropped, the others kept in order, whether or not the object was listed |
| Validation.ValidateField | desktop/src/database/utils/validation.js:65-77 | a required field that is undefined, null or "" is reported as required; an optional missing field is valid without further checks |
| Validation.ValidateFieldMeaning | desktop/src/database/utils/validation.js:65-163 | a field is valid exactly when it is missing and optional, or present, not a required "", and satisfying every rule (type with arrays as 'array', lengths in UTF-16 code units, bounds, enum, pattern, validator) |
| Validation.AstralCharacterTooLong | desktop/src/database/utils/validation.js:101-108 | a single character above U+FFFF is two units long, so a maxLength of 1 rejects it |
| Validation.MinRule | desktop/src/database/utils/validation.js:111-119 | with only a min rule a number is valid exactly when it is at least the min, and NaN is never below it |
| Validation.RequiredErrors | desktop/src/database/utils/validation.js:185-189 | at most one error per required field, and none exactly when no required field is blank |
| Validation.SchemaErrors | desktop/src/database/utils/validation.js:192-197 | at most one error per schema field |
| Validation.SchemaErrorsNone | desktop/src/database/utils/validation.js:192-197 | the schema loop reports no error exactly when every schema field validates |
| Validation.ErrorsOfNone | desktop/src/database/utils/validation.js:192-197 | the errors of a list of field results are empty exactly when every result is valid |
| Validation.SchemaResults | desktop/src/database/utils/validation.js:192-195 | one verdict per schema field, in schema order, each ValidateField of the field's value |
| Validation.DataVerdict | desktop/src/database/utils/validation.js:172-208 | a falsy or non-object input is rejected with its fixed message; a rejection always lists errors and reports the first as its message |
| Validation.DataVerdictMeaning | desktop/src/database/utils/validation.js:172-208 | data is valid exactly when it is an object, no required field is blank and every schema field validates |
| Validation.ValidateData | desktop/src/database/utils/validation.js:172-208 | the two loops collect exactly the verdict DataVerdict describes |
| Validation.CollectRequiredErrors | desktop/src/database/utils/validation.js:185-189 | the loop over the required fields collects exactly RequiredErrors |
| Validation.CollectSchemaErrors | desktop/src/database/utils/validation.js:192-197 | the loop over the schema collects exactly SchemaErrors |
| Validation.NestedValue | desktop/src/database/utils/validation.js:217-220 | a falsy object or an empty path gives the default |
| Validation.GetNestedValue | desktop/src/database/utils/validation.js:217-233 | the loop over the keys returns what NestedValue describes |
| Validation.NestedValueOfNest | desktop/src/database/utils/validation.js:217-233 | looking up a dotted path in an object built along that path finds the value put there |

## Left out

- Electron windows, tray, updater, lifecycle and IPC handlers: thin wrappers over Electron APIs with no logic of their own.
- ADB, scrcpy and gnirehtet process wrappers, the uploader and downloader, directory listing with stat, and the terminal providers: process and file I/O with streaming, retries and timers.
- The edge-snapping window animation, the performance helpers and the screen-scaling hooks: floating-point numerics, timers and browser observers.
- The agent's action parser: it depends on an external JavaScript parser that is not part of this model.
- The EventEmitter prototype patching, the Dexie/IndexedDB stores and the Vue hooks that show UI messages: none of them has logic beyond the host APIs.
- The duplicate copies of the modelled files (the ADB file-manager modules, the second icon map and clipboard helper, the sub-app registry, the order-based plugin host) and the configuration, preference and type files: either the same logic again or data with no behaviour.
- Clocks, nanoid and randomUUID: timestamps and generated ids are parameters. Channel names built from them are opaque strings. Generated ids are assumed distinct: ChannelPool's pool invariant and channel generation require the nanoid function to be injective, and CopilotSessions assumes that randomUUID returns an id not issued before. A collision of random ids is not modelled.
- Floating point: JavaScript numbers are integers plus NaN and ±Infinity, so a fraction the source computes by division (battery temperature in °C, voltage in volts) is kept as the raw integer together with its divisor. Numbers are unbounded integers, where JavaScript numbers are IEEE 754 doubles. So in the model nothing rounds above 2^53, and a number never prints in exponent form, which `toString` uses from 10^21 on. The lines for ParseValue, ParseValueOfInt and FormatValue below say what this changes for them.
- CopilotSessions: the agent objects, event emitters, idle timer and p-limit concurrency are not modelled. This leaves out `executeTaskList`, `_executeDeviceTask`, `_executeCleanups`, `_wireSessionCallbacks` and `_attachEventHandlers`. `_getCleanSession` is modelled only as the record it returns. The module-level singleton is not modelled.
- Preflight: check names and messages are i18n keys, not translated text. The `details` record and the exported singleton and `runPreflightChecks` wrapper are not modelled.
- ErrorHandling: the EscrcpyError subclasses, their `toJSON` and the Vue, async, device and network helper handlers are not modelled. Neither are the user notification, console output and the user-agent and URL captured in the log entry. The logging done by `handleConfigurationError` is not modelled; only its boolean result is.
- ModularApp: the window-manager API, `getMainWindow`, the storage adapter and the unctx context are not modelled, and neither are `on`, `once` and `off`. What a plugin's `apply` does is not modelled; its returned API is a parameter. The circular-dependency error cannot occur, because in the model `apply` cannot call `use` again.
- PathManager: the preset labels shown in breadcrumbs are not modelled.
- IpcxValidators: parsing a descriptor's path index is not part of this model. `parsePath` and `formatPath` are given functions.
- IpcxSerialize: debug logging is not modelled. forEach skips the holes of a sparse array, which have no counterpart in the model's arrays.
- SerializeArgs: every descriptor is proved to locate a function, and every function passed directly as an argument is proved to have a descriptor at its index. That a function nested deeper is described exactly once is not stated: the seen map makes the walk's coverage depend on which objects were met first.
- IpcxErrors: `createPayloadError`, `createCallbackError`, `truncateValue` and `safeCall` are not modelled. They are message builders and a try/catch logger that the modelled operations do not use.
- CommandArgs: the shell reading of a formatted value is modelled only for double-quoted words, not for `$`, backticks or globbing. Because the quoting escapes only double quotes, the read-back (FormatString, FormatValue) is promised only for text without a backslash; FormatStringUnterminated shows the text `a \` failing.
- CamelKeyOfWord: lodash `camelCase` is modelled for ASCII letters and digits, with words split only at other characters. lodash splits a run of letters and digits in three more places, and the model splits it in none of them:
  - where a lower-case letter is followed by a capital: "mChargerConnected" stays "mChargerConnected" in lodash, while the model lower-cases it whole to "mchargerconnected";
  - at a boundary between a letter and a digit: "a1b" gives "a1B" in lodash and "a1b" in the model;
  - before the last capital of a capital run followed by a lower-case letter: "USBPowered" gives "usbPowered" in lodash and "usbpowered" in the model.
- CamelKeyOfWord: lodash deletes apostrophes before it splits, so "it's" gives "its" there; the model treats the apostrophe as a separator and gives "itS". Characters outside ASCII are separators in the model, where lodash keeps them inside words.
- CamelKeyOfTwoWords: holds of lodash only for words that lodash splits no further: no lower-case letter followed by a capital, no boundary between a letter and a digit, and no capital run followed by a lower-case letter. Otherwise, as in "a1b x" (lodash "a1BX", model "a1bX"), it describes the model only. `dumpsys battery` keys, such as "AC powered" and "USB powered", are words of letters separated by spaces, with no such split point inside a word, so lodash and the model read them alike.
- ParseValue: numbers are recognised as optionally signed decimal integers and ±Infinity. JavaScript's Number reads more forms as numbers, and the model keeps each of them as text:
  - fractions;
  - exponent forms such as "1e3";
  - hexadecimal forms such as "0x1A";
  - binary forms such as "0b101" (5);
  - octal forms such as "0o17" (15).
- ParseValue: decimal text above 2^53 in magnitude is read exactly here, where Number rounds it to the nearest double.
- ParseValueOfInt: holds in JavaScript only for integers of magnitude at most 2^53. Above that Number rounds, so Number("9007199254740993") is 9007199254740992; the model's integers are unbounded and read every digit.
- FormatValue: a number prints as its decimal digits, as `value.toString()` (src/utils/command/index.js:53) does for integers below 10^21 in magnitude. From 10^21 on, JavaScript prints exponent form ("1e+21"), and the model still prints every digit. Integers above 2^53 that a double cannot hold are not modelled.
- ModelClient: the OpenAI request, the model configuration, event emission and the JSON text of the screen-info builder are not modelled. Only the reply handling and the message builders are.
- TaskStore: `restart`, `getTimeout`, `on`/`emit`, `getNextExecution` and `getTaskStats` are not modelled. `getTimeout`'s delay is a parameter. `removeAll` is not modelled either; it is a loop over `remove`. The croner job handler, `maxRuns`, Pinia persistence and the task-fired event are also not modelled.
- ScrcpyHelper: `getDisplayOverlay` reads the application store and is not modelled.
- Validation: `createStorageError`, `generateId` and `deepClone` are not modelled. They rely on clocks and randomness, and they are not among the modelled operations.
- DeviceId: the other device utilities (sending a file, opening the float control, removing devices) are UI and ADB calls and are not modelled.
- ClipboardFormats: the platform `copyFile*` helpers and `verifyClipboardWrite` are OS clipboard I/O and are not modelled.
- ServiceRegistry: service loaders are stored, never invoked. Priorities are integers; the comparator's arithmetic on other values is not modelled. Registry keys are JavaScript values compared structurally, where a Map compares objects by identity.
- PreviewVerdict: the corrected half of the size finding. The explorer's check is CheckPreviewSupportAsWritten, which CheckPreviewSupport computes.
- NormalizePath: the corrected half of the normalisation finding. JoinPath and the navigation methods use NormalizePathAsWritten, as the source does.
- Quote: the corrected half of the quoting finding. FormatString uses QuoteAsWritten, as the source does.
- FileClipboard: the class invariant Valid (no action means an empty clipboard) is kept by every method, but no operation depends on it.
- ApiKeySlice: `apiKey.slice(0, 8)` takes eight UTF-16 code units and can cut a surrogate pair in half. The model takes the first eight characters, because half a surrogate pair is not a character of a Dafny string. When a key has a character above U+FFFF among its first eight, two keys that agree on their first eight code units but not on their first eight characters share one cache entry in JavaScript and two in the model. ApiCacheKeyShared, stated in characters, holds in JavaScript as well.
- Strings are sequences of Unicode characters, where JavaScript strings are sequences of UTF-16 code units. The two agree wherever the source only compares strings, searches them and slices at positions it found. Where the source reads a string's length (the Validation length rules, formatParamName's one-unit test, and `length` read as a property through Get), the model counts code units. The one fixed-width slice is ApiKeySlice, above.
- Get: an index into a string counts code units, as JavaScript does. When the unit read is half of a surrogate pair, JavaScript returns that lone unit. A Dafny string cannot hold a lone surrogate, so the model returns the whole character above U+FFFF instead.
- ToLower: ASCII letters only; JavaScript's toLowerCase also maps other Unicode letters.
- HasProperty and Get read own properties only. Inherited properties are not modelled, so a key such as "toString" is absent here but found by JavaScript. This affects the ErrorHandling schema lookup, the Preflight status messages and the Validation required-field test.
- TaskStore: tasks are values, so which list entry a passed task object is, if any, is an argument (`at`) of StartTask, Stop and Remove. A caller passing a listed object gives its position; a copy gives none.
- TaskStore: `remove` always receives a task; `remove(undefined)` is not modelled. Neither is the file list `start` splits out of `extra` and passes to the handler, nor the throw of `extra.split` when `extra` is a truthy non-string.
- ModularApp: a plugin's priority is pre, normal, post or absent. Any other string cannot be expressed; the source would sort such a plugin with an undefined priority value.

## Findings

| source | as written | input that shows it | evidently intended | confidence | as-written member | corrected member |
|---|---|---|---|---|---|---|
| desktop/src/hooks/useExplorer/modules/usePathManager.js:182-192 | normalizePath strips one trailing slash before collapsing runs of slashes | "/a//" normalises to "/a/", which normalises again to "/a" | an idempotent normaliser whose result has no trailing slash except the root | not executed | PathManager.NormalizePathAsWrittenNotIdempotent | PathManager.NormalizePathIdempotent |
| desktop/src/hooks/useExplorer/modules/useFilePreview.js:99 | the size limit is compared with file.size, which the explorer fills with formatted text | a 600 MiB video whose size field is "600 MiB" is reported previewable | compare the byte count rawSize with maxSize | not executed | FilePreview.PreviewSizeCheckIgnored | FilePreview.LargeVideoRefused |
| src/utils/command/index.js:45-46 | a quoted value escapes double quotes but not backslashes | the value `a \` becomes `"a \"`, whose closing quote is escaped, so the word never ends | escape backslashes before double quotes | not executed | CommandArgs.QuoteAsWrittenUnterminated | CommandArgs.QuoteRoundTrip |
