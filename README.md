# Duratile site logic in Dafny

This project models the parts of the Duratile / Durafloor marketing site
that hold real logic, and proves properties about them:

- **The promotional popup controller** (`js/duratile-popup.js`, class
  `DuratilePopupSystem`). It validates a global configuration document and
  merges it onto built-in defaults. It keeps that configuration in memory
  behind a five-minute cache in `localStorage`. It counts displays in a
  cookie and shows the popup while the count is below `maxDisplays`. It
  applies `CONFIG_UPDATE` messages from other tabs and carries out the admin
  operations: enable, disable, toggle, price update, counter reset and
  forced display.
- **The global configuration server** (`global-config-server.js`). It
  routes requests by method and path. It serves the stored document and
  merges POST/PUT updates into it, keeping a change log of at most ten
  entries. `loadConfig` falls back to a default document, and `saveConfig`
  stamps the document with the save time.
- **The feedback form script** (`feedback/feedback.inc.php`). It checks
  field lengths, the e-mail address and the required and ignored fields,
  filters spam words and checks the attachment extension. At the end it
  picks the message shown to the visitor and, when everything passes, the
  mail content.
- **The currency helpers** (`calc/helpers.js`). `parseCurrency` strips
  everything except digits, `.` and `-` before `parseFloat`.
  `formatCurrency` writes two decimals and thousands separators.
- **The HTML fixer** (`fix_mobile_responsiveness.py`). It inserts a
  viewport tag into a page that has none, rewrites three plain-HTTP script
  URLs, and writes the file back only when it changed.

## Modules

| file | module | what it holds |
|---|---|---|
| `wrappers.dfy` | `Wrappers` | `Option` and `Result` |
| `strings.dfy` | `Strings` | digits, decimal rendering and reading, ASCII case mapping, substring search, JavaScript white space |
| `json.dfy` | `Json` | JSON values and the JavaScript semantics the sources rely on: truthiness, `typeof`, `||`, `?.`, object and array spread, `String(v)`, `ToNumber`, `(x || 0) + 1` |
| `cookies.dfy` | `Cookies` | the browser cookie jar, `document.cookie` reads and writes, `parseInt`, and the display counter |
| `popup_config.dfy` | `PopupConfig` | the pure part of the popup controller: defaults, validation, merge, the price-data record, the cache envelope, the admin cache update |
| `popup_system.dfy` | `PopupSystem` | the `DuratilePopupSystem` class and the functions that specify its methods |
| `config_server.dfy` | `GlobalConfigServer` | routing, `loadConfig`, the update merge, the reply to one request, and the `ConfigServer` class holding the file |
| `feedback_rules.dfy` | `FeedbackRules` | the settings, `strlen`, the limit table, name normalisation, `checkSpam`, the e-mail pattern, `htmlspecialchars`, `stripslashes`, `f_getExt` |
| `feedback_form.dfy` | `FeedbackForm` | the script's flow: `validLength`, the e-mail lookup, the `$_POST` scan, the content loop, the attachment check and the final message |
| `currency.dfy` | `Currency` | `parseCurrency`, `formatCurrency` and the round trip between them |
| `html_fixer.dfy` | `HtmlFixer` | literal replace-all, the page transform, `fix_html_file` and the idempotence proof |

## Modelling choices

- **The browser as state.** Inside the popup class the browser is explicit
  state:
  - `localStorage` is a map from keys to entries that either parse as JSON
    or do not;
  - the cookie jar is a sequence of name/value cookies, and `document.cookie`
    is read through its serialisation `name=value; name=value` (the
    cookie-string of section 5.4 of RFC 6265);
  - "the overlay element exists" is a boolean;
  - pending display timers are a sequence of delays;
  - the broadcast channel is an outbox of posted messages.
- **Events as method calls.** A timer firing, a broadcast arriving and a
  `storage` event are method calls the environment makes.
- **Parameters.** The clock (`Date.now()`, `toLocaleString()`,
  `toISOString()`) and the outcome of `fetch` are parameters. So are the
  server's `JSON.parse`, the write result and the `User-Agent` header. In
  the feedback script, the MX lookup and the result of `mail()` are
  parameters too. The source reads the clock several times in one
  operation. In `loadGlobalConfiguration` these reads fall on both sides of
  `await fetch`: the cache-age test, the cache envelope's timestamp and
  `configLastFetched`. The server update calls `new Date().toISOString()`
  twice. The model uses one instant for all the reads of a single
  operation, so it does not capture readings that differ.
- **Async code.** The async methods are modelled as straight-line code. Each
  `await` completes before the next statement.
- **PHP version.** The feedback script is modelled with PHP 8 semantics:
  - `strtolower` and `ucwords` touch ASCII letters only;
  - `strlen` counts UTF-8 bytes;
  - an array handed to `htmlspecialchars` or `preg_match` raises a
    TypeError that ends the script. The outcome `Fatal` stands for this.
- **Currency amounts.** `formatCurrency` takes whole cents, so `toFixed(2)`
  is exact. `parseCurrency` returns exact reals.
- **Source quirks kept as written.** Several behaviours of the code are
  kept and stated as lemmas:
  - a cache hit spreads the `{config, timestamp}` envelope rather than the
    document inside it (`CacheHitSpreadsEnvelope`);
  - `configLastFetched` starts at 0 (`NoCacheBeforeFirstFetch`);
  - two posted fields whose names normalise alike both count as required
    matches (`RepeatedRequiredCount`);
  - when the fetch fails, `getPriceData` overwrites `enabled` and `price`
    with the in-memory values, so the fallback keeps those two as they were
    (`LoadedEnabledAndPrice`).
- **No bound on `maxDisplays`.** `validateGlobalConfig` checks only
  `enabled` and `price`, so the model assumes nothing about `maxDisplays`.

## Model

| member | source | states |
|---|---|---|
| Json.Spread | js/duratile-popup.js:106 | spreading an object yields exactly its fields; spreading undefined, null, a boolean or a number yields nothing |
| Json.Iterate | global-config-server.js:125 | an array spread takes an array's elements; the spread throws exactly when the value is neither an array nor a string |
| Json.PlusOne | js/duratile-popup.js:333 | `(x \|\| 0) + 1` is 1 for every falsy value, adds 1 to a number, and appends "1" to a non-empty string |
| Json.RadixTextNumber | js/duratile-popup.js:395 | in the `count >= maxDisplays` comparison, a string "0b", "0o" or "0x" (either case) followed by digits of that base converts to that integer (so "0x3" is 3) |
| Json.SignedInfinity | js/duratile-popup.js:395 | "Infinity", "+Infinity" and "-Infinity" convert to the infinity of that sign |
| PopupConfig.DefaultConfig | js/duratile-popup.js:17-24 | the defaults define exactly cookieName, cookieExpireDays, maxDisplays, popupDelay, enabled and price |
| PopupConfig.ValidGlobalConfig | js/duratile-popup.js:170-176 | a document is accepted if and only if its `popup` is an object with a boolean `enabled` and a number `price` of at least 0 |
| PopupConfig.MergeConfigurations | js/duratile-popup.js:178-188 | the merge has exactly the default keys; `enabled` and `price` come from the document; each of maxDisplays, cookieExpireDays, popupDelay and cookieName takes the document's value when it is truthy, else the default |
| PopupConfig.CachedConfig | js/duratile-popup.js:144-152 | a cached document is read exactly when the cache key holds an entry that parses |
| PopupConfig.PriceData | js/duratile-popup.js:341-364 | the record always takes `enabled` and `price` from the in-memory configuration and always has `lastUpdated` and `popupDisplayCount`; every other key comes from the stored record, and every stored key other than `enabled` and `price` is kept |
| PopupConfig.DisplayStats | js/duratile-popup.js:330-338 | the display counter becomes `(n \|\| 0) + 1` of the price data's counter; every other key of the price data is unchanged |
| PopupConfig.LocalRecord | js/duratile-popup.js:259-272 | the stored record carries the current `enabled` and `price` and the locale time stamp; it has exactly the keys of the price data it was built from, and every other key keeps that record's value |
| PopupConfig.AdminUpdate | js/duratile-popup.js:472-508 | nothing is written exactly when no cached document with a truthy `config` exists; the update fails exactly when that document's change log is truthy and cannot be spread; a rewrite keeps every other top-level key; its `popup` has the old keys, the update keys and `lastUpdated`, with every update applied, every other old key kept and a fresh `lastUpdated`; its `admin` keeps every old key, sets `lastModifiedBy` to "admin" and holds the old change-log entries (none when the log was falsy) followed by `{timestamp, action: "update", changes}` |
| PopupSystem.Show | js/duratile-popup.js:511-579 | a display keeps the cookie jar well formed |
| PopupSystem.ShowCountsOnce | js/duratile-popup.js:511-579 | with an overlay present, the popup disabled or a non-number price nothing changes; otherwise the overlay appears, the counter cookie rises by exactly one (NaN stays NaN) and every other cookie's count is unchanged |
| PopupSystem.ForceShow | js/duratile-popup.js:641-653 | a forced display keeps the cookie jar well formed |
| PopupSystem.ForceShowKeepsCount | js/duratile-popup.js:641-653 | a forced display leaves the counter as it was and shows the overlay exactly when one already exists or the popup is enabled with a number price, whatever the count |
| PopupSystem.ChooseLoadPath | js/duratile-popup.js:101-140 | the cache is used exactly when its entry parses to a truthy value and it is younger than the TTL; otherwise the fetched document is adopted exactly when the response is 2xx and its body parses and passes validation; every other case falls back |
| PopupSystem.LoadedConfig | js/duratile-popup.js:101-140 | the configuration left by every path still has every default key |
| PopupSystem.LoadedEnabledAndPrice | js/duratile-popup.js:121-140 | on the fallback path `enabled` and `price` keep their in-memory values; a fetched document sets them from its `popup` section |
| PopupSystem.CacheHitSpreadsEnvelope | js/duratile-popup.js:104-109 | a cache hit on an entry written by `cacheConfig` resets `enabled` to true and `price` to 70 and adds a `config` key holding the document |
| PopupSystem.NoCacheBeforeFirstFetch | js/duratile-popup.js:154-156 | with `configLastFetched` still 0, the cache is never used once the clock is five minutes past the epoch |
| PopupSystem.DuratilePopupSystem.constructor | js/duratile-popup.js:9-35 | the configuration starts as the defaults, nothing has been fetched, no channel, no overlay, no timers and no messages |
| PopupSystem.DuratilePopupSystem.GetCookie | js/duratile-popup.js:300-309 | the loop over the `;`-separated cookie string returns what `getCookie` specifies; for a jar the browser built and a well-formed name, that is the value of the cookie with that name |
| PopupSystem.DuratilePopupSystem.GetPopupCount | js/duratile-popup.js:312-315 | the count is `parseInt` of the counter cookie, or 0 when the cookie is missing or empty |
| PopupSystem.DuratilePopupSystem.SetCookie | js/duratile-popup.js:294-298 | the jar becomes the jar after the assignment `name=value;path=/`; nothing else changes |
| PopupSystem.DuratilePopupSystem.CacheConfig | js/duratile-popup.js:158-168 | the cache key holds `{config, timestamp}`; nothing else changes |
| PopupSystem.DuratilePopupSystem.BroadcastConfigUpdate | js/duratile-popup.js:191-200 | one `CONFIG_UPDATE` message is posted when the channel is open, none otherwise; nothing else changes |
| PopupSystem.DuratilePopupSystem.UpdateLocalStorage | js/duratile-popup.js:259-272 | the price-data key holds the refreshed record; nothing else changes |
| PopupSystem.DuratilePopupSystem.AdoptFetched | js/duratile-popup.js:121-128 | a valid fetched document becomes the merged configuration, is cached, stamps `configLastFetched` and is broadcast |
| PopupSystem.DuratilePopupSystem.LoadGlobalConfiguration | js/duratile-popup.js:101-141 | the new configuration is the one the chosen path gives; only a successful fetch writes the cache, moves `configLastFetched` and broadcasts (`StorageAfterLoad`, `FetchedAtAfterLoad`, `OutboxAfterLoad`); the cookies, overlay and timers are untouched |
| PopupSystem.DuratilePopupSystem.OnStorageEvent | js/duratile-popup.js:226-233 | a change to either of the two keys reloads the configuration, with the configuration, cache, fetch time and posted messages the chosen load path gives; a change to any other key changes nothing |
| PopupSystem.DuratilePopupSystem.ClosePopup | js/duratile-popup.js:602-614 | the overlay is gone; nothing else changes |
| PopupSystem.DuratilePopupSystem.HandleBroadcastMessage | js/duratile-popup.js:202-223 | a message that is not a `CONFIG_UPDATE` with a valid document changes nothing; a valid one replaces the configuration by its merge, caches the document, refreshes the price data and removes the overlay exactly when the merged result is disabled |
| PopupSystem.DuratilePopupSystem.UpdatePopupStats | js/duratile-popup.js:330-338 | the price-data key holds the record with its display counter advanced; nothing else changes |
| PopupSystem.DuratilePopupSystem.IncrementPopupCount | js/duratile-popup.js:318-327 | it returns the old count plus one and writes it to the counter cookie, which then reads back as that count; the display statistics advance |
| PopupSystem.DuratilePopupSystem.ShowPopup | js/duratile-popup.js:511-579 | the page (storage, cookies, overlay) becomes what `Show` gives; configuration, timers and messages are untouched |
| PopupSystem.DuratilePopupSystem.CheckAndShowPopup | js/duratile-popup.js:381-410 | a timer with `popupDelay` is scheduled exactly when the popup is enabled and `count >= maxDisplays` is false; nothing else changes |
| PopupSystem.DuratilePopupSystem.FireDisplayTimer | js/duratile-popup.js:402-409 | the fired timer is removed and the page becomes what `Show` gives, so a popup disabled during the delay is not shown |
| PopupSystem.DuratilePopupSystem.UpdateGlobalConfiguration | js/duratile-popup.js:472-508 | the cache is rewritten as `AdminUpdate` describes; the result is false exactly when the old change log cannot be spread |
| PopupSystem.DuratilePopupSystem.EnablePopup | js/duratile-popup.js:413-425 | `enabled` becomes true, the cache and the price data are updated and `{popup: config}` is broadcast |
| PopupSystem.DuratilePopupSystem.DisablePopup | js/duratile-popup.js:428-444 | `enabled` becomes false, the cache and the price data are updated, the overlay is removed and `{popup: config}` is broadcast |
| PopupSystem.DuratilePopupSystem.TogglePopup | js/duratile-popup.js:447-450 | `enabled` becomes the negation of its truthiness, with the storage, overlay and broadcast of the branch taken |
| PopupSystem.DuratilePopupSystem.UpdatePrice | js/duratile-popup.js:453-469 | a price is accepted exactly when it is a number of at least 0; a refused price changes nothing at all; an accepted one is stored, cached and broadcast |
| PopupSystem.DuratilePopupSystem.ResetPopupCount | js/duratile-popup.js:629-638 | the counter cookie is written as "0" and then reads 0 |
| PopupSystem.DuratilePopupSystem.ForceShowPopup | js/duratile-popup.js:641-653 | the page becomes what `ForceShow` gives |
| PopupSystem.DuratilePopupSystem.SafeInitialize | js/duratile-popup.js:47-81 | without storage access nothing changes; otherwise the channel opens when supported, the configuration, cache, fetch time and posted messages become what the chosen load path gives, a display timer is added exactly when the display check passes, and the system is initialized |
| PopupSystem.FirstVisitSchedules | js/duratile-popup.js:17-24 | on a first visit (no price record, no counter cookie) whose fetch fails, the loaded configuration still passes the display check, with the two-second default delay |
| PopupSystem.FallbackDefaults | js/duratile-popup.js:133-140 | with no price record, the fallback load leaves the default cookie name, display limit, enabled flag and delay |
| Cookies.ParseSetCookie | js/duratile-popup.js:297 | an assignment stores a cookie only with a non-empty name free of `;`, `=` and surrounding blanks, and a value free of `;` and surrounding blanks |
| Cookies.Store | js/duratile-popup.js:297 | storing keeps a well-formed jar well formed |
| Cookies.AssignCookie | js/duratile-popup.js:297 | any `document.cookie` assignment keeps a well-formed jar well formed |
| Cookies.LookupStore | js/duratile-popup.js:297 | after storing a cookie, its name reads the new value and every other name reads as before |
| Cookies.FindInDocument | js/duratile-popup.js:300-309 | scanning the cookie string for `name=` finds exactly the jar's value for that name |
| Cookies.CookieValueIsLookup | js/duratile-popup.js:300-309 | `getCookie` on the jar's cookie string returns the jar's value for a well-formed name, and null when there is none |
| Cookies.ParseAssignment | js/duratile-popup.js:294-298 | the assignment `setCookie` makes stores exactly its name and value |
| Cookies.ParseIntDigits | js/duratile-popup.js:314 | `parseInt` reads a plain run of decimal digits as its value |
| Cookies.ParseIntNatText | js/duratile-popup.js:314 | `parseInt` reads back any non-negative integer that was written out in decimal |
| Cookies.ParseIntNegativeText | js/duratile-popup.js:314 | `parseInt` reads back a negative integer written with its minus sign |
| Cookies.ParseIntNaNText | js/duratile-popup.js:314 | `parseInt("NaN")` is NaN |
| Cookies.ParseIntCountText | js/duratile-popup.js:314-321 | every counter value read back after being written is the same counter value |
| Cookies.CountTextClean | js/duratile-popup.js:321 | a written counter is a non-empty cookie value stored exactly as written |
| Cookies.Increment | js/duratile-popup.js:320 | `count + 1` is an integer exactly when the count is, and one more than it |
| Cookies.WriteThenReadCount | js/duratile-popup.js:312-327 | after writing a counter under a name, the name's count reads that counter and every other name's count is unchanged |
| GlobalConfigServer.RouteOf | global-config-server.js:84-181 | OPTIONS is answered first for any path; the two configuration paths route GET to reading, POST and PUT to updating and every other method to 405; `/status` answers any method; every other path is not found; each condition holds in both directions |
| GlobalConfigServer.LoadConfig | global-config-server.js:24-57 | a file that parses is returned as is; otherwise the default document: enabled, price 70, at most 3 displays, an empty change log |
| GlobalConfigServer.LastTen | global-config-server.js:132 | `slice(-10)` keeps the last min(n, 10) elements |
| GlobalConfigServer.MergedPopup | global-config-server.js:117-120 | the merged popup has the keys of both sections; update keys win and the others keep their stored values |
| GlobalConfigServer.UpdatedLog | global-config-server.js:124-132 | the new log has 1 to 10 entries, the new entry last, preceded by the newest previous entries in order |
| GlobalConfigServer.MergeUpdate | global-config-server.js:109-134 | the merge throws a TypeError exactly when the stored document or the updates are null, or the stored change log is truthy but cannot be spread; otherwise it yields the merged document |
| GlobalConfigServer.MergeKeepsTopLevel | global-config-server.js:115-116 | the merged document has the stored top-level keys plus `popup` and `admin`, and every other top-level field is unchanged |
| GlobalConfigServer.MergePopupOverrides | global-config-server.js:117-120 | the merged `popup` is the stored section overridden by `updates.popup`; without `updates.popup` it is the stored section |
| GlobalConfigServer.MergeAdmin | global-config-server.js:121-133 | `lastModifiedBy` is `updates.admin.lastModifiedBy` when truthy, else "api"; the change log is the previous log plus the new entry, capped at ten |
| GlobalConfigServer.Respond | global-config-server.js:73-182 | OPTIONS gives 200 with no body; GET gives the loaded document; 405 and 404 where routed; `/status` gives 200 unless the document is null; an update with an unparseable body, a merge TypeError or a failed save gives 400 and leaves the file; an update that merges and saves answers 200 with `{success, message, config}` and writes that stamped merged document; the file changes only then |
| GlobalConfigServer.ReadAfterUpdate | global-config-server.js:95-142 | after a successful update, a GET on the same path serves exactly the `config` the update answered with |
| GlobalConfigServer.ConfigServer.SaveConfig | global-config-server.js:60-70 | the document is stamped with the save time and written when the write succeeds; the result says whether it did |
| GlobalConfigServer.ConfigServer.HandleRequest | global-config-server.js:73-182 | the handler, with its body accumulated chunk by chunk, gives the reply and the file that `Respond` specifies |
| Currency.Strip | calc/helpers.js:4 | the stripped text is no longer than the input and holds only digits, `.` and `-` |
| Currency.StripCounts | calc/helpers.js:4 | every digit, `.` and `-` of the input survives stripping, as often as it occurs |
| Currency.StripKeeps | calc/helpers.js:4 | text made only of digits, `.` and `-` is left as it is |
| Currency.ParseFloat | calc/helpers.js:4 | `parseFloat("")` is NaN |
| Currency.ParseCurrency | calc/helpers.js:2-7 | text without a digit gives 0; the text `formatCurrency` writes for an amount in cents gives back that amount; a finite number is returned as it is; null, undefined, a boolean or a plain object gives 0 |
| Currency.NoDigitsNaN | calc/helpers.js:4 | `parseFloat` finds no number in stripped text that has no digit, so the `\|\| 0` fallback applies |
| Currency.ToFixed2 | calc/helpers.js:10 | `toFixed(2)` of an amount in cents holds only digits, `.` and `-` |
| Currency.InsertCommas | calc/helpers.js:10 | inserting separators never shortens the text |
| Currency.GroupedNumber | calc/helpers.js:10 | on integer digits, a `.` and fraction digits, the separators group the integer part in threes from the right and leave the fraction alone |
| Currency.FormatShape | calc/helpers.js:9-11 | `formatCurrency` is the sign, the grouped integer part, a `.` and exactly two fraction digits |
| Currency.GroupDigitsEnds | calc/helpers.js:10 | the grouped integer part begins and ends with a digit, so no comma is leading or trailing |
| Currency.RemoveInsertedCommas | calc/helpers.js:10 | deleting the commas the lookahead inserted gives back the comma-free input |
| Currency.FormatRemoveCommas | calc/helpers.js:10 | removing the commas from `formatCurrency(v)` gives `v.toFixed(2)` |
| Currency.StripInsertCommas | calc/helpers.js:4-10 | `parseCurrency`'s stripping removes exactly what `formatCurrency` inserted |
| Currency.ReadFixed | calc/helpers.js:4 | `parseFloat` reads `q.rr` as q + rr/100 |
| Currency.ParseFixedDigits | calc/helpers.js:4-10 | `parseFloat` reads an unsigned or negated `toFixed(2)` rendering back as the amount |
| Currency.ParseToFixed2 | calc/helpers.js:4-10 | `parseFloat(v.toFixed(2))` is v for every amount in cents |
| Currency.FormatParsesBack | calc/helpers.js:2-11 | stripping and `parseFloat` read `formatCurrency(v)` back as v, for every amount in cents |
| FeedbackRules.Utf8Length | feedback/feedback.inc.php:114 | `strlen` is at least the number of characters, and equal to it for ASCII text |
| FeedbackRules.LowercaseLimitKeys | feedback/feedback.inc.php:176-179 | the start-up loop adds every entry under its lower-cased name to the table |
| FeedbackRules.ConfiguredTable | feedback/feedback.inc.php:21 | with the configured entries, the table after start-up is address 350, Enquiry 500, enquiry 500 |
| FeedbackRules.CustomTable | feedback/feedback.inc.php:21 | the configured entries as a PHP array are address 350 and Enquiry 500 |
| FeedbackRules.ConfiguredLimits | feedback/feedback.inc.php:99-111 | a field's limit is 350 for "address" and 500 for "enquiry" in any letter case, 1000 otherwise |
| FeedbackRules.UcWords | feedback/feedback.inc.php:255 | `ucwords` upper-cases the first character and each character after a word separator, and changes nothing else |
| FeedbackRules.UnderscoresToSpaces | feedback/feedback.inc.php:255 | every `_` becomes a space and nothing else changes |
| FeedbackRules.Normalise | feedback/feedback.inc.php:255 | a normalised name has the same length and no `_` |
| FeedbackRules.NormaliseIdempotent | feedback/feedback.inc.php:180-185 | normalising a normalised name changes nothing, so the lists normalised at start-up match the keys normalised in the scan |
| FeedbackRules.NormalisedNames | feedback/feedback.inc.php:180-185 | each name of the list is replaced by its normalised form |
| FeedbackRules.NormaliseNames | feedback/feedback.inc.php:180-185 | the in-place loop leaves the array holding the normalised names |
| FeedbackRules.UserNameNormalised | feedback/feedback.inc.php:23 | "User_name" normalises to "User Name" |
| FeedbackRules.UserEmailNormalised | feedback/feedback.inc.php:23 | "User_email" normalises to "User Email" |
| FeedbackRules.TelNoNormalised | feedback/feedback.inc.php:23 | "Tel_no" normalises to "Tel No" |
| FeedbackRules.SubmitNormalised | feedback/feedback.inc.php:25 | "submit" normalises to "Submit" |
| FeedbackRules.Submit1Normalised | feedback/feedback.inc.php:25 | "submit1" normalises to "Submit1" |
| FeedbackRules.CheckSpam | feedback/feedback.inc.php:31-40 | true exactly when the lower-cased text contains one of the six spam words |
| FeedbackRules.CoreMatches | feedback/feedback.inc.php:142 | the pattern between `^` and `$` matches exactly when the text splits at an `@` into a valid local part and a valid domain |
| FeedbackRules.SplitIsFirstAt | feedback/feedback.inc.php:142-143 | a split point of the pattern is the first and only `@` |
| FeedbackRules.CoreShape | feedback/feedback.inc.php:142-143 | a match has exactly one `@`, an alphanumeric-led local part of class characters and a domain of at least two class characters not starting with `.` |
| FeedbackRules.NewlineShape | feedback/feedback.inc.php:142-143 | a match that uses `$` before a final newline has the same shape, with the newline after the domain |
| FeedbackRules.EmailPatternAccepts | feedback/feedback.inc.php:142 | every valid local part and domain joined by `@` match, with or without one final newline |
| FeedbackRules.HtmlEscape | feedback/feedback.inc.php:293 | the escaped text holds no `<`, `>`, `"` or `'` |
| FeedbackRules.EscapeRoundTrip | feedback/feedback.inc.php:293 | decoding the five entities gives back the original text |
| FeedbackRules.StripAddSlashes | feedback/feedback.inc.php:329 | `stripslashes` undoes `addslashes` |
| FeedbackRules.StripSlashesPlain | feedback/feedback.inc.php:329 | `stripslashes` leaves text without a backslash unchanged |
| FeedbackRules.Basename | feedback/feedback.inc.php:166 | the base name holds no `/` |
| FeedbackRules.FileExtension | feedback/feedback.inc.php:165-170 | the extension holds no `.` and no `/` |
| FeedbackRules.ExtensionOfName | feedback/feedback.inc.php:165-170 | the extension of `stem.ext` is `ext` in lower case |
| FeedbackForm.FieldReport | feedback/feedback.inc.php:104-131 | a field adds no line exactly when it fits its limit (for a list, every element fits) |
| FeedbackForm.LengthReportEmpty | feedback/feedback.inc.php:99-139 | the report is empty exactly when every posted field fits its limit |
| FeedbackForm.ValidLength | feedback/feedback.inc.php:99-139 | the loop builds the report field by field; the result is true exactly when the report is empty, that is when every field fits |
| FeedbackForm.CheckField | feedback/feedback.inc.php:104-131 | the loop body, with its inner `break`, adds the report line for one field |
| FeedbackForm.Lookup | feedback/feedback.inc.php:210-216 | a key is set exactly when some posted field has it, and the value is that field's |
| FeedbackForm.FirstPresent | feedback/feedback.inc.php:210-220 | the address comes from the first of the keys that is set; none means no key is set |
| FeedbackForm.CheckEmail | feedback/feedback.inc.php:222-232 | an empty address is missing (message 0); a non-empty list raises a TypeError; otherwise it is accepted exactly when the pattern and the MX lookup pass |
| FeedbackForm.ScanOf | feedback/feedback.inc.php:250-299 | the scan keeps as many values as names |
| FeedbackForm.ScanPost | feedback/feedback.inc.php:250-299 | the loop, with its `break` and `continue`, ends in the scan `ScanOf` describes |
| FeedbackForm.ScanStops | feedback/feedback.inc.php:251-253 | once a required field was empty (or a TypeError happened), no later field changes anything |
| FeedbackForm.ScanKeeps | feedback/feedback.inc.php:250-299 | a completed scan keeps, in order, exactly the fields that are neither ignored nor falsy, each value HTML-escaped, and counts every field with a required name |
| FeedbackForm.ScanKeptFields | feedback/feedback.inc.php:274-298 | no ignored field reaches the mail, and no kept value holds `<`, `>`, `"` or `'` |
| FeedbackForm.KeptNamesNotIgnored | feedback/feedback.inc.php:276-284 | no kept name is on the ignored list |
| FeedbackForm.RepeatedRequiredCount | feedback/feedback.inc.php:255-268 | two filled fields whose names normalise to the same required name add two to the match count |
| FeedbackForm.NormaliseFirstLetter | feedback/feedback.inc.php:255 | the case of a name's first letter does not change its normalised form |
| FeedbackForm.FirstSpam | feedback/feedback.inc.php:321-338 | the index found is the first value containing a spam word, or the end when there is none |
| FeedbackForm.BuildContent | feedback/feedback.inc.php:321-338 | spam is reported exactly when some kept value contains a spam word; the content then ends with that value's line, otherwise it holds every kept field |
| FeedbackForm.ListTypes | feedback/feedback.inc.php:383-385 | the loop writes `*.ext,` for every allowed extension, in order |
| FeedbackForm.RequiredNamesNormalised | feedback/feedback.inc.php:180-182 | the required list after start-up is "User Name", "User Email", "Tel No" |
| FeedbackForm.IgnoredNamesNormalised | feedback/feedback.inc.php:183-185 | the ignored list after start-up is "Submit", "Submit1" |
| FeedbackForm.SentRequires | feedback/feedback.inc.php:198-419 | a mail is sent only when every field fits, the address is accepted, each required name was posted (repeats counting), no kept value is spam, the attachment is allowed and `mail()` succeeded; the mail holds exactly the kept fields, in order |
| FeedbackForm.HandleSubmission | feedback/feedback.inc.php:3-419 | the script's outcome for a submission is the one the phases specify (no post: redirect; too long; message 0, 1, 2 or 5; spam; mail failure; success; TypeError), and the message is that outcome's text |
| FeedbackForm.Settings | feedback/feedback.inc.php:173-185 | start-up yields the limit table with lower-case keys and the normalised required and ignored lists |
| FeedbackForm.NormaliseSetting | feedback/feedback.inc.php:180-185 | a name list is normalised entry by entry |
| FeedbackForm.CheckFields | feedback/feedback.inc.php:206-313 | after the lengths pass: the e-mail verdict, then the scan verdict, then the mail phase, in the script's order |
| FeedbackForm.SendMail | feedback/feedback.inc.php:317-419 | a refused attachment wins over spam, spam stops the mail, and otherwise the mail is sent with the scanned name and content |
| FeedbackForm.Render | feedback/feedback.inc.php:48-75 | the message shown is the error-table entry for the outcome, with the allowed extensions listed in message 2 |
| HtmlFixer.ReplaceAbsent | fix_mobile_responsiveness.py:44-45 | replacing a pattern that does not occur changes nothing |
| HtmlFixer.ReplacementAppears | fix_mobile_responsiveness.py:45 | when the pattern occurs, the replacement occurs in the result |
| HtmlFixer.NoneLeft | fix_mobile_responsiveness.py:45 | when no occurrence of the pattern can overlap the replacement, no occurrence is left |
| HtmlFixer.NoneCreated | fix_mobile_responsiveness.py:45 | a string absent from the text that cannot overlap the replacement is still absent afterwards |
| HtmlFixer.Survives | fix_mobile_responsiveness.py:45 | a string present in the text that cannot overlap the pattern is still present afterwards |
| HtmlFixer.TransformSteps | fix_mobile_responsiveness.py:43-46 | the rewrites run in list order, each over the previous one's output |
| HtmlFixer.FixHtmlFile | fix_mobile_responsiveness.py:12-54 | the content is the transformed text, and the file is written exactly when it differs from the original |
| HtmlFixer.TransformSecures | fix_mobile_responsiveness.py:33-46 | no plain-HTTP jQuery or mobile-script URL is left |
| HtmlFixer.ViewportInTag | fix_mobile_responsiveness.py:28 | the inserted text mentions "viewport" |
| HtmlFixer.AddViewportMentions | fix_mobile_responsiveness.py:22-30 | after the viewport step "viewport" occurs exactly when it already did or the charset tag is present |
| HtmlFixer.RewritesKeepViewport | fix_mobile_responsiveness.py:43-46 | the URL rewrites never remove "viewport" |
| HtmlFixer.TransformViewport | fix_mobile_responsiveness.py:22-46 | a page that mentions "viewport" or has the charset tag mentions "viewport" after the transform |
| HtmlFixer.RewritesAddNoCharset | fix_mobile_responsiveness.py:43-46 | the URL rewrites never create the charset tag |
| HtmlFixer.AlreadyFixed | fix_mobile_responsiveness.py:12-54 | a page with "viewport" (or without the charset tag) and no plain-HTTP URL is left unchanged |
| HtmlFixer.TransformIdempotent | fix_mobile_responsiveness.py:12-54 | running the transform on its own output changes nothing, so a second run never writes the file |

## Left out

- Page markup and events: the popup's HTML text, `insertAdjacentHTML`, the
  fade-in and fade-out timers, and the click and Escape listeners of
  `setupPopupEventListeners`. The overlay is a boolean.
- PopupSystem.DuratilePopupSystem.ClosePopup: removes the overlay at once.
  The source marks it for removal and removes it 300 ms later.
- Logging and debugging: `log`, `enableDebugMode`, `disableDebugMode` and
  `getSystemStatus` only write to the console or report state.
- `init`: it only waits for the document to be ready. A caller runs the
  constructor and then `SafeInitialize`.
- `validateStorageAccess` and `initializeBroadcastChannel` probe the
  browser. Their results are the parameters `storageAccessible` and
  `channelSupported`.
- The catch branch of `safeInitialize`: `loadGlobalConfiguration` catches
  its own errors, so nothing modelled can throw there.
- `initializeDefaultData`: it writes only when the price data lacks
  `enabled`, and `PriceData` always has `enabled`.
- `setupStorageEventListeners`: the listener it installs is
  `OnStorageEvent`.
- Cookies: the `expires` attribute and cookie expiry are not modelled.
  Cookies are stored with path "/" and never expire.
- Json.Value: numbers are exact reals and integers, so NaN and the
  infinities are not JSON values here, and there is no double-precision
  rounding: `popupDisplayCount + 1` and the cookie counter's `count + 1`
  stay exact past 2^53, where the browser would stop counting.
- PopupSystem.DuratilePopupSystem.UpdatePrice: `updatePrice(NaN)` and
  `updatePrice(Infinity)`, which the source's `typeof` and `< 0` test
  accept, cannot be expressed, because `Json.Value` has no such numbers.
- Json.StringToNumber: values are exact reals, so a literal beyond the
  range of a double (such as "1e400") gives a finite value rather than an
  infinity, and no rounding to a double takes place.
- Json.JsString: the digits after the point of a fractional number are not
  rendered. This matters only for a fractional `cookieName` or counter.
- Json.Chars: a string is spread and iterated by Unicode scalar value.
  JavaScript indexes object spread of a string by UTF-16 code unit.
- `JSON.stringify` key order and white space: storage holds parsed values.
- Config server I/O: the `http`, `fs` and `url` modules, the CORS headers,
  console output, the listen message and the SIGINT handler. The file is a
  `FileState`.
- Config server error text: a 400 reply carries the reason as a `Failure`
  rather than the engine's error message.
- GlobalConfigServer.Respond: a string or array stored document is spread
  by index, as JavaScript does, but its serialised form is not modelled.
- Feedback mail assembly: the mail headers, the MIME body, the base64
  attachment encoding, the subject placeholder and `mail()` itself. Sending
  is the parameter `mailOk`.
- The MX lookup (`checkdnsrr`) is the parameter `hasMx`. `fsockopen` is
  never reached because the script passes no connection test.
- The referer check (`validReferred`) is switched off by `$referred = 0`.
- FeedbackForm.ValidLength: every posted value is a string or a list of
  strings. A nested array, on which `strlen` raises a TypeError, is not
  modelled. `$_POST` holds no other value type, so the "unknown variable"
  branch cannot be reached.
- Invalid UTF-8 input is not modelled, because strings are sequences of
  Unicode characters.
- FeedbackForm.BuildContent: the list branch of the content loop is dead,
  because the scan never keeps a list. It is not modelled.
- FeedbackForm.HandleSubmission: a PHP TypeError ends in `Fatal` with an
  empty message. PHP's own error text is not modelled.
- Currency: floating point is not modelled. `formatCurrency` takes amounts
  in whole cents, so rounding in `toFixed(2)`, NaN, infinities and
  exponent notation are not modelled.
- Currency.ParseCurrency: a numeric argument is a finite real, returned as
  it is. Arrays and objects with their own `toString`, which `parseFloat`
  reads through their string form (`parseFloat([5])` is 5), are not
  modelled. `NonNumeric` stands for null, undefined, booleans and plain
  objects, which give 0.
- HTML fixer I/O: reading and writing files, printing, `main` and its file
  list. `FixHtmlFile` takes the text and answers whether to write.
