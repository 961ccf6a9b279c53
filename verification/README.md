# Bot-mode contact dashboard, modelled in Dafny

This project models the decision logic of a small browser dashboard. The dashboard lists WhatsApp contacts kept in a spreadsheet and switches each contact's bot on (`'bot'`) or off (`'OFF'`) through a webhook. Three pieces are modelled.

**The request path of the API manager** (`request_retry.dfy`):
- one attempt: the fetch, the `response.ok` check and the JSON decode;
- the retry loop with exponential backoff;
- the option merge of `makeRequest`;
- the mapping of an aborted fetch to a `Timeout` error;
- `handleError`, the ordered substring classifier.

The network is replaced by a scripted environment: `outcomes[k - 1]` is what `fetch` does on attempt `k`. The backoff waits are returned as a list instead of being slept.

**Contact validation and normalisation** (`contact_records.dfy`). Loosely typed spreadsheet rows are values of a small JavaScript value type (`js_values.dfy`), with JavaScript truthiness and `||` written out. The module holds:
- `validatePhoneNumber` and `validateBotMode`;
- `isValidContact` and `sanitizeContact`;
- `validateContacts`, a filter-then-map over the rows.

The input checks and payload of `updateBotMode` are in `bot_mode_api.dfy`.

**Dashboard view logic** (`dashboard.dfy`). The UI manager's fields become the record `UiState`. The module holds:
- the mode and search filter (`applyFilters`, `handleSearch`, `handleFilter`);
- the Brazilian phone layout (`formatPhoneNumber`);
- the bot-mode toggle and its local update;
- the header counters (`updateStats`);
- the loading guard of `handleRefresh`.

Shared modules:
- `config.dfy`: the configuration constants and `validateConfig`, which resolves dotted paths with optional chaining.
- `js_strings.dfy`: the string built-ins the code uses (`trim`, `includes`, `split`, `toLowerCase`, `replace(/\s/g, '')`, number-to-string).
- `selection.dfy`: `Array.prototype.filter` and the positions it keeps.

The code retries every failed attempt, including 4xx responses and bodies that fail to decode (js/api.js:42-58). No failure kind ends the loop early; `FailureKindIrrelevant` and `ClientErrorIsRetried` state it.

## Model

| member | source | states |
|---|---|---|
| JsValues.Or | js/api.js:205-211 | `a \|\| b` is truthy exactly when at least one operand is; it is the left operand when that one is truthy and the right operand itself otherwise, which is what makes `Key \|\| numero`, `modo \|\| 'OFF'` and `timestamp_ultima \|\| null` defaults |
| Selection.Filter | js/api.js:166-167 | `filter` never lengthens the list and keeps only elements satisfying the predicate |
| Selection.FilterMembers | js/api.js:166-167 | everything `filter` keeps comes from the input, and every input element satisfying the predicate is kept |
| Selection.FilterSelectsInOrder | js/api.js:166-167 | `filter` keeps exactly the elements at the positions where the predicate holds, in their original order |
| Selection.FilterTwice | js/ui.js:307-320 | two successive filters equal one filter by the conjunction of their predicates |
| Selection.FilterKeepsAllIff | js/ui.js:109 | nothing is dropped exactly when every element satisfies the predicate |
| Selection.FilterEmptyIff | js/ui.js:109 | nothing is kept exactly when no element satisfies the predicate |
| Selection.FilterUpdateCount | js/ui.js:240-245 | replacing one element changes the kept count by what that element's old and new values contribute |
| JsStrings.StripSpaces | js/api.js:223 | removing every whitespace character leaves no whitespace and never lengthens the string |
| JsStrings.StripSpacesMembers | js/api.js:223 | what is left are characters of the input, and every non-space character of the input is left |
| JsStrings.Trim | js/api.js:208-209 | the trimmed string neither starts nor ends with whitespace and is no longer than the input |
| JsStrings.TrimEmptyIff | js/ui.js:285 | trimming yields the empty string exactly when the input is all whitespace |
| JsStrings.TrimStrip | js/api.js:209 | trimming removes only whitespace: stripping all whitespace before or after trimming gives the same string |
| JsStrings.TrimIdempotent | js/api.js:208-209 | trimming twice is trimming once |
| JsStrings.TrimIsMiddle | js/ui.js:285 | the trimmed string is a contiguous slice of the input preceded and followed only by whitespace |
| JsStrings.TrimUntouched | js/api.js:205-208 | a string that neither starts nor ends with whitespace is its own trim |
| JsStrings.ToLowerAscii | js/ui.js:285 | the lowercased string has the input's length and no upper-case letter; each upper-case letter became its lower-case letter and every other character is kept in place |
| JsStrings.ToLowerIdempotent | js/ui.js:285 | lowercasing a lowercased string changes nothing |
| JsStrings.LowerKeepsSpaces | js/ui.js:285 | lowercasing keeps every whitespace position, so a string is all whitespace after lowercasing exactly when it was before |
| JsStrings.OccursAtContains | js/api.js:241 | an occurrence at any position makes `includes` true |
| JsStrings.ContainsOccurs | js/api.js:241 | `includes` is true only through an occurrence at some position, which it returns |
| JsStrings.ContainsAfter | js/api.js:249 | when no occurrence can start inside a prefix, prefix plus text contains the pattern exactly when the text does |
| JsStrings.DecimalString | js/api.js:43 | a status code prints as a non-empty string of decimal digits with no leading zero |
| JsStrings.DecimalRoundTrip | js/api.js:43 | reading the printed digits back gives the number |
| JsStrings.ThreeDigits | js/api.js:43 | a three-digit status prints as its hundreds, tens and units digits |
| JsStrings.Split | js/config.js:62 | splitting yields at least one part and no part contains the separator |
| JsStrings.SplitJoin | js/config.js:62 | joining the parts with the separator gives back the original path |
| JsStrings.SplitAtFirst | js/config.js:62 | the first part of a split ends at the first separator |
| Config.ChainStep | js/config.js:62 | `obj?.[key]` on null or undefined is undefined instead of an error |
| Config.ResolveSnoc | js/config.js:62 | resolving a path one key longer is one more optional-chaining step |
| Config.MissingPrefixAbsorbs | js/config.js:62 | once a path prefix is undefined, every extension of it resolves to undefined |
| Config.ValidateConfig | js/config.js:61-69 | valid exactly when every required path resolves to a truthy value; otherwise reports the first path that does not, after all earlier ones passed |
| Config.ValidateConfigOk | js/config.js:55-70 | `validateConfig()` is true exactly when `API.SHEET_BEST` and `API.N8N_WEBHOOK` both resolve to truthy values |
| Config.SplitApiPaths | js/config.js:56-62 | the two required dotted paths split into `API` and the endpoint key |
| Config.ShippedApiUrls | js/config.js:6-9 | both endpoint paths resolve to the configured URLs |
| Config.ShippedConfigValid | js/config.js:4-70 | the shipped configuration passes its own start-up check |
| Config.MissingWebhookReported | js/config.js:61-66 | with a blank webhook URL the check fails and reports `API.N8N_WEBHOOK`, after the sheet URL passed |
| Config.ConstantsConsistent | js/config.js:27-51 | the two bot modes are distinct, the object holds `'bot'` and `'OFF'` under them, and 0 < MIN_PHONE_LENGTH <= MAX_PHONE_LENGTH |
| RequestRetry.FetchWithTimeout | js/api.js:68-86 | an answer is passed through; an abort becomes an error whose message starts with `Timeout`; any other rejection is rethrown unchanged |
| RequestRetry.AttemptOnce | js/api.js:40-48 | an attempt succeeds exactly on an ok response with a decodable body; a non-ok response fails with `HTTP <status>: <text>`; decode and fetch errors keep their messages |
| RequestRetry.RetryFrom | js/api.js:36-60 | from attempt `k` on: attempts stop at the first success or at the budget; waits follow each failure that has a successor |
| RequestRetry.ExecuteRequestWithRetry | js/api.js:33-63 | attempts stay within the budget; the waits are the doubling schedule, one fewer than the attempts; every attempt but the last failed; the result is the last attempt's data, or its error once the budget is spent |
| RequestRetry.WaitsAreDoubling | js/api.js:54-57 | waits that are the backoff delays of attempts 1, 2, … in order are the doubling sequence |
| RequestRetry.AllAttemptsFail | js/api.js:36-62 | when every attempt fails, exactly `retries` attempts are made, the last error is rethrown, and `retries - 1` waits were slept |
| RequestRetry.FirstSuccessReturns | js/api.js:40-48 | a success on attempt `k` after `k - 1` failures returns that attempt's data at once, after `k - 1` waits |
| RequestRetry.DoublingSum | js/api.js:55 | the first `n` backoff waits add up to `retryDelay * (2^n - 1)` |
| RequestRetry.TotalBackoff | js/api.js:54-57 | a run of `n >= 1` attempts slept `retryDelay * (2^(n-1) - 1)` in total |
| RequestRetry.FailureKindIrrelevant | js/api.js:42-58 | two environments that succeed at the same attempts with the same data make the same number of attempts and waits and settle alike, whatever kind each failure was |
| RequestRetry.ClientErrorIsRetried | js/api.js:42-58 | a 404 on the first attempt is retried: a success on the second returns its data after one wait |
| RequestRetry.DefaultPolicy | js/api.js:15-20 | without options a request gets 3 attempts, 1000 ms base delay and 10000 ms timeout; three failures sleep 1000 ms and then 2000 ms |
| RequestRetry.OptionOverrides | js/api.js:15-20 | each of `timeout`, `retries` and `retryDelay` is the given option when present and the configured default otherwise; dropping one option restores its default and leaves the other two as they were |
| RequestRetry.HandleError | js/api.js:240-258 | the user-facing message is never empty; it is one of the fixed messages or the original message; with no pattern matching it is the original message, or the unknown-error message when that is empty |
| RequestRetry.TimeoutClassified | js/api.js:241-243 | any message containing `Timeout` reaches the user as the timeout message, whatever else it contains |
| RequestRetry.NetworkErrorClassified | js/api.js:245-247 | a message without `Timeout` that contains `Failed to fetch` or `NetworkError` reaches the user as the network message, even if it also holds an HTTP status |
| RequestRetry.RejectedFetchIsNetworkError | js/api.js:40-58 | a fetch rejected with `Failed to fetch` or `NetworkError` (and no `Timeout`) keeps its message through the attempt and is reported as the network message |
| RequestRetry.AbortIsTimeout | js/api.js:81-82 | an aborted attempt is classified as a timeout and reaches the user as the timeout message |
| RequestRetry.StatusLineNeutral | js/api.js:43 | the `HTTP <status>: ` prefix creates no `Timeout`, `Failed to fetch` or `NetworkError` match: those are found exactly when the status text holds them |
| RequestRetry.StatusLineStart | js/api.js:43 | a message for a three-digit status starts with `HTTP ` and the status's leading digit |
| RequestRetry.ClassifiedAs | js/api.js:240-255 | a message with no earlier match is classified by the first of `HTTP 4` and `HTTP 5` it contains |
| RequestRetry.ClientStatusClassified | js/api.js:249-251 | a 4xx response whose text holds no higher-priority pattern is reported as the authorisation/data error |
| RequestRetry.ServerStatusClassified | js/api.js:253-255 | a 5xx response whose text holds no higher-priority pattern is reported as the server error |
| RequestRetry.ServerLineNotClient | js/api.js:249 | a 5xx response whose status text holds no `HTTP 4` gives a message that holds none either |
| RequestRetry.TimeoutInStatusTextWins | js/api.js:241-243 | a status text naming `Timeout` outranks the status class |
| RequestRetry.MakeRequest | js/api.js:13-28 | resolves exactly when the loop returned, with its data; a rejection is the classified last error; a budget of zero or less rejects with the distinct outcome `RejectedOnUndefined` |
| RequestRetry.ThreeTimeoutsReportTimeout | js/api.js:13-28 | with the default policy, three aborted attempts reach the user as the timeout message |
| ContactRecords.PhoneCharsOfStripped | js/api.js:223-227 | all characters are in the phone class before stripping whitespace exactly when they are after |
| ContactRecords.ValidatePhoneNumber | js/api.js:218-228 | accepted exactly when the value is a string whose whitespace-free form has 10 to 15 characters and all of whose characters are digits, whitespace, `-`, `+`, `(` or `)` |
| ContactRecords.BotModesAreConfigured | js/api.js:234 | the configuration's `BOT_MODES` object has exactly the keys `ACTIVE` and `INACTIVE`, and the accepted modes are the values under them, in order, so they are `Object.values(CONFIG.BOT_MODES)` |
| ContactRecords.ValidateBotMode | js/api.js:233-235 | accepted exactly when the mode is the string `'bot'` or the string `'OFF'` |
| ContactRecords.NameField | js/api.js:187 | the name read is `nome` when truthy, otherwise `Nome` |
| ContactRecords.IsValidContact | js/api.js:174-199 | valid exactly when the row is a plain object with a phone-valid string `numero` and a name that is a non-empty string, with a truthy non-string `nome` rejecting the row |
| ContactRecords.SanitizeContact | js/api.js:204-213 | `Key` defaults to `numero`; the name prefers `nome`, then `Nome`, then `'Sem nome'`, and is trimmed; `numero` is trimmed; a falsy `modo` becomes `'OFF'`; a falsy timestamp becomes null |
| ContactRecords.SanitizeFixesSanitized | js/api.js:204-213 | the object form of a contact, with exactly the five keys `Key`, `nome`, `numero`, `modo`, `timestamp_ultima`, sanitises back to that contact when its shape is sanitised and its name not empty |
| ContactRecords.OtherFieldsIgnored | js/api.js:174-213 | validation and sanitising read only `Key`, `nome`, `Nome`, `numero`, `modo` and `timestamp_ultima`: setting any other field of a row changes neither result |
| ContactRecords.SanitizedNumberValid | js/api.js:193-209 | trimming the number of a valid row keeps it phone-valid |
| ContactRecords.TrimmedPhoneValid | js/api.js:209-227 | a phone-valid string stays phone-valid when trimmed |
| ContactRecords.SanitizeShape | js/api.js:204-213 | a sanitised contact has trimmed name and number, a truthy mode, a truthy or null timestamp, and a truthy key or the number as key |
| ContactRecords.SanitizeIdempotent | js/api.js:204-213 | sanitising the object form of a sanitised contact whose name is not empty changes nothing |
| ContactRecords.BlankNameResanitised | js/api.js:187-208 | a contact whose sanitised name is empty is the exception: sanitising its object form again turns the name into `'Sem nome'`, so that contact is not a fixed point |
| ContactRecords.BlankNameKeptEmpty | js/api.js:187-208 | a row whose name is only whitespace is accepted, and its sanitised name is empty rather than `'Sem nome'` |
| ContactRecords.ValidateContacts | js/api.js:161-169 | a non-array is an error with the fixed message; an array yields the sanitised form of exactly the valid rows, in input order |
| ContactRecords.ValidatedContactsValid | js/api.js:161-169 | every kept contact's number is phone-valid, and a list of valid rows loses none |
| BotModeApi.UpdateBotMode | js/api.js:121-156 | nothing is posted when the number or the mode is invalid, and the number is checked first; otherwise the payload carries the number, the mode and the clock reading; failures carry the `Falha ao atualizar modo: ` prefix |
| BotModeApi.UpdateSucceedsAtOnce | js/api.js:134-150 | a valid request whose first attempt succeeds makes exactly one attempt with no backoff wait, posts the payload and returns the response data |
| BotModeApi.UpdateTimesOut | js/api.js:140-155 | a valid request whose three attempts time out fails with the prefixed timeout message |
| Dashboard.FilterContacts | js/ui.js:307-320 | the two filter stages equal one filter by "passes the mode filter and the search" |
| Dashboard.ShowAllIsIdentity | js/ui.js:306-322 | with filter `'all'` and no search term the whole list is shown |
| Dashboard.FilteredInOrder | js/ui.js:307-312 | the shown list is an order-preserving selection of the contacts; with a mode filter every shown contact has that mode |
| Dashboard.SearchShowsExactly | js/ui.js:315-320 | with a non-empty term, a mode-matching contact is shown exactly when its lowercased name or its number contains the term |
| Dashboard.ApplyFilters | js/ui.js:306-324 | the shown list is recomputed from the state and nothing else changes |
| Dashboard.HandleSearch | js/ui.js:284-287 | the stored term is the lowercased, trimmed input; an all-whitespace term switches the search off; the list is refiltered |
| Dashboard.SearchTermNormalised | js/ui.js:285 | the stored term has no upper-case letter and no surrounding whitespace |
| Dashboard.HandleFilter | js/ui.js:292-301 | the filter is stored and the list refiltered with it; nothing else changes |
| Dashboard.LastFilterWins | js/ui.js:292-301 | only the last filter chosen matters: choosing one filter then another equals choosing the second alone, and choosing a filter again changes nothing |
| Dashboard.Digits | js/ui.js:512 | what is left after removing non-digits is all digits |
| Dashboard.FormattedDigits | js/ui.js:514 | the `(XX) XXXXX-XXXX` layout adds no digit and loses none |
| Dashboard.FormatPhoneNumber | js/ui.js:510-517 | eleven digits give a 15-character `(XX) XXXXX-XXXX` with the digits in order; anything else is returned unchanged |
| Dashboard.FormatIdempotent | js/ui.js:510-517 | formatting a formatted number changes nothing |
| Dashboard.ToggledMode | js/ui.js:209-211 | the new mode is `'OFF'` exactly when the current one is `'bot'`, and is always a mode `validateBotMode` accepts |
| Dashboard.ToggleInvolution | js/ui.js:209-211 | toggling twice from `'bot'` or `'OFF'` returns to it |
| Dashboard.FindByNumero | js/ui.js:213 | finds the first contact with the number, or reports that none has it |
| Dashboard.HandleToggleBot | js/ui.js:205-261 | nothing is posted when no contact has the number or the user cancels; once a contact is found and the user confirms, the posted payload is the one `updateBotMode` sends, the toggle is applied exactly when that update succeeds, and a failure carries the update's error; a state change happens only on success, where only the first matching contact changes, in mode and timestamp, and the list is refiltered |
| Dashboard.ToggleTouchesOneContact | js/ui.js:239-241 | a toggle keeps every contact's name, number and key, and every contact with another number |
| Dashboard.MatchUpdateKeepsOthers | js/ui.js:240-241 | updating the matched contact in place keeps the other contacts |
| Dashboard.UpdateStats | js/ui.js:107-115 | the total is the list length; the active count is the number of contacts in mode `'bot'` and never exceeds the total |
| Dashboard.StatsExtremes | js/ui.js:108-109 | the counters agree exactly when every bot is active, and the active count is zero exactly when none is |
| Dashboard.ToggleMovesCount | js/ui.js:240-245 | switching one contact off lowers the active count by one, switching it on raises it by one; the total is kept |
| Dashboard.LoadingRoundTrip | js/ui.js:89-102 | hiding the indicator after showing it from an idle state restores that state, and showing or hiding twice is the same as once |
| Dashboard.HandleRefresh | js/ui.js:266-279 | while loading, nothing happens; otherwise the flag goes up for the reload and always comes down, and the outcome follows the reload |
| Dashboard.RefreshWhileLoadingIgnored | js/ui.js:267 | a second refresh issued while the first is loading is ignored |

## Left out

- The network, `AbortController`, `setTimeout` and `sleep` are replaced by a scripted list of per-attempt outcomes, and the waits are recorded, not slept. The race between the fetch and its timer is not modelled, so the `timeout` option is merged but never used.
- The functions and lemmas that run requests (`ExecuteRequestWithRetry`, `MakeRequest`, `UpdateBotMode`, `HandleToggleBot`) require the scripted environment to cover the attempt budget. That is a property of the script, not a demand of the code.
- `RequestRetry.HandleError`: its contract does not name the message each pattern yields. The lemmas `TimeoutClassified`, `NetworkErrorClassified`, `ClassifiedAs` and the fallback clause of the contract state it for every message, one branch each. `AbortIsTimeout`, `RejectedFetchIsNetworkError`, `ClientStatusClassified`, `ServerStatusClassified` and `TimeoutInStatusTextWins` apply them to the messages an attempt produces.
- `RequestRetry.MakeRequest`: with a budget of zero or less, no attempt runs and `throw undefined` reaches `handleError`, which itself fails reading `.message`. This is modelled as the distinct outcome `RejectedOnUndefined`. No caller in the code passes such a budget.
- `ContactRecords.SanitizeContact` requires a string `numero` and a string-or-falsy name. On other rows the code throws a `TypeError`, and it is only called on rows that `isValidContact` accepted.
- `JsStrings.ToLowerAscii`: only ASCII letters are lowered. Unicode case mapping is not modelled.
- `JsValues`: numbers are integers. Floating point, `NaN` and `-0` are not modelled. Whitespace (`\s`, `trim`) is the ECMAScript WhiteSpace and LineTerminator set, written as an explicit list. The regular expressions are written as character-class predicates.
- Clocks: `new Date().toISOString()` in the payload and the local update is a string parameter (`now`, `sentAt`, `updatedAt`). The time shown by `updateStats` is left out.
- Dialogs: the confirmation dialog's answer is the boolean parameter `confirmed`. Its title and message text are left out.
- `Dashboard.HandleRefresh`: the reload is done by `window.app.loadContacts`, which is not part of this model. Its success is the boolean parameter `loadSucceeded`, and the contact list is left as it was.
- `loadContacts` of the API manager is left out. It is a GET through `makeRequest` followed by `validateContacts`, both modelled.
- `checkAPIHealth` is left out: network probing of the live endpoints.
- `generateRequestId` is left out: it builds an identifier from the clock and randomness and decides nothing.
- `clearRetryAttempts` and the unused `requestQueue` and `retryAttempts` maps are left out: `clearRetryAttempts` only deletes an entry of a map that nothing reads.
- The request method and headers are left out, and so is the JSON encoding of the payload. The payload is the record `Payload`.
- The DOM is left out: element lookup, event binding, `renderContacts`, `createContactCard`, `escapeHtml`, empty and error states, the modal, toasts and keyboard shortcuts. The button state during a toggle is left out too.
- `debounce`, `startAutoRefresh` and `stopAutoRefresh` are left out: they are timer behaviour.
- `updateContacts` is left out: it assigns the list and then runs the modelled `applyFilters` and `updateStats`.
- `clear` is left out: it empties both the contact list and the shown list directly, without refiltering, and then updates the counters.
- `app.js` and `login.js` are left out. The first is a separate fetch-and-render script; the second is a password gate.
- Console logging is left out everywhere.
- `Dashboard.HandleToggleBot`: the two awaits (the confirmation dialog and the webhook call) are treated as atomic, and the whole toggle reads and writes one snapshot of the state. A toggle does not raise the loading flag, so in the code a refresh or `updateContacts` can replace the list meanwhile. The mutation then lands on a contact object that is no longer in the list, and the shown list does not change. That interleaving is not modelled.
- `JsValues.Get`: only the own fields of plain objects are read. Array indices, a string's `length` and inherited properties read through optional chaining all yield `undefined` in the model. None of the configuration paths goes through such a value.
- `RequestRetry.MergeOptions`: an option is either absent or an integer. An option key present with the value `undefined`, which the `...options` spread copies over the default, is not modelled.
