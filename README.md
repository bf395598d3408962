# Giphy search app: a verified model of its download and search logic

The application is a single React component (`frontend/src/App.js`). It
searches the Giphy API, shows the results, keeps a favorites list, and saves
GIFs to disk. This project models the deterministic logic in that component
and proves properties of it in Dafny. Network answers, browser behaviour and
timestamps become inputs. Calls with effects become recorded events.

The model has eight modules, one per file:

- `gifs.dfy` (`Gifs`): the shared value types: an API item, its renditions, and a binary payload.
- `text.dfy` (`Text`): the two sanitisers and the composition of a download name `title_size_timestamp.gif`.
- `trigger.dfy` (`Trigger`): `triggerDownload`. It tries three ways to activate a hidden anchor, then falls back to opening the payload in a new window. It also computes the cleanup delay.
- `cache.dfy` (`Cache`): the download cache. It is an insertion-ordered map keyed by `${gifId}_${size}`, holds at most 50 entries, and evicts the oldest key first.
- `downloader.dfy` (`Downloader`): `downloadGifOptimized`. It serves a cached payload, or fetches and caches one, and falls back to the proxy download on any failure.
- `handlers.dfy` (`Handlers`): `handleDownload`, `handleBatchDownload` and `handleQuickDownload`, which decide which downloads start.
- `favorites.dfy` (`Favorites`): the favorites list and its toggle.
- `search.dfy` (`Search`): the search state machine with its pagination, error messages, "load more" and home button.

Stateful code is imperative:
- the cache and the orchestrator are classes whose methods update their fields;
- the save trigger is a method that advances a `triggered` flag through its attempts;
- the search state is a class whose methods update a record of the component's state fields.

Each method is proved against a specification. That is either a function of
the old state (`NextOrder`, `Fetched`, `Landing`, ...) or an explicit
statement of what the source promises. Lemmas then prove the properties of
those functions.

The downloader keeps three behaviours of the code exactly as written:
- a response that is not ok, answered by a probe that is not opaque, still has its body read and cached;
- the opaque-probe path returns without clearing its progress entry;
- when the proxy download throws on that path, the catch block runs it a second time.

## Model

| member | source | states |
|---|---|---|
| Cache.CacheKey | frontend/src/App.js:263 | the key is the id, one underscore, then the size name; its length is the sum plus one |
| Cache.CacheKeyInjective | frontend/src/App.js:263 | for ids without underscores, equal keys mean equal (id, size) pairs and conversely |
| Cache.CacheKeyCollision | frontend/src/App.js:263 | with underscores in ids, ("a_b","c") and ("a","b_c") share a key |
| Cache.DistinctElementCount | frontend/src/App.js:329-338 | a duplicate-free key order has as many distinct keys as entries, so the order's length is the Map's size |
| Cache.KeyCount | frontend/src/App.js:333 | a map whose keys are those of a duplicate-free order has the order's length as its size |
| Cache.NextOrder | frontend/src/App.js:330-336 | the key order after `set` and the size check: from a bounded order, the key is present and the bound kept; a new key ends up last; no other key appears |
| Cache.Evicted | frontend/src/App.js:333-335 | at most one key is deleted, it was present and is not the inserted key, and none is deleted for a present key or below 50 entries |
| Cache.FifoInsert | frontend/src/App.js:329-338 | insertion keeps at most 50 distinct keys, includes the new key, keeps a present key's place, appends a new key, and drops only the first key, and only when a new key arrives at 50 |
| Cache.InsertKeepsWellFormed | frontend/src/App.js:329-338 | inserting a non-empty payload keeps the cache invariant (bounded, distinct, same keys in order and map, no empty payload) |
| Cache.InsertPresent | frontend/src/App.js:331-333 | re-storing a present key keeps the order and the map size and evicts nothing |
| Cache.InsertNew | frontend/src/App.js:331-336 | a new key grows the map by one; below 50 it is appended, at 50 the first key is evicted |
| Cache.DownloadCache.constructor | frontend/src/App.js:26 | the cache starts empty and well formed |
| Cache.DownloadCache.Has | frontend/src/App.js:272 | a key is cached exactly when it is in the key order |
| Cache.DownloadCache.Put | frontend/src/App.js:329-338 | after copy, `set` and the size check, the key order is `NextOrder` of the old one, the map is the old map with the new entry minus the evicted key, and the invariant holds |
| Downloader.RouteOf | frontend/src/App.js:290-326 | a payload is stored exactly when a non-empty body was read after an ok response or a non-opaque probe; an opaque probe after a not-ok response goes to the proxy; an empty body fails |
| Downloader.NotOkResponseCanBeStored | frontend/src/App.js:301-319 | a not-ok response with a non-opaque probe still stores its body |
| Downloader.Fetches | frontend/src/App.js:290-307 | a miss sends the CORS request, and the no-cors probe only after a response that is not ok |
| Downloader.Downloader.constructor | frontend/src/App.js:25-26 | empty cache and no progress entries |
| Downloader.Downloader.DownloadGifOptimized | frontend/src/App.js:262-372 | a hit triggers the cached payload and changes nothing; a stored payload is cached FIFO and triggered with its progress entry kept until the scheduled clear; the opaque path keeps the entry, or clears it and proxies twice when the proxy throws; every failure clears the entry, caches nothing and proxies, alerting only if the proxy throws |
| Downloader.Downloader.ClearProgress | frontend/src/App.js:344-350 | the timer callback deletes exactly that progress entry and keeps the cache invariant |
| Downloader.SaveTwice | frontend/src/App.js:272-277 | after a first call that stored or found the payload, the second call is a hit with no network request |
| Trigger.CleanupDelay | frontend/src/App.js:671 | the delay lies in [2000, 10000] ms and equals size/1000 strictly between the bounds |
| Trigger.CleanupDelayMonotonic | frontend/src/App.js:671 | a larger payload never gets a shorter delay |
| Trigger.CleanupDelayEnds | frontend/src/App.js:671 | payloads up to 2 MB get 2000 ms, from 10 MB on 10000 ms |
| Trigger.LastResort | frontend/src/App.js:686-705 | the new-window branch succeeds exactly when an object URL can be made and `window.open` returns a window |
| Trigger.TriggerDownload | frontend/src/App.js:594-706 | the anchor is activated iff the payload is non-empty, an object URL is made and some method works; the first working method in order click, dispatch, open wins; the link name is the sanitised file name; attempts are in order, all but the last threw, and no available method up to the deciding one is skipped; otherwise the catch-all branch decides |
| Text.SanitizeFileName | frontend/src/App.js:619 | length is kept; each character outside `[A-Za-z0-9._-]` becomes `_`, every other stays in place |
| Text.IsWhitespace | frontend/src/App.js:720 | the `\s` class: white space is never a file-name, letter or digit character, and covers space, tab, line feed and carriage return |
| Text.SanitizedFileNameIsClean | frontend/src/App.js:619 | the output contains only allowed characters |
| Text.SanitizeFileNameFixedPoint | frontend/src/App.js:619 | the sanitiser leaves a name unchanged iff it is already clean |
| Text.SanitizeFileNameIdempotent | frontend/src/App.js:619 | sanitising twice equals sanitising once |
| Text.SanitizeFileNameAppend | frontend/src/App.js:619 | the sanitiser distributes over concatenation |
| Text.SanitizeSeparators | frontend/src/App.js:619 | "a/b:" becomes "a_b_" |
| Text.SanitizeWildcard | frontend/src/App.js:619 | "c*d.gif" becomes "c_d.gif" |
| Text.SanitizeFileNameExample | frontend/src/App.js:619 | "a/b:c*d.gif" becomes "a_b_c_d.gif" |
| Text.KeepTitleChars | frontend/src/App.js:720 | output no longer than input, only letters, digits and white space, and contains a character iff the input does and it is allowed |
| Text.KeepTitleCharsAppend | frontend/src/App.js:720 | dropping characters distributes over concatenation, so order is kept |
| Text.KeepTitleCharsFixedPoint | frontend/src/App.js:720 | a title is unchanged iff all its characters are allowed |
| Text.Prefix | frontend/src/App.js:720 | `substring(0, n)` is a prefix of length min(n, length) |
| Text.TitleOrDefault | frontend/src/App.js:719 | the default applies to the empty title only |
| Text.SanitizeTitle | frontend/src/App.js:719-720 | at most 50 characters, all letters, digits or white space |
| Text.EmptyTitleGivesDefault | frontend/src/App.js:719-720 | an empty title yields "giphy" |
| Text.ShortCleanTitleKept | frontend/src/App.js:719-720 | a clean title of 1 to 50 characters is kept verbatim |
| Text.DigitChar | frontend/src/App.js:722 | a digit value renders as a decimal digit character |
| Text.DigitValue | frontend/src/App.js:722 | reading a digit character back gives the value it renders from |
| Text.Decimal | frontend/src/App.js:721-722 | the timestamp text is non-empty, all digits, with no leading zero |
| Text.DecimalRoundTrip | frontend/src/App.js:721-722 | reading the timestamp text back gives the timestamp |
| Text.DownloadFileName | frontend/src/App.js:719-722 | the name ends in ".gif" and is at least seven characters longer than the size name |
| Text.DownloadFileNameParts | frontend/src/App.js:719-722 | the name is stem `_` size `_` stamp `.gif`, the stem is a clean title of at most 50 characters ("giphy" for an empty title), the stamp reads back as the timestamp |
| Text.PunctuationTitleGivesEmptyStem | frontend/src/App.js:719-722 | a punctuation-only title gives an empty stem, not "giphy", because the default applies before sanitising |
| Handlers.HandleDownload | frontend/src/App.js:709-726 | nothing without a selection; the missing-size alert iff the size is absent; otherwise one download of that rendition under that size and the composed name |
| Handlers.PresentSizes | frontend/src/App.js:732-742 | the kept sizes are requested sizes the item has; their count plus the missing count is the number requested |
| Handlers.BatchRequests | frontend/src/App.js:732-742 | one download per kept size, in order, each for that size's rendition and name |
| Handlers.PresentSizesAppend | frontend/src/App.js:732-742 | the filter distributes over concatenation, so request order is kept |
| Handlers.PresentSizesCover | frontend/src/App.js:732-742 | every requested size the item has is kept |
| Handlers.HandleBatchDownload | frontend/src/App.js:729-746 | nothing without a selection; otherwise as many downloads as requested sizes minus missing ones |
| Handlers.DefaultBatchIsOriginal | frontend/src/App.js:729 | called without sizes, the batch is one download of the original rendition, or none when it is missing |
| Handlers.BatchOfFourWithThirdMissing | frontend/src/App.js:732-742 | four sizes with the third missing give exactly three downloads, for the other sizes in order |
| Handlers.BatchWithOneMissingSize | frontend/src/App.js:1143 | "download all" on an item without `fixed_height` starts three downloads |
| Handlers.HandleQuickDownload | frontend/src/App.js:749-789 | nothing starts iff neither the size nor the original exists; otherwise the size's rendition, else the original's, always under the requested size and its name |
| Handlers.QuickFallbackKeepsRequestedSize | frontend/src/App.js:749-789 | with `downsized_large` missing, the original is fetched under the `downsized_large` key and name, not the original's name |
| Favorites.RemoveId | frontend/src/App.js:186 | the filter keeps exactly the items with another id and never grows the list |
| Favorites.IsFavorite | frontend/src/App.js:193-195 | `some` by id holds iff some item in the list has the id |
| Favorites.Toggle | frontend/src/App.js:185-187 | adds nothing but the toggled item, keeps every item with another id, and grows by one or shrinks |
| Favorites.RemoveIdAppend | frontend/src/App.js:186 | the filter distributes over concatenation, so kept items stay in order |
| Favorites.RemoveAbsentId | frontend/src/App.js:186 | filtering an id that is not there changes nothing |
| Favorites.ToggleFlips | frontend/src/App.js:184-195 | toggling flips whether the item's id is a favorite |
| Favorites.ToggleKeepsOthers | frontend/src/App.js:184-195 | toggling leaves every other id's status alone |
| Favorites.ToggleShape | frontend/src/App.js:185-187 | an absent item is appended at the end; for a present id the list shrinks and keeps exactly the items with another id |
| Favorites.RemoveIdShorter | frontend/src/App.js:186 | removing a present id shortens the list |
| Favorites.ToggleTwiceRestores | frontend/src/App.js:184-195 | toggling an absent item twice restores the list |
| Favorites.ToggleTwiceReorders | frontend/src/App.js:184-195 | toggling g twice in [g, h] gives [h, g]: a present item comes back at the end |
| Search.ErrorMessage | frontend/src/App.js:76-86 | 401, 403 and 429 map to their messages in that order, then the network code, else the generic message, and never the empty-query message |
| Search.StatusBeatsNetworkCode | frontend/src/App.js:78-85 | a handled status wins over the network error code |
| Search.TrimStart | frontend/src/App.js:30 | a suffix of the input; everything dropped is white space and the result does not start with white space |
| Search.TrimEnd | frontend/src/App.js:30 | a prefix of the input; everything dropped is white space and the result does not end with white space |
| Search.Trim | frontend/src/App.js:30 | trimming leaves nothing iff the input is white space only |
| Search.IsBlank | frontend/src/App.js:30 | `!query.trim()` holds iff the query is white space only, the empty query included |
| Search.Initial | frontend/src/App.js:6-24 | the initial state has no search, no loading, offset 0 and the stored favorites |
| Search.SearchStarted | frontend/src/App.js:30-41 | before the request is awaited: a blank query only sets the message; otherwise loading is on, the error cleared, a new search is marked searched at offset 0, "load more" is hidden, and list and hasMore wait for the answer |
| Search.SearchSettled | frontend/src/App.js:61-93 | on the state current when the request settles: a page replaces or is appended to the current list and sets offset and hasMore from the request's offset; a rejection shows the mapped message and empties a new search's list; loading ends; term, tab and searched flag are not written |
| Search.Fetched | frontend/src/App.js:29-94 | with nothing in between, start then settle: a search never writes the fields outside its own, and a request that was sent ends with loading false |
| Search.BlankQueryOnlySetsError | frontend/src/App.js:30-33 | a white-space-only query only sets the validation message |
| Search.PageArrived | frontend/src/App.js:61-71 | a page advances the offset by 12, sets hasMore iff offset plus page length is below the total, clears the error, replaces or appends the list |
| Search.RequestFailed | frontend/src/App.js:73-91 | a failure shows the mapped message, empties the list and offset of a new search, keeps them when appending, and keeps hasMore |
| Search.Searched | frontend/src/App.js:155-159 | the typed text becomes the search term and the search tab is shown |
| Search.LoadedMore | frontend/src/App.js:792-796 | without a term or further results nothing changes; otherwise a page is appended at the current offset, the offset grows by 12 and hasMore is recomputed from the page, while a failure keeps list, offset and hasMore and shows the mapped message; a white-space term only sets the empty-query message |
| Search.LoadMoreShown | frontend/src/App.js:1106 | the button is rendered only on the search tab, after a search, with results, more available and nothing loading |
| Search.SearchThenLoadMore | frontend/src/App.js:29-94 | a search then load more lists both pages in order at offset 24 |
| Search.ListWithinOffset | frontend/src/App.js:61-71 | with pages of at most 12 items the list never outgrows the offset |
| Search.FailedSearchKeepsStaleHasMore | frontend/src/App.js:29-94 | a failed new search keeps the previous hasMore; the handler would then append page 0 to the empty list, but the button is hidden while the list is empty, so this stays latent |
| Search.Landing | frontend/src/App.js:210-247 | the reset reaches the home screen and keeps loading, favorites and dark mode |
| Search.HomeClicked | frontend/src/App.js:210-247 | with results after a search the slide starts and nothing else changes; otherwise the reset happens at once; favorites and dark mode are kept |
| Search.HomeBranchesAgree | frontend/src/App.js:210-247 | both branches end in the same state |
| Search.HomeClickAtLandingIsImmediate | frontend/src/App.js:210-247 | the home screen never animates and a click there changes nothing |
| Search.HomeClickDuringSearch | frontend/src/App.js:29-94 | a home click while a new search is pending resets to the home screen, and the late page then refills the list and sets offset 12 while the screen stays unsearched with no term |
| Search.AppState.constructor | frontend/src/App.js:6-24 | the state starts as `Initial` |
| Search.AppState.StartFetch | frontend/src/App.js:30-41 | a request is sent exactly for a non-blank query, and the new state is `SearchStarted` of the old state |
| Search.AppState.SettleFetch | frontend/src/App.js:61-93 | the new state is `SearchSettled` of the state current when the request settles |
| Search.AppState.FetchGifs | frontend/src/App.js:29-94 | with no handler running while the request is pending, the new state is `Fetched` of the old state |
| Search.AppState.HandleSearch | frontend/src/App.js:155-159 | the new state is `Searched` of the old |
| Search.AppState.HandleLoadMore | frontend/src/App.js:792-796 | a request is made iff there is a term and more results; the new state is `LoadedMore` of the old |
| Search.AppState.ResetToLanding | frontend/src/App.js:210-247 | the new state is `Landing` of the old |
| Search.AppState.HandleHomeClick | frontend/src/App.js:210-247 | it animates iff a search happened and results are on screen; the new state is `HomeClicked` of the old |
| Search.AppState.HomeSlideFinished | frontend/src/App.js:215-230 | the timer callback performs the reset |
| Search.AppState.ToggleFavorite | frontend/src/App.js:184-191 | only the favorites change, to `Toggle` of the old list |
| Search.AppState.IsFavorite | frontend/src/App.js:193-195 | true iff some favorite has the id |

## Left out

- Network, DOM and browser effects are left out: axios, fetch, anchors, `MouseEvent`, `URL.createObjectURL`, `window.open`, `alert`, `console`. Their outcomes are inputs: `Network`, `Browser`, `SearchResponse`. Their effects are recorded events or outcome values.
- The body of `proxyDownload` (frontend/src/App.js:375-447) is reduced to one event plus a flag saying whether it throws. It is best-effort iframe and anchor clicking with no success signal.
- `fallbackDownload` (frontend/src/App.js:464-591) and `testDownload` (frontend/src/App.js:450-461) are not modelled because nothing calls them. `fallbackDownload` sets a sanitised `download` name at line 546 and overwrites it with the raw name at line 551.
- `fetchTrendingGifs`, `fetchRandomGif`, the tab handlers, the modal handlers, the dark-mode toggle and the JSX rendering are not modelled. The home reset clears the trending list and the random item, and those fields are part of the state.
- Timers are left out. The progress clear after 1000 ms is a `ProgressClearScheduled` event plus the separate `ClearProgress` method. The cleanup after the trigger is the `cleanupDelay` value. The home slide's 600 ms callback is the separate `HomeSlideFinished` method. The one-second alert delay of the new-window branch is not modelled.
- Concurrency is left out: `Promise.allSettled`, overlapping downloads, and reads of a stale `downloadCache` closure. A batch is the sequence of downloads it starts.
- `localStorage` persistence of favorites is left out. The stored list is a constructor parameter.
- `Search.AppState`: the setters of one synchronous stretch of a handler are applied as one update of the state record. The model does not represent the intermediate renders inside such a stretch.
- `Search.AppState.FetchGifs`, `HandleSearch` and `HandleLoadMore` let the request settle inside the call, so no handler runs while it is pending. A pending search is modelled by `StartFetch` and `SettleFetch`, between which any handler may run (`Search.HomeClickDuringSearch`). Overlapping searches whose answers arrive out of order are not studied.
- `Handlers.BatchRequests` uses one timestamp for the whole batch, while the source calls `Date.now()` once per size.
- `Search.Trim` and `Text.IsWhitespace` use one white-space predicate for `trim` and `\s`, whose ECMAScript definitions cover the same code points.
- `Text.Prefix` and `Text.SanitizeFileName` work on characters, not UTF-16 code units. `substring` cuts, and the sanitiser's regular expression (no `u` flag) replaces, per code unit, so a character outside the Basic Multilingual Plane becomes two underscores in the source and one in the model. The names the handlers compose contain no such character.
- `Trigger.CleanupDelay` uses exact real division where the source uses floating-point division.
- `Search.Fetched` folds the API-key check into the rejection input, as an error with neither status nor code.
- `Handlers.HandleQuickDownload` does not model the retry branch at frontend/src/App.js:762-769. It is unreachable, because that branch is only entered when neither the size nor the original exists.
- `Downloader.Downloader.DownloadGifOptimized` records only whether the save trigger was called. What that call does is `Trigger.TriggerDownload`, which never throws to its caller.
