# Gallery guard layer and document store

A model of the state logic of a browser photo gallery, written in Dafny.

- **Guard layer** (`js/security.js`, module `Security` with class
  `Security.SecuritySystem`). It contains:
  - a per-action sliding-window rate limiter (a map from action name to the
    admitted clock readings);
  - a security-event log kept newest first and capped at 100 entries;
  - the three-valued status (`SECURE`/`WARNING`/`CRITICAL`) derived from the
    counts of HIGH and MEDIUM entries;
  - allow-list validators for uploaded files and for image URLs;
  - the CSRF token comparison;
  - the pass-through of non-string values by the HTML sanitizer.
- **Rate-limit guarantee over a trace of calls** (module `RateWindow`).
  Clock readings that never go backwards are replayed through the limiter.
  The admitted calls then never put more than `maxAttempts` calls into a
  span shorter than `windowMs`.
- **Gallery document store** (`js/app.js`, module `Gallery` with class
  `Gallery.App`). The document holds categories of photos, albums, history
  and metadata. The model covers:
  - the capped history (50 entries);
  - adding a photo behind the `add_photo` rate limit, creating the category
    if it is absent;
  - the photo count and the metadata recomputed on every save;
  - the order in which the document is loaded: JSON seed, then browser
    storage, then built-in defaults;
  - the search and category filter of the gallery view.
- **Shared helpers** (module `Common`):
  - `Option`, `Result` and `Outcome`;
  - the "push at the head, keep the newest N" update that both logs use;
  - the string tests (`startsWith`, `endsWith`, `includes`).

Clock readings, generated ids and ISO timestamps are parameters of the
operations. Three library behaviours also come in as parameters:
- URL parsing arrives as an already parsed `Url` record, or `None` when
  `new URL` throws;
- `toLowerCase` is a function parameter `lower`;
- the DOM-based escaping in `sanitizeHTML` is a function parameter `escape`.

The seed request and the stored blob arrive as values that say how they
ended: `SeedFetch` and `Stored`.

The photo count `Gallery.TotalPhotos` is defined over the category map
without any order of summation. `Gallery.TotalPhotosRemove` shows that any
category may be counted first. `Gallery.App.GetTotalPhotos` sums one
category at a time and is proved equal to that count.

Two consequences of the loading code are worth stating outright:
- **Seed request that throws.** If the request throws (a network error or
  a body that is not JSON), `loadData` only tries storage and never falls
  back to the defaults (`js/app.js:82-85`). This is `Gallery.Load` with
  `FetchThrew` and the lemma `Gallery.LoadAfterFetchError`.
- **Saved document without categories.** After a non-success answer to the
  seed request, such a document is replaced by the defaults, albums and
  history included (`Gallery.SavedWithoutCategoriesIsReplaced`).

## Model

| member | source | states |
|---|---|---|
| Common.PushCapped | js/security.js:23-28 | the new entry is at index 0; the length is min(old length + 1, cap); entries after index 0 are the old list's prefix in order |
| Common.PushAllKeepsNewest | js/security.js:23-28 | after any sequence of pushes, a capped log holds the newest `cap` entries, newest first |
| Common.ContainsIffOccurs | js/app.js:199 | the left-to-right `includes` scan holds exactly when the text occurs at some position |
| Security.CountLevel | js/security.js:153-154 | the count of entries of one level is at most the log length, and it is zero exactly when no entry has that level |
| Security.StatusOf | js/security.js:152-162 | CRITICAL iff HIGH > 5; WARNING iff not critical and (HIGH > 2 or MEDIUM > 10); SECURE iff HIGH <= 2 and MEDIUM <= 10 |
| Security.CountLevelAppend | js/security.js:153-154 | counting a level over a concatenation adds the counts of the two parts |
| Security.CountLevelPrefix | js/security.js:26-28 | cutting a log to a prefix never raises a count and lowers it by at most the number of dropped entries |
| Security.StatusMonotone | js/security.js:156-162 | the status only grows with the HIGH and MEDIUM counts |
| Security.LowEventNeverRaisesStatus | js/security.js:23-31 | logging a LOW event (with the cap) never makes the status more severe |
| Security.HighEventKeepsCritical | js/security.js:23-31 | logging a HIGH event never lowers the HIGH count, so CRITICAL stays CRITICAL |
| Security.Recent | js/security.js:49 | each timestamp with now - t < windowMs is kept as often as it was stored, every other one is dropped (a timestamp exactly windowMs old is dropped); with nothing stale the list is unchanged |
| Security.RecentAppend | js/security.js:49 | filtering a concatenation is the concatenation of the filtered parts, so kept timestamps keep their original order |
| Security.Admits | js/security.js:51 | a call is admitted exactly when fewer than maxAttempts stored timestamps are recent |
| Security.RecordAttempt | js/security.js:48-58 | when admitted: the recent timestamps in order followed by now, at most maxAttempts long; when rejected: the stored list exactly as it was |
| Security.AfterRateCheck | js/security.js:44-57 | the action gets a key; every other action's list is unchanged; the action's list follows the admitted/rejected rule |
| Security.AdmittedListBounded | js/security.js:51-57 | with maxAttempts >= 1, an admitted call leaves between 1 and maxAttempts timestamps for its action |
| Security.SanitizeHTML | js/security.js:80-86 | a non-string input is returned unchanged; a string comes back escaped |
| Security.CheckImageURL | js/security.js:89-124 | accepted iff parsed, host allow-listed, protocol https: and lower-cased path with an allowed extension; the verdict names the first failing check in domain, protocol, extension order; a parse failure is its own verdict |
| Security.UrlEvent | js/security.js:101-123 | an event is logged exactly on rejection, and it is HIGH exactly when the URL did not parse |
| Security.ImageUrlExamples | js/security.js:92-111 | an untrusted host is refused with https and .jpg; a trusted host with https and .jpg is accepted; http on a trusted host is refused as a protocol error |
| Security.CheckFile | js/security.js:128-149 | passes iff the type is jpeg/png/gif/webp and size <= 10485760; a bad type is reported before the size |
| Security.SecuritySystem.constructor | js/security.js:3-9 | empty log, empty limiter table, SECURE, the generated token |
| Security.SecuritySystem.LogSecurityEvent | js/security.js:12-31 | the log becomes the capped push of the new entry; the status is recomputed from the new log; limiters and token unchanged |
| Security.SecuritySystem.UpdateSecurityStatus | js/security.js:152-162 | the status field becomes the status rule applied to the log |
| Security.SecuritySystem.CheckRateLimit | js/security.js:40-59 | returns false exactly when at least maxAttempts stored timestamps are recent; the table becomes AfterRateCheck; nothing is logged on admission; one HIGH "Rate limit exceeded" entry is logged on rejection |
| Security.SecuritySystem.ValidateCSRFToken | js/security.js:68-77 | true iff the token equals the stored token; a HIGH entry is logged only when false |
| Security.SecuritySystem.ValidateImageURL | js/security.js:89-125 | true iff CheckImageURL accepts; the matching MEDIUM/HIGH entry is logged only on rejection |
| Security.SecuritySystem.ValidateFile | js/security.js:128-149 | passes exactly when CheckFile does; a failure carries the thrown error text of the first failing check; a MEDIUM entry is logged only on failure |
| RateWindow.Admitted | js/security.js:40-59 | the calls of a trace that the limiter admits, replayed one call after another; at most as many as there were calls, each one a call of the trace |
| RateWindow.RecentIsSuffix | js/security.js:49 | on a sorted list, the recent timestamps are a suffix, and everything before it is at least windowMs old |
| RateWindow.AdmitStep | js/security.js:48-58 | an admitted call keeps the stored list equal to the newest admitted calls and respects the window |
| RateWindow.AdmittedRespectsWindow | js/security.js:40-59 | replaying sorted calls keeps the admitted calls sorted, and any maxAttempts + 1 consecutive admissions span at least windowMs |
| RateWindow.WindowBound | js/security.js:40-59 | starting from an unseen action, any two admitted calls maxAttempts apart in admission order are at least windowMs apart in time |
| Gallery.DefaultDocument | js/app.js:117-129 | empty categories, albums and history; totalPhotos = totalAlbums = 0; version 1.0.0 |
| Gallery.TotalPhotos | js/app.js:161-167 | the number of photos over all categories, summed without fixing an order of categories |
| Gallery.TotalPhotosRemove | js/app.js:161-167 | the photo total is one category's length plus the total of the rest, for any category |
| Gallery.TotalPhotosUpdate | js/app.js:161-167 | replacing one category's list changes the total by the difference in length |
| Gallery.WithTotals | js/app.js:135-137 | totalPhotos becomes the total over all categories and totalAlbums the number of album keys; lastUpdated is stamped; the rest is unchanged |
| Gallery.AddToCategory | js/app.js:294-309 | the category exists afterwards; its list grew by one with the photo last and the old list before it; other categories unchanged |
| Gallery.AddToCategoryTotal | js/app.js:294-310 | filing a photo raises the total count by exactly one |
| Gallery.NewPhoto | js/app.js:300-307 | name and description are escaped; a missing description becomes the escaped empty string; id, time and author are filled in |
| Gallery.HistoryAfterAdd | js/app.js:294-312 | the photo-added entry first; the category-created entry second when the category was new; then the old history in order, cut so that at most 50 entries remain |
| Gallery.Merge | js/app.js:94 | shallow merge: each top-level key the seed carries replaces the current value; the others stay |
| Gallery.FromStorage | js/app.js:104-114 | a stored document replaces the current one; an absent or unparsable blob leaves it unchanged |
| Gallery.Fallbacks | js/app.js:73-80 | a document with categories is kept; otherwise a stored document with categories is used; when neither has categories the result is the default document |
| Gallery.Load | js/app.js:67-101 | the seed merge, then the storage and default fallbacks; a throwing seed request goes to storage only |
| Gallery.LoadSeedFirst | js/app.js:70-80 | a seed that brings categories wins and storage is not consulted |
| Gallery.LoadStorageSecond | js/app.js:72-75 | without categories from the seed, a stored document with categories is used as it is |
| Gallery.LoadCompletes | js/app.js:70-80 | when the seed request completes, loading ends with categories or with the defaults |
| Gallery.LoadAfterFetchError | js/app.js:82-85 | for every stored value, a throwing seed request gives exactly the storage step's result (a stored document, or the current one unchanged), never the defaults |
| Gallery.SavedWithoutCategoriesIsReplaced | js/app.js:73-80 | after a non-success seed answer, a saved document without categories is replaced by the defaults |
| Gallery.SavedDocumentReloads | js/app.js:82-84 | with the seed unavailable, a saved document with categories is reloaded unchanged |
| Gallery.Matches | js/app.js:199 | a photo passes when the search is empty or the lower-cased name or lower-cased category contains it |
| Gallery.ShownInCategory | js/app.js:198-199 | a photo of the category is listed iff it passes the filter, with its index, in index order |
| Gallery.ShownIn | js/app.js:197-199 | a photo is listed iff its category is among the names, it exists there, and it passes the filter |
| Gallery.GalleryListing | js/app.js:191-199 | a photo is listed iff its category is the selected one (or, with none selected, one of the keys), it exists there, and it passes the filter on the lower-cased search |
| Gallery.SelectedCategoryRestricts | js/app.js:192-199 | a selected category restricts the listing to that category; a missing category shows nothing |
| Gallery.EmptySearchShowsAll | js/app.js:191-199 | with an empty search and every category listed, every photo is shown |
| Gallery.App.constructor | js/app.js:4-9 | the document starts with empty categories, albums and history and empty metadata |
| Gallery.App.GetTotalPhotos | js/app.js:161-167 | the loop's sum equals the total over all categories |
| Gallery.App.SaveData | js/app.js:132-138 | the document becomes WithTotals of the old one |
| Gallery.App.AddHistory | js/app.js:330-345 | the history becomes the capped push of the new item (at most 50 entries); categories and albums unchanged; metadata recomputed |
| Gallery.App.LoadFromLocalStorage | js/app.js:104-114 | the document becomes FromStorage of the old one |
| Gallery.App.LoadDefaultData | js/app.js:117-129 | the document becomes the default document |
| Gallery.App.LoadData | js/app.js:67-101 | the document becomes Load of the old document, the seed outcome and the stored blob |
| Gallery.App.FilePhoto | js/app.js:294-312 | categories become AddToCategory; the total rises by one; albums unchanged; history as HistoryAfterAdd; metadata recomputed |
| Gallery.App.EnsureCategory | js/app.js:294-297 | an absent category is created empty, recorded in the history and the metadata recomputed; with an existing category the document is unchanged |
| Gallery.App.AppendPhoto | js/app.js:309-310 | the photo is appended to its category; albums and history unchanged; the metadata recomputed by the save |
| Gallery.App.AddGalleryPhoto | js/app.js:286-327 | rejected by the rate limit: nothing in the document changes, the error text is returned and one HIGH rate-limit entry is logged; admitted: the sanitized photo is filed as by FilePhoto and returned, and the security log is unchanged; the CSRF token is never touched |

## Left out

- Security.SecuritySystem.LogSecurityEvent: the simulated IP, the user agent, writing the log to storage and the console line are not modelled. They do not affect the log's order, cap or status.
- The app-side security events are not modelled. These are the LOW entries from `addHistory`, `addGalleryPhoto`, `loadFromJSON`, `loadFromLocalStorage` and `exportDataToJSON`, and the HIGH entries on a storage parse or save failure. In the model, `Gallery.App` changes the security log only through the rate-limit gate. `Security.LowEventNeverRaisesStatus` shows that the LOW entries never raise the status, but they can lower it: an admitted `addGalleryPhoto` adds several LOW entries, which can push HIGH or MEDIUM entries out of the 100-entry log. The model's unchanged security log after an admitted photo does not capture that eviction.
- Gallery.App.AddGalleryPhoto: the spoken confirmation (`setTimeout`/`speakText`) is not modelled. The operation also requires the guard object's invariant (`security.Valid()`), which its constructor establishes and every operation keeps.
- `generateCSRFToken`, `generateEncryptionKey`, `initialize`, `loadSecurityLogs`, `saveSecurityLogs`, `getClientIP` and `updateSecurityUI` are crypto, storage, network or DOM glue. The generated token is a constructor parameter.
- Security.SecuritySystem.ValidateCSRFToken: both the token and the stored token are `Option<string>`, with `None` standing for `null`. An `undefined` token (which differs from `null` under `===`) is not distinguished.
- Security.SecuritySystem.ValidateImageURL: `new URL` parsing and `toLowerCase` are parameters. The parsed record holds only protocol, hostname and pathname.
- Security.SanitizeHTML: the DOM escaping is a parameter. Only the non-string pass-through is modelled, for strings, numbers, `null` and `undefined`.
- Security.CheckFile: the size is a mathematical integer. JavaScript's floating-point sizes are not modelled.
- `fetch`, `localStorage`, `JSON.parse`/`JSON.stringify` and `utils.exportToJSON` are I/O. They are reduced to the outcomes `SeedFetch` and `Stored`. A parsed seed or stored blob is assumed to have the document's shape, and extra top-level JSON keys are not represented.
- Gallery.GalleryListing: the order of `Object.keys` is the parameter `keys`. The DOM elements, the empty-state template and `createPhotoElement` are not modelled.
- Each operation uses a single ISO timestamp. The source reads the clock separately for each history entry, photo and save.
- `this.data.categories[category]` is modelled as a map lookup. JavaScript's prototype properties (such as a category named `constructor`) are not modelled.
- Deleting or renaming photos, and the album operations, are not part of the source files, so they are not modelled.
- DOM construction, rendering, event listeners, speech synthesis and volume are presentation only.
