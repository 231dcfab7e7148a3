# URL shortener: shortcode generation, the record store and the client-side lists

A Dafny model of the parts of a URL-shortening service whose behaviour is
fully visible in its source:

- **The ShortUrl record and its collection** (`url_model.dfy`, module
  `UrlModel`): the click entry and the record of `backend/models/Url.js`, the
  draft a caller saves, and the collection in natural order. Saving checks the
  two required string paths (Mongoose rejects a missing or empty string), then
  the unique index on `shortcode`. `createdAt` is filled in with the time the
  document is built (`new Url({...})`, just before `save()`) when the draft
  has none. `findOne` by shortcode returns the first
  match. Under the unique index it is the only match.
- **The shortcode generator** (`generate_shortcode.dfy`, module
  `GenerateShortcode`): nanoid over the 62-symbol alphabet with length 6. The
  retry loop draws codes until `findOne` finds none. The random source is
  abstract: each draw is the six alphabet positions nanoid picked, and the
  method is handed the stream of draws it will see.
- **The URL-entry form** (`url_form.dfy`, module `UrlForm`): the component's
  state `urls` and `results` are the fields of class `Form`, and each handler
  is a method on it. `addUrl`, `deleteUrl` and a field edit are pure list
  functions (`AppendBlank`, `Without`, `SetField`) that the methods apply. The
  submit loop posts entry after entry. A post that fails, or a log call that
  throws after it, aborts the loop: no later entry is posted and neither list
  changes.
- **The statistics view** (`url_stats.dfy`, module `UrlStats`): the fetch loop
  builds one result per stored short link, in order. It requests the
  shortcode after the link's last `/`. A failed request is recorded with the
  error text, and a failed log call that rejects with an error object is swallowed. The module also has the
  click-count colour, the 50-character URL display and the `'Unknown'`
  fallback. The summary figures are the total clicks, where a missing count
  is 0, and the number of errors. The "Total URLs" figure is `|stats|`.

The abstract inputs are parameters:
- `now` for `Date.now`.
- The draw stream for nanoid.
- `PostStep` and `FetchStep` sequences for the outcome of each HTTP call and
  of the log call after it.
- The `stored` results for what local storage held when the form was
  created.

## Model

| member | source | states |
|---|---|---|
| `UrlModel.FindOne` | backend/utils/generateShortcode.js:12 | the lookup finds nothing exactly when no document has the shortcode; what it finds is a stored document with that shortcode |
| `UrlModel.Insert` | backend/models/Url.js:9-15 | a save fails validation exactly when `originalUrl` or `shortcode` is missing or empty; it fails with DuplicateKey exactly when the fields are present and some stored document has the shortcode; otherwise it appends one document carrying the draft's fields, with `createdAt` defaulting to `now`, the time the document was built, and `expiresAt` optional |
| `UrlModel.InsertPreservesValid` | backend/models/Url.js:10-11 | a successful save keeps shortcodes unique and every document's required fields present |
| `UrlModel.LookupFindsTheOnlyMatch` | backend/models/Url.js:11 | under the unique index, the lookup by shortcode returns the one document that carries it |
| `UrlModel.SecondSaveWithSameShortcodeRejected` | backend/models/Url.js:11 | saving a valid draft whose shortcode was just saved is rejected with DuplicateKey |
| `GenerateShortcode.Nanoid` | backend/utils/generateShortcode.js:4 | every generated code has 6 characters, each from the alphabet |
| `GenerateShortcode.AlphabetIsAlphanumeric` | backend/utils/generateShortcode.js:4 | the alphabet has 62 distinct symbols, and a character is in it exactly when it is in a-z, A-Z or 0-9 |
| `GenerateShortcode.ShortcodeIsAlphanumeric` | backend/utils/generateShortcode.js:4 | a generated code is 6 characters from a-z, A-Z and 0-9 |
| `GenerateShortcode.GenerateUniqueShortcode` | backend/utils/generateShortcode.js:6-17 | a returned code is a valid 6-character code that the lookup does not find, and it is the code of the last lookup made; every earlier lookup found its code in the store; with no result, every draw was looked up and found; the store is only read |
| `GenerateShortcode.FreshCodeCanBeSaved` | backend/utils/generateShortcode.js:10-16 | a code the lookup does not find can be saved with an original URL, and the collection stays valid |
| `GenerateShortcode.RetriesAreUnbounded` | backend/utils/generateShortcode.js:10-14 | for every n, some valid collection and stream of n valid draws have every drawn code taken, so the loop makes n lookups without returning |
| `GenerateShortcode.RunOnTakenCodes` | backend/utils/generateShortcode.js:10-14 | on the collection and stream of `RetriesAreUnbounded`, the generator makes all n lookups and returns no code |
| `UrlForm.SetField` | frontend/src/components/URLForm.jsx:22 | the edited field holds the new value and every other field of the entry is unchanged |
| `UrlForm.AppendBlank` | frontend/src/components/URLForm.jsx:26-28 | below 5 entries one blank entry is appended after the unchanged list; at 5 or more the list is unchanged; a list of at most 5 stays at most 5 |
| `UrlForm.Without` | frontend/src/components/URLForm.jsx:30-33 | an in-range index removes exactly that entry and keeps the others in order; an out-of-range index leaves the list unchanged |
| `UrlForm.CompletedPrefix` | frontend/src/components/URLForm.jsx:39-43 | the number of loop iterations before the first that throws: all earlier posts returned and were logged, and the one at that index did not |
| `UrlForm.Responses` | frontend/src/components/URLForm.jsx:41 | one response per post, in entry order |
| `UrlForm.Form.constructor` | frontend/src/components/URLForm.jsx:11-14 | the form starts with exactly one blank entry and the results read back from storage |
| `UrlForm.Form.HandleChange` | frontend/src/components/URLForm.jsx:20-24 | for an index in range only that entry's named field changes; the length and the other entries stay; an index out of range changes nothing |
| `UrlForm.Form.AddUrl` | frontend/src/components/URLForm.jsx:26-28 | the entries become `AppendBlank` of the old ones; results unchanged; never more than 5 entries |
| `UrlForm.Form.DeleteUrl` | frontend/src/components/URLForm.jsx:30-33 | the entries become `Without` of the old ones at the index; results unchanged |
| `UrlForm.Form.HandleSubmit` | frontend/src/components/URLForm.jsx:35-52 | when every post returns and is logged, all entries are posted, the results become the old results followed by the responses in entry order, and the entries reset to one blank entry; otherwise the entries up to the failing one are posted and nothing else, and both lists are unchanged |
| `UrlForm.Form.ClearResults` | frontend/src/components/URLForm.jsx:58-61 | the results become empty and the entries are unchanged |
| `UrlForm.RepeatedAddStaysCapped` | frontend/src/components/URLForm.jsx:26-28 | pressing "Add URL" any number of times on at most 5 entries reaches at most 5 entries, keeping the existing ones first |
| `UrlStats.Split` | frontend/src/components/URLStats.jsx:50 | split yields at least one piece and no piece contains the separator |
| `UrlStats.JoinSplit` | frontend/src/components/URLStats.jsx:50 | joining the pieces of a split with the separator gives back the string |
| `UrlStats.SplitLast` | frontend/src/components/URLStats.jsx:50-51 | the last piece is a suffix of the string that is either the whole string or preceded by the separator |
| `UrlStats.ShortcodeOf` | frontend/src/components/URLStats.jsx:50-51 | the extracted shortcode is the part after the link's last '/', with no '/' in it, or the whole link when it has no '/' |
| `UrlStats.StatOf` | frontend/src/components/URLStats.jsx:53-70 | the result recorded for an entry carries its shortLink; it is fetched exactly when the request succeeded, whatever the log call did, and then carries the response body; a failed request gives the error 'Failed to fetch stats' |
| `UrlStats.FetchStats` | frontend/src/components/URLStats.jsx:45-75 | one result and one request per stored entry, in stored order; each request is for the entry's extracted shortcode; each result is the one `StatOf` gives for that entry and its request's outcome, so it carries the entry's shortLink and is fetched exactly when the request succeeded |
| `UrlStats.ClicksColor` | frontend/src/components/URLStats.jsx:84-89 | 'default' exactly for 0, 'primary' for other counts below 10, 'secondary' for 10 to 49, 'success' from 50 |
| `UrlStats.ClicksColorMonotone` | frontend/src/components/URLStats.jsx:84-89 | on non-negative counts a larger count never gets a lower colour |
| `UrlStats.FormatUrl` | frontend/src/components/URLStats.jsx:91-96 | a URL of at most 50 characters is returned unchanged; a longer one becomes its first 50 characters followed by "...", 53 in all |
| `UrlStats.FormatUrlIdempotent` | frontend/src/components/URLStats.jsx:91-96 | formatting an already formatted URL changes nothing |
| `UrlStats.ShownOrUnknown` | frontend/src/components/URLStats.jsx:359-369 | a missing or empty source or location shows as 'Unknown'; any other value shows as itself |
| `UrlStats.TotalClicksAppend` | frontend/src/components/URLStats.jsx:145 | the total clicks of two runs of results is the sum of their totals |
| `UrlStats.TotalClicksOfFailures` | frontend/src/components/URLStats.jsx:145 | failed results, which have no count, contribute 0 to the total |
| `UrlStats.ClicksOf` | frontend/src/components/URLStats.jsx:145 | a result counts 0 when it failed or carries no count, and otherwise counts its `totalClicks` |
| `UrlStats.TotalClicks` | frontend/src/components/URLStats.jsx:145 | with non-negative counts the total is non-negative and at least each result's count; when every result counts 0 the total is 0 |
| `UrlStats.Errors` | frontend/src/components/URLStats.jsx:157 | the filtered list holds only failed results and is no longer than the stats |
| `UrlStats.ErrorsKeepsEveryFailure` | frontend/src/components/URLStats.jsx:157 | each failed result occurs in the filtered list exactly as many times as in the stats |
| `UrlStats.ErrorsAppend` | frontend/src/components/URLStats.jsx:157 | filtering keeps the order: the errors of two runs of results are the errors of the first followed by those of the second |
| `UrlStats.ErrorCountIsFailedFetches` | frontend/src/components/URLStats.jsx:133-157 | the error count of a fetch equals the number of failed requests and is at most the total-URLs count |

## Left out

- The controller behind `backend/routes/urlRoutes.js` (`createShortUrl`, `redirectToOriginalUrl`, `getUrlStats`) is not part of this model. URL validation, validity and expiry, redirects and click appending are therefore not modelled. So are the statistics body's fields, so `StatsData` holds only what the view reads.
- clickSchema gives `source` and `location` no default, and urlSchema does not check that `originalUrl` is an absolute URL: it only requires the two strings (backend/models/Url.js:3-11). The model follows the schema. The 'Unknown' fallback exists only in the view (`ShownOrUnknown`).
- `backend/server.js`, `backend/middlewares/logger.js` and `frontend/src/App.jsx`: connection set-up, a fire-and-forget network client, and navigation UI.
- Local storage: the form's results are given to the constructor, and writing them back after each change is not modelled. The stats view is given its stored entries.
- JSX rendering, `alert`, `window.open`, `window.location.reload`, the `loading` flag, `toLocaleString`, and the log calls of the submit's error branch, which change no state.
- nanoid's random distribution and collision probability. Each draw is abstracted as six alphabet positions.
- The race between `findOne` and a later save: the generator runs sequentially against a fixed collection.
- GenerateShortcode.GenerateUniqueShortcode: the source loop is unbounded, and termination cannot be left unproved here. The method consumes a finite stream of draws and returns None when every drawn code is taken. None stands for "still looping after `|source|` lookups".
- GenerateShortcode.GenerateUniqueShortcode: every `findOne` is assumed to answer. A lookup that rejects (store unreachable, server error) is not modelled. The source has no `try` around it (backend/utils/generateShortcode.js:12), so it would reject with no code after the lookups made so far.
- UrlModel.Insert: every `save()` is assumed to reach the store. A save that rejects for another reason than validation or the unique index, such as an unreachable store, is not modelled.
- GenerateShortcode.Alphabet is written as the three character ranges a-z, A-Z, 0-9. This spells the same 62-character string as the literal in the source.
- UrlStats.FormatUrl: JavaScript measures and cuts strings in UTF-16 code units, while a Dafny `char` is a Unicode scalar value. The two differ for characters outside the Basic Multilingual Plane.
- UrlStats.ClicksOf: counts are integers, so `NaN`, which `|| 0` would also replace by 0, is not represented.
- UrlStats.Errors: a fetched body is taken to have no truthy `error` field of its own.
- UrlStats.FetchStats: log calls are assumed to reject only with objects, so reading `logErr.message` never throws. If the logger rejected with `undefined` or `null` after a successful request, that read would throw into the outer `catch` (URLStats.jsx:60-63). The entry would then get a second, failed result, and "Total URLs" and "Errors" would each count one more. After a failed request, the same read would throw out of the loop (URLStats.jsx:68), and `stats` would never be set.
- UrlStats.FetchStats: every stored entry has a `shortLink`. An entry without one would throw outside the `try` and leave `stats` unset.
- UrlForm.Form.HandleSubmit: each handler is modelled as one atomic step on the current state, so interleavings with the awaited posts are not captured. Three effects follow from that. First, the handler's closure reads `results` and `urls` as they were when it started (URLForm.jsx:45-47): a "Clear All" pressed during a submit is undone when the submit ends, and rows added meanwhile are dropped by the reset. Second, `handleChange` copies the list shallowly (URLForm.jsx:21-22), so the entry objects are shared: editing a row that has not been posted yet changes what is posted. Third, pressing Shorten a second time during a submit posts every entry twice.
- UrlForm.Form.HandleChange: `e.target.name` is one of the three field names of a row. An arbitrary name would add a new property to the entry.
- Mongoose internals: `_id`, casting of values to the schema types, and the storage engine.
