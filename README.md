# Smart Bookmark App: a Dafny model of the bookmark dashboard and its API

Smart Bookmark App is a Next.js application. A signed-in user keeps a private list of bookmarks in
Supabase. This project models its core in Dafny and proves properties of the model:

- **normalizeUrl**, defined with the same text in the dashboard component and in the list/create
  route. It trims the input (ECMAScript `String.prototype.trim`), returns null for empty input, and
  prefixes `https://` unless `/^https?:\/\//i` matches. It then hands the string to `new URL` and
  keeps only `http:`/`https:` results, in serialised form (`Url`, with the string primitives in
  `JsString`).
- **GET and POST /api/bookmarks**: the session check, the owner filter and newest-first order of
  the list query, and the validation of a new bookmark. It covers every error answer: 401, 400,
  500, and a thrown TypeError (`Bookmarks`, `BookmarksApi`).
- **getSupabaseEnv**: the presence check, the URL check and the
  `<20-character project ref>.supabase.co` host check, in that order, with the exact messages
  (`SupabaseEnv`).
- **The dashboard tab as a state machine**:
  - The React state (`bookmarks`, `title`, `url`, `isSubmitting`, `deleteId`, `errorMessage`)
    plus the ordered list of requests and cross-tab signals the tab has sent.
  - Each part of a handler between two `await`s is one transition (`DashboardState`).
  - A run of page events passes the guards the rendered page enforces: a disabled button cannot be
    clicked, a form with an empty `required` input is not submitted, and only a listed row has a
    delete button (`DashboardTrace`).
  - The class `Dashboard.BookmarkDashboard` holds those fields and updates them in place, one
    `set…` at a time. Each of its methods is proved to perform the matching transition.
- **Cross-tab sync**: the BroadcastChannel message and `localStorage` write after a successful
  mutation, and the filters of the storage and broadcast listeners (`TabSync`).

Calls into code this model cannot see are parameters:
- `new URL`: `UrlParser`, a function from string to an optional parsed URL.
- `JSON.parse` with the `.userId` read: `SignalReader`.
- `JSON.stringify`: `SignalWriter`.
- The Supabase insert: `Insert`.
- The Supabase select, the session lookup and the environment: plain inputs.
- `fetch`: its answers are inputs to the transitions.

A written non-http scheme such as ftp://x.com is not rejected by the prefix test. The regular
expression does not match, so the parser receives "https://ftp://x.com", and the parser alone
decides the outcome (`UrlExamples.BareHostGetsHttps`).

The delete buttons are guarded by a single `deleteId` slot. The slot holds only the latest delete.
When an earlier DELETE is answered, the `finally` clears the slot, even if another row's DELETE is
still pending. That row's button is then enabled again, so a second click sends a second DELETE
for it (`DashboardTrace.DeleteOfPendingRowCanRepeat`).

## Model

| member | source | states |
|---|---|---|
| JsString.TrimStartCutsWhitespace | components/bookmark-dashboard.tsx:18 | The leading-whitespace cut leaves a suffix of the input. What it removes is all WhiteSpace/LineTerminator code points. What is left does not start with one. |
| JsString.TrimEndCutsWhitespace | components/bookmark-dashboard.tsx:18 | The trailing-whitespace cut leaves a prefix of the input. What it removes is all whitespace. What is left does not end with whitespace. |
| JsString.Trim | components/bookmark-dashboard.tsx:18 | `trim()` is empty exactly when the input is all whitespace. A non-empty result has no whitespace at either end. |
| JsString.TrimIsSlice | components/bookmark-dashboard.tsx:18 | The input is whitespace, then the result, then whitespace, in that order. |
| JsString.TrimIdempotent | components/bookmark-dashboard.tsx:145 | Trimming an already trimmed string changes nothing. |
| JsString.TrimDropsPadding | components/bookmark-dashboard.tsx:18 | Around a string with non-whitespace ends, trim removes exactly the surrounding whitespace. |
| JsString.TrimStartDropsPadding | components/bookmark-dashboard.tsx:18 | Leading whitespace in front of a non-whitespace character is exactly what the leading cut removes. |
| JsString.TrimEndDropsPadding | components/bookmark-dashboard.tsx:18 | Trailing whitespace after a non-whitespace character is exactly what the trailing cut removes. |
| JsString.AsciiLowerPreimage | components/bookmark-dashboard.tsx:23 | Under the `i` flag, exactly two characters fold onto a lower-case ASCII letter: the letter itself and its upper-case form. No non-ASCII look-alike does. |
| JsString.AsciiLowerFixesOthers | components/bookmark-dashboard.tsx:23 | Under the `i` flag, a character other than a lower-case letter matches only itself. |
| Url.HttpPrefixIsCaseVariant | components/bookmark-dashboard.tsx:23 | `/^https?:\/\//i` accepts exactly: each letter of "http" as written or in upper case, then an optional s/S, then "://". |
| Url.WithProtocol | components/bookmark-dashboard.tsx:23 | The string handed to the parser always starts with http(s):// in some case. It is the input itself when that already matched, and "https://" + input otherwise. |
| Url.NormalizeUrl | components/bookmark-dashboard.tsx:17-34 | Non-null exactly when the trimmed input is non-empty, the parser accepts the prefixed string and reports `http:` or `https:`. The result is then the parser's serialisation. |
| Url.NormalizeUrlRejectsBlank | components/bookmark-dashboard.tsx:18-21 | Empty or whitespace-only input is null, whatever the parser does. |
| Url.NormalizeUrlConsultsParserOnce | components/bookmark-dashboard.tsx:23-33 | Only the parser's answer at the one prefixed string matters: two parsers that agree there give the same result. |
| Url.NormalizeUrlIgnoresSurroundingWhitespace | app/api/bookmarks/route.ts:9-26 | Normalising the trimmed input gives the same result as normalising the raw input. |
| Url.NormalizeUrlAcceptsWhatParses | app/api/bookmarks/route.ts:15-22 | For a parser that reports the http(s) scheme it was given, the protocol check never rejects: the result is non-null exactly when the trimmed input is non-empty and parses. |
| UrlExamples.BareHostGetsHttps | components/bookmark-dashboard.tsx:23 | A padded input whose first character is not h/H, such as "example.com" or "ftp://x.com", reaches the parser as "https://" followed by the unpadded input. |
| UrlExamples.WrittenSchemeKept | components/bookmark-dashboard.tsx:23 | A padded input that starts with http:// or https:// in any ASCII case reaches the parser as written, without the padding. |
| Bookmarks.SelectAll | app/api/bookmarks/route.ts:41 | `select("id, title, url, created_at")` projects each row, position by position. |
| Bookmarks.OwnedBy | app/api/bookmarks/route.ts:42 | `.eq("user_id", …)` keeps exactly the rows of that user, with no row added or repeated. |
| Bookmarks.InsertNewestAdds | app/api/bookmarks/route.ts:43 | Inserting a row into the ordered list adds that row and nothing else (as a multiset). |
| Bookmarks.InsertNewestSorted | app/api/bookmarks/route.ts:43 | Inserting into a newest-first list keeps it newest first. |
| Bookmarks.SortNewestFirst | app/api/bookmarks/route.ts:43 | `.order("created_at", { ascending: false })` is newest first and a permutation of its input. |
| Bookmarks.ListRows | app/api/bookmarks/route.ts:39-43 | The list query is newest first and a permutation of the user's rows. A row is listed exactly when it belongs to the user. |
| Bookmarks.NewestRowListedFirst | app/api/bookmarks/route.ts:43 | A row strictly newer than every other row of its owner is listed first. |
| BookmarksApi.Get | app/api/bookmarks/route.ts:28-53 | No session gives 401 "Unauthorized". A failed select gives 500 "Failed to load bookmarks.". Otherwise 200 with the projection of a newest-first permutation of the user's rows. |
| BookmarksApi.GetListsExactlyOwnRows | app/api/bookmarks/route.ts:39-52 | Every bookmark GET returns is the projection of a row of the caller, and every such projection is returned. |
| BookmarksApi.ProjectsOwnRows | app/api/bookmarks/route.ts:41-52 | A list with exactly the caller's rows projects to exactly the caller's bookmarks. |
| BookmarksApi.Post | app/api/bookmarks/route.ts:55-92 | No session gives 401 and no insert. Any insert carries the session user's id. A 201 answer carries exactly the row the store returned for that insert. The title and url checks are on JavaScript truthiness, so an empty normalised url is refused. |
| BookmarksApi.PostChecksUserFirst | app/api/bookmarks/route.ts:62-66 | Without a session the answer is the same 401 whatever the body, the parser and the store do. |
| BookmarksApi.PostRejectsInvalidBody | app/api/bookmarks/route.ts:66-75 | For a string title, each of these gives 400 "Title and a valid URL are required." and no insert: the title trims to nothing; the url is missing or falsy; or normalizeUrl makes it null or "". |
| BookmarksApi.PostRejectsMissingTitle | app/api/bookmarks/route.ts:66-75 | A body that is not a JSON object, or has no title (undefined or null), gives 400 and no insert. |
| BookmarksApi.ReadValidFields | app/api/bookmarks/route.ts:67-68 | A string title reads as its trim. A string url that normalises reads as its normal form. |
| BookmarksApi.PostStoresReadFields | app/api/bookmarks/route.ts:70-91 | Once the body reads as a non-empty title and a non-empty url, POST answers as the insert of exactly that row for the caller does. |
| BookmarksApi.PostInsertsNormalisedRow | app/api/bookmarks/route.ts:77-91 | A valid body inserts the trimmed title, the normalised url and the caller's id. The answer is 201 with the stored row, or 500 "Failed to save bookmark." when the store fails. |
| BookmarksApi.PostInsertsOnlyValidRows | app/api/bookmarks/route.ts:66-91 | An insert happens exactly when the answer is 201 or 500. It always carries the body's string title, trimmed and non-empty, and the non-empty url normalizeUrl made of the body's string url. |
| BookmarksApi.PostInsertHappensOnlyOnStore | app/api/bookmarks/route.ts:77-91 | An insert is issued exactly on the paths answered 201 or 500. |
| SupabaseEnv.SupabaseHostIsRefAndSuffix | lib/supabase/env.ts:20 | The host pattern accepts exactly a 20-character [a-z0-9] project ref followed by ".supabase.co". |
| SupabaseEnv.UpperCaseHostRefused | lib/supabase/env.ts:20-21 | A host with an upper-case letter anywhere is refused. |
| SupabaseEnv.SubdomainHostRefused | lib/supabase/env.ts:20-21 | A host with an extra label in front of the project ref is refused. |
| SupabaseEnv.GetSupabaseEnv | lib/supabase/env.ts:1-28 | Three errors, each an iff, checked in order: "missing" when either variable is unset or empty; "invalid URL" when both are present and the URL does not parse; "invalid host" when it parses to a non-project host. On success it returns the two inputs unchanged. |
| SupabaseEnv.MissingCheckedBeforeParse | lib/supabase/env.ts:5-13 | With a variable missing the URL is never parsed: the parser cannot change the "missing" error. |
| SupabaseEnv.EnvAcceptsOnlyProjectUrls | lib/supabase/env.ts:11-27 | Success exactly when both variables are present and the URL parses to a host that is a project ref followed by ".supabase.co". |
| TabSync.NotifyOtherTabs | components/bookmark-dashboard.tsx:65-80 | One broadcast on "smart-bookmark-sync-channel" when BroadcastChannel exists, then always one write of "smart-bookmark-sync". Every signal carries the tab's user id. |
| TabSync.StorageListenerIgnoresNoise | components/bookmark-dashboard.tsx:105-118 | Another key, a cleared slot and a malformed value never trigger a reload. |
| TabSync.NotifyWakesExactlySameUser | components/bookmark-dashboard.tsx:65-130 | Each signal a tab sends makes a receiving tab reload exactly when both belong to the same user, given that JSON.parse reads back what JSON.stringify wrote. |
| DashboardState.FinishLoad | components/bookmark-dashboard.tsx:56-62 | An ok answer replaces the list. A non-ok answer sets "Failed to refresh bookmarks." and keeps the list. A rejected fetch changes nothing. |
| DashboardState.CreateRequest | components/bookmark-dashboard.tsx:144-150 | Submitting is refused exactly when the trimmed title is empty or normalizeUrl returns null or "". Otherwise the request carries the trimmed title and the normalised URL. |
| DashboardState.LoadReplacesOrKeeps | components/bookmark-dashboard.tsx:51-63 | A whole loadBookmarks sends one list request. The list becomes the fetched one only on success. The message changes only on a non-ok answer. No other field changes. |
| DashboardState.HandleCreateOutcome | components/bookmark-dashboard.tsx:141-182 | Invalid input only sets "Enter a valid title and URL.". Otherwise isSubmitting ends false on every path. A failed or rejected POST keeps inputs and list and shows the payload's error or "Failed to add bookmark.". A successful POST clears both inputs, reloads, and then notifies the other tabs unless the reload rejected. |
| DashboardState.HandleDeleteOutcome | components/bookmark-dashboard.tsx:184-206 | deleteId ends null on every path. A failure shows the payload's error or "Failed to delete bookmark." and sends nothing more. A success reloads and then notifies the other tabs unless the reload rejected. |
| DashboardState.StartDeleteDisablesOnlyThatRow | components/bookmark-dashboard.tsx:185-186 | Once a delete starts, the message is cleared and only that row's button is disabled (`disabled={deleteId === bookmark.id}`). |
| DashboardState.FailureMessageKeepsEmptyError | components/bookmark-dashboard.tsx:171 | `??` replaces only a missing error: an empty error string is kept as it is. |
| DashboardTrace.RunThenStep | components/bookmark-dashboard.tsx:141-206 | Running one more event is a step from the state the run reached, so the handlers compose event by event. |
| DashboardTrace.StepKeepsOrReplacesList | components/bookmark-dashboard.tsx:56-62 | A single event replaces the list only when it is a successful refetch, and then with exactly the fetched list. |
| DashboardTrace.RunShowsLastFetchedList | components/bookmark-dashboard.tsx:56-62 | After any sequence of events the list is, verbatim, that of the last successful refetch (or the initial list). No handler patches it locally. |
| DashboardTrace.StepIsSound | components/bookmark-dashboard.tsx:141-206 | One event only appends to what the tab sent and keeps its user. It signals only its own user id, and every create request it sends has a non-empty trimmed title and a non-empty normalised URL. |
| DashboardTrace.RunIsSound | components/bookmark-dashboard.tsx:65-206 | The same over any run of events: no create request leaves the tab unvalidated, and no signal names another user. |
| DashboardTrace.InvalidSubmitSendsNothing | components/bookmark-dashboard.tsx:144-150 | Submitting invalid input sends no request and touches neither the list nor isSubmitting. |
| DashboardTrace.IncompleteFormNotSubmitted | components/bookmark-dashboard.tsx:231-246 | With the title or the URL input empty, the `required` attributes stop the submit before the handler runs: nothing changes. |
| DashboardTrace.PendingDeleteClickIgnored | components/bookmark-dashboard.tsx:284-285 | A click on the row being deleted, whose button is disabled, changes nothing. |
| DashboardTrace.DeleteOfPendingRowCanRepeat | components/bookmark-dashboard.tsx:184-206 | Rows a and b are both listed and nothing is pending. Clicking a, then b, then a failed answer to a's DELETE, then b again sends DELETE a, DELETE b, DELETE b. The answer cleared the single `deleteId` slot while b was still pending. |
| Dashboard.BookmarkDashboard.constructor | components/bookmark-dashboard.tsx:42-47 | Starts from the server-rendered list and error, with empty inputs, nothing pending and nothing sent. |
| Dashboard.BookmarkDashboard.SetTitle | components/bookmark-dashboard.tsx:233 | Only the title changes. |
| Dashboard.BookmarkDashboard.SetUrl | components/bookmark-dashboard.tsx:241 | Only the URL input changes. |
| Dashboard.BookmarkDashboard.StartLoad | components/bookmark-dashboard.tsx:51-54 | Appends the list request, and nothing else changes. |
| Dashboard.BookmarkDashboard.FinishLoad | components/bookmark-dashboard.tsx:56-62 | Performs DashboardState.FinishLoad on the fields and reports whether the fetch rejected. |
| Dashboard.BookmarkDashboard.NotifyOtherTabs | components/bookmark-dashboard.tsx:65-80 | Appends exactly the signals of TabSync.NotifyOtherTabs, in order. |
| Dashboard.BookmarkDashboard.SubmitCreate | components/bookmark-dashboard.tsx:141-165 | Returns what the inputs validate to, and performs the submit transition with it. |
| Dashboard.BookmarkDashboard.SubmitRequest | components/bookmark-dashboard.tsx:147-165 | Sets the validation message, or sets isSubmitting, clears the message and sends the request. |
| Dashboard.BookmarkDashboard.CreateAnswered | components/bookmark-dashboard.tsx:167-177 | Performs DashboardState.CreateAnswered. It reports a reload exactly on an ok answer. |
| Dashboard.BookmarkDashboard.CreateRefreshed | components/bookmark-dashboard.tsx:177-181 | Performs DashboardState.CreateRefreshed: apply the reload, notify unless it rejected, clear isSubmitting. |
| Dashboard.BookmarkDashboard.HandleCreateBookmark | components/bookmark-dashboard.tsx:141-182 | The whole create handler performs DashboardState.HandleCreate, whose outcomes HandleCreateOutcome lists. |
| Dashboard.BookmarkDashboard.StartDelete | components/bookmark-dashboard.tsx:184-191 | Sets deleteId, clears the message and sends the DELETE. |
| Dashboard.BookmarkDashboard.DeleteAnswered | components/bookmark-dashboard.tsx:193-201 | Performs DashboardState.DeleteAnswered. It reports a reload exactly on an ok answer. |
| Dashboard.BookmarkDashboard.DeleteRefreshed | components/bookmark-dashboard.tsx:201-205 | Performs DashboardState.DeleteRefreshed: apply the reload, notify unless it rejected, clear deleteId. |
| Dashboard.BookmarkDashboard.HandleDeleteBookmark | components/bookmark-dashboard.tsx:184-206 | The whole delete handler performs DashboardState.HandleDelete, whose outcomes HandleDeleteOutcome lists. |
| Dashboard.BookmarkDashboard.OnRealtimeChange | components/bookmark-dashboard.tsx:93-95 | A change on the user's rows starts a reload. |
| Dashboard.BookmarkDashboard.OnStorage | components/bookmark-dashboard.tsx:105-118 | Starts a reload exactly when the event passes TabSync.StorageEventWakes, and otherwise changes nothing. |
| Dashboard.BookmarkDashboard.OnBroadcast | components/bookmark-dashboard.tsx:126-130 | Starts a reload exactly when the message names this tab's user. |
| Dashboard.BookmarkDashboard.Deliver | components/bookmark-dashboard.tsx:227-289 | Routes one page event to its handler behind the page's guards, performing DashboardTrace.Step. |
| Dashboard.BookmarkDashboard.DeliverAll | components/bookmark-dashboard.tsx:227-289 | Delivering a sequence of events performs DashboardTrace.Run. The list shown afterwards is the one the last successful refetch returned, or the list shown before when there was none. |

## Left out

- The WHATWG URL parser, `JSON.parse`/`JSON.stringify`, `fetch`, the Supabase client and the session
  lookup are not modelled. They are parameters or inputs of the model, because their code is not
  part of this model.
- The cross-tab payload's `timestamp` (`Date.now()`) is left out: no listener reads it.
- The lifetimes of the subscriptions (components/bookmark-dashboard.tsx:82-102 and :121-138):
  creating and removing the realtime channel and listeners, and closing BroadcastChannels. Each
  listener is modelled as a handler that is always subscribed, since React effects have no
  behaviour this model can state.
- JSX rendering beyond the two `disabled` guards, the `required` attributes and the list of
  delete buttons. Styling and the sign-out forms are left out.
- Of the browser's form validation, only `required` is modelled, as "the form is not submitted
  while an input is empty" (components/bookmark-dashboard.tsx:235, :243). The inputs are
  `type="text"`, so no other constraint applies.
- TabSync.NotifyOtherTabs: a `localStorage.setItem` that throws is not modelled
  (components/bookmark-dashboard.tsx:78). This happens when storage is full or disabled. The
  model always completes the write, while the code would leave notifyOtherTabs after the
  broadcast and reject the handler. Dashboard.BookmarkDashboard.NotifyOtherTabs does the same.
- `console.log` in the storage listener is left out: it is an output with no effect on state.
- Concurrency is modelled as interleaving: every step between two `await`s is atomic, and callers
  choose the event order. The batching of React state updates is not modelled.
- The answers of overlapping reloads are free events. Which request an answer belongs to is not
  tracked.
- An ok response whose JSON body cannot be read (`response.json()` rejecting in loadBookmarks) is
  modelled as a rejected fetch (`ListRejected`), since both reject the same await.
- A non-string `error` property in a failure payload is not modelled: `MutationNotOk` carries
  `Option<string>`.
- The DELETE route (app/api/bookmarks/[id]/route.ts) is not part of this model. Only the client-side
  handler is.
- Bookmarks.SortNewestFirst: rows with equal `created_at` come out in a definite, stable order. The
  store leaves their order unspecified, and every property proved about the list holds for any
  order, since the contracts fix only newest-first and the permutation.
- A thrown exception in POST is one outcome (`Thrown`). The framework's error answer is not
  modelled.
- BookmarksApi.Post: the body is read as two fields: absent, a string, or some other JSON value
  (truthy or falsy). Other properties of the body are not modelled.
