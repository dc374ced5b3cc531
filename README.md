# Honeypot capture, gate and analytics core in Dafny

This project models the core of a web honeypot, an Express application. The core has six parts:

- **Credential trap.** The fake login page sends its submissions to `POST /login`. The handler records every complete submission and always answers that the credentials are invalid.
- **Request logger.** It writes every request to `general_logs`.
- **Admin gate.** `/admin2430.html` protects the analytics console with a PIN. The PIN is compared in constant time. Every non-empty PIN whose row the database accepts is logged, and the session is marked admin only after a correct PIN has been logged.
- **Rate limiters.** Two fixed-window limiters, one for the login form and one for the admin gate, each keyed by client IP.
- **Statistics service.** It answers the console's queries: the attempt timeline, the top IPs and usernames, the path distribution, the overview cards and the paginated recent attempts.
- **Dashboard helpers.** The console script's CSV export (`escapeCSV`, `convertToCSV`), the pagination bar (`renderPagination`, `changePage`) and the shortening of passwords in the attempts table.

The modules follow the program's structure:

- `Records` and `Persistence` model the tables.
  - `Records` holds the rows and the checks the database applies: column widths, `NOT NULL`, the `isIP` validator, and PostgreSQL's refusal of the character U+0000 in text.
  - `Persistence.Store` is a class whose methods append to the tables, or fail and leave them unchanged.
- `RateLimiter` models the limiters. `FixedWindowLimiter` is a class whose per-client windows map `Admit` updates.
- `RequestLogger`, `PublicRoutes` and `AdminRoutes` model the middleware and the route handlers.
  - Handlers that change state are methods on the store, the limiter and the session.
  - Each is proved against a pure function of the same inputs, such as `SubmitPinOutcome` or `LogRow`.
- `StatsService` models each SQL query as a function over the table rows. It is built on `Grouping`, a verified `GROUP BY`/`COUNT`/`ORDER BY`/`LIMIT`.
- `Csv` and `Dashboard` model the browser-side helpers. `RenderPagination` is a method with the same loop as the script, proved equal to the control sequence `PaginationItems`.
- Supporting modules: `Common` (options, JavaScript truthiness, `trim`), `Utf8` (the UTF-8 encoding `Buffer.from` applies), `JsNumber` (`parseInt`) and `Http` (responses).

Behaviour worth noting:

- The overview cards are all-or-nothing. One `try` surrounds the four sub-queries, so a failure of any of them gives the all-zero overview (services/statsService.js:119-160).
- The credential trap awaits its database write (routes/public.js:46). When the write fails, the trap answers 401 at once, without the simulated delay. Only the request logger writes fire-and-forget (middleware/requestLogger.js:10-17).
- The request distribution always uses the fixed limit of 10 (services/statsService.js:176).
- The limiters follow express-rate-limit's in-memory store: a window ends at its reset time, inclusive, and refused requests still count.
- The PIN gate awaits its log write (routes/admin.js:102-108). A write the database refuses, such as a PIN longer than its `STRING(10)` column, ends in the generic 500 with no row written.
- A `days` parameter that puts the timeline's cutoff outside PostgreSQL's timestamp range makes the query fail, so the timeline is empty. A `limit` or `offset` outside the non-negative bigint range does the same to the recent-attempts page.

## Model

| member | source | states |
|---|---|---|
| Persistence.Store.constructor | models/index.js:10-13 | the database starts reachable, with the given configuration and empty log tables |
| Persistence.Store.CreateGeneralLog | middleware/requestLogger.js:17-28 | the write succeeds exactly when the database is up and accepts the row, and then appends it with the next id; otherwise the table is unchanged |
| Persistence.Store.CreateCredential | routes/public.js:46-53 | as above for credential_capture: appended with the next id exactly when the database is up and the row fits the columns |
| Persistence.Store.CreateAdminAccess | routes/admin.js:102-108 | as above for admin_access_logs |
| Persistence.Store.FindConfig | routes/admin.js:76-78 | a down database throws; otherwise the lookup gives the configured value, or null for a missing key |
| RateLimiter.ReplayOpenWindow | middleware/rateLimiter.js:12-29 | inside an open window the i-th further request is passed on exactly when hits + i + 1 does not exceed the limit, so refused requests keep counting |
| RateLimiter.ReplayBurst | middleware/rateLimiter.js:12-51 | in a burst that opens a fresh window and stays inside it, exactly the first `max` requests pass, so min(n, max) of n pass |
| RateLimiter.ExpiredWindowResets | middleware/rateLimiter.js:12-51 | after the reset time, or for a new client, a request passes and opens a window of `windowMs` holding one hit |
| RateLimiter.FixedWindowLimiter.constructor | middleware/rateLimiter.js:12-51 | a limiter has its window, limit and message, and no client windows yet |
| RateLimiter.FixedWindowLimiter.Admit | middleware/rateLimiter.js:24-28 | adds one hit to the caller's window and leaves every other client's alone; answers next() exactly when the new count is within the limit, otherwise 429 with the limiter's message |
| RateLimiter.NewLoginLimiter | middleware/rateLimiter.js:12-29 | the login limiter: a 60 000 ms window, 5 requests, its own message |
| RateLimiter.NewAdminLimiter | middleware/rateLimiter.js:36-51 | the admin limiter: a 3 600 000 ms window, 3 requests, its own message |
| RequestLogger.LogRow | middleware/requestLogger.js:17-28 | the row is built unless req.ip is falsy and there is no connection. The IP falls back to the socket address only when req.ip is falsy, an empty referer becomes null, and method, path, user agent and time are copied |
| RequestLogger.Log | middleware/requestLogger.js:12-38 | next() is called exactly once. At most one row is appended, and one is appended exactly when the row can be built and the database is up and accepts it |
| RequestLogger.LoggedWhenAccepted | middleware/requestLogger.js:17-28 | a request with a valid IP, and whose method, path, referer and user agent fit their columns (width, no U+0000), gives a row the database accepts |
| PublicRoutes.LoginPage | routes/public.js:14-19 | the login form is rendered with 200 and no error |
| PublicRoutes.SanitizeUsername | routes/public.js:40 | the stored username is the first min(255, length) characters of the trimmed input. It is a piece of the input that starts right after its leading blanks, and never starts with whitespace |
| PublicRoutes.SanitizePassword | routes/public.js:41 | the stored password is the input's prefix: all of it up to 255 characters, otherwise exactly 255 |
| PublicRoutes.CaptureRow | routes/public.js:46-53 | the captured row holds the IP, user agent and time as given, the sanitised username and password, and the length of the stored password |
| PublicRoutes.CaptureRowAccepted | routes/public.js:40-53 | the sanitised fields always fit their widths, so the database accepts a captured row exactly when it accepts its IP and no stored text holds U+0000. The stored length is at most 255 |
| PublicRoutes.Login | routes/public.js:28-75 | a missing or empty field gives 400 and writes nothing. Otherwise exactly one row is attempted and the answer is always the same 401. The 500 + jitter ms delay happens exactly when the row was stored |
| PublicRoutes.PostLogin | routes/public.js:28-75 | the limiter runs first. The answer is always a JSON error (400, 401 or 429), 429 exactly when the client's count exceeds the limit, and a refused request writes nothing. A request let through gets what `Login` promises: the response, the delay and the appended row |
| PublicRoutes.TruncatedUsernameMayEndInSpace | routes/public.js:40 | truncation after trimming can leave a stored username ending in whitespace |
| AdminRoutes.Session.constructor | routes/admin.js:15-22 | a new session is not admin and has no login time |
| AdminRoutes.RequireAdminAuth | routes/admin.js:15-22 | passes exactly the sessions marked admin; everyone else is redirected to the PIN page |
| AdminRoutes.PinPage | routes/admin.js:48-58 | an admin session is redirected to the dashboard, anyone else gets the PIN form with 200 |
| AdminRoutes.TimingSafeEqual | routes/admin.js:28-43 | two buffers of equal length compare equal exactly when every byte agrees |
| AdminRoutes.SafeCompareIsEquality | routes/admin.js:28-43 | the constant-time comparison of UTF-8 encodings is exactly string equality, in both directions |
| Utf8.EncodeInjective | routes/admin.js:29-30 | distinct strings have distinct UTF-8 encodings |
| Utf8.EncodeChar | routes/admin.js:29-30 | each character encodes to 1 to 4 bytes whose lead byte announces the length and which decode to its scalar value |
| AdminRoutes.SubmitPinOutcome | routes/admin.js:63-132 | access is granted exactly when the answer is the dashboard redirect. A logged row records whether access was granted, and carries the session id exactly when it was. A grant is always logged, and only rows the database accepts are logged. A missing or empty PIN gets 400. A non-empty PIN left unlogged (database down, or row refused) gets the generic 500 retry answer |
| AdminRoutes.GrantOnlyForConfiguredPin | routes/admin.js:63-116 | access is granted exactly when a PIN was given, the configured PIN exists and equals it, and the attempt was logged; a missing or empty PIN gives 400 and no log |
| AdminRoutes.EverySubmissionLogged | routes/admin.js:80-123 | with the database up and valid fields, every non-empty PIN is logged as entered, with the IP. A missing configuration gives 500 ("contact administrator") and a wrong PIN 401 |
| AdminRoutes.RefusedPinNotLogged | routes/admin.js:102-131 | a PIN longer than the 10-character column, or holding U+0000, makes the log write throw: generic 500, no row, no grant |
| AdminRoutes.SubmitPin | routes/admin.js:63-132 | the response and the log row are those of `SubmitPinOutcome`. The session becomes admin, with the current login time, exactly on a grant. The log table grows by that row only |
| AdminRoutes.PostPin | routes/admin.js:63-132 | the admin limiter runs first. Over the limit the answer is 429 and neither the log nor the session changes. Otherwise the response, the appended log row and the session's admin flag and login time are those of `SubmitPinOutcome` |
| AdminRoutes.Logout | routes/admin.js:208-215 | always redirects to the PIN page. The session loses admin status and its login time unless destroying it failed, in which case it is unchanged |
| AdminRoutes.ApiStats | routes/admin.js:160-183 | refused (redirect) exactly for non-admin sessions. Otherwise it returns the timeline over `parseInt(days) \|\| 7` days, the top 10 IPs, the top 20 usernames and the distribution |
| AdminRoutes.StatsDaysParameter | routes/admin.js:162 | a missing or zero `days` gives the 7-day timeline, and any other decimal integer is passed to the query as written (exact up to 2^53; see Left out) |
| AdminRoutes.HugeDaysParameter | routes/admin.js:160-183 | a `days` of magnitude 2^53 or more, where JavaScript's parseInt starts rounding, gives the empty timeline |
| AdminRoutes.ApiRecent | routes/admin.js:190-203 | refused exactly for non-admin sessions; otherwise one page of `parseInt(limit) \|\| 25` rows from `parseInt(offset) \|\| 0` |
| AdminRoutes.RecentParameters | routes/admin.js:192-193 | with no parameters the 25 newest rows from offset 0; a negative limit or offset gives the empty page with total 0 |
| JsNumber.ParseIntOr | routes/admin.js:162 | `parseInt(q) \|\| d` is d when q is missing, not a number or 0; any other result is the parsed, non-zero value |
| JsNumber.ParseIntOfDecimal | routes/admin.js:192-193 | parseInt reads back every integer written in decimal; JavaScript's parseInt does so exactly for magnitudes up to 2^53 (see Left out) |
| Grouping.Tally | services/statsService.js:16-29 | GROUP BY: one bucket per distinct value, with keys pairwise distinct and each count the number of occurrences; the counts add up to the input length |
| Grouping.SortDesc | services/statsService.js:61 | ORDER BY: the result is ordered by the key, non-increasing, and is a permutation of the input |
| Grouping.TopNSpec | services/statsService.js:55-64 | GROUP BY, ORDER BY count DESC, LIMIT n. It returns min(distinct, n) buckets with distinct keys and true positive counts, largest first. A value left out means n buckets were returned, each counted at least as often |
| Grouping.SumSort | services/statsService.js:26-27 | reordering buckets keeps their total |
| StatsService.InWindow | services/statsService.js:21-25 | exactly the attempts at or after the cutoff are selected, each as many times as it occurs in the table (a multiset count), and none earlier |
| StatsService.TimelineAscending | services/statsService.js:12-47 | the timeline's days are strictly ascending, with one count per day |
| StatsService.TimelineCounts | services/statsService.js:16-35 | each count is the number of in-window attempts made that day, and is positive |
| StatsService.TimelineComplete | services/statsService.js:16-35 | when the database can compute the cutoff, every day with an attempt since the cutoff appears |
| StatsService.TimelineTotal | services/statsService.js:16-35 | when the database can compute the cutoff, the counts add up to the number of attempts since the cutoff |
| StatsService.GetTimelineData | services/statsService.js:21-46 | a failed query, or a cutoff outside PostgreSQL's timestamp range, gives empty dates and counts |
| StatsService.HugeDaysEmptyTimeline | services/statsService.js:21-25 | a `days` of magnitude 2^53 or more puts the cutoff out of range, so the timeline is empty |
| StatsService.TopIPsSpec | services/statsService.js:53-81 | at most `limit` distinct IPs, each with its true number of attempts, most first; an IP left out has no more attempts than any IP listed |
| StatsService.GetTopIPs | services/statsService.js:77-80 | a failed query gives the empty ranking |
| StatsService.TopUsernamesSpec | services/statsService.js:87-113 | the same ranking over the non-null usernames; every listed name is the username of some attempt |
| StatsService.GetTopUsernames | services/statsService.js:109-112 | a failed query gives the empty ranking |
| StatsService.PathLabel | services/statsService.js:181 | a null or empty path is shown as "Unknown" (the `\|\|` fallback) and a non-empty path as itself |
| StatsService.DistributionSpec | services/statsService.js:167-188 | at most 10 entries, each the label of a distinct stored path with its true positive count. Counts never increase, a null path is labelled "Unknown", and a path left out has no more requests than any listed |
| StatsService.GetRequestDistribution | services/statsService.js:184-187 | a failed query gives the empty ranking |
| StatsService.Earliest | services/statsService.js:137 | MIN: null exactly for no rows, otherwise a present timestamp no larger than any |
| StatsService.Latest | services/statsService.js:138 | MAX: null exactly for no rows, otherwise a present timestamp no smaller than any |
| StatsService.OverviewSpec | services/statsService.js:119-150 | the totals are the row counts of both tables, and the number of distinct IPs is at most the attempts. First and last attempt are the earliest and latest attempt timestamps, attained by some attempt and null exactly when there are none |
| StatsService.GetOverviewStats | services/statsService.js:151-160 | any failure gives the all-zero, all-null overview |
| StatsService.Newest | services/statsService.js:197 | ORDER BY timestamp DESC: a permutation of the attempts, newest first |
| StatsService.RecentAttemptsPage | services/statsService.js:194-212 | `total` counts all attempts. The page holds min(limit, total - offset) rows, newest first: row i is the password-free projection of the attempt at position offset + i of the newest-first order |
| StatsService.RecentAttemptsWindow | services/statsService.js:196-200 | for any offset, the attempts the offset skips are at least as new as every row on the page, and those after the page are no newer than any row on it |
| StatsService.RecentAttemptsNewestFirst | services/statsService.js:196-200 | an attempt not on the first page is no newer than any row on it |
| StatsService.GetRecentAttempts | services/statsService.js:196-216 | a failed query, or a limit or offset outside the non-negative bigint range, gives total 0 and no rows |
| Csv.EscapeCsv | public/js/dashboard.js:426-439 | null gives the empty string. A value with no comma, quote or newline is returned unchanged, and any other value is wrapped in quotes |
| Csv.ScanEscaped | public/js/dashboard.js:426-439 | a reader that undoes quoting reads back exactly the escaped value, whatever follows the field |
| Csv.DecodeEncode | public/js/dashboard.js:426-439 | decoding the comma- and newline-joined escaped records gives back the records |
| Csv.ConvertToCsv | public/js/dashboard.js:403-406 | the "No data available" text is produced exactly for no rows |
| Csv.ConvertIsEncoding | public/js/dashboard.js:403-423 | the export is the CSV encoding of the header record followed by one record per attempt |
| Csv.CsvRoundTrip | public/js/dashboard.js:403-439 | reading the export back gives the header and, for each attempt, its timestamp, IP, username, password (null read as empty) and length, in order |
| Csv.LengthTextPlain | public/js/dashboard.js:417-419 | the length field never needs quoting |
| Dashboard.WindowBounds | public/js/dashboard.js:262-270 | the numbered window lies within 1..totalPages, holds min(7, totalPages) pages and contains the current page when it is valid |
| Dashboard.RenderPagination | public/js/dashboard.js:243-315 | the loop produces exactly the control sequence `PaginationItems` (the properties below) |
| Dashboard.PaginationParts | public/js/dashboard.js:253-312 | the bar is the previous arrow, the first page with its ellipsis, the window, the last page with its ellipsis, and the next arrow |
| Dashboard.NumberedShape | public/js/dashboard.js:272-303 | the numbered buttons start at page 1 and end at the last page, ascending with no gap except where an ellipsis stands |
| Dashboard.NumberedPages | public/js/dashboard.js:272-303 | every numbered button is the first page, the last page, or a page in the window |
| Dashboard.ActiveButton | public/js/dashboard.js:285-291 | only the current page's button is active, and it is shown exactly when the current page is in range |
| Dashboard.ChangePage | public/js/dashboard.js:321-327 | a page below 1 is ignored; any other page is loaded as given |
| Dashboard.ControlsStayInRange | public/js/dashboard.js:243-327 | on a valid page every button and enabled arrow loads a page in 1..totalPages. The guard ignores the disabled previous arrow on page 1, but not the disabled next arrow on the last page, which asks for totalPages + 1 |
| Dashboard.DisplayPassword | public/js/dashboard.js:220-222 | a password of up to 30 characters is shown whole. A longer one is shown as its first 30 characters followed by "...", 33 in all |

## Left out

- Strings are sequences of Unicode scalar values. JavaScript's `length` and `substring` count UTF-16 code units, so the 255- and 30-character cuts and the stored password length differ for text outside the Basic Multilingual Plane. PostgreSQL's column widths count characters, as the model does. Lone surrogates are not represented.
- The timing behaviour of `crypto.timingSafeEqual` (its constant running time) is not expressible; only its result is modelled.
- The request logger's write is not awaited in the source. Here it is applied at once, in request order; concurrent requests and interleavings are not modelled.
- Session storage, cookie expiry and the middleware stack in app.js are not part of this model. Routes are modelled as the limiter followed by the handler, as the route definitions mount them.
- The dashboard page route (routes/admin.js:138-153) only renders a template behind `requireAdminAuth`, which is modelled.
- Request bodies whose fields are not strings (arrays or objects from the body parser) are not modelled. Fields are strings or absent.
- The jitter `Math.random() * 1000` is a parameter of `Login`, a natural number below 1000; fractional milliseconds are not modelled.
- Time is milliseconds since the epoch. `DATE(timestamp)` is the UTC day number (the database time zone is taken as UTC), and days are numbers rather than date strings.
- `COUNT` values that the driver returns as strings and `parseInt` converts back are modelled as numbers directly.
- StatsService.GetOverviewStats: `uniqueIPs` is a number here. The source passes on the driver's `COUNT(DISTINCT ...)` string without parsing it (services/statsService.js:147), and `|| 0` applies only when no row comes back.
- JsNumber.ParseInt: returns the exact integer. JavaScript's parseInt returns a float64, which rounds integers of magnitude above 2^53. For `days` this changes nothing, because every such value already fails at the database (`AdminRoutes.HugeDaysParameter`). For `limit` and `offset` it matters only for values within rounding distance of the bigint limit, or for tables of more than 2^53 rows.
- The order of rows that tie in the SQL sort is not specified by the database. The model picks one order (`StatsService.Newest`, and the stable sort inside `Grouping.TopN`). The contracts state only what holds for every order, except the two below.
- StatsService.RecentAttemptsPage: names the page's rows by their position in the model's order `Newest`. With tied timestamps the database may return other attempts of the same timestamps on a page. The page's size, its newest-first order and `RecentAttemptsNewestFirst` hold for every order.
- StatsService.RecentAttemptsWindow: compares against positions in `Newest` in the same way, so it too is stated for the model's tie order.
- The limiters' `message` option is never sent, because each limiter's handler answers with its own JSON; only the handler's message is modelled.
- The export's `new Date(...).toISOString()` is taken as already done: the timestamp is an ISO 8601 string, and the `RangeError` an invalid date would raise is not modelled.
- Csv.CsvRoundTrip: stated for rows whose timestamp needs no quoting (true of ISO 8601 text), since the export does not escape the timestamp.
- The dashboard is not connected to the JSON API. `loadRecentAttempts`, the charts and the HTML are not part of this model. The recent-attempts API sends neither `passwordAttempted` nor a current page, so the table and the export see the fields as the model's inputs give them.
- HTML escaping (`escapeHtml`) and the generated markup are reduced to the sequence of pagination controls.
- Ids are assigned as the table length plus one, so the gaps a PostgreSQL sequence leaves after failed inserts are not modelled.
- `req.ip` is taken to be present in the credential trap and the PIN route, as Express supplies it there. The logger models the fallback to the socket address.
- The 500 branches of the two JSON routes (routes/admin.js:179-182 and 199-202) cannot be reached, because every statistics query catches its own errors; they are not modelled.
- The `isIP` validator is a given predicate on strings, not an implementation of IPv4/IPv6 syntax.
