# System monitor core, modelled in Dafny

This project models the core of a small system monitor. The monitor samples CPU and memory
usage and raises alerts when a reading is strictly above a configurable threshold. It keeps
those alerts in an SQLite table, serves a token-authenticated dashboard API, and analyses
uploaded log files. The model covers five parts:

- **Threshold evaluator** (`alerts.py`, module `Alerts`): the class `AlertManager` holds two
  thresholds that its setters update in place. `CheckThresholds` turns one reading into zero,
  one or two alerts.
- **Session authenticator** (`auth.py`, module `Auth`): the class `AuthManager` holds a user
  table and a session table as maps. Registration, login, lazy expiry in `ValidateSession` and
  the expiry sweep are methods that change those maps.
- **Alert log** (`database.py`, module `AlertLog`): the class `DatabaseManager` holds the table
  as a sequence of rows with AUTOINCREMENT ids. The meaning of `COUNT(*)`, `GROUP BY type` and
  `ORDER BY timestamp DESC LIMIT n` is stated as functions over that sequence: `Breakdown`
  and `SelectRecent`. The methods that build the dictionary and the list loop over the
  fetched rows, as the source does.
- **The application state** (`app.py`, modules `History`, `Bearer`, `Monitor`):
  - the bounded metric history, which holds at most 100 samples and drops the oldest;
  - its suffix snapshots of the newest 10 and 50 samples;
  - one iteration of the collection loop;
  - the `Authorization: Bearer` check;
  - the threshold update route, which applies the CPU setter before the memory setter;
  - the empty-field guards of the register and login routes.
- **Log analyzer** (`log_analyzer.py`, module `LogAnalysis`): `strip().split('\n')`, a
  hand-written matcher for the one regular expression, case folding of the level, and the
  per-level counts. The top-5 lists are stated as `Counter.most_common(5)`.

The shared modules are `Wrappers` (`Option`, `Result`, `Outcome`), `Counting` (a `Counter` as
a multiset tally, and the distinct elements of a list) and `Ranking` (a descending sort by a
key, as used by `ORDER BY ... DESC` and `most_common`).

Time is an explicit integer `now`, in seconds. A password hash is the datatype
`Bcrypt(salt, password)`, with the salt passed in by the caller. A session token is a
parameter of `LoginUser`. Python exceptions become `Result`/`Outcome` values that carry the
exception's message.

## Model

| member | source | states |
|---|---|---|
| Alerts.AlertManager.constructor | alerts.py:4-8 | A new manager has CPU threshold 25.0, memory threshold 30.0 and no active alerts; both thresholds lie in [0, 100]. |
| Alerts.AlertManager.CheckThresholds | alerts.py:11-35 | A CPU alert exists iff the CPU reading is strictly above the CPU threshold, and a MEMORY alert iff the memory reading is strictly above the memory threshold, independently. There are at most two alerts and CPU comes first. Each alert carries its reading as value, the threshold in force, the given timestamp, severity HIGH and the message of its kind. It reads the manager and changes nothing. |
| Alerts.AlertManager.SetCpuThreshold | alerts.py:38-42 | It succeeds iff 0 <= t <= 100, and then the CPU threshold becomes t. Otherwise it fails with "CPU threshold must be between 0 and 100" and the threshold is unchanged. The memory threshold and the active alerts never change. |
| Alerts.AlertManager.SetMemoryThreshold | alerts.py:45-49 | The same as the CPU setter, for the memory threshold and its own message; the CPU threshold never changes. |
| Alerts.AlertManager.GetThresholds | alerts.py:52-56 | It returns exactly the current (cpu, memory) pair; under the object invariant both values lie in [0, 100]. |
| Alerts.BoundaryReading | alerts.py:13-24 | With thresholds 25/30, a reading exactly at both thresholds gives no alert. A CPU reading of 25.01 gives exactly one CPU alert, carrying threshold 25.0. |
| Auth.AuthManager.constructor | auth.py:6-12 | A new manager has no users and no sessions, and a 24-hour session lifetime. |
| Auth.AuthManager.RegisterUser | auth.py:15-27 | A taken name fails with "Username already exists" and changes neither table. Otherwise exactly one user is added under its name, with id \|users\|+1, the salted hash and the creation time; sessions are unchanged. The ids stay exactly 1..n and pairwise distinct. |
| Auth.RegisterKeepsNumbering | auth.py:20-21 | Adding a user under a new name with id n+1 to a table numbered 1..n gives a table numbered 1..n+1, keyed by name, with distinct ids. |
| Auth.AuthManager.LoginUser | auth.py:30-47 | It succeeds iff the user exists and the password checks against the stored hash. An unknown name and a wrong password fail with the same message and change nothing. On success the token maps to (user id, name, now + 24h) and users are unchanged. A token not already present adds exactly one session. |
| Auth.AuthManager.ValidateSession | auth.py:50-59 | The result is true iff the token is present and not expired (now <= expiry counts as valid). An expired session is the only one deleted; in every other case nothing changes. |
| Auth.AuthManager.GetUserId | auth.py:62-65 | It returns the stored id of a registered name, which lies between 1 and \|users\|, and None for an unregistered name. |
| Auth.AuthManager.CleanupExpiredSessions | auth.py:68-72 | The session table becomes exactly the old sessions that had not expired at `now`, each with its record unchanged, so no expired session is left. Users are unchanged. |
| AlertLog.AlertsOf | database.py:69-79 | The reported alerts correspond one to one, in order, to the fetched rows, with each row's six reported fields. |
| AlertLog.ReportAlerts | database.py:69-80 | The loop that turns the fetched rows into the result list produces exactly AlertsOf of those rows. |
| AlertLog.GroupByKind | database.py:50-51 | GROUP BY yields one (type, count) pair per distinct type, in an order left open as SQLite leaves it. Every pair names a type that occurs, with that type's number of rows, no type appears twice, and every type that occurs appears. |
| AlertLog.DictOfGroups | database.py:52-57 | For grouped rows in any order that meets the GROUP BY properties, the dictionary the loop builds is the per-type tally of the table. |
| AlertLog.BreakdownCounts | database.py:49-57 | The breakdown has a key exactly for the types that occur, and its counts add up to the number of rows. |
| AlertLog.Breakdown | database.py:49-57 | Every row's type is a key of the breakdown, and every count is positive and at most the number of rows. |
| AlertLog.SelectRecent | database.py:61-66 | It selects exactly min(limit, \|rows\|) rows (all rows for a negative limit), newest first, drawn from the table. No row left out is newer than a row kept. |
| Ranking.SortDesc | database.py:64 | The sort by a key, largest first, is a permutation of its input and keeps the same length. |
| Ranking.PrefixDominates | database.py:64-65 | Cutting a descending sequence after k elements keeps it descending, and every element left out has a key no larger than every element kept. |
| AlertLog.AppendKeepsIdsIncreasing | database.py:22 | Appending a row with the next id keeps ids increasing, and the new id is above every earlier id. |
| AlertLog.DatabaseManager.constructor | database.py:5-9 | A new manager is connected, has the given path and an empty table, and its next id is 1. |
| AlertLog.DatabaseManager.CloseConnection | database.py:12-16 | Afterwards the manager is closed and the table is unchanged. A second call also leaves it closed with the table unchanged, so the operation is idempotent. |
| AlertLog.DatabaseManager.StoreAlert | database.py:35-40 | On an open connection exactly one row is appended: the alert's six fields, acknowledged false, and the next id, which is larger than every earlier id. The next id goes up by one, and the alerts of the table grow by exactly this alert. On a closed connection it fails and changes nothing. |
| AlertLog.NewRows | database.py:35-40 | The rows a run of stores appends: one per alert, in order, the i-th with id firstId + i, that alert's fields and acknowledged false. |
| AlertLog.DatabaseManager.GetTotalAlerts | database.py:43-46 | It returns the number of rows, so each successful store raises it by exactly one; it fails when the connection is closed. |
| AlertLog.DatabaseManager.GetAlertBreakdown | database.py:49-57 | It returns the per-type tally of the table; it fails when the connection is closed. |
| AlertLog.DatabaseManager.GetRecentAlerts | database.py:60-80 | It returns the alerts of SelectRecent(rows, limit), in that order; it fails when the connection is closed. |
| History.Last | app.py:141 | It returns the newest min(\|s\|, n) elements of s, in their original order, as a suffix of s. |
| History.Push | app.py:47-50 | The pushed sample is the last element. A history within capacity stays within MAX_METRICS_STORAGE = 100 and becomes the newest 100 of (history + [sample]). |
| History.PushAllKeepsNewest | app.py:47-50 | From any history within capacity, pushing a run of samples leaves exactly the newest 100 of (history followed by the samples), oldest first. |
| History.FromEmpty | app.py:47-50 | Pushing k samples into an empty history leaves the last min(k, 100) of them; after 150 pushes it holds samples 51..150. |
| Bearer.RemoveAllAbsent | app.py:130 | Removing a pattern that does not occur leaves the text unchanged. |
| Bearer.StripPrefix | app.py:130 | For a header that starts with "Bearer ", the token is no longer than the rest of the header, and equals it when "Bearer " does not occur there again. |
| Bearer.BearerToken | app.py:127-130 | A token is produced iff the header is present and starts with "Bearer ". It is the header with every "Bearer " removed: at most the length of the suffix, and equal to the suffix when the prefix does not recur. |
| Monitor.Monitor.constructor | app.py:19-25 | The process starts with an empty history, initial thresholds 25/30, empty user and session tables, and an open alert log at "codexray.db". |
| Monitor.Monitor.PushMetric | app.py:47-50 | The history becomes Push(old history, sample): the newest 100 of old history + [sample]. |
| Monitor.Monitor.CollectOnce | app.py:36-55 | The sample is pushed first, whether or not storing succeeds, and the thresholds are not touched. On success the earlier rows are unchanged and the rows of every alert of CheckThresholds follow them, in the order returned: NewRows(old next id, alerts), with acknowledged false. The next id grows by the number of alerts. On a closed log the iteration fails and stores nothing, unless there was no alert to store. |
| Monitor.Monitor.StoreAlerts | app.py:54-55 | On success the table is the old rows followed by NewRows(old next id, alerts), so the earlier rows are unchanged and the log's alerts grow by exactly that list. The next id grows by the number of alerts. A closed log fails already on the first alert, and then rows and next id are unchanged. |
| Monitor.Monitor.SummaryMetrics | app.py:141 | It returns the newest min(\|history\|, 10) samples, as a chronological suffix of the history. |
| Monitor.Monitor.LatestMetrics | app.py:165 | It returns the newest min(\|history\|, 50) samples, as a chronological suffix of the history. |
| Monitor.Monitor.CheckBearer | app.py:174-179 | It refuses a missing header or one without the "Bearer " prefix. It admits the request iff the extracted token names a live session. The session table afterwards is the old one, minus the token's session exactly when that session had expired (the lazy expiry of ValidateSession). Users are never changed. |
| Monitor.Monitor.UpdateThresholds | app.py:174-193 | The session table ends as after the bearer check, users and active alerts are unchanged. Without a live bearer session it answers 401 ("Unauthorized" or "Invalid token") and leaves the thresholds unchanged. Otherwise a given CPU value is applied before a given memory value. A rejected CPU value stops the update before the memory setter runs. A rejected memory value leaves an accepted CPU value in place. A rejection answers 500 with the setter's message. Success returns the new pair. |
| Monitor.Monitor.Register | app.py:84-94 | A missing or empty username or password answers 400 "Username and password required" and does not reach the authenticator. A taken name answers 400 with the duplicate message. Otherwise the user is added with id \|users\|+1. |
| Monitor.Monitor.Login | app.py:98-112 | A missing or empty field answers 400 and does not reach the authenticator. Bad credentials answer 401 with the one undifferentiated message and change no session. Success returns the token, now mapped to a 24-hour session for that user. |
| Monitor.OneCpuAlert | alerts.py:11-35 | With thresholds 25/30, a reading of 40% CPU and 10% memory gives exactly one CPU alert at threshold 25. A log holding only that alert has the breakdown {CPU: 1}. |
| LogAnalysis.Split | log_analyzer.py:12 | split('\n') yields at least one piece and no piece contains a newline. |
| LogAnalysis.SplitJoin | log_analyzer.py:12 | Joining the pieces with newlines gives back the text. |
| LogAnalysis.LineCount | log_analyzer.py:12 | The number of lines is one more than the number of newlines in the stripped text, and an empty or all-blank input gives exactly one (empty) line. |
| LogAnalysis.Lines | log_analyzer.py:12 | The analyzer iterates over at least one line, and no line holds a newline. |
| LogAnalysis.StripTrims | log_analyzer.py:12 | strip() keeps one contiguous slice of the text. Everything before and after it is whitespace, and the slice neither starts nor ends with whitespace, so an all-blank text strips to "". |
| LogAnalysis.TrailStart | log_analyzer.py:12 | Scanning back over trailing whitespace stops at the last non-whitespace character, or at the lower bound: everything from there on is whitespace. |
| LogAnalysis.SpanIsRun | log_analyzer.py:8 | A greedy run of word or whitespace characters is maximal: every character in it is in the class and the next one is not. |
| LogAnalysis.TakeLine | log_analyzer.py:8 | `.+` stops at the first newline: the result is the longest newline-free prefix. |
| LogAnalysis.PickStart | log_analyzer.py:8 | Backtracking the greedy `\s+` so that `.` can match: the message starts at the largest position within the run that holds no newline, after at least one whitespace character. There is no start iff every candidate position holds a newline. |
| LogAnalysis.MessageOf | log_analyzer.py:8 | The captured message is non-empty and holds no newline. |
| LogAnalysis.MessageOfMeans | log_analyzer.py:8 | `\s+(.+)` reads `message` after the colon iff there is a start j at which it begins: a non-empty whitespace prefix ends at j, a character other than a newline sits at j, and no longer whitespace prefix is followed by one (the greedy `\s+` backtracks only as far as it must). From j, `message` is the longest newline-free text. |
| LogAnalysis.LevelSpanMeans | log_analyzer.py:8 | LevelSpan returns a level span iff the header matches there: a word, whitespace, a date and time of the shape `dddd-dd-dd dd:dd:dd`, whitespace, a dash, whitespace and a word ending just before a colon. The split is unique. |
| LogAnalysis.Match | log_analyzer.py:8 | On a match, the level is non-empty and holds no lower-case letter, and the message is non-empty and has no newline. |
| LogAnalysis.MatchMeans | log_analyzer.py:8-23 | Match gives an entry iff the whole pattern matches the line with that level (upper-cased) and message, so it gives nothing exactly when the pattern does not match. |
| LogAnalysis.FormattedLineMatches | log_analyzer.py:8-23 | A line written as `<word> <date> - <level>: <message>` matches, with the level upper-cased and the message unchanged, provided the message does not start with whitespace and holds no newline. |
| LogAnalysis.MissingDashNoMatch | log_analyzer.py:8 | The same line without the dash between date and level does not match at all. |
| LogAnalysis.ErrorLineCounted | log_analyzer.py:8-23 | "app 2024-01-01 12:00:00 - error: disk full" matches as level ERROR with message "disk full". |
| LogAnalysis.DashlessLineIgnored | log_analyzer.py:8 | "app 2024-01-01 12:00:00 error: disk full" does not match. |
| LogAnalysis.Upper | log_analyzer.py:22 | It upper-cases every lower-case letter, keeps every other character, and preserves the length; no lower-case letter is left. |
| LogAnalysis.LevelCaseFolded | log_analyzer.py:22 | "error", "Error" and "ERROR" all fold to the level ERROR, so they fall into one bucket. |
| LogAnalysis.Parse | log_analyzer.py:19-23 | There is at most one entry per line, since only matching lines contribute. |
| LogAnalysis.MessagesAtCount | log_analyzer.py:25-32 | As many messages are collected at a level as there are entries at that level. |
| LogAnalysis.MostCommon | log_analyzer.py:39-41 | It returns min(n, number of distinct messages) pairs with distinct messages, counts non-increasing, and each count the message's number of occurrences. Every message left out occurs no more often than any message listed. |
| LogAnalysis.Analyze | log_analyzer.py:11-50 | The loop over the lines collects exactly the levels of the matching lines, and the ERROR, WARNING and INFO messages of the matching lines at those levels. The result holds the level tally, the number of lines (matching or not) as total_logs, the three top-5 lists and the analysis time. |
| LogAnalysis.CountsAgree | log_analyzer.py:34-46 | The level counts add up to at most total_logs. When a level is a key, its count equals the number of messages collected at it; when it is not a key, no message is collected at it. |
| Counting.TallySum | log_analyzer.py:34 | The counts of a Counter add up to the length of the counted list. |

## Left out

- Web plumbing: routing, JSON bodies, the error handler, templates, the cookie session that
  login fills in, `app.run`, and the `/analyze-logs`, `/validate-session`, `/summary` and
  `/api/metrics` handlers beyond what is listed above. These are I/O glue around the
  modelled core.
- The teardown handler (app.py:196-198) closes the alert log whenever an application context
  ends. The request lifecycle is not modelled: `CloseConnection` is an operation of its own, and
  `CollectOnce` states what a step does on a closed log.
- Threading: the lock, the stop event, the daemon thread and its 5 s and 10 s sleeps. One loop
  iteration is modelled as a sequential step. A failed store ends that step, as the exception
  in the source does, and the loop would carry on with the next reading.
- metrics.py is not part of this model: readings are parameters.
- bcrypt, `secrets.token_hex` and `datetime.now()`. The hash is modelled as
  `Bcrypt(salt, password)`. Its one-wayness and bcrypt's 72-byte truncation are not modelled.
  The salt, the token and the time are parameters.
- Auth.AuthManager.LoginUser: does not require the token to be fresh; a token already in the
  table is overwritten, as the dictionary assignment would do.
- The SQLite engine, the connection setup, table creation (`init_db`) and rows already in the
  database file: the table starts empty.
- AlertLog.SelectRecent: the order among rows with equal timestamps is not stated, and SQLite
  does not promise one either. Timestamps are integers: ISO text ordering, and the mix of `datetime`
  values and their text form, are not modelled.
- Alerts.AlertManager.CheckThresholds: the alert text is the reading wrapped in
  `HighCpuUsage`/`HighMemoryUsage`; the `{:.2f}` formatting is not modelled.
- Monitor.Monitor.UpdateThresholds: threshold values are reals. JSON `true` and `false` pass
  the range check of alerts.py:39 and alerts.py:46, since Python compares them as 1 and 0, and
  become the threshold as they are. Other non-numbers make the comparison raise `TypeError`,
  which the handler answers with a 500. Neither case is modelled.
- The summary averages and `round`, and floating-point rounding in the readings and the
  comparisons. Readings and thresholds are exact reals.
- LogAnalysis.Match: `\w`, `\d` and `upper()` are modelled on ASCII. Python's Unicode word
  characters, digits and case mappings are not modelled. `\s` is Python's `str.isspace` set.
- LogAnalysis.MostCommon: the order among messages with equal counts (insertion order in
  `Counter.most_common`) is not stated; the contract fixes only the counts' order.
- Ranking.SortDesc: whether the sort is stable is not stated.
- The `print` logging of the collection loop (app.py:56 and app.py:60) is output only.
- LogAnalysis.Analyze: the analysis time is the integer `now`, not an ISO string. Reading and
  decoding the uploaded file is not modelled.
- The creation of the default `admin` account at start-up (app.py:202-206).
