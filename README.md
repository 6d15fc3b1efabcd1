# Concurrent-request dashboard: a Dafny model

This project models the core of a read-only telemetry dashboard for Oracle
E-Business Suite concurrent requests, and proves properties of it.

- **The SQL** (`backend/queries.js`) becomes pure functions over a sequence of
  `Requests.Request` values. Each request has:
  - a phase code and a status code;
  - a program name, absent when the program view `fnd_concurrent_programs_vl`
    has no row for the request's program. The inner JOIN with that view drops
    such requests from the summary, long-running and terminated statements;
    the event-bubbles statement has no JOIN and keeps them.
  - a requested start, plus an actual start and an actual completion that may be NULL.

  All times are in integer seconds, and `SYSDATE` is the parameter `now`. The five
  statements are modelled:
  - the per-program summary (`Summary`);
  - the hourly trend with its line and bar aggregates (`Trend`);
  - the long-running, terminated and error-event listings (`Listings`).
- **The connection provider** (`backend/db.js`) is the class `Db.Provider`. It
  holds the module-level `tunnelReady` flag, setup counters and the connections
  handed out. `Db.Connection` records what was executed on it and how often it
  was closed. The SSH tunnel, the driver connect and the database's answer are
  parameters, each of which may fail.
- **The Express routes** (`backend/server.js`) are handler methods of `Server`.
  Each returns the status and body it sends. They also define:
  - the `Number(hours) || 8` normalisation;
  - the validation of `/api/run-query`.

  JavaScript's `Number()` conversion, truthiness and `trim()` are modelled in `Js`.
- **The chart label helpers** (`ChartWrappers.tsx`) read a chart group as a
  UTC instant and label it in IST as "HH:MM". They are in `ChartLabels`, together
  with `escapeHtml`. Times there are JavaScript time values in milliseconds. The
  clock is the parameter `now`, and the engine's Date string parser is the
  parameter `dateParse`.
- **The dashboard's data shaping** (`Dashboard.tsx`) is in `Dashboard`: the KPI
  totals, chart series and keyed table rows.
- **The hash router** (`src/components/content/index.tsx`) is in `Routing`.

Points where the model follows the code rather than its design description:

- The tunnel promise rejects in two ways only:
  - the executor throws synchronously, e.g. reading the key file at
    `backend/db.js:88` or the bastion's `connect` call;
  - the bastion's `forwardOut` reports an error.

  A bastion or target that never becomes ready leaves the promise unsettled,
  so the request never gets a reply, although a reader might expect every
  tunnel failure to answer 500.
- `/api/run-query` refuses whitespace-only queries as well as empty ones. It
  sends no reply at all when `query` is a truthy non-string, because `trim`
  throws outside the `try`. This assumes Express 4, which does not catch a
  rejected async handler; Express 5 would answer 500 instead.
- The trend's `completed_error`/`completed_terminated` bars count completions
  in the hour, whatever the requested start. So they can exceed the hour's
  `scheduled` count: `Trend.BarCountsMayExceedScheduled` shows this.
- The trend's `hour_start`/`hour_end` columns are `TO_CHAR(…,'HH24')`: the hour
  of the day only. Rows are still sorted on the full bucket start. So the
  values wrap from 23 to 0 across midnight (`Trend.MidnightWrap`), and with
  more than 24 buckets the same value appears twice (`Trend.AscendingHoursRepeat`).

## Model

| member | source | states |
|---|---|---|
| Requests.TruncHour | backend/queries.js:67 | `TRUNC(t,'HH24')` is the hour-aligned start of the hour containing t |
| Requests.HourOfDay | backend/queries.js:160 | `TO_CHAR(t,'HH24')` is an hour of the day below 24 |
| Requests.HourOfDayParts | backend/queries.js:160 | the hour of the day and the time within the hour recompose the time of day |
| Requests.HourOfDayNext | backend/queries.js:160-161 | an hour later the hour of the day is one more, 0 after 23 |
| Requests.HourOfDayPeriodic | backend/queries.js:160 | a day later the hour of the day is the same |
| Trend.HoursShape | backend/queries.js:65-71 | CONNECT BY yields `hours` buckets, and exactly one when hours < 1, each one hour long and hour-aligned, the first holding now, each LEVEL ending where the previous starts, pairwise disjoint |
| Trend.AtMostOneBucket | backend/queries.js:72-78 | the join on requested start puts a request in at most one bucket |
| Trend.AscendingHoursAreHours | backend/queries.js:65-71 | the oldest-first order lists exactly the generated buckets, strictly increasing |
| Trend.FreshIffCompletedLate | backend/queries.js:83-101 | a row gets a `_1hr` label iff phase C with NVL(completion, requested start) at or after hour_end; phase C otherwise gets a completed outcome |
| Trend.CompletedWithoutDateNeverFresh | backend/queries.js:86 | a phase-C row with NULL completion never gets a `_1hr` label (NVL falls back to a requested start before hour_end) |
| Trend.UnrecognisedStatusDefaults | backend/queries.js:83-109 | unknown status codes fall to the ELSE branches: completed_error, error_1hr, or completed_ok for the completion-date fallback |
| Trend.CompletionDateWins | backend/queries.js:102-109 | a completion before hour_end makes any row a completed outcome, ahead of running, inactive and pending |
| Trend.RunningIff | backend/queries.js:110-113 | `running` iff phase R, started inside the hour, and no earlier completion |
| Trend.InactiveIff | backend/queries.js:114-115 | `inactive` iff phase I, or phase P with status I, and no earlier completion |
| Trend.PendingIff | backend/queries.js:116-117 | `pending` iff phase P, status not I, requested start not after now, and no earlier completion |
| Trend.UnlabelledIff | backend/queries.js:83-118 | exactly the rows that no WHEN matches get the NULL bucket |
| Trend.LabelCountsPartition | backend/queries.js:121-137 | the twelve label counts of an hour add up to its number of rows |
| Trend.LineCountsWithinScheduled | backend/queries.js:121-137 | the eleven line counts plus the unlabelled rows equal COUNT(*), so they never exceed `scheduled` |
| Trend.GroupedBucketsExact | backend/queries.js:137 | GROUP BY yields a group for a bucket iff some request joined it |
| Trend.GroupedBucketsOrdered | backend/queries.js:178 | grouping keeps the buckets' ascending order |
| Trend.LookupBarFinds | backend/queries.js:174-177 | the left join finds the bar row of a bucket iff the bucket is generated and some phase-C completion falls in it, with that bucket's counts |
| Trend.SelectRows | backend/queries.js:159-178 | one output row per grouped bucket |
| Trend.TrendRowAt | backend/queries.js:159-178 | row i is the `agg_lines` row of the i-th grouped bucket, joined to the bars |
| Trend.TrendRowBucket | backend/queries.js:159-162 | row i shows the HH24 hour of the day of its bucket's start and end, and the bucket's COUNT(*) |
| Trend.TrendRowHoursStep | backend/queries.js:160-161 | in every row hour_end is hour_start + 1 on the 24-hour clock, 0 after 23 |
| Trend.TrendRowPending | backend/queries.js:168 | the pending column counts the pending rows joined to the row's bucket |
| Trend.AscendingHoursStep | backend/queries.js:65-70 | oldest first, each bucket starts one hour of the day after the previous one, 0 after 23 |
| Trend.AscendingHoursRepeat | backend/queries.js:65-70 | buckets 24 apart are different hours with the same HH24 value |
| Trend.MidnightWrap | backend/queries.js:160 | at 00:30 with hours = 2 the buckets show 23 and then 0 |
| Trend.TrendRowsRepeatHour | backend/queries.js:160 | two rows whose buckets lie a day apart show the same hour_start |
| Trend.TrendRowsAscending | backend/queries.js:178 | `ORDER BY l.hour_start` sorts on the full bucket start, strictly ascending, and row i shows that bucket's HH24 start |
| Trend.TrendRowsFromHours | backend/queries.js:121-137 | every output row is a generated bucket that some request's requested start falls in, showing its hour of the day, and `scheduled` is that positive count |
| Trend.TrendRowsCoverHours | backend/queries.js:121-137 | every generated bucket that some request's requested start falls in has an output row showing its hour of the day |
| Trend.TrendRowLinesWithinScheduled | backend/queries.js:159-171 | in each output row the nine line columns add up to at most `scheduled` |
| Trend.TrendBarsByCompletion | backend/queries.js:139-177 | the bar columns count phase-C rows with status E, or with status T/X/D, completing in the hour; NVL turns a missing bar row into 0 |
| Trend.BarCountsMayExceedScheduled | backend/queries.js:139-173 | a concrete input where completed_error (2) exceeds scheduled (1) |
| Summary.ProgramNames | backend/queries.js:43 | one group key per program that occurs, with no duplicates |
| Summary.CompletedBreakdown | backend/queries.js:11-30 | the four completed_* columns sum to at most completed_total, and to exactly it when every counted status is one of the seven codes |
| Summary.ColumnWindows | backend/queries.js:11-39 | per-column window bounds: completed_* include win_start, running and scheduled exclude it, scheduled excludes the future, pending_standby ignores the window, a NULL actual start never counts |
| Summary.PendingIgnoresWindow | backend/queries.js:33-34 | pending_standby is the same whatever `hours` is |
| Summary.ScheduledAloneDropped | backend/queries.js:56-59 | a program with only scheduled requests is filtered out by the WHERE |
| Summary.SummaryOrderIsTotalPreorder | backend/queries.js:60 | `ORDER BY completed_total DESC, program_name` is a total preorder |
| Summary.GroupsMembers | backend/queries.js:40-43 | the groups are exactly the aggregates of the programs that occur |
| Summary.GroupsDistinct | backend/queries.js:43 | no group occurs twice |
| Summary.OrderedGroupsMembers | backend/queries.js:45-60 | a result row is exactly the whole aggregate of a program that occurs and passes the WHERE |
| Summary.SummaryOrdered | backend/queries.js:60 | rows are in completed_total descending order, and strictly ascending program name within a tie |
| Listings.LongRunningSpec | backend/queries.js:182-196 | exactly the phase-R requests started at least 8 hours ago (boundary included), as a permutation of that filter, each running at least 8 hours, longest first |
| Listings.TerminatedSpec | backend/queries.js:199-214 | exactly the phase-C requests with status T/X/D completing at or after now - hours, as a permutation of that filter, latest completion first |
| Listings.ClockTimeOf | backend/queries.js:219 | `TO_CHAR(…,'HH24:MI')` gives an hour below 24 and a minute below 60 that recompose the time of day |
| Listings.ErrorEventsSpec | backend/queries.js:217-226 | exactly the phase-C status-E completions since the start of the hour `hours - 1` before the current one, as a permutation of that filter, earliest first, each carrying status E and its clock time |
| Listings.UnnamedProgramDropped | backend/queries.js:182-226 | a request without a program row never appears in long-running, terminated or any summary column, while an errored completion in the window still appears among the error events |
| Listings.EventsFromOldestBucket | backend/queries.js:222 | for hours >= 1 the events start where the trend's oldest bucket starts, and its newest bucket holds now |
| Db.SettingsConnectString | backend/db.js:101-104 | the connect string reads back as host 127.0.0.1, the LOCAL_PORT text and the DB_SERVICE_NAME text, "undefined" for an unset variable |
| Db.ConnectStringRoundTrip | backend/db.js:101-104 | the connect string names exactly the descriptor's host, port and service name |
| Db.ReadyIsStable | backend/db.js:96-99 | once `tunnelReady` is set it stays set and the tunnel is not consulted again |
| Db.FirstResolved | backend/db.js:96-99 | the first tunnel attempt that resolves |
| Db.SetupAtMostOnce | backend/db.js:96-99 | from a fresh process, every call up to the first resolving tunnel runs the setup, no later call does, and setup succeeds at most once |
| Db.NoSetupWhenReady | backend/db.js:96-99 | with the flag set, no call runs the setup |
| Db.Connection.constructor | backend/db.js:109-113 | a new connection carries the descriptor and the user and password it was given, has executed nothing and is open |
| Db.Connection.Execute | backend/db.js:122 | executing returns the database's answer to that statement and binds, and records the statement |
| Db.Connection.Close | backend/db.js:125 | closing counts one close and changes nothing else |
| Db.Connection.ExecuteThenClose | backend/db.js:121-126 | the statement is executed once and the connection closed once, whatever the answer |
| Db.Provider.constructor | backend/db.js:7 | the module loads with `tunnelReady` false and no connections |
| Db.Provider.ConnectToDb | backend/db.js:93-117 | runs the setup only when not ready, sets the flag only when the tunnel resolves, propagates a rejection or hang, and otherwise hands out one new connection to the tunnel descriptor, with `DB_USER` and `DB_PASSWORD` passed through as read (an unset one stays unset) |
| Db.Provider.RunQuery | backend/db.js:119-127 | acquires through `connectToDb` exactly once (flag, setup counters and connection list change as that one call does); the result is the rows or the error of the one statement executed; the acquired connection executed exactly that statement and was closed exactly once, whether execute failed or not; earlier connections are untouched |
| Js.Trim | backend/server.js:111 | `trim()` strips whitespace runs at both ends and leaves a result that neither starts nor ends with whitespace |
| Js.TrimEmptyIff | backend/server.js:111 | a string trims to "" iff it is all whitespace |
| Js.BlankIsZero | backend/server.js:65 | `Number()` of an all-whitespace string is 0 |
| Js.DigitStringToNumber | backend/server.js:65 | `Number()` of a digit string is its decimal value |
| Js.RadixNotDecimal | backend/server.js:65 | text with a radix prefix such as `0x` is never read as a decimal literal |
| Js.NatRoundTrip | backend/server.js:65 | `Number(String(n))` is n for a whole number |
| Js.NatToStringValue | src/components/content/dashboard/ChartWrappers.tsx:19 | `String(n)` reads back as n |
| Js.Pad2 | src/components/content/dashboard/ChartWrappers.tsx:18-20 | `padStart(2, "0")` left-pads with zeros to length 2 and leaves longer strings unchanged |
| Server.NormaliseHours | backend/server.js:65 | `Number(hours) \|\| 8` is never NaN or 0: it is the converted value, or 8 |
| Server.HoursAbsentOrNaN | backend/server.js:65 | a missing or non-numeric `hours` gives 8 |
| Server.HoursBlank | backend/server.js:65 | an empty or whitespace-only `hours` gives 8 |
| Server.HoursPassThrough | backend/server.js:65 | any other number passes through unchanged, with no bounds check |
| Server.HoursOfNatural | backend/server.js:65 | a decimal whole number passes as itself, "0" becomes 8 |
| Server.HoursNegative | backend/server.js:65 | "-3" is passed on as -3 |
| Server.HoursFractional | backend/server.js:65 | "1.5" is passed on as 1.5 |
| Server.ValidateQueryIff | backend/server.js:111-113 | the query is refused with 400 iff it is falsy or all whitespace; an accepted query is sent untrimmed |
| Server.TestConnection | backend/server.js:33-43 | success closes the acquired connection, which executed nothing, and answers 200; any failure answers 500 with the fixed message |
| Server.TestDbName | backend/server.js:46-54 | acquires one connection through the provider and runs the database-name statement on it with no binds, answers `{success, databaseName: rows}` or 500 "Query failed" |
| Server.WindowedRoute | backend/server.js:64-105 | summary, trend and terminated acquire one connection through the provider, bind exactly the normalised hours, and answer the rows as a bare 200 array, an error as 500 "DB error", a hang with no reply |
| Server.LongRunningRoute | backend/server.js:87-94 | long-running acquires one connection through the provider and sends no binds at all |
| Server.RunQueryRoute | backend/server.js:108-122 | a refused query answers 400 without touching the provider; a non-string one gets no reply; an accepted one acquires one connection, runs as written with no binds and answers `{success: true, rows}` or 500 with the database's message |
| ChartLabels.JsRem24 | src/components/content/dashboard/ChartWrappers.tsx:46 | JavaScript `% 24` differs from the dividend by a multiple of 24, lies strictly between -24 and 24, and has the dividend's sign |
| ChartLabels.MatchHourMinute | src/components/content/dashboard/ChartWrappers.tsx:55 | a match splits the text into 1-2 hour digits, ":" and 2 minute digits |
| ChartLabels.MatchHourMinuteComplete | src/components/content/dashboard/ChartWrappers.tsx:55 | every text of 1-2 digits, ":" and 2 digits matches, with those digits as the parts |
| ChartLabels.Pad2NatValue | src/components/content/dashboard/ChartWrappers.tsx:18-20 | a padded number below 100 is two digits that read back as the number |
| ChartLabels.IstLabelMinutes | src/components/content/dashboard/ChartWrappers.tsx:99-109 | the label is five characters "HH:MM" naming the UTC minute of the day plus 330, wrapped past midnight |
| ChartLabels.AtUtcTimeMinute | src/components/content/dashboard/ChartWrappers.tsx:47 | `Date.UTC` on today's date lands on minute hour*60+minute of the day, rolling over for out-of-range hours |
| ChartLabels.AtUtcTimeValid | src/components/content/dashboard/ChartWrappers.tsx:60 | within a day of now, the constructed time and its IST shift are valid dates |
| ChartLabels.ClockLabel | src/components/content/dashboard/ChartWrappers.tsx:99-109 | a time built on today's date is labelled with its minute of the day plus 5:30 |
| ChartLabels.HourMinuteGroupLabel | src/components/content/dashboard/ChartWrappers.tsx:55-61 | "H:MM"/"HH:MM" is hour hh mod 24 and minute min(mm, 59) today, labelled 5:30 later |
| ChartLabels.TwentyHundredIsOneThirty | src/components/content/dashboard/ChartWrappers.tsx:99-109 | "20:00" is labelled "01:30" |
| ChartLabels.NinetyMinutesLabel | src/components/content/dashboard/ChartWrappers.tsx:108 | the only label for 90 minutes past midnight is "01:30" |
| ChartLabels.NumberGroupHour | src/components/content/dashboard/ChartWrappers.tsx:40-48 | a finite number parses as the Date at hour floor(n) % 24, between -24 and 24, minute 0 today |
| ChartLabels.NumberGroupLabel | src/components/content/dashboard/ChartWrappers.tsx:40-48 | a finite number is hour floor(n) % 24 (JavaScript remainder) at minute 0 today |
| ChartLabels.HourLabel | src/components/content/dashboard/ChartWrappers.tsx:99-109 | a whole hour h built on today's date is labelled "HH:MM" at minute of the day (h*60 + 330) mod 1440 |
| ChartLabels.DigitGroupParse | src/components/content/dashboard/ChartWrappers.tsx:82-86 | a digit-only string is the Date at hour parseInt(s) % 24, minute 0, today |
| ChartLabels.IsoGroupAsUtc | src/components/content/dashboard/ChartWrappers.tsx:64-79 | an ISO date-time without a zone is parsed with "Z" appended, one with a zone as written |
| ChartLabels.ConvertGroupsElementwise | src/components/content/dashboard/ChartWrappers.tsx:111-127 | a non-array gives []; otherwise one label per group, label i depending only on group i, and conversion distributes over concatenation |
| ChartLabels.NullGroupsFallBack | src/components/content/dashboard/ChartWrappers.tsx:120-122 | null, undefined and NaN are labelled by their String() text; a missing date is labelled "" |
| ChartLabels.EscapeHtml | src/components/content/dashboard/ChartWrappers.tsx:158-169 | the escaped text contains no special character other than the entities' "&" |
| ChartLabels.EntityOf | src/components/content/dashboard/ChartWrappers.tsx:160-167 | each replacement is recognised as the entity of its character |
| ChartLabels.UnescapeOne | src/components/content/dashboard/ChartWrappers.tsx:159-168 | decoding one escaped character gives it back |
| ChartLabels.EscapeRoundTrip | src/components/content/dashboard/ChartWrappers.tsx:158-169 | decoding the escaped text gives the original: escaping loses nothing |
| ChartLabels.EscapePlainText | src/components/content/dashboard/ChartWrappers.tsx:158-169 | text without special characters is unchanged |
| Dashboard.CellValue | src/components/content/dashboard/Dashboard.tsx:39 | a cell whose number is neither NaN nor 0 counts as that number; a missing, null, non-numeric or zero cell counts as 0; the value is never NaN |
| Dashboard.Totals | src/components/content/dashboard/Dashboard.tsx:36-41 | the totals have exactly the seven column keys, each the column's reduce-total |
| Dashboard.ColumnTotalAppend | src/components/content/dashboard/Dashboard.tsx:39 | totals add up over concatenated row lists |
| Dashboard.ColumnTotalSingle | src/components/content/dashboard/Dashboard.tsx:39 | one row totals to its cell; a missing, null or non-numeric cell counts 0 |
| Dashboard.ColumnTotalFinite | src/components/content/dashboard/Dashboard.tsx:39 | with finite cells the total is finite, never NaN |
| Dashboard.SeriesNames | src/components/content/dashboard/Dashboard.tsx:45-88 | nine status series with the mapped legend names in key order, and four completion series |
| Dashboard.SeriesAligned | src/components/content/dashboard/Dashboard.tsx:43-88 | hour groups and every status and completion series have one entry per trend row, entry i being row i's cell for that series' key |
| Dashboard.ItemAgreesWithCell | src/components/content/dashboard/Dashboard.tsx:72 | a series item is NaN iff the cell is truthy but not numeric; otherwise it equals the totals' reading of the cell |
| Dashboard.WithKeyFields | src/components/content/dashboard/Dashboard.tsx:92-96 | a keyed row has `id` (the position from 1, unless the item has its own) and `pending` = `pending_standby`, and copies every other field |
| Dashboard.SummaryKeysDistinct | src/components/content/dashboard/Dashboard.tsx:92-101 | rows without their own `id` get pairwise distinct ids |
| Routing.IndexOf | src/components/content/index.tsx:29 | the first occurrence of the pattern, if any |
| Routing.GetRouteFromHash | src/components/content/index.tsx:28-34 | the route is always one of dashboard, requests, analysis |
| Routing.HashRoute | src/components/content/index.tsx:29-33 | "#/x" shows x when x is a page, else the dashboard |
| Routing.EmptyHashRoute | src/components/content/index.tsx:29 | an empty hash shows the dashboard |
| Routing.PageHashes | src/components/content/index.tsx:29-31 | each page's own hash "#/page" reaches that page |
| Routing.OtherPathShowsDashboard | src/components/content/index.tsx:29-33 | "#/x" for any x that is not exactly a page name shows the dashboard |
| Routing.NearMissesShowDashboard | src/components/content/index.tsx:29-33 | "#/requests/1", "#/Requests" and "#/#/requests" show the dashboard: only the first "#/" is removed |

## Left out

- SSH and socket plumbing (ssh2 clients, `net.createServer`, piping, the key file's contents): network I/O. The tunnel is the abstract outcome `Db.TunnelRun`.
- Process crashes, which Node answers by ending the process: an `error` event from either ssh2 client has no listener; a throw inside the `forwardOut` callback (reading the key file for the target at `backend/db.js:81`) is uncaught; and under Express 4 on Node 15 or later, the handler promise of `/api/run-query` that rejects when `query.trim` throws (`backend/server.js:111`) is unhandled. The model shows the first two as an unsettled tunnel and the third as no reply; the process exit itself is not modelled.
- Concurrent interleaving of requests: two requests can both see `tunnelReady` false while a setup is in flight. The model runs handlers one at a time.
- `connection.close()` failing, and the driver's own connection pooling: not visible in the source.
- Logging (`console.log`/`console.error`), `dotenv` loading and `app.listen`: I/O.
- Driver calls that never settle: `oracledb.getConnection`, `execute` and `close` are given no call timeout (`backend/db.js:109-126`). The model assumes each returns or throws within the driver's own limits, so a connect outcome (`Db.Outcome`) and an `Execute` answer always arrive. `Db.Provider.RunQuery`'s single close is promised only for calls that settle.
- `req.query.hours` given as an array (repeated parameter): the model takes it as absent or one string.
- Fractional `hours` in the SQL: the routes bind `:hours` as a `Js.Number`, but the SQL model (`Summary`, `Trend`, `Listings`) takes a whole number of hours.
- Sub-second precision: dates are integer seconds in the SQL model and integer milliseconds in the JavaScript model.
- Summary.SummaryOrdered: the tie-break on `program_name` compares names code point by code point, as a binary collation (`NLS_SORT=BINARY`) does. Under a linguistic `NLS_SORT` rows with equal totals could come out in another order.
- `TO_CHAR(…,'HH24')` and `TO_CHAR(…,'HH24:MI')` are modelled as numbers, not their zero-padded text.
- Floating point: JavaScript numbers are exact reals plus NaN and ±Infinity. Rounding, -0 and overflow to Infinity are not modelled. `Number()` covers decimal, exponent, radix-prefixed and Infinity literals.
- The JavaScript Date string parser used in the ISO and last-resort branches of `parseGroupAsUTCDate`: engine-defined. It is the parameter `dateParse`.
- The clock moving during one `convertGroupsToISTLabels` call: the source reads `new Date()` once per group, the model uses one `now` for all groups.
- ChartLabels.HourMinuteGroupLabel, ChartLabels.NumberGroupLabel, ChartLabels.HourLabel, ChartLabels.ClockLabel, ChartLabels.TwentyHundredIsOneThirty, ChartLabels.TwentyHundredLabel, ChartLabels.AtUtcTimeValid: proved only for a clock at least two days inside the valid time range (`ClockInRange`).
- Composite JavaScript values (objects, arrays) as chart groups or table cells: the model's values are primitives and Dates.
- Chart components, tooltips, DOM work and timers in `ChartWrappers.tsx`; the presentational components; the mock and fetch layers; `useState`/`useEffect` and `hashchange` subscriptions: UI.
- `backend/app.py`: an alternative server, not part of this model.
- The statement text of `/api/run-query`: arbitrary SQL has no semantics beyond its validation.
