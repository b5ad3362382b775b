# Sales-agent dashboard: a Dafny model of its data layer, API and formatting helpers

The system is a dashboard for the companies that run an AI sales agent. Its
backend is an Express server backed by SQLite. A user logs in with e-mail and
password and receives a JWT. Every dashboard route then checks that token and
reads the user's own rows:
- headline metrics (conversations, sales, revenue, objections, contacts);
- top products, objections and contact reasons;
- day-by-day series of sales and conversations;
- a CSV export of any of those.

The frontend formats dates, times and initials for display.

The model covers three parts of the system:
- **The database layer.** It is a set of tables of rows (`Store.Tables`) and
  a `Store.Database` class whose methods update the `users` and `sessions`
  tables in place. Each SQL query becomes a function over the tables:
  `Metrics`, `Rankings` and `Series`. `Calendar` gives SQLite's `DATE(...)`.
- **The HTTP handlers.** They are in `Api`:
  - the bearer-token middleware, as a method on a `Request` object;
  - the login and create-user ladders, as methods on the database;
  - the `parseInt(...) || 10` limit and the `|| '30 days'` period defaults;
  - the export route and its CSV rendering (`Export`).
- **The frontend helpers.** They are in `Utils`: `getInitials` and the date
  and time formatters, taking the calendar components as integers.

Modelling choices:
- Money is an integer number of cents.
- Time is an integer number of seconds since the Unix epoch, in UTC. A
  timestamp's calendar day is `Day(t) = t / 86400`.
- A success rate is an integer number of hundredths of a percent.
- JWT signing and verification, bcrypt and Joi's e-mail rule are function
  parameters.

Two faults in the dashboard metrics query are modelled as written, each
beside a corrected definition; see "## Findings". The metrics route returns
the query as written, and lemmas relate it to the corrected definitions.

## Model

| member | source | states |
|---|---|---|
| Text.NatToString | frontend/src/lib/utils.ts:24 | a number's decimal text has only digits, reads back as the number, has no leading zero, and has one digit exactly below 10 and at most two exactly below 100 |
| Text.IntToString | frontend/src/lib/utils.ts:26-28 | an integer's text is its natural text, with a leading "-" exactly when it is negative |
| Text.PadStart | frontend/src/lib/utils.ts:24 | `padStart(w, '0')` ends with the original text, is `max(len, w)` long, and is '0' in every added position |
| Text.TwoDigits | frontend/src/lib/utils.ts:24-25 | a number below 100 padded to width two is two digits long and reads back as the number |
| Text.Split | frontend/src/lib/utils.ts:46 | `split(sep)` returns at least one piece and no piece contains the separator |
| Text.JoinSplit | frontend/src/lib/utils.ts:46-48 | joining the pieces of a split with the same separator gives back the original text |
| Text.SplitJoin | backend/api.js:351-357 | splitting a join gives back the pieces when no piece contains the separator |
| Text.SplitAfterPiece | backend/api.js:85 | `(a + sep + b).split(sep)` is `a` followed by the pieces of `b` when `a` has no separator |
| Calendar.CivilDate | backend/db.js:259 | every day number maps to a valid proleptic Gregorian date (month 1..12, day within the month) |
| Calendar.MonthsMakeYear | backend/db.js:259 | the month lengths of a year add up to that year's 365 or 366 days |
| Calendar.EpochDate | backend/db.js:259 | day 0 is 1970-01-01 |
| Calendar.FirstOfMarch | backend/db.js:259 | day 59 is 1970-03-01, so February 1970 has 28 days |
| Calendar.IsoDate | backend/db.js:259 | `DATE(...)` text is ten characters of digits and dashes |
| Calendar.IsoDateFields | backend/db.js:259 | the `DATE(...)` text has dashes at positions 4 and 7 and its fields read back as year, month and day |
| Seqs.Where | backend/db.js:217 | a `WHERE` keeps exactly the rows that satisfy the condition and never adds or duplicates rows |
| Seqs.Padded | backend/db.js:199-202 | a `LEFT JOIN` side is the matching rows, or one NULL row when none match |
| Seqs.SortDesc | backend/db.js:219 | `ORDER BY ... DESC` is a permutation of its input in descending rank |
| Seqs.Top | backend/db.js:219-220 | `ORDER BY ... LIMIT n` is descending, is a sub-multiset of the rows, has `min(n, rows)` rows, and keeps every row when the limit is negative or large enough |
| Seqs.TopDominates | backend/db.js:219-220 | every row the `LIMIT` drops ranks at or below every row it keeps |
| Seqs.Limit | backend/db.js:220 | `LIMIT n` is a prefix of length `min(n, rows)`, and a negative limit keeps every row |
| Seqs.DistinctKeys | backend/db.js:234 | `GROUP BY` yields each key of the rows exactly once and no other key |
| Seqs.AscendingKeys | backend/db.js:264-265 | `GROUP BY DATE(...) ORDER BY date ASC` yields each day of the rows once, strictly ascending |
| Seqs.GroupSizesSum | backend/db.js:234 | the group sizes of a `GROUP BY` add up to the number of grouped rows |
| Store.DayBounds | backend/db.js:185 | a timestamp lies within its calendar day |
| Store.OwnedBy | backend/db.js:217 | restricting the tables to one user keeps exactly the user rows with that id and, in every other table, exactly the rows tagged with that id |
| Store.UserByEmail | backend/db.js:164-167 | the lookup finds an active user with that e-mail, and finds none exactly when no user is both active and has that e-mail |
| Store.UserById | backend/db.js:169-172 | the lookup finds an active user with that id, and finds none exactly when no user is both active and has that id |
| Store.StampLogin | backend/db.js:174-177 | setting `last_login` changes that field of the rows with the id and nothing else |
| Store.StampLoginKeepsLookups | backend/db.js:174-177 | after a login stamp, the e-mail and the id lookups find a user exactly when they did before, and then the same row with at most `last_login` changed |
| Store.StampedSelection | backend/db.js:174-177 | a selection that ignores `last_login` picks as many rows after a stamp as before, each the same row with at most `last_login` changed |
| Store.Unexpired | backend/db.js:309-312 | the sessions left after the sweep are exactly those that expire after now |
| Store.UnexpiredIdempotent | backend/db.js:309-312 | sweeping twice at the same instant is the same as sweeping once |
| Store.UnexpiredLaterSweep | backend/db.js:309-312 | a sweep followed by a later sweep equals the later sweep alone |
| Store.WithoutSession | backend/db.js:304-307 | deleting a session keeps exactly the sessions with other ids |
| Store.GetSession | backend/db.js:294-302 | a session is returned only if it has the id, has not expired and joins a user, whose e-mail it carries; nothing is returned exactly when every such session has expired |
| Store.ExpiredSessionNotFound | backend/db.js:294-302 | an expired session is never returned |
| Store.SweptSessionNotFound | backend/db.js:299-312 | after a sweep, a session that had already expired is not returned at any later time |
| Store.Database.CreateUser | backend/db.js:155-162 | the insert fails exactly when some user, active or not, already has the e-mail (the UNIQUE column); otherwise one user is appended with the next id; no other table changes |
| Store.Database.UpdateUserLastLogin | backend/db.js:174-177 | the new users table is the old one with the login stamped |
| Store.Database.CreateSession | backend/db.js:285-292 | the insert succeeds exactly when the id is new and the owner exists (foreign keys are on), and then appends the session |
| Store.Database.DeleteSession | backend/db.js:304-307 | the new sessions table is the old one without that id |
| Store.Database.DeleteExpiredSessions | backend/db.js:309-312 | the new sessions table is the old one with expired sessions removed |
| Metrics.WindowFilter | backend/db.js:184-187 | the date filter applies only when both dates are given, and then admits exactly the days between them, inclusive |
| Metrics.MetricsBounds | backend/db.js:191-196 | completed conversations never exceed conversations, and handled objections never exceed objections |
| Metrics.CountsArePerTable | backend/db.js:191-203 | each `COUNT(DISTINCT ...)` over the join is the number of distinct ids of that table's joined rows |
| Metrics.CountsAreRowCounts | backend/db.js:191-203 | with unique ids, each count equals the number of that user's rows in the window |
| Metrics.NoUserNoMetrics | backend/db.js:198-203 | when no user has the id, every figure is 0 |
| Metrics.RevenueFanOut | backend/db.js:194-203 | the revenue sum equals the confirmed revenue multiplied by the users, conversations, objections and contacts joined |
| Metrics.RevenueWithoutFanOut | backend/db.js:194-203 | with at most one joined row in each other table, the revenue is the confirmed sales total |
| Metrics.MetricsIsolation | backend/db.js:198-203 | the metrics depend only on the user's own rows |
| Metrics.BindSlots | backend/db.js:182-206 | SQL placeholders beyond the bound parameters are bound to NULL |
| Metrics.WindowedAsWrittenIsZero | backend/db.js:180-207 | as written, a windowed request binds `u.id` to NULL and returns all zeros |
| Metrics.UnwindowedAsWrittenAgrees | backend/db.js:180-207 | without a window, the query as written equals the intended query |
| Metrics.ConfirmedRevenueIsConfirmedTotal | backend/db.js:194 | the `CASE` sum is the total of the confirmed sales |
| Metrics.IndependentMetrics | backend/db.js:191-197 | the corrected metrics keep the count bounds and are all zero for an unknown user |
| Metrics.IndependentAgreesOnCounts | backend/db.js:191-203 | the corrected metrics agree with the query on every count |
| Metrics.IndependentAgreesWithoutFanOut | backend/db.js:191-203 | the corrected metrics equal the query whenever there is no fan-out |
| Metrics.IndependentIsolation | backend/db.js:198-203 | the corrected metrics depend only on the user's own rows |
| Metrics.RevenueScenario | backend/db.js:194 | two confirmed sales (100.00 and 250.00) and one pending sale in a one-day window give revenue 35000 cents and 3 sales; the query and the corrected metrics agree on the revenue |
| Metrics.FanOutRevenue | backend/db.js:194-203 | with two conversations joined, the query reports revenue 70000 for sales worth 35000 |
| Metrics.RevenueDoubled | backend/db.js:194-203 | on the same tables, the query reports 70000 and the corrected metrics 35000 |
| Metrics.WindowedBindingLosesRows | backend/db.js:182-203 | on the same tables, the intended query counts 2 conversations and the query as written counts 0 |
| Rankings.ProductGroup | backend/db.js:212-218 | a product's row counts its confirmed sales, and its revenue is NULL exactly when it has none and otherwise is their total |
| Rankings.TopProducts | backend/db.js:209-223 | the top products are the user's product groups, sorted by count then revenue descending, `min(limit, products)` of them |
| Rankings.TopProductsListsEveryProduct | backend/db.js:215-220 | with no effective limit, every product of the user is listed, sold or not |
| Rankings.TopProductsCutoff | backend/db.js:219-220 | a product left out by the limit ranks at or below every listed product |
| Rankings.TopProductsIsolation | backend/db.js:215-217 | when the sales of a user's products are that user's own, the top products depend only on the user's rows |
| Rankings.SuccessRate | backend/db.js:231 | the success rate lies between 0 and 100.00 % and is the handled share rounded to the nearest hundredth of a percent |
| Rankings.ObjectionGroup | backend/db.js:228-231 | a group's count is the number of objections of the type, and its handled count is the handled ones among them |
| Rankings.ObjectionTable | backend/db.js:226-234 | the grouped objections have each type once and are well formed |
| Rankings.TableTypes | backend/db.js:234 | a type is listed exactly when the user has an objection of that type |
| Rankings.TopObjections | backend/db.js:225-239 | the top objections are descending by count, a sub-multiset of the groups, exactly `min(limit, groups)` long for a non-negative limit and every group for a negative one, well formed and distinct by type |
| Rankings.TopObjectionsCutoff | backend/db.js:234-236 | every objection group the limit cuts off has a count at or below that of every group it keeps |
| Rankings.TopObjectionsTypes | backend/db.js:234-236 | with no effective limit, a type is listed exactly when the user has an objection of that type |
| Rankings.ObjectionGroupsPartition | backend/db.js:229-234 | the group counts add up to the user's number of objections |
| Rankings.SuccessRateScenario | backend/db.js:231 | 7 of 10 handled gives 70.00 % |
| Rankings.PriceGroupScenario | backend/db.js:228-231 | seven handled and three missed "price" objections make the row (price, 10, 7, 70.00 %) |
| Rankings.ContactGroup | backend/db.js:244-246 | a group's count is the number of reasons in the category, and its resolved count is the resolved ones among them |
| Rankings.ContactTable | backend/db.js:243-249 | the grouped contact reasons have each category once and are well formed |
| Rankings.TopContactReasons | backend/db.js:241-254 | the top reasons are descending by count, a sub-multiset of the groups, exactly `min(limit, groups)` long for a non-negative limit and every group for a negative one, well formed and distinct by category |
| Rankings.TopContactReasonsCutoff | backend/db.js:249-251 | every contact-reason group the limit cuts off has a count at or below that of every group it keeps |
| Rankings.ContactGroupsPartition | backend/db.js:245-249 | the group counts add up to the user's number of contact reasons |
| Rankings.RankingsIsolation | backend/db.js:233-248 | the objection and contact rankings depend only on the user's rows |
| Series.SalesOverTime | backend/db.js:256-268 | the days are strictly ascending, each has at least one sale, and none is before the window start; each day's count is the number of the user's confirmed sales of the window on that day, and its revenue is their total |
| Series.SalesSeriesDays | backend/db.js:263-264 | a day is listed exactly when a confirmed sale of the user in the window falls on it |
| Series.SalesSeriesPartition | backend/db.js:259-264 | the daily counts add up to the number of sales in the window, and the daily revenues add up to their total |
| Series.SalesSeriesIsolation | backend/db.js:263 | the sales series depends only on the user's rows |
| Series.ConversationsOverTime | backend/db.js:270-282 | the days are strictly ascending and within the window, and each has at least one conversation and no more completed conversations than conversations; each day's counts are the number of the user's conversations of the window started on that day and the number of completed ones among them |
| Series.ConversationSeriesDays | backend/db.js:277-278 | a day is listed exactly when a conversation of the user in the window started on it |
| Series.ConversationSeriesPartition | backend/db.js:273-278 | the daily counts add up to the number of conversations in the window |
| Series.ConversationSeriesIsolation | backend/db.js:277 | the conversation series depends only on the user's rows |
| Export.Render | backend/api.js:354 | `${v \|\| ''}` is empty for the falsy values (NULL, 0, empty text), the text itself for other text, and digits, '-' and '.' for numbers |
| Export.DecimalText | backend/api.js:354 | a number's text has only digits, '-' and '.' |
| Export.DecimalTextReadsBack | backend/api.js:354 | a number's text starts with '-' exactly when it is negative, and is otherwise the text of its magnitude |
| Export.UnsignedReadsBack | backend/api.js:354 | a magnitude's text is the digits of its whole part, then, exactly when the fraction is not zero, a point and one or two digits that read back as the hundredths and do not end in '0' |
| Export.FractionalRateText | backend/api.js:354 | 66.67 % prints as "66.67" |
| Export.TrailingZeroText | backend/api.js:354 | 1500.50 prints as "1500.5", as JavaScript prints numbers |
| Export.Lookup | backend/api.js:354 | `row[header]` is the row's value for that key, or NULL when the row has no such key |
| Export.Fields | backend/api.js:354 | one quoted field per header, in header order |
| Export.Lines | backend/api.js:354 | one CSV line per data row, in order |
| Export.LineFields | backend/api.js:354 | when no value contains a comma, a line splits back into one field per header, each the quoted rendering, and `""` for a falsy value |
| Export.QuoteNotDoubled | backend/api.js:354 | a double quote inside a value is not escaped: `12" pizza` becomes `"12" pizza"` |
| Export.CsvLines | backend/api.js:351-357 | when no value contains a newline, the CSV splits back into the header line followed by one line per row |
| Export.SalesCsvShape | backend/api.js:326-357 | the sales CSV starts with `date,sales_count,total_revenue` and has one line per day plus the header |
| Export.ConversationCsvShape | backend/api.js:330-357 | the conversations CSV starts with `date,conversation_count,completed_count` and has one line per day plus the header |
| Export.UnsoldProductFields | backend/api.js:354 | a product with no sales exports as its quoted name followed by two empty quoted fields |
| Export.DateValue | backend/db.js:259 | a day renders as a ten-character date, or NULL outside years 0 to 9999, and contains neither a comma nor a newline |
| Api.TrimStart | backend/api.js:239 | `parseInt` skips exactly the leading white space |
| Api.DigitRun | backend/api.js:239 | `parseInt` reads the longest run of digits of the radix |
| Api.ParseRun | backend/api.js:239 | `parseInt` gives NaN exactly when no digit follows the sign and prefix |
| Api.LimitParam | backend/api.js:239 | the limit is never 0: NaN and 0 give the default 10, and any other parsed value is kept |
| Api.DefaultLimit | backend/api.js:239 | a missing limit gives 10 |
| Api.DecimalLimit | backend/api.js:239 | a positive number's decimal text gives that number |
| Api.NegativeLimit | backend/api.js:239 | "-5" gives -5, which SQLite reads as no limit |
| Api.TrailingTextLimit | backend/api.js:239 | "12abc" gives 12 |
| Api.DigitsThenTextLimit | backend/api.js:239 | digits followed by a non-digit give the digits' value |
| Api.HexadecimalLimit | backend/api.js:239 | "0x10" gives 16 |
| Api.PeriodParam | backend/api.js:287 | a missing or empty period is "30 days", and any other is passed through |
| Api.PeriodRoundTrip | backend/api.js:287 | "N days" reads back as N days |
| Api.DefaultPeriod | backend/api.js:287 | the default period is a window of 30 days |
| Api.BearerToken | backend/api.js:84-85 | the token is the second space-separated piece; an absent or empty header has none, and a token is never empty and has no space |
| Api.BearerRoundTrip | backend/api.js:85 | "Scheme token" yields the token |
| Api.AuthDecision | backend/api.js:83-105 | no token gives 401 "Token de acesso requerido"; a token that fails verification gives 403; a verified token of no active user gives 401 "Usuário não encontrado"; the request proceeds exactly when the token names an active user, who is attached |
| Api.InactiveUserRejected | backend/api.js:94-97 | a valid token of a deactivated user is refused with 401 |
| Api.Request.AuthenticateToken | backend/api.js:83-105 | the middleware answers as the decision says and attaches the user only when it proceeds |
| Api.LoginDecision | backend/api.js:139-169 | an invalid body gives 400; an unknown e-mail or a wrong password gives 401 "Credenciais inválidas"; login succeeds exactly for an active user with a matching password, returning that user and a token signed for its id and e-mail |
| Api.NoAccountOracle | backend/api.js:150-159 | an unknown e-mail and a wrong password get the same reply |
| Api.Login | backend/api.js:139-198 | the reply is the login decision on the old users table, and the users are stamped with the login time exactly when it succeeds |
| Api.CreateUserRoute | backend/api.js:370-411 | an invalid body gives 400; an e-mail of an active user gives 400 "Email já está em uso"; an e-mail held only by an inactive user fails at the insert (500); the user is created exactly when the body is valid and no user, active or not, has the e-mail, and is then appended with the next id and the default settings; otherwise neither the users nor the next id change; no other table changes |
| Api.MetricsRoute | backend/api.js:220-234 | the reply is `getDashboardMetrics` as its placeholders are bound: all zeros when both dates are given, and otherwise the joined query, which depends only on the user's own rows and agrees with the corrected metrics on every count; completed never exceeds total conversations, nor handled total objections |
| Api.TopProductsRoute | backend/api.js:237-250 | the products reply is descending and has at most 10 rows when no limit is given |
| Api.TopObjectionsRoute | backend/api.js:253-266 | the objections reply is descending and has at most 10 rows when no limit is given |
| Api.ContactReasonsRoute | backend/api.js:269-282 | the contact-reasons reply is descending and has at most 10 rows when no limit is given |
| Api.SalesRoute | backend/api.js:285-298 | without a period, the sales series covers only the last 30 days |
| Api.ConversationsRoute | backend/api.js:301-314 | without a period, the conversation series covers only the last 30 days |
| Api.ExportFilename | backend/api.js:325-341 | every export file name ends in ".csv" |
| Api.ExportData | backend/api.js:317-367 | an unknown type gives 400; an empty result gives 404 exactly when the records are empty; otherwise the file is the CSV of the records under that type's file name |
| Api.ExportRankingsBounded | backend/api.js:334-341 | the product and objection exports have at most 100 rows |
| Api.SalesExportLines | backend/api.js:326-357 | the sales export has one line per day of the last 365 days with sales, plus the header |
| Utils.ToUpper | frontend/src/lib/utils.ts:49 | the upper-cased character is never lower case, and other characters are unchanged |
| Utils.GetInitials | frontend/src/lib/utils.ts:44-51 | the initials are at most two characters and none is lower case |
| Utils.InitialsOfWords | frontend/src/lib/utils.ts:44-51 | the initials are the upper-cased first characters of the non-empty words, in order, at most two |
| Utils.FirstsOfWords | frontend/src/lib/utils.ts:47-48 | `charAt(0)` of an empty word adds nothing, so the joined characters are the first characters of the non-empty words |
| Utils.TwoWordInitials | frontend/src/lib/utils.ts:44-51 | "First Last" gives the two upper-cased first characters |
| Utils.DoubleSpaceInitials | frontend/src/lib/utils.ts:44-51 | a double space between the words does not change the initials |
| Utils.JoaoSilva | frontend/src/lib/utils.ts:44-51 | "João Silva" gives "JS" |
| Utils.FormatDateSafe | frontend/src/lib/utils.ts:54-63 | the date text ends with the year's text after six characters |
| Utils.FormatDate | frontend/src/lib/utils.ts:20-29 | `formatDate` prints the same text as `formatDateSafe` |
| Utils.FormatTimeSafe | frontend/src/lib/utils.ts:66-73 | the time is five characters |
| Utils.FormatDateTime | frontend/src/lib/utils.ts:31-42 | the date-time is the date, one space and the time |
| Utils.DateReadsBack | frontend/src/lib/utils.ts:54-63 | the date has '/' at positions 2 and 5 and its fields read back as the day, the month plus one and the year, with a sign for negative years |
| Utils.DateInjective | frontend/src/lib/utils.ts:54-63 | two dates with the same text have the same day, month and year |
| Utils.FourDigitYearDate | frontend/src/lib/utils.ts:54-63 | a date with a four-digit year is ten characters |
| Utils.TimeReadsBack | frontend/src/lib/utils.ts:66-73 | the time has ':' at position 2 and its fields read back as the hours and minutes |
| Utils.DateTimeLayout | frontend/src/lib/utils.ts:31-42 | with a four-digit year the date-time is 16 characters with the space at position 10 |

## Left out

- Logging (winston), the `logEvent` audit rows, the 500 replies of the `catch` blocks other than the create-user insert failure, `/health`, `/api/logout`, `/api/verify`, the login rate limiter, the server start-up, the schema setup and the periodic session sweep timer. None of these decides a reply of the modelled routes.
- `Database.init`, `run`, `get`, `all` and `transaction` are SQLite plumbing; queries are modelled as functions over the tables.
- JWT signing and verification, bcrypt hashing and comparison, and Joi's e-mail rule are function parameters. The 24-hour token expiry is inside `verify`. Joi's error texts are not modelled; an invalid body gives the 400 reply without its message.
- Api.LoginDecision: the token is `sign(id, email)`. The signing secret and the expiry time are not modelled.
- `getSession` joins users without checking `is_active`, so a deactivated user's session is still returned. The model follows the code.
- `getTopProducts` joins sales on `product_id` alone, not also on `user_id`. `Rankings.TopProductsIsolation` therefore assumes that sales of a user's products belong to that user.
- Rankings.SuccessRate: rounds halves up on exact integer arithmetic. SQLite's `ROUND` works on a double and can round a tie the other way when the quotient is not exactly representable.
- Api.PeriodDays: only "N day" and "N days" are read as a window. Any other text, which SQLite would hand to `date('now', '-…')`, gives an explicit unreadable-period reply instead of SQLite's result.
- Export.DateValue: dates outside years 0 to 9999 render as NULL; SQLite's own text for them is not modelled.
- Export.DecimalText: numbers are printed as JavaScript prints small decimals. Exponent notation for very large or very small numbers is not modelled.
- Money is an exact integer number of cents. SQLite's `SUM` over `total_amount` is a REAL and JavaScript prints doubles, so a sum such as 0.1 + 0.2 prints as 0.30000000000000004 there. Those rounding effects are not modelled.
- Query parameters arrive as text or absent. Express's array-valued parameters (`?limit=1&limit=2`) are not modelled.
- The metrics `startDate` and `endDate` are modelled as day numbers, and an empty string counts as absent. SQLite's text comparison of arbitrary date strings is not modelled.
- `parseInt` is modelled for radix 10 and a "0x" prefix for radix 16, over the white space JavaScript trims. Results beyond 2^53 are exact here and would lose precision in JavaScript.
- The date helpers take the day, month, year, hours and minutes that `Date` returns. Parsing a date string and the local time zone are not modelled.
- Utils.ToUpper: maps ASCII and Latin-1 lower-case letters (and 'ÿ'). 'µ' (U+00B5), which JavaScript maps to Greek 'Μ', is kept unchanged. Other Unicode case mappings, 'ß' becoming "SS", and UTF-16 surrogate pairs in `charAt` are not modelled.
- `formatCurrency`, `formatNumber` and `cn` are not modelled: they are `Intl` and class-name library calls.

## Findings

| source | as written | input that shows it | evidently intended | confidence | as-written member | corrected member |
|---|---|---|---|---|---|---|
| backend/db.js:180-207 | with both dates given, the query has nine placeholders but binds only three values, so `WHERE u.id = ?` is bound to NULL and matches no user | any request with `startDate` and `endDate` set | bind the user id and the two dates for every filtered join and for the `WHERE` | not executed | Metrics.DashboardMetricsAsWritten (Metrics.WindowedAsWrittenIsZero, Metrics.WindowedBindingLosesRows) | Metrics.DashboardMetrics (Metrics.UnwindowedAsWrittenAgrees) |
| backend/db.js:194-203 | `SUM(total_amount)` runs over the cross product of the four LEFT JOINs, so each sale is counted once per joined conversation, objection and contact | confirmed sales worth 350.00 in total and two conversations, all on one day | each confirmed sale counted once | not executed | Metrics.MetricsQuery (Metrics.RevenueFanOut, Metrics.FanOutRevenue, Metrics.RevenueDoubled) | Metrics.IndependentMetrics (Metrics.IndependentAgreesWithoutFanOut, Metrics.RevenueScenario, Metrics.IndependentIsolation) |
