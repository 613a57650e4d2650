# Zinal backend — a Dafny model

The Zinal backend is a small Flask application. It signs users in and hands them "AI analyses" for trading, one analysis per seven-minute cooldown. It logs their clicks on the "telegram" and "compra" buttons. An admin panel manages the user accounts and charts the clicks per day, ISO week or month. This project models that backend's logic:

- `Wrappers.dfy`: `Option`, and `Field` (a JSON member that is absent, `null` or present).
- `Time.dfy`: naive UTC datetimes as whole seconds plus microseconds. It holds `to_ms`, the exact inverse used for millisecond expiries, day numbers and midnights, and the `HH:MM` clock with its wrap at midnight.
- `Models.dfy`: the `users` and `click_logs` rows, `is_access_valid`, and the users table's key, non-null and uniqueness constraints, kept by insert, replace and remove.
- `Sessions.dfy`: the session record (user id, admin flag, cooldown stamp), `current_user`, logout, and Python's `str.strip`.
- `Cooldown.dfy`: the start-analysis gate as a function of user, stamp and time. It covers the order of its checks, the seven-minute window, the spacing of grants over any sequence of calls, the `blocked_until` that `/api/user/me` shows, and the shape of a granted analysis.
- `Stats.dfy`: the click-statistics aggregation. It builds the bucket labels (the monthly ones by year/month arithmetic), counts telegram and compra clicks per label (with the KeyError outcome), and proves that the series account for every fetched click.
- `Admin.dfy`: the admin requests and responses, the rows that create and update produce, and the delete as written.
- `Server.dfy`: `class App` holds the users table, the click log and the two id counters. It has one method per endpoint: login, start-analysis, user/me, registrar-clique, and the admin users list, create, update, delete and click statistics.

The session is a value each request takes and, where the endpoint writes it, returns. All clock reads of one request are one `now` parameter. Password hashing and checking are function parameters, and so are the calendar functions behind the statistics labels (`%Y-%m-%d`, the ISO week, `%Y-%m`, the year/month and day-of-month of a day).

## Model

| member | source | states |
|---|---|---|
| Time.BeforeIsInstantOrder | app.py:101 | comparing two well-formed datetimes is comparing the instants they denote |
| Time.ToMsTruncatesToMillisecond | app.py:38-45 | `to_ms(None)` is None; for a naive datetime it is the epoch time in microseconds floor-divided by 1000 |
| Time.MsOfIsMonotone | app.py:35-36 | a later datetime never has a smaller millisecond timestamp |
| Time.FromMs | app.py:256-260 | the datetime built from a millisecond expiry is well-formed and reads back as the same milliseconds |
| Time.RepresentableIsDatetimeRange | app.py:228 | a millisecond stamp is accepted by `utcfromtimestamp` exactly when the datetime it denotes lies in years 1 to 9999 |
| Time.OnOrAfterMidnight | app.py:308 | a click is on or after the range's first midnight exactly when its day is on or after the start day |
| Time.ParseFormatClock | app.py:126 | every minute of the day formats as five characters `HH:MM` that parse back to it |
| Time.FormatParseClock | app.py:126 | every `HH:MM` string that parses is the formatting of a minute of the day |
| Time.ClockAfterWrapsAtMidnight | app.py:125-128 | the minute-truncated time plus k minutes reads as (minute of day + k) modulo 1440 |
| Models.AccessValidUntilExpiry | models.py:20-22 | access is valid without an expiry and otherwise exactly while now is strictly before the expiry, so it is already invalid at the expiry instant |
| Models.InsertKeepsUserTable | models.py:9-11 | adding a row with a fresh positive id, a non-empty email and username and no email or username collision keeps ids, non-null and unique constraints |
| Models.ReplaceKeepsUserTable | models.py:10-11 | replacing a row by one whose email and username collide with no other row keeps the table's constraints |
| Models.RemoveKeepsUserTable | models.py:9-11 | removing a row keeps the table's constraints |
| Sessions.CurrentUser | app.py:29-33 | there is a current user exactly when the session holds a non-zero user id present in the table, and it is that row |
| Sessions.Logout | app.py:78-81 | after logout no table yields a current user and no cooldown stamp is left |
| Sessions.StripStart | app.py:60 | the result is a suffix of the input that does not start with whitespace, and everything cut is whitespace |
| Sessions.StripEnd | app.py:60 | the result is a prefix of the input that does not end with whitespace, and everything cut is whitespace |
| Sessions.StripKeepsTheCore | app.py:60 | `strip()` keeps one contiguous part of the identifier that neither starts nor ends with whitespace and cuts only whitespace on both sides |
| Sessions.StripIsIdempotent | app.py:60 | stripping twice is stripping once |
| Cooldown.Gate | app.py:96-109 | the start-analysis verdict: unauthenticated, expired when the expiry is strictly before now, rate-limited while stamp + 420000 is after now for a truthy stamp, else allowed; its properties are the lemmas below |
| Cooldown.GateDecidesInOrder | app.py:96-112 | no user gives 401; then an expiry strictly before now gives 403; 429 only with a set stamp whose window is still open, reporting stamp + 420000; otherwise granted; only a grant changes the stamp |
| Cooldown.SecondCallWithinWindowIsBlocked | app.py:104-112 | after a grant at t0, an unexpired call before t0 + 420000 ms is refused with `blocked_until` t0 + 420000 |
| Cooldown.CallAtWindowEndIsGranted | app.py:104-112 | a call at or after stamp + 420000 ms by an unexpired user is granted and stamps its own time |
| Cooldown.Replay | app.py:95-112 | running the gate over a sequence of calls gives one verdict per call |
| Cooldown.GrantsAreSpaced | app.py:104-112 | in any sequence of calls within one session, every grant comes at least 420000 ms after the previous grant and after the stamp the session started with |
| Cooldown.ExpiryInstantSplitsLoginAndAnalysis | app.py:101 | login refuses yet start-analysis admits a user exactly when the expiry equals now; a user login admits is never refused as expired by start-analysis |
| Cooldown.ShownBlockAgreesWithGate | app.py:148-150 | for an unexpired user, `/api/user/me` shows a `blocked_until` later than now exactly when start-analysis would refuse with that same value |
| Cooldown.LogoutReopensTheWindow | app.py:78-81 | logging out and in again drops the stamp, so the next start-analysis by an unexpired user is granted |
| Cooldown.GrantReportsItsWindow | app.py:138 | the `blocked_until` of a granted analysis is what `/api/user/me` then reports |
| Cooldown.ProtectionsFollowEntry | app.py:125-128 | entry is minute of day + 3, and the two protections are one and two minutes after the entry, modulo 24 h |
| Cooldown.EntryWrapsPastMidnight | app.py:125-128 | a request at 23:58:17 gets entry 00:01 and second protection 00:03 |
| Stats.NextMonthAdvancesByOne | app.py:348-352 | the month advance yields a valid month one month later: December rolls into January of the next year, other months keep the year |
| Stats.MonthAfterCountsMonths | app.py:342-354 | after i advances the month is valid and exactly i months after the start |
| Stats.Fetch | app.py:308 | the fetched clicks are exactly the logged clicks on or after the range's first midnight |
| Stats.FetchKeepsMultiplicity | app.py:308 | the query returns each click on or after the first midnight as many times as the table holds it, and no earlier click |
| Stats.PeriodOf | app.py:292-336 | the period argument: absent is "daily", "daily" and "weekly" select their branches, and any other string selects the monthly branch |
| Stats.StartDay | app.py:299-339 | the first day of the range: 30 days ago, 12 weeks (84 days) ago, or 360 days before the first of the current month |
| Stats.KeyOf | app.py:308-361 | the label a click is counted under: the label of its day, of its day's ISO week, or of its day's year and month |
| Stats.DailyLabels | app.py:299-307 | the daily labels are the 31 day labels from 30 days ago to today, in order |
| Stats.WeeklyLabels | app.py:316-327 | the weekly labels are the 13 ISO-week labels of the days 12 weeks ago plus 0, 7, ... 84 days |
| Stats.MonthlyLabels | app.py:336-354 | the monthly labels are the labels of the 13 months counted by the month advance from the start month |
| Stats.DailyLabelsDistinct | app.py:299-305 | with an injective day label the 31 daily labels are pairwise distinct |
| Stats.WeeklyLabelsDistinct | app.py:316-325 | with ISO-week labels that differ for days a week or more apart, the 13 weekly labels are pairwise distinct |
| Stats.MonthlyLabelsDistinct | app.py:336-354 | with an injective month label, the 13 monthly labels are pairwise distinct |
| Stats.DailyKeysAreLabels | app.py:308-312 | when no click is dated after today, every fetched click's day label is one of the daily labels, so the daily count raises no KeyError |
| Stats.EveryLogHasABucket | app.py:311-314 | every click is counted once, as telegram or (any other name) as compra |
| Stats.CountSplitsByLabel | app.py:309-314 | the count under labels plus a new label is the count under the labels plus the count under the new one |
| Stats.CountCoversAll | app.py:309-314 | when every click's label is among the labels, counting under them counts every click of the bucket |
| Stats.CountNothing | app.py:363-364 | an empty label list counts no click, the base case of summing the series |
| Stats.SeriesSumsOverLabels | app.py:363-364 | with distinct labels, the sum of a series is the count under all its labels |
| Stats.SumPointwise | app.py:365 | a pointwise sum of two series sums to the sum of their sums |
| Stats.SeriesAccountForEveryLog | app.py:363-365 | with distinct labels covering every click, the telegram series sums to the telegram clicks, the compra series to the rest, and together to all of them |
| Stats.CountClicks | app.py:295-314 | the counting loop stops with a KeyError exactly when some click's label has no counter, naming that label; otherwise each label's telegram and compra counters hold that label's telegram and compra clicks |
| Stats.Tally | app.py:363-372 | the report has the labels, a telegram and a compra series counted per label and total = telegram + compra pointwise, or the KeyError; with distinct labels total sums to the number of fetched clicks and compra to the non-telegram clicks |
| Admin.NewUserRecord | app.py:226-231 | the row a create inserts; what it holds is stated by the next lemma |
| Admin.CreatedUserDefaults | app.py:226-231 | a new row carries the given id, the request's email and username, the hash of its password, and created and updated at now; it is admin exactly when `is_admin` is true; it has no expiry exactly when the millisecond value is absent, null or 0, and otherwise one that `to_ms` reads back as that value |
| Admin.Assigned | app.py:250-262 | the row after the update's assignments, member by member; what it changes is stated by UpdateChangesOnlySuppliedFields |
| Admin.UpdatedRecord | models.py:16 | the assigned row, with `updated_at` moved to now when some column changed |
| Admin.UpdateChangesOnlySuppliedFields | app.py:249-262 | update never changes id or creation time; a truthy email, username or password is written (the password hashed), and a falsy one keeps its column; a present `is_admin` is written, an absent one kept, a null one is false; a null expiry clears it, a millisecond expiry reads back, an absent one is kept; `updated_at` moves to now when the row changed; an empty request changes nothing |
| Admin.DeleteAsWritten | app.py:245-248 | the delete as written: 404 for an unknown id, the storage error when the user has clicks, else done |
| Admin.DeletingAUserWithClicksFails | app.py:245-248 | as written, deleting an existing user who has a click fails with a storage error, while the same user without clicks is deleted |
| Admin.EntryOf | app.py:202-210 | one listing entry: the user's columns, the timestamps in ms, and the session stamp only on the viewer's own row |
| Server.App.constructor | models.py:6-33 | an empty database satisfies the tables' constraints |
| Server.App.Login | app.py:56-75 | empty stripped identifier or password is refused; a redirect means some user named by the identifier has the password and valid access, and the session then holds that user and its admin flag; when every user named by the identifier has the password and valid access the login redirects, when they all have the password but expired access it is refused as expired, and when none has the password (or none is named) it is refused as invalid credentials |
| Server.App.StartAnalysis | app.py:95-139 | the response carries the gate's verdict (401, 403, 429 with `blocked_until`, 200), the session's stamp is replaced by now only on a grant, and a grant holds a listed asset and direction and the +3/+4/+5 minute clock readings |
| Server.App.UserMe | app.py:143-161 | 401 exactly without a current user; otherwise that user's id, names, admin flag, expiry in ms, and stamp + 420000 when a stamp is set |
| Server.App.RegisterClick | app.py:165-177 | 401 without a user; a click is recorded exactly for the two button names, appending exactly one log for the current user at now; otherwise the log is unchanged; users are never touched |
| Server.App.ListUsers | app.py:192-211 | 403 for non-admins; otherwise every user exactly once, in strictly descending id order, each with its columns in ms and the session stamp only on the viewer's own row |
| Server.App.CreateUser | app.py:213-234 | 403 for non-admins, missing fields, an existing email or username, and (500) an expiry outside years 1 to 9999 each leave the table unchanged; otherwise exactly one row is added under a fresh positive id, and the table's constraints hold |
| Server.App.UpdateUser | app.py:237-265 | 403 for non-admins, 404 exactly for an unknown id, 500 with the table unchanged exactly when the expiry lies outside years 1 to 9999 or the updated email or username is another user's; otherwise only the target row is replaced by its updated record |
| Server.App.DeleteUser | app.py:237-248 | 403 for non-admins, 404 exactly for an unknown id, otherwise only that user is removed, the clicks stay, and the table's constraints hold |
| Server.App.ClickStats | app.py:287-372 | 403 exactly for non-admins; otherwise the period's 31 or 13 labels, the clicks since the first midnight counted per label as telegram, compra and total, or the KeyError; with distinct labels the total sums to the number of fetched clicks |

## Left out

- Flask routing, templates, redirects, flash messages and the signed session cookie are not modelled. The session is a record passed in and returned, and responses are datatypes carrying their status codes.
- The page routes `/`, `/dashboard` and `/admin` (app.py:51-53, 85-90, 181-188) only render templates or redirect.
- `/api/admin/clicks/list` (app.py:269-284) is a query ordered by time and limited to 1000 rows, rendered as JSON. It states nothing beyond what the click log and `to_ms` already carry.
- The timezone-aware branch of `to_ms` (app.py:46-47) is not modelled: every datetime the application stores is naive UTC.
- Time.FromMs: models `utcfromtimestamp(ms / 1000.0)` as exact millisecond arithmetic. Floating-point rounding of very large timestamps is not modelled. Its exception outside years 1 to 9999 is modelled by the callers as a 500 (`Admin.ExpiryFails`), at exactly the bounds of `Time.Representable`. Rounding of `ms / 1000.0` within a millisecond of those bounds is not modelled, and neither is a platform `gmtime` range narrower than Python's datetime.
- JSON values of unexpected types (a number as email, a string as `is_admin`, a non-numeric string passed to `int()`) are not modelled. Each request member is a `Field` of the type the code expects.
- `random.choice` is a nondeterministic choice from the asset and direction lists.
- `time.time()` and `datetime.utcnow()` are one `now` per request. The model assumes every clock read inside one request agrees (start-analysis reads the clock three times: app.py:101, 104 and 125).
- werkzeug's password hashing and checking are function parameters; hashes are opaque.
- Calendar arithmetic, `strftime` and `isocalendar` are the parameters of `Stats.Calendar`. Stats.WeeklyLabelsDistinct and Stats.MonthlyLabelsDistinct take the labels' injectivity as a precondition instead of proving it from a calendar.
- Stats.MonthlyLabels: the fallback when `date.replace` raises (app.py:353-354) is not modelled. It only raises for a year past 9999, and years are unbounded here.
- Stats.DailyKeysAreLabels: that no KeyError occurs is proved only for the daily period (and only when no click is dated after today). For the weekly and monthly periods it depends on the real calendar.
- Id allocation is a counter that never reuses an id. SQLite may hand out an id again after the highest row is deleted.
- `updated_at` moves to now exactly when an assignment changed some column. This stands for SQLAlchemy's `onupdate`, which fires only when an UPDATE is emitted.
- The string length limits of the columns (120 and 50) are not modelled; SQLite does not enforce them.
- Concurrent requests and transaction isolation are not modelled. A create racing another create with the same email is caught by the unique constraint, and the model's requests run one at a time.
- Server.App.Login: `.first()` among several users matching the identifier (one by username, another by email) is a nondeterministic pick, since the query has no ordering.
- create_admin.py, settings.py and the JavaScript front end are not part of this model.

## Findings

| source | as written | input that shows it | evidently intended | confidence | as-written member | corrected member |
|---|---|---|---|---|---|---|
| app.py:245-248 | the user row is deleted through the ORM; the `clicks` relationship (models.py:18) has no delete cascade, so the ORM sets the clicks' `user_id` to NULL, which the NOT NULL column (models.py:31) rejects, and the request fails with 500 and nothing deleted | user 1 with one click log whose `user_id` is 1; admin sends DELETE /api/admin/users/1 | the user is removed and the request answers 200; the clicks stay behind, as the click listing's handling of a click without a user (app.py:280) expects | medium, not executed; depends on SQLAlchemy's default cascade | Admin.DeletingAUserWithClicksFails | Server.App.DeleteUser |
