# Exercise tracker: a Dafny model of its in-memory logic

The exercise tracker is a small HTTP service. Clients create users, post
exercises against a user, and read a user's exercise log. They can filter
the log by date (`from`, `to`) and cap its length (`limit`). Persistence and
routing are glue code. This project models the three parts of `index.js`
that compute something:

- **The log query** (`getUserFromToLimit`). It keeps the exercises whose date
  lies within the inclusive bounds that were given. It then sorts them by
  date, keeps the first `limit`, and projects each to
  `{description, duration, date}`. The unfiltered variant
  (`getUserWithExercises`) only projects. The `/logs` route picks between the
  two. Module `LogQuery` holds the pipeline, and class `Users.User` holds the
  two queries and the route.
- **Exercise-request validation**. The duration must match `/^[0-9]+$/`. The
  date must match `/^[0-9]{4}\-[0-9]{2}\-[0-9]{2}$/` or be the empty string.
  When the duration is bad, "Invalid Duration" is reported whatever the
  date. Module `Validation` models the two regular expressions as anchored
  patterns. It proves that each accepts exactly the strings a plain
  character-by-character description admits.
- **Appending an exercise** (`addUserExercise`). The fetched user document is
  changed in place: a new exercise carrying the user's name is pushed onto
  `log`, and `count` is incremented. `Users.User.AddExercise` models this.
  `Users.PostExercise` models the handler that validates first and then
  appends.

Turning a date text into an instant (`new Date(text).getTime()`) is
library behaviour that depends on the time zone. It enters the model as a
function parameter `key: string -> int`. Rendering the current time or a
calendar day with `toDateString()` enters as the parameters `today` and
`render`.

Two behaviours of the code that the model keeps:

- **`limit=0`.** `limit` reaches the handler as the query string `"0"`. A
  non-empty string is truthy, so `slice(0, "0")` runs and returns no
  entries (index.js:132-133). The model uses `Option<nat>`: `None` is an
  absent or empty limit, and `Some(0)` truncates to nothing.
- **A missing date field.** Only the empty string stands for "today". A
  missing field is `undefined`. `RegExp.test` reads it as the text
  "undefined", and `undefined == ""` is false, so with a valid duration a
  request without a date field is rejected with "Invalid Date"
  (index.js:190, 204-205). Form fields
  are therefore `Option<string>`.

## Model

| member | source | states |
|---|---|---|
| `Records.Project` | index.js:136-142 | The projected log has the stored log's length, and entry i carries exactly the description, duration and date of stored exercise i. It keeps order and drops the owner's name. |
| `LogQuery.Keep` | index.js:108-121 | The callback's early returns keep an exercise exactly when it lies within the range: not before a given `from`, not after a given `to`, both inclusive. |
| `LogQuery.Filter` | index.js:108-121 | Every kept exercise is from the stored log and lies within the bounds. `from` and `to` are inclusive, and each applies only when given (present and non-empty). The result is never longer than the log. |
| `LogQuery.FilterIsSubsequence` | index.js:108-121 | The filtered log is a subsequence of the stored log, so stored order is kept. |
| `LogQuery.FilterCounts` | index.js:108-121 | Each exercise occurs in the filtered log as often as it is stored when it lies within the bounds, and not at all otherwise. So every stored exercise inside the bounds is kept. |
| `LogQuery.Insert` | index.js:122-130 | Inserting one exercise gives one more entry, and the multiset grows by exactly that exercise. `InsertSorted` and `InsertStable` state that it keeps date order and puts the new exercise after the ones with the same date. |
| `LogQuery.Sort` | index.js:122-130 | The sort keeps the length of its input. `SortSortsAndPermutes` states that it is a permutation in date order, and `SortStable` that ties keep their order. |
| `LogQuery.SortSortsAndPermutes` | index.js:122-130 | The sorted log is in non-decreasing date order and is a permutation (same multiset) of the filtered log. |
| `LogQuery.SortStable` | index.js:122-130 | For every instant, the exercises dated at it appear in the sorted log in the same relative order as before sorting. Ties keep their stored order. |
| `LogQuery.Truncate` | index.js:132-134 | With no limit (absent or empty) the log is unchanged. With limit n it is the prefix of length min(n, length), so a limit of 0 gives an empty log. |
| `LogQuery.SelectLog` | index.js:106-142 | The returned log is never longer than the stored log, nor longer than a given limit. Its contents and order are stated by `SelectLogSpec`. |
| `LogQuery.SelectLogSpec` | index.js:106-142 | The returned log's length is the filtered length cut to the limit. Every entry lies within the given bounds, the entries are in date order, and the result is a prefix of the projection of the whole sorted, filtered log. |
| `LogQuery.FromFebruaryExample` | index.js:106-142 | Exercises stored in the order 5 Jan, 1 Mar, 15 Feb 2023 and queried from 1 Feb give 15 Feb then 1 Mar. With limit 1 they give only 15 Feb. |
| `Validation.Matches` | index.js:187-190 | Anchored `RegExp.prototype.test`: the whole string matches the pattern. It has no contract of its own; `NumPatternAccepts` and `DatePatternAccepts` state what it accepts for the two patterns. |
| `Validation.MatchesRun` | index.js:187-188 | Backtracking over the length of a digit run. `UnboundedRun` and `FixedRun` state what it accepts for `[0-9]+` and `[0-9]{k}`. |
| `Validation.NumPatternAccepts` | index.js:187 | `/^[0-9]+$/` accepts a string exactly when it is non-empty and all decimal digits. |
| `Validation.DatePatternAccepts` | index.js:188 | The date pattern accepts a string exactly when it has ten characters, with dashes at positions 4 and 7 and digits elsewhere. |
| `Validation.UnboundedRun` | index.js:187 | Backtracking over the `[0-9]+` run from any position succeeds exactly when the string is non-empty and every character from that position on is a digit. |
| `Validation.FixedRun` | index.js:188 | A `[0-9]{k}` piece followed by the rest of a pattern matches exactly when the first k characters are digits and the rest of the string matches the rest of the pattern. |
| `Validation.ErrorText` | index.js:203-205 | The two rejections are answered with exactly "Invalid Duration" and "Invalid Date". |
| `Validation.TestedText` | index.js:190 | A missing form field is tested as the text "undefined". No contract of its own; `MissingDateRejected` and `Validate` state its effect: a missing duration or date is rejected. |
| `Validation.Validate` | index.js:187-206 | A request is accepted iff the duration is a digit string and the date has the date shape or is the empty string. A bad duration gives Invalid Duration whatever the date; otherwise a rejection is Invalid Date. An empty date means today; any other accepted date is the given calendar day. |
| `Validation.StoredDate` | index.js:191-196 | The stored day text: today's rendered day for an empty date, and `render(day + "T00:00")` for a calendar day, read as local midnight. No contract of its own; `PostExercise` states that this text is what gets stored. |
| `Validation.RejectsMixedDuration` | index.js:202-203 | The duration "12abc" is rejected as Invalid Duration, with a good date or a bad one. |
| `Validation.AcceptsShapeOnly` | index.js:188-190 | "2023-13-40" passes: only the shape is checked, not the calendar. |
| `Validation.MissingDateRejected` | index.js:185-205 | With a good duration, a request without a date field is rejected as Invalid Date. |
| `Users.User.constructor` | index.js:42-45 | A new user has the given name, count 0 and an empty log, so the counter agrees with the log. |
| `Users.User.AddExercise` | index.js:54-75 | The log grows by exactly one exercise, placed last and carrying the user's name and the given fields; earlier entries are unchanged. The count goes up by one, so count == length of log is kept. The answer carries the id text the request named (not the stored `_id`, which may differ in form, for example in letter case), the user's name and the exercise's date, duration and description. |
| `Users.User.WithExercises` | index.js:79-95 | The unfiltered log has the stored length and order, each entry projected. Id, name and count are copied from the stored user. |
| `Users.User.FromToLimit` | index.js:102-153 | Id, name and count are copied from the stored user. The count is the stored counter, not the filtered length: while count == length of log, the returned log is never longer than count. The log is the filter, sort, limit and project pipeline. |
| `Users.User.Logs` | index.js:209-231 | The route answers with the stored id, name and count, and a log no longer than the stored one (so, while count == length of log, no longer than count). `LogsSpec` states which query it picks and what that promises. |
| `Users.LogsSpec` | index.js:209-231 | The route answers with the stored id, name and count. With none of from, to and limit given, the log is the stored log in insertion order, unsorted. With any of them, it is exactly the filtered query's log (`SelectLog`), in date order and within the given bounds. By `SelectLogSpec` and `FilterCounts` it then has at most `limit` entries and is a prefix of all the in-range stored exercises in date order. |
| `Users.PostExercise` | index.js:181-207 | A rejected request answers with the error text and leaves the user unchanged. An accepted one appends exactly one exercise and increments the count. That exercise carries the user's name, the description, the duration and the stored day text (today's day for an empty date, the rendered local midnight otherwise). It is answered under the request's own `:_id` text, as given. |
| `Users.RecordExercises` | index.js:42-62 | After n appends to a new user, count and log length are both n. The unfiltered log shows the exercises in the order they were added, each under the user's name. |

## Left out

- Persistence: the store connection, the schemas, `find`/`findById`/`save`, and the unlinked second copy of each exercise in its own collection (index.js:7-29, 31-40, 46, 60, 63). A handler receives the fetched user as an object.
- Listing users (`getUsers`, GET /api/users): it is a store query with a field selection and has no in-memory logic.
- Routing, middleware, static files, `res.json` and the listener (index.js:155-179, 233-235).
- Asynchronous sequencing and the error paths, which are behaviours of the promise chain. The unfiltered log route catches an unknown user id (the `TypeError` on `user.log`) or a store rejection and calls `done(err, null)` (index.js:97-99). The route logs the error and, with no `return`, still answers `res.json(null)`: status 200 with the body `null` (index.js:224-228). The filtered log route (index.js:102-153) and POST exercises (index.js:52-76) have no `.catch`: an unknown id or a store failure there ends in an unhandled rejection, and no response is sent.
- Store-assigned exercise identifiers: the model's exercises carry none. They never reach a response.
- Date parsing and rendering: `key`, `today` and `render` are parameters, and `key` is total, so a date that JavaScript parses to NaN is not modelled. That case is reachable through the modelled code. `AcceptsShapeOnly` shows that "2023-13-40" is accepted. `new Date("2023-13-40T00:00").toDateString()` is the text "Invalid Date", and that text is stored. Such an entry survives every `from` and `to` test, because comparisons with NaN are false (index.js:110, 115). The comparator also returns 0 between it and every other entry (index.js:123-128). That comparator is inconsistent, and the order JavaScript then produces is outside the model.
- `LogQuery.Filter`: "within the bounds" holds only when every stored date and every given bound parses to a valid instant (see the NaN case above).
- `LogQuery.SelectLogSpec`: "within the bounds" and "in date order" hold only for dates and bounds that parse to valid instants.
- `Users.LogsSpec`: the same restriction to dates and bounds that parse.
- `LogQuery.SortStable`: stability is required of `Array.prototype.sort` only from ECMAScript 2019 on (V8 7.0, Node 11). On an older engine exercises with equal dates may come back in another order.
- Type coercions: a `limit` that is not a decimal string (non-numeric or negative, coerced by `slice`); the store's cast of the duration text to a number; form fields and query values (`from`, `to`, `limit`) that are arrays or objects rather than strings, such as `?limit=1&limit=2`, which is truthy at index.js:210 while `slice(0, ["1", "2"])` coerces the limit to NaN, that is 0, and returns no entries; a non-integer limit such as "1.5", which `slice` truncates to 1; a missing description.
- Concurrency: concurrent appends to one user race on `count` and `log`. The model runs one request at a time.
