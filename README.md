# Time Keeper: a verified model of the time-tracking core

Time Keeper is a small time-tracking application:

- a Flask backend keeps users, projects and time entries in a database and serves them as JSON behind JWT authentication;
- a React frontend signs the user in and lists, filters and edits time entries.

This project models the core of both halves in Dafny and proves what the code promises.

- **Backend authentication.** `AuthRoutes` models register, login, logout, refresh and `/auth/me`, the token blocklist, and the user row's JSON form.
- **Backend time entries.** `TimeEntryRoutes` and `TimeEntryModel` model the `/api/entries` routes, with their filters, listing order, create, partial update, delete and summary, plus the entry's duration rules.
- **Backend projects.** `ProjectRoutes` and `ProjectModel` model the `/api/projects` routes: status filter, statistics, defaults, update, and delete with the cascade onto the entries.
- **Frontend session.** `AuthContext` models the provider's `localStorage` tokens and its `user`, `token` and `loading` state.
- **Frontend time-entry page.** `TimeEntryTable` and `TimeEntryManagement` model the filter record, the query parameters built from it, the modal's create/edit state and the table footer.

Shared building blocks:

- `Table` treats a database table as a `map<int, T>` from primary key to row. It provides:
  - rows in key order;
  - `Select`, a WHERE clause;
  - `SortDesc`, an ORDER BY … DESC;
  - `FirstWhere`, a `.first()`.
- `Text` holds the string helpers the routes need:
  - ASCII lower-casing;
  - the `'Z'` → `'+00:00'` replacement;
  - `str`/`int` on identities.
- `Http` holds the response shapes.
- `Database.Tables` and `AuthRoutes.AuthServer` are the mutable state the handlers change in place.

Inputs the code takes from its environment are parameters of the model:

- the ISO date parser;
- the password hasher and checker;
- the token ids the JWT library draws;
- the clock reading a new project is stamped with;
- the replies of backend calls made by the frontend.

Observations the proofs make explicit:

- **Stale token after a failed start-up.** When `/auth/me` fails during start-up, `initializeAuth` removes both tokens from storage. It does not clear the `token` state read at the first render, so state and storage disagree afterwards; the user stays signed out. See `AuthContext.FailedStartupKeepsStaleToken`.
- **Negative durations.** The routes accept an end time before the start time, and the resulting negative duration is stored (`TimeEntryModel.EndBeforeStartIsNegative`).
- **Keys come back.** The tables use a plain `INTEGER PRIMARY KEY` in SQLite, so a new row gets one more than the largest key in use (`Table.NextRowId`). Deleting the newest entry or project therefore lets the next create hand out its id again (`Table.RemovingLastKeyLowersNextRowId`).
- **Logout spares the refresh token.** `/auth/logout` blocklists only the access token it is called with. The refresh token from the same login is still admitted by `/auth/refresh`, which mints new access tokens until the refresh token expires (`AuthRoutes.LogoutKeepsRefreshUsable`). The frontend's `logout` removes both tokens from storage, but a copy of the refresh token kept elsewhere still works.
- **Zero durations.** Every sum skips a duration of exactly 0, the same as a missing duration.

## Model

| member | source | states |
|---|---|---|
| TimeEntryModel.CalculateDuration | backend/app/models/time_entry.py:26-31 | with an end time the duration becomes end minus start; without one the entry is unchanged; no other column changes, and the returned value is the new duration |
| TimeEntryModel.CalculateDurationIdempotent | backend/app/models/time_entry.py:26-31 | recomputing the duration a second time changes nothing |
| TimeEntryModel.EndBeforeStartIsNegative | backend/app/models/time_entry.py:28-30 | an end time before the start time yields a negative duration (the code does not reject it) |
| TimeEntryModel.DurationView | backend/app/models/time_entry.py:42-43 | `duration_hours` is null exactly when the duration is null or 0, and otherwise derives from the duration |
| TimeEntryModel.HoursOrZero | backend/app/routes/time_entries.py:213-214 | an hours value is the literal 0 exactly when the summed seconds are 0 |
| TimeEntryModel.TotalSeconds | backend/app/routes/time_entries.py:208 | `sum(entry.duration … if entry.duration)` is 0 when no entry has a non-zero duration, and never negative when no duration is |
| TimeEntryModel.BillableSeconds | backend/app/routes/time_entries.py:209 | the billable sum is 0 when no entry is billable, equals the total when every entry is, and lies between 0 and the total when no duration is negative |
| TimeEntryModel.TotalSplitsByBillable | backend/app/routes/time_entries.py:208-209 | the total seconds are the billable seconds plus the seconds of the non-billable entries |
| TimeEntryModel.TotalSecondsAppend | backend/app/routes/time_entries.py:208 | the total over two concatenated lists is the sum of their totals |
| TimeEntryModel.TotalSkipsEntryWithoutDuration | backend/app/routes/time_entries.py:208 | an entry whose duration is missing or 0 adds nothing to the total |
| TimeEntryModel.TotalSecondsSort | backend/app/routes/time_entries.py:48 | ordering a listing by start time leaves its total seconds unchanged |
| Table.Rows | backend/app/routes/time_entries.py:26 | a table yields one row per key |
| Table.RowsSound | backend/app/routes/time_entries.py:26 | every row yielded by a table is stored under its key |
| Table.RowsComplete | backend/app/routes/time_entries.py:26 | every stored key is yielded as a row |
| Table.RowsAscending | backend/app/routes/time_entries.py:26 | a table yields its rows in ascending, distinct key order |
| Table.Select | backend/app/routes/time_entries.py:26-46 | a WHERE clause keeps only rows it accepts, never more rows than it was given, and only rows it was given |
| Table.SortDesc | backend/app/routes/time_entries.py:48 | ORDER BY … DESC returns the same rows, as a multiset, as it was given |
| Table.SelectContent | backend/app/routes/time_entries.py:26-46 | a filter keeps exactly the rows it accepts |
| Table.SelectUnique | backend/app/routes/time_entries.py:26-46 | filtering rows with distinct keys keeps the keys distinct |
| Table.SortDescSorted | backend/app/routes/time_entries.py:48 | ORDER BY … DESC yields rows in non-increasing key order and keeps keys distinct |
| Table.SortDescMembers | backend/app/routes/time_entries.py:48 | ordering neither adds nor drops a row |
| Table.SelectCount | backend/app/routes/time_entries.py:212 | a query over a whole table returns as many rows as there are matching keys |
| Table.SortedSelectRows | backend/app/routes/projects.py:19-24 | a filtered, ordered query returns exactly the matching rows, once each, in order, one per matching key |
| Table.NextRowId | backend/app/routes/time_entries.py:102-103 | the key a new row receives is 1 for an empty table and otherwise one more than the largest key in use, so no row has it |
| Table.RemovingLastKeyLowersNextRowId | backend/app/routes/time_entries.py:160-173 | after the row with the largest key is deleted, the next insert takes a key no greater than it, and that same key when the key below it is in use |
| Table.FirstWhere | backend/app/routes/auth.py:76 | `.first()` finds a matching row exactly when one exists, and it is the least such key |
| Text.TrueFlagSpelling | backend/app/routes/time_entries.py:46 | the accepted spellings are exactly the four-letter case variants of `true` |
| Text.ReplaceZ | backend/app/routes/time_entries.py:83 | the replacement leaves no `Z`, leaves text without `Z` unchanged, and grows the text by five characters per `Z` it replaces |
| Text.ReplaceZOfZ | backend/app/routes/time_entries.py:83 | a `Z` becomes exactly `+00:00` |
| Text.ReplaceZAppend | backend/app/routes/time_entries.py:83 | replacing in a concatenation concatenates the replacements, so with the two rows above every `Z` becomes `+00:00` and every other character stays, in order |
| Text.Lower | backend/app/routes/time_entries.py:46 | `.lower()` keeps the length and lower-cases each character in place (ASCII letters only) |
| Text.IntToString | backend/app/routes/auth.py:85-86 | `str(user.id)` is the decimal digits of the id, after a `-` for a negative one |
| Text.ParseInt | backend/app/routes/auth.py:120 | `int(...)` on an identity is defined exactly for non-empty digit strings after an optional `-`, and a `-` yields a value that is not positive |
| Text.ParseIntToString | backend/app/routes/auth.py:85-120 | reading back the text that `str(user.id)` wrote gives the same id |
| Text.NatToStringInjective | backend/app/routes/auth.py:85 | different ids are written as different identities |
| TimeEntryRoutes.ArgsToQuery | backend/app/routes/time_entries.py:21-24 | `project_id` is read as an integer, or None when it is missing or not one; the other arguments are read as sent |
| TimeEntryRoutes.GetTimeEntries | backend/app/routes/time_entries.py:14-50 | 400 exactly when a given date does not parse, with the start date's message first; otherwise the caller's entries that pass every filter, each once, newest start time first |
| TimeEntryRoutes.Selected | backend/app/routes/time_entries.py:26-46 | an entry passes the filter chain only if the query's dates parse; with no argument at all, exactly the caller's entries pass; with both dates given, only a window whose start is at most its end lets anything pass |
| TimeEntryRoutes.Matching | backend/app/routes/time_entries.py:26-46 | the filtered query yields only stored rows that pass every filter, and no more rows than the table holds |
| TimeEntryRoutes.MatchingContent | backend/app/routes/time_entries.py:26-46 | the filter chain selects exactly the rows meeting every filter, and as many rows as matching keys |
| TimeEntryRoutes.ListingContent | backend/app/routes/time_entries.py:26-48 | the ordered listing holds exactly the selected entries |
| TimeEntryRoutes.ListingOrder | backend/app/routes/time_entries.py:48 | the ordered listing has distinct ids and non-increasing start times |
| TimeEntryRoutes.ZeroProjectIdIsNoFilter | backend/app/routes/time_entries.py:28-29 | `project_id=0` lists the same as no `project_id` |
| TimeEntryRoutes.WindowIsInclusive | backend/app/routes/time_entries.py:31-43 | an entry starting exactly at both bounds of the date window is listed |
| TimeEntryRoutes.BillableFlagSelects | backend/app/routes/time_entries.py:45-46 | with any billable flag given, every listed entry is billable exactly when the flag is a case variant of `true`; `false` and `''` list only non-billable entries |
| TimeEntryRoutes.GetTimeEntry | backend/app/routes/time_entries.py:53-63 | 404 exactly when the entry is missing or belongs to someone else; otherwise that entry |
| TimeEntryRoutes.BuildEntry | backend/app/routes/time_entries.py:66-101 | 400 "project_id and start_time are required" exactly without a project id or a start time; then 404 exactly for an unknown project; then 400 "Invalid datetime format" exactly when a given start or end time does not parse; success exactly otherwise, with an entry of the caller holding the parsed times, `is_billable` defaulting to true, and a duration exactly when an end time is given |
| TimeEntryRoutes.ParseTime | backend/app/routes/time_entries.py:83-86 | `fromisoformat(value.replace('Z', '+00:00'))` parses text without `Z` as it is, and text ending in its only `Z` as that text with `+00:00` in the `Z`'s place; the update route reads its two times the same way |
| TimeEntryRoutes.CreateTimeEntry | backend/app/routes/time_entries.py:66-109 | inserts the built entry under the key SQLite assigns (one more than the largest key, 1 for an empty table), or changes nothing on error; the table invariant is kept |
| TimeEntryRoutes.ApplyEntryUpdate | backend/app/routes/time_entries.py:124-150 | fails exactly for an unknown project (404 "Project not found"), then an unparsable start time (400 "Invalid start_time format"), then an unparsable end time (400 "Invalid end_time format"); otherwise each present field is replaced, each absent one kept, and the duration matches the end time whenever there is one |
| TimeEntryRoutes.UpdateEntry | backend/app/routes/time_entries.py:112-157 | 404 for an entry the caller does not own; otherwise the outcome of applying the changes to that entry |
| TimeEntryRoutes.AssignChanges | backend/app/routes/time_entries.py:124-150 | the field-by-field assignments with early returns compute exactly the specified update |
| TimeEntryRoutes.UpdateTimeEntry | backend/app/routes/time_entries.py:112-157 | returns the specified update and commits the new entry only on success; no other row changes |
| TimeEntryRoutes.DeleteTimeEntry | backend/app/routes/time_entries.py:160-173 | 404 with no change for an entry the caller does not own; otherwise removes exactly that key |
| TimeEntryRoutes.GetSummary | backend/app/routes/time_entries.py:176-216 | 400 for a bad date; otherwise the number of matching entries, the total, billable and non-billable seconds (billable plus non-billable is the total), and hours that are 0 when the total is |
| ProjectModel.EntryKeysOf | backend/app/models/project.py:21 | the keys of the entries logged against a project |
| ProjectModel.EntriesOf | backend/app/models/project.py:21 | `self.time_entries` yields only stored entries whose `project_id` is the project, no more than the table holds |
| ProjectModel.EntriesOfContent | backend/app/models/project.py:21 | a project's relationship lists exactly that project's entries |
| ProjectModel.EntriesOfCount | backend/app/models/project.py:38 | the relationship has one row per entry key of the project |
| ProjectModel.Stats | backend/app/models/project.py:35-38 | the seconds of the project's entries that have a non-zero duration, 0 hours exactly when they sum to 0, and `entry_count` counting every entry of the project |
| ProjectModel.ToDict | backend/app/models/project.py:23-40 | copies the columns and carries statistics exactly when asked |
| ProjectModel.CascadeDelete | backend/app/models/project.py:21 | deleting a project leaves exactly the entries of other projects, unchanged |
| ProjectModel.CascadeLeavesNoEntries | backend/app/models/project.py:21 | after the cascade the deleted project has no entries and a zero count |
| ProjectModel.CascadeKeepsReferences | backend/app/models/project.py:21 | after the cascade every entry still references an existing project |
| ProjectModel.CascadeKeepsOtherCounts | backend/app/models/project.py:21 | the cascade does not change any other project's entries |
| ProjectRoutes.IncludeStats | backend/app/routes/projects.py:17 | statistics are included exactly when the argument is given and lower-cases to `true`; a missing argument means no statistics |
| ProjectRoutes.ListedProjects | backend/app/routes/projects.py:19-24 | the query yields only stored projects with the requested status (any, without one), no more than the table holds |
| ProjectRoutes.ListedProjectsContent | backend/app/routes/projects.py:19-24 | the listing holds exactly the projects with the given status, or all projects when none is given |
| ProjectRoutes.ListedProjectsOrder | backend/app/routes/projects.py:24 | the listing has distinct ids, is newest first, and has one row per matching project |
| ProjectRoutes.Views | backend/app/routes/projects.py:26 | one view per listed row, in the same order, each the row's `to_dict(include_stats=…)` |
| ProjectRoutes.GetProjects | backend/app/routes/projects.py:12-26 | 200 with one view per matching project, ids distinct, creation time non-increasing, each view the project's own columns with statistics as asked |
| ProjectRoutes.GetProject | backend/app/routes/projects.py:29-39 | 404 exactly for an unknown project; otherwise its view with statistics as asked |
| ProjectRoutes.BuildProject | backend/app/routes/projects.py:50-59 | 400 exactly without a non-empty name; otherwise the given columns, with status `active` and color `#3B82F6` when missing, and the given clock reading |
| ProjectRoutes.CreateProject | backend/app/routes/projects.py:42-73 | inserts the built project under the key SQLite assigns, or changes nothing on error; entries are untouched and the invariant is kept |
| ProjectRoutes.NewProjectHasNoEntries | backend/app/routes/projects.py:61-69 | a key no project uses, such as the one a new project receives, has no entries, so its count is zero |
| ProjectRoutes.ApplyProjectUpdate | backend/app/routes/projects.py:87-94 | each present key replaces its column, each absent key keeps it, and the creation time is kept |
| ProjectRoutes.EmptyUpdateKeepsProject | backend/app/routes/projects.py:87-94 | an update naming no key changes nothing |
| ProjectRoutes.ProjectUpdateIdempotent | backend/app/routes/projects.py:87-94 | the same update sent twice equals it sent once |
| ProjectRoutes.UpdateProject | backend/app/routes/projects.py:76-101 | 404 with no change for an unknown project; otherwise replaces just that project by its updated columns |
| ProjectRoutes.DeleteProject | backend/app/routes/projects.py:104-116 | 404 with no change for an unknown project; otherwise removes it and, by the cascade, its entries, keeping every remaining entry's project reference valid |
| AuthRoutes.Admits | backend/app/routes/auth.py:132-135 | the admission rule the guarded routes are stated in: `@jwt_required(refresh=…)` lets a token through exactly when it has the wanted kind and its `jti` is not in the blocklist, so a revoked token is never admitted |
| AuthRoutes.ToUserDict | backend/app/models/user.py:34-44 | the user's JSON has every column but the password hash |
| AuthRoutes.NewUser | backend/app/routes/auth.py:28-50 | 400 "Missing required fields" exactly when a required field is missing; then 409 "Username already exists" exactly for a taken username; then 409 "Email already exists" exactly for a taken email with a free username; success exactly for a complete request with both names free, giving an active user that stores only the hash |
| AuthRoutes.AuthServer.Register | backend/app/routes/auth.py:21-60 | inserts the new user under the key SQLite assigns, or changes nothing on error; usernames and emails stay unique |
| AuthRoutes.RegisterKeepsAccountsUnique | backend/app/routes/auth.py:34-40 | inserting a newly built user keeps usernames and emails unique |
| AuthRoutes.Login | backend/app/routes/auth.py:67-93 | 400 "Missing username or password" exactly when the username or the password is missing or empty; 401 "Invalid credentials" for an unknown username; for the first user with that name, 401 for a wrong password, then 403 for a disabled account, and success otherwise; a success carries an access token and a refresh token naming the user's id |
| AuthRoutes.LoginByAccount | backend/app/routes/auth.py:75-93 | with unique usernames, the account holding the username decides: wrong password 401, right password on a disabled account 403, right password on an active account tokens naming that account |
| AuthRoutes.LoginSucceedsIff | backend/app/routes/auth.py:75-93 | with unique usernames, a login succeeds exactly when some active account has that username and its password checks |
| AuthRoutes.RegisterThenLogin | backend/app/routes/auth.py:42-93 | a user who just registered logs in with the same credentials and receives tokens naming the new key |
| AuthRoutes.AuthServer.Logout | backend/app/routes/auth.py:96-103 | an admitted access token's id is added to the blocklist and nothing else changes; the blocklist only grows |
| AuthRoutes.LoggedOutTokenIsRefused | backend/app/routes/auth.py:132-135 | a blocklisted token opens no route, of either kind |
| AuthRoutes.RefreshToken | backend/app/routes/auth.py:106-113 | only a non-revoked refresh token is admitted, and it buys an access token for the same identity |
| AuthRoutes.RefreshKeepsIdentity | backend/app/routes/auth.py:106-126 | an access token obtained by refreshing opens `/auth/me` for the same user as the login did |
| AuthRoutes.LogoutKeepsRefreshUsable | backend/app/routes/auth.py:96-113 | after a logout blocklists the access token, that token is refused, but the refresh token from the same login still buys an access token that opens `/auth/me` for the same user |
| AuthRoutes.GetCurrentUser | backend/app/routes/auth.py:116-126 | only a non-revoked access token is admitted; 500 exactly when its identity is not an integer; otherwise the user under that id, or 404 |
| AuthRoutes.LoginThenMe | backend/app/routes/auth.py:85-126 | the access token from a login opens `/auth/me` for the same user while it is not revoked |
| AuthRoutes.KindsDoNotMix | backend/app/routes/auth.py:97-107 | a refresh token never opens a route wanting an access token, nor the reverse |
| AuthContext.ErrorText | frontend/src/contexts/AuthContext.js:53 | the server's message when it is non-empty, otherwise the fallback |
| AuthContext.InitialState | frontend/src/contexts/AuthContext.js:15-17 | the first render: no user, loading, and a token state mirroring storage |
| AuthContext.ForgetTokens | frontend/src/contexts/AuthContext.js:29-30 | both token keys are gone and every other stored key is kept |
| AuthContext.InitializeAuthStep | frontend/src/contexts/AuthContext.js:21-34 | asks `/auth/me` only when an access token is stored; keeps the user on success, forgets both tokens on failure; loading ends either way |
| AuthContext.Session.InitializeAuth | frontend/src/contexts/AuthContext.js:21-34 | the provider's fields change exactly as the start-up step says, and it sends the step's calls |
| AuthContext.StartupWithoutTokenIgnoresReply | frontend/src/contexts/AuthContext.js:22-23 | without a stored token start-up sends nothing, so the reply cannot matter |
| AuthContext.FailedStartupKeepsStaleToken | frontend/src/contexts/AuthContext.js:17-31 | a failed start-up leaves the token state set while storage holds no token |
| AuthContext.LoginStep | frontend/src/contexts/AuthContext.js:39-56 | on success both tokens are stored and token and user are set; on failure nothing changes and the message falls back to `Login failed` |
| AuthContext.Session.Login | frontend/src/contexts/AuthContext.js:39-56 | the provider's fields, the result and the calls are exactly those of the login step |
| AuthContext.LoginAuthenticates | frontend/src/contexts/AuthContext.js:44-111 | a successful login signs the user in with the token it stored |
| AuthContext.RegisterResult | frontend/src/contexts/AuthContext.js:58-68 | succeeds exactly when the request does, carrying its data; otherwise the server's message or `Registration failed` |
| AuthContext.Session.Register | frontend/src/contexts/AuthContext.js:58-68 | posts the registration once and reports that outcome; user, token, loading and storage stay as they were |
| AuthContext.LogoutStep | frontend/src/contexts/AuthContext.js:70-81 | whatever the server answers, both tokens are forgotten and token and user are cleared |
| AuthContext.Session.Logout | frontend/src/contexts/AuthContext.js:70-81 | the provider's fields and calls are exactly those of the logout step |
| AuthContext.LogoutIdempotent | frontend/src/contexts/AuthContext.js:70-81 | logging out twice ends where logging out once does |
| AuthContext.LogoutEndsSession | frontend/src/contexts/AuthContext.js:76-111 | after a logout nobody is signed in and no token is stored |
| AuthContext.LoginThenLogout | frontend/src/contexts/AuthContext.js:39-81 | a login followed by a logout ends where a logout alone ends |
| AuthContext.RefreshStep | frontend/src/contexts/AuthContext.js:83-101 | with a stored refresh token, a successful refresh stores and sets the new access token; a missing token or a failed request logs out and throws |
| AuthContext.Session.RefreshToken | frontend/src/contexts/AuthContext.js:83-101 | the provider's fields, the result and the calls are exactly those of the refresh step |
| AuthContext.RefreshFailureLogsOut | frontend/src/contexts/AuthContext.js:97-99 | a failed refresh, for whatever reason, leaves exactly the state of a logout |
| AuthContext.RefreshKeepsUser | frontend/src/contexts/AuthContext.js:92-96 | a successful refresh keeps the user and keeps the token state in step with storage |
| AuthContext.OperationsKeepTokenInSync | frontend/src/contexts/AuthContext.js:39-101 | login, logout and refresh keep the token state equal to the stored access token |
| AuthContext.Session.IsAuthenticated | frontend/src/contexts/AuthContext.js:111 | signed in exactly when there is a user |
| TimeEntryTable.HandleFilterChange | frontend/src/components/timeEntries/TimeEntryTable.js:5-8 | the changed key takes the new value and the other three keep theirs |
| TimeEntryTable.FilterChangeToSameValue | frontend/src/components/timeEntries/TimeEntryTable.js:5-8 | setting a key to its current value changes nothing |
| TimeEntryTable.FilterChangesCommute | frontend/src/components/timeEntries/TimeEntryTable.js:5-8 | changes to two different keys commute |
| TimeEntryTable.ClearFilters | frontend/src/components/timeEntries/TimeEntryTable.js:10-17 | every key is `''` whatever the filters were |
| TimeEntryTable.ClearIdempotent | frontend/src/components/timeEntries/TimeEntryTable.js:10-17 | clearing twice is clearing once, and clearing after any change is clearing |
| TimeEntryTable.FooterOf | frontend/src/components/timeEntries/TimeEntryTable.js:164-169 | the footer counts the entries shown and sums their durations, counting a missing duration as 0 |
| TimeEntryTable.EmptyStateFooter | frontend/src/components/timeEntries/TimeEntryTable.js:87-169 | when the empty message shows, the footer reads zero entries and zero hours |
| TimeEntryManagement.QueryParams | frontend/src/components/views/TimeEntryManagement.js:35-39 | each filter is sent exactly when it is set, under its parameter name and with its value, and nothing else is sent |
| TimeEntryManagement.NoFiltersSendNoParams | frontend/src/components/views/TimeEntryManagement.js:19-39 | the initial and the cleared filters send no parameter |
| TimeEntryManagement.NoFiltersListEverything | frontend/src/components/views/TimeEntryManagement.js:35-42 | with the filters cleared the listing returns exactly the user's own entries |
| TimeEntryManagement.BillableSelectFilters | frontend/src/components/views/TimeEntryManagement.js:39 | "Billable" lists only billable entries and "Non-Billable" only the others |
| TimeEntryManagement.FooterMatchesSummary | frontend/src/components/timeEntries/TimeEntryTable.js:164-169 | with billable set to "All", the footer's entry count and the seconds behind its hours equal the summary route's count and total seconds for the same parameters |
| TimeEntryManagement.ManagementView.Mode | frontend/src/components/views/TimeEntryManagement.js:136-147 | the modal is closed exactly when the form is hidden, and it edits the entry being edited; in a consistent page it edits exactly when an entry is held |
| TimeEntryManagement.ManagementView.FetchData | frontend/src/components/views/TimeEntryManagement.js:30-53 | sends the params built from the filters; keeps both lists only when both requests succeed; loading ends either way |
| TimeEntryManagement.ManagementView.HandleCreateEntry | frontend/src/components/views/TimeEntryManagement.js:60-63 | opens an empty form and leaves the rest of the page unchanged |
| TimeEntryManagement.ManagementView.HandleEditEntry | frontend/src/components/views/TimeEntryManagement.js:65-68 | opens the form on the given entry |
| TimeEntryManagement.ManagementView.HandleFormSubmit | frontend/src/components/views/TimeEntryManagement.js:82-86 | closes the form and reloads with the same filters |
| TimeEntryManagement.ManagementView.HandleFormCancel | frontend/src/components/views/TimeEntryManagement.js:88-91 | closes the form and forgets the entry |
| TimeEntryManagement.ManagementView.SetFilters | frontend/src/components/views/TimeEntryManagement.js:155 | the filter record is replaced by the table's and nothing else changes |

## Left out

- `launch.py`, configuration, application wiring and the Flask/React runtime are not part of this model. Neither is rendering: markup, CSS, tabs, `navigate`, `alert` and `console`.
- Timestamps are whole seconds, and `datetime.fromisoformat` is an abstract parser given to each route. This means:
  - the `int(delta.total_seconds())` truncation of fractional seconds does not arise;
  - `created_at`/`updated_at` are a clock reading given to `CreateProject`, or are left out.
- TimeEntryModel.HoursOrZero: hours are kept as the seconds they are computed from. `round(seconds / 3600, 2)` is floating point and is not modelled.
- TimeEntryManagement.FooterMatchesSummary: the footer rounds before it sums. It adds each entry's already rounded `duration_hours` (time_entry.py:43) and formats that sum with `toFixed(2)` (TimeEntryTable.js:168-169). The summary rounds the summed seconds once (time_entries.py:213). So the two hour figures can differ: three entries of 20 seconds show `0.03` h in the footer, but `total_hours` is `0.02`. The model states the agreement on seconds only.
- TimeEntryRoutes.GetSummary: the JSON carries only the entry count and three hour values. The model returns the summed seconds beside them.
- Password hashing (`generate_password_hash`, `check_password_hash`) and JWT signing are abstract:
  - a hasher and a checker are parameters;
  - a token is its kind, its `sub` identity and its `jti`.
- Token expiry, the JWT library's own error responses and their status codes are not modelled. `Guarded.Refused` stands for all of them.
- Text.ParseInt: Python's `int()` also accepts surrounding whitespace, a `+` sign and underscores; the model reads only optionally signed digit strings. For `/auth/me` nothing is lost, since identities are written by `str(user.id)`.
- TimeEntryRoutes.ArgsToQuery: a `project_id` query text such as `+5`, ` 5` or `1_0` filters by that project under Flask's `type=int`. The model reads it as no filter. The page itself only sends a project's id as rendered by the select's `value={project.id}` (TimeEntryTable.js:36), which is a plain digit string.
- Text.Lower: only ASCII letters are lower-cased. Python's `.lower()` also folds non-ASCII letters.
- The messages of the 400 responses for an unparsable create/update time omit the exception text that the source appends after the colon.
- The following are not modelled:
  - database commit failures and the 500 responses of their `except` blocks (auth.py:61-64, projects.py:70-73);
  - a request body that is not JSON (`data` is None);
  - JSON `null` values in place of strings.
- The sessions' atomicity is modelled as "the table changes only on success"; concurrency between requests is not modelled.
- `entry.project_name` and `updated_at` in `TimeEntry.to_dict`, and `created_at` in `User.to_dict`, are left out of the views.
- AuthContext: `logout()` is not awaited inside `refreshToken`. The model lets it complete before the error is rethrown; the interleaving with other handlers is not modelled.
- TimeEntryManagement: `handleDeleteEntry`' confirmation dialog and refetch, `handleLogout`, the active tab, and the `useEffect` that reruns `fetchData` after each filter change are not modelled separately. The delete itself is `TimeEntryRoutes.DeleteTimeEntry`; a filter change is `SetFilters` followed by `FetchData`.
- TimeEntryTable.HandleFilterChange: the input `name` ranges over the four filter keys. An unknown name that would add a fifth key cannot occur with the table's inputs.
- `user.py`'s `set_password`/`check_password` are the abstract hasher and checker. The `users` table's `time_entries` cascade is not modelled, because no route deletes users.
