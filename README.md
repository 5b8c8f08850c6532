# fastapi-todo-api, modelled in Dafny

This project models the core of a small FastAPI to-do service. Users register and log
in. Each user owns tasks with a title, an optional description and one of three
statuses: "New", "In Progress" and "Completed". The task routes come in three variants:

- `app/routes/tasks.py` takes the caller from a temporary `X-User-Id` header.
- `app/routes/tasks_backup.py` takes the caller from a bearer token resolved by `get_current_user`.
- `app/routes/tasks_faulty.py` works over `models_faulty.py` and `schemas_faulty.py`. It has no completion route and checks the status filter explicitly.

The database is modelled as a value `Models.Store`. It holds the `tasks` and `users`
tables as maps from primary key to row, plus the next value of each id sequence.
`Models.Valid` holds the constraints the Postgres schema enforces:

- ids lie below their sequence, and both sequences stay within the `integer` (int4) range;
- titles fit `String(200)`, owner ids fit the int4 `user_id` column, and user columns fit their widths;
- no stored string holds U+0000, which the driver cannot send;
- every task's owner exists (the foreign key);
- usernames are unique.

Every handler is specified twice:

- **Pure function.** Modules `Handlers` and `Auth` give each handler as a function from the old store to an `Outcome`, which is the new store plus the HTTP response. This function is the reference definition, and the handler properties are lemmas about it.
- **Imperative method.** The class `Database.Db` holds the tables as mutable fields. Its methods perform the handlers' reads, `setattr` loop and commit in place. Each method is proved to produce exactly the store and response of the matching function.

The route modules `Tasks`, `TasksBackup` and `TasksFaulty` put each variant's way of
identifying the caller in front of those methods.

Persistence follows Postgres, the database `app/database.py` connects to:

- **Flushing a row**, in the order the failures arise:
  - a string holding U+0000 makes the psycopg2 driver raise `ValueError` before anything reaches the server;
  - a value too long for its column, an owner id outside int4, or an id sequence past 2^31-1 raises `DataError`;
  - a null in a NOT NULL column raises `IntegrityError`;
  - an unknown owner raises `IntegrityError` through the foreign key, and so does a taken username through the unique constraint.
- **Commit is atomic.** A rollback, or an uncaught error, leaves every table and sequence as it was.
- `create_task` turns `ValueError` into 400 "Invalid status", whatever raised it, and `IntegrityError` into 400. It does not catch `DataError`, and that failure is modelled as `InternalError` (500).
- `update_task` catches none of them. A patch with an explicit `null` title or status, a too-long title, or a U+0000 therefore fails with 500.
- `register` catches only `IntegrityError`; `login` catches nothing, so a username holding U+0000 is a 500 there.
- The listings bind their `OFFSET` as a bigint: a page whose `(page - 1) * limit` exceeds 2^63-1 fails with `DataError`, a 500.

The status column of `app/models.py` is a native enum and stores member names. The one of
`app/models_faulty.py` stores member values (`values_callable`). Both map back to the same
three members.

The foreign calls of `app/security.py` are parameters of the functions that use them:

- `hashPassword`, the password hash;
- `verifyPassword`, the password check;
- `createAccessToken`, the token encoder;
- `decodeToken`, the token decoder.

The subject claim is written with `str()` and read back with `int()`. These are modelled by
`Decimal.IntToString` and `Decimal.ParseInt`, with their round trip proved.

## Model

| member | source | states |
|---|---|---|
| Http.Error.Code | app/routes/tasks.py:124-131 | Every error kind maps to its HTTP status. The five 400 kinds are exactly: missing header, invalid status, integrity error, short password, duplicate username. |
| Status.FromValue | app/models.py:8-11 | `TaskStatus(s)` succeeds exactly for "New", "In Progress" and "Completed", and returns the member with that value. |
| Status.FromName | app/models.py:8-11 | Lookup by member name succeeds exactly for NEW, IN_PROGRESS and COMPLETED, and returns the member with that name. |
| Status.ValueRoundTrip | app/models.py:8-11 | Member to value to member, and member to name to member, are both the identity. |
| Status.ValueInjective | app/models.py:8-11 | Two members have the same value only if they are the same member. |
| Status.MembersExhaustive | app/models.py:8-11 | The enumeration has exactly three members, in declaration order. |
| Decimal.NatToString | app/security.py:28 | `str(n)` of a natural number is a non-empty string of ASCII digits. |
| Decimal.ParseInt | app/routes/auth.py:60 | `int(s)` succeeds exactly for an optional sign followed by at least one digit. The sign decides the result's sign. |
| Decimal.DigitsOfNat | app/security.py:28 | Reading back the digits of `str(n)` gives `n`. |
| Decimal.ParseUnsigned | app/routes/auth.py:60 | An unsigned numeral parses to the value of its digits. |
| Decimal.ParseNegative | app/routes/auth.py:60 | A `-` before a numeral parses to the negated value of its digits. |
| Decimal.ParseShowRoundTrip | app/routes/auth.py:60 | `int(str(n)) == n` for every integer. |
| Decimal.ShowInjective | app/security.py:28 | Distinct integers have distinct `str()` forms, so a subject names one user. |
| Models.Assign | app/routes/tasks.py:185-186 | One `setattr` changes only the named field, to the given value. The owner is never touched. |
| Models.AssignAllAppend | app/routes/tasks.py:185-186 | Running the assignment loop over `a + b` is running it over `a`, then over `b`. |
| Models.FlushTask | app/models.py:28-45 | A task row is accepted iff its strings hold no U+0000, its title is present and at most 200 characters, its owner id fits int4 and exists, and its status is present. A U+0000 is the driver's `ValueError`; then an over-long title or an owner outside int4 is `DataError`; any other failure is `IntegrityError`. An accepted row fits its columns. |
| Models.FlushUser | app/models.py:13-20 | A user row is accepted iff its strings hold no U+0000, its columns fit their widths and its username is not taken. The failures are `ValueError`, then `DataError`, then `IntegrityError`, in that order. |
| Models.DeleteUser | app/models.py:22-26 | Deleting a user removes exactly that user and exactly the tasks it owns, changes no other row, and keeps the store valid. |
| Models.StatusColumnValue | app/models.py:34-38 | The native enum column stores a member's name, which loads back as that member. |
| Models.StatusColumnLoad | app/models.py:34-38 | Only the three member names load. Each loads as the member whose stored form it is. |
| ModelsFaulty.TaskStatusValues | app/models_faulty.py:21-22 | `task_status_values` is ["New", "In Progress", "Completed"] in declaration order. A string is in it iff `TaskStatus(s)` succeeds. |
| ModelsFaulty.StatusColumnValue | app/models_faulty.py:48-55 | The VARCHAR column stores a member's value, one of `task_status_values`, which `TaskStatus()` maps back to the member. |
| ModelsFaulty.StatusColumnBind | app/models_faulty.py:48-55 | With `validate_strings`, a string binds iff it is one of the three values, and it binds to the member with that value. |
| Schemas.LiteralIsEnum | app/schemas.py:7 | `StatusLiteral` admits exactly the strings `TaskStatus()` accepts, which are the values of the members. |
| Schemas.TaskCreateWithDefaults | app/schemas.py:9-12 | A payload with only a title has no description and the status "New", which casts to the column default NEW. |
| Schemas.FieldValue | app/schemas.py:17-20 | An update field left out reads as None; a field that was sent reads as the value sent. |
| Schemas.Dump | app/routes/tasks.py:178 | `model_dump(exclude_unset=True)` has one entry per field that was sent, carrying the value sent, and no other entries. |
| Schemas.ToOut | app/schemas.py:22-31 | `TaskOut` copies id, title, description and owner. It renders the status as the member's value, which is a `StatusLiteral`. |
| SchemasFaulty.ValidTaskCreate | app/schemas_faulty.py:24-27 | The faulty create schema checks only the status literal. Everything the bounded schema admits, it admits too. |
| SchemasFaulty.ValidTaskUpdate | app/schemas_faulty.py:29-32 | The faulty update schema checks only a given status literal. Everything the bounded schema admits, it admits too. |
| SchemasFaulty.UnboundedTitles | app/schemas_faulty.py:24-27 | An empty title and a 201-character title both pass the faulty create schema and both fail the bounded one. |
| Ordering.Max | app/routes/tasks.py:49 | The result belongs to the non-empty set and no element of the set exceeds it. |
| Ordering.SortedDesc | app/routes/tasks.py:49 | `order_by(id.desc())` lists every selected id exactly once, in strictly decreasing order. |
| Listing.Selected | app/routes/tasks.py:43-45 | An id is selected iff its task has the requested owner (if any) and the requested status (if any). |
| Listing.Offset | app/routes/tasks.py:50 | `(page - 1) * limit` is never negative for a valid page and limit. |
| Listing.WindowLength | app/routes/tasks.py:50-51 | `offset().limit()` keeps at most `limit` rows, and a non-empty window ends within the rows. |
| Listing.PageIdSeq | app/routes/tasks.py:48-51 | A page's ids are the id-descending selection from the offset on, position by position, and as many as the window allows. |
| Listing.PageIdsSelectedDescending | app/routes/tasks.py:48-51 | Every id on a page is selected, and the page runs in strictly decreasing id order. |
| Listing.PageOf | app/routes/tasks.py:48-54 | `total` is the size of the selection. Item `i` is the task at position `offset + i` of the id-descending selection, and the item count is the window's length. |
| Listing.Paginate | app/routes/tasks.py:43-54 | `total` is the size of the filtered selection, whatever the page. Item `i` is the task at position `offset + i` of the id-descending selection. At most `limit` items are returned (the exact count is stated), and page and limit are echoed back. |
| Listing.PageRows | app/routes/tasks.py:43-52 | Every row of a page is a task that matches the owner scope and the status filter, rendered as its `TaskOut`, and the rows run in decreasing id order. |
| Listing.PositionOnPage | app/routes/tasks.py:48-52 | The task at position `k` of the sorted selection is on the page whose window covers `k`. |
| Listing.PagesDisjoint | app/routes/tasks.py:48-52 | Two different pages of the same listing share no task. |
| Listing.EverySelectedTaskIsPaged | app/routes/tasks.py:48-52 | Every selected task appears on some page between 1 and `ceil(total / limit)`. |
| Listing.PagesWithinSelection | app/routes/tasks.py:48-52 | A page only ever lists selected tasks. |
| Handlers.GetTask | app/routes/tasks.py:92-96 | 404 exactly when the id is absent. Otherwise the stored task, rendered, with no ownership check. |
| Handlers.CreateTask | app/routes/tasks.py:112-131 | Checks run in order: an unknown status or a U+0000 in title or description is 400 "Invalid status"; an over-long title, a caller id outside int4 or an exhausted task sequence is 500; an unknown owner is 400. Success holds exactly when none applies. It inserts the one task with the given fields, owned by the caller, under the sequence's next id, advances that sequence, and changes no other table or sequence. A failure changes nothing. |
| Handlers.CompleteTask | app/routes/tasks.py:150-161 | 404, then 403, with no change. The owner's call sets that task's status to Completed and changes nothing else. It writes nothing if the task is already completed. |
| Handlers.CompleteIdempotent | app/routes/tasks.py:156-161 | Completing twice gives the same store and the same response as completing once. |
| Handlers.CastAll | app/routes/tasks.py:179-181 | The status cast keeps the length and turns entry `i` of the dump into the assignment of the same field, with the enum member for a given status. |
| Handlers.CastAllAppend | app/routes/tasks.py:179-181 | The cast of a concatenation is the concatenation of the casts. |
| Handlers.PatchData | app/routes/tasks.py:178-183 | The patch fails with 400 exactly when a non-null status is not an enum value. Otherwise it gives one assignment per field that was sent. |
| Handlers.PatchDataSplits | app/routes/tasks.py:178-181 | When the status casts, the patch's assignments are the cast title entry, description entry and status entry, in that order. |
| Handlers.SetattrLoopIsPatch | app/routes/tasks.py:178-186 | The `setattr` loop over the dumped, cast patch yields the reference partial update: sent fields take the value sent, other fields and the owner keep theirs. |
| Handlers.UpdateTask | app/routes/tasks.py:172-190 | Checks run in order: 404, 403, invalid status 400, then 500 for a null title or status, an over-long title or a U+0000 in a sent string. Success holds exactly when none applies. Only the sent fields of that one task change, users and sequences stay, and a failure changes nothing. |
| Handlers.EmptyPatchChangesNothing | app/routes/tasks.py:178-190 | An owner's patch with no field set leaves the store as it was and answers with the task. |
| Handlers.DeleteTask | app/routes/tasks.py:205-213 | 404, then 403, with no change. The owner's delete removes exactly that id and keeps every other task, the users and both sequences. |
| Handlers.OwnerOnlyOperationsAgree | app/routes/tasks.py:150-154 | Complete, update and delete give 404 in the same cases and 403 in the same cases, whatever the patch. |
| Handlers.ValidCreateOnlyFailsOnOwner | app/schemas.py:9-12 | A payload the bounded schema accepts never fails on its title. With a U+0000 it gets 400 "Invalid status". Otherwise it is created iff the caller exists and the task sequence is not exhausted; with sequence room, an unknown caller gets 400 when the id fits int4 and 500 when it does not. |
| Handlers.ValidUpdateFailsOnlyOnNull | app/schemas.py:17-20 | For an owner and a payload the bounded schema accepts, the update succeeds iff neither title nor status is an explicit null and no sent string holds U+0000. Otherwise it fails with 500. |
| Auth.NewUser | app/routes/auth.py:28-33 | The row to insert carries `hash_password(plain)` as its password, and the payload's names and username. |
| Auth.Register | app/routes/auth.py:24-39 | A short password (under 6) is 400; then a U+0000 in the row, an over-long column or an exhausted user sequence is 500; then a taken username is 400. Success holds exactly when none applies. It inserts the one user with the hashed password under the sequence's next id, advances that sequence, and leaves the tasks and their sequence alone. A failure changes nothing. |
| Auth.FindByUsername | app/routes/auth.py:43 | The user with that username if one exists, and then the only one. |
| Auth.Login | app/routes/auth.py:41-46 | A username holding U+0000 is 500. Otherwise 401 unless some user has that username and the password verifies against the stored digest. On success, a token created for that user's id. |
| Auth.ClaimedUserId | app/routes/auth.py:57-62 | The `try` block fails unless a token is present, it decodes, and any `sub` is an integer string. A present `sub` yields `int(sub)`. |
| Auth.GetCurrentUser | app/routes/auth.py:48-66 | 401 unless the token decodes to a `sub` whose `int()` is non-zero and names a stored user. On success, that user's id. |
| Auth.UnknownSubjectRefused | app/routes/auth.py:63-66 | A decodable token without `sub`, with a non-integer `sub`, or naming no user is refused with 401. |
| Auth.LoginTokenAuthenticates | app/routes/auth.py:41-66 | A token issued by `login` authenticates the user who logged in, provided decoding returns the subject `str(id)` it was created with. |
| Database.ApplyAssignments | app/routes/tasks.py:185-186 | Applying the dumped fields one by one gives the same draft as assigning the whole list. |
| Database.Db.CreateTask | app/routes/tasks.py:112-122 | The in-place insert leaves tables and sequences, and answers, exactly as `Handlers.CreateTask`, and keeps the store valid. |
| Database.Db.CompleteTask | app/routes/tasks.py:150-161 | The in-place status assignment matches `Handlers.CompleteTask` exactly. |
| Database.Db.UpdateTask | app/routes/tasks.py:172-190 | The `setattr` loop over the patch, then the flush, match `Handlers.UpdateTask` exactly. |
| Database.Db.DeleteTask | app/routes/tasks.py:205-213 | The in-place delete matches `Handlers.DeleteTask` exactly. |
| Database.Db.Register | app/routes/auth.py:26-39 | The in-place user insert matches `Auth.Register` exactly. |
| Tasks.GetCurrentUserId | app/routes/tasks.py:14-23 | 400 exactly when the `X-User-Id` header is absent. Otherwise the header's value. |
| Tasks.ListTasks | app/routes/tasks.py:37-54 | 500 exactly when the offset exceeds 2^63-1. Otherwise one page of all users' tasks with the requested status, where `total` counts every task, or every task of that status. |
| Tasks.ListMyTasks | app/routes/tasks.py:69-87 | 400 without the header. Otherwise the page of the header user's tasks (500 past the bigint offset), listing only that user's tasks, with `total` counting the user's tasks that match. |
| Tasks.MineWithinAll | app/routes/tasks.py:76-78 | The caller's selection is the all-tasks selection restricted to the caller's tasks. |
| Tasks.CreateTask | app/routes/tasks.py:107-131 | 400 without the header, with no change. Otherwise `create_task` for the header's user. For a bounded-schema payload without U+0000 and with room in the task sequence, it succeeds iff the header names a stored user; otherwise it gets 400 for an int4 id and 500 for one outside int4. |
| Tasks.CompleteTask | app/routes/tasks.py:145-161 | 400 without the header, with no change. Otherwise the owner-only completion for the header's user. |
| Tasks.UpdateTask | app/routes/tasks.py:166-190 | 400 without the header, with no change. Otherwise the owner-only partial update for the header's user. |
| Tasks.DeleteTask | app/routes/tasks.py:200-213 | 400 without the header, with no change. Otherwise the owner-only delete for the header's user. |
| TasksBackup.ListTasks | app/routes/tasks_backup.py:27-45 | 401 exactly when the token does not authenticate. Otherwise the listing of all tasks, with its 500 past the bigint offset. |
| TasksBackup.ListMyTasks | app/routes/tasks_backup.py:59-77 | 401 exactly when the token does not authenticate. Otherwise the listing of the authenticated user, a stored user, whose rows are that user's tasks only. |
| TasksBackup.GetTask | app/routes/tasks_backup.py:82-90 | 401 before the lookup. An authenticated caller may read any task. |
| TasksBackup.CreateTask | app/routes/tasks_backup.py:101-125 | 401 with no change. Otherwise a create owned by the authenticated user, which always succeeds for a bounded-schema payload without U+0000 while the task sequence has room. |
| TasksBackup.CompleteTask | app/routes/tasks_backup.py:139-155 | 401 with no change. Otherwise the owner-only completion for the authenticated user. |
| TasksBackup.UpdateTask | app/routes/tasks_backup.py:160-184 | 401 with no change. Otherwise the owner-only partial update for the authenticated user. |
| TasksBackup.DeleteTask | app/routes/tasks_backup.py:194-207 | 401 with no change. Otherwise the owner-only delete for the authenticated user. |
| TasksFaulty.StatusFilter | app/routes/tasks_faulty.py:32-37 | An absent filter selects every status. A given one either casts to its member or yields 400. |
| TasksFaulty.LiteralFilterCasts | app/routes/tasks_faulty.py:27 | Every filter of the literal type casts, so the explicit 400 branch is never reached. |
| TasksFaulty.ListTasks | app/routes/tasks_faulty.py:25-54 | 400 exactly for a filter that does not cast. Otherwise the listing of all tasks with that status, with its 500 past the bigint offset. |
| TasksFaulty.ListMyTasks | app/routes/tasks_faulty.py:59-86 | 400 without the header; with it, 400 exactly for a filter that does not cast. Otherwise the listing of the header user's tasks, whose rows are that user's only. |
| TasksFaulty.ListingsAgreeWithTasks | app/routes/tasks_faulty.py:25-86 | For every literal filter, and for none, both listings equal those of `app/routes/tasks.py`. |
| TasksFaulty.CreateTask | app/routes/tasks_faulty.py:100-123 | 400 without the header, with no change. Otherwise `create_task` for the header's user. A schema-valid title over 200 characters gets 500. |
| TasksFaulty.UpdateTask | app/routes/tasks_faulty.py:128-152 | 400 without the header, with no change. Otherwise the owner-only partial update. |
| TasksFaulty.DeleteTask | app/routes/tasks_faulty.py:157-170 | 400 without the header, with no change. Otherwise the owner-only delete. |
| TasksFaulty.LongTitleBreaksCreate | app/schemas_faulty.py:24-27 | For a stored user, a 201-character title passes the faulty schema, fails the bounded one, and makes the create fail with 500. |

Five functions are plumbing with no row of their own, because their contracts say no more than their bodies and the handlers' contracts above state their effect in full. `Database.Db.Get` is `db.get(Task, id)`. `Listing.Render` turns page ids into `TaskOut` rows. `Listing.ListPage` puts the bigint offset check in front of `Listing.Paginate`. `Models.InsertTask` and `Models.InsertUser` put the int4 id sequence in front of the flushes.

`get_task` of `app/routes/tasks.py` (lines 91-96) and of `app/routes/tasks_faulty.py`
(lines 90-95) is `Handlers.GetTask` itself. The two `get_current_user_id` functions are
identical (`app/routes/tasks.py:14-23` and `app/routes/tasks_faulty.py:15-20`), so both
variants use `Tasks.GetCurrentUserId`.

## Left out

- app/security.py: bcrypt hashing, verification, JWT encoding and decoding are foreign calls. They are function parameters. The token's expiry, the clock and the signing key are not modelled.
- app/database.py, app/config.py and app/main.py are not part of this model. They cover the engine, the session factory, settings, application wiring and `create_all`. `Database.Db`'s constructor stands for the freshly created empty schema.
- Session mechanics are not modelled: `refresh`, autoflush and `close`, transaction isolation and concurrent requests. Each handler is one atomic step on the store.
- Id sequences: a rolled-back insert does not consume a sequence value in this model. Postgres does consume one, because `nextval` is not rolled back, so the model does not reproduce the gaps this leaves in ids, nor a sequence exhausted by failed inserts alone.
- Errors raised inside the foreign calls are not modelled, since those calls are parameters. An example is a library refusing to hash a password holding U+0000.
- Request validation by FastAPI and Pydantic (422 responses) is not modelled. It covers the `page >= 1` and `1 <= limit <= 100` query bounds, which become preconditions of the listings. It also covers the `StatusLiteral` and title-length checks, which appear as the predicates `Schemas.ValidTaskCreate`, `Schemas.ValidTaskUpdate` and their faulty counterparts, used in lemmas. The handlers themselves accept any payload, as their bodies do.
- Detail messages and the `WWW-Authenticate` header of error responses are not modelled; only the status kind is.
- The `UserCreate`, `UserOut`, `LoginRequest` and `Token` payloads auth.py uses are not defined in app/schemas.py. They are modelled as plain records with no validation.
- Decimal.ParseInt: the model does not accept the surrounding whitespace, underscores between digits or non-ASCII digits that Python's `int()` also accepts.
- Auth.ClaimedUserId: a `sub` claim is modelled as a string. A token whose `sub` is some other JSON type is not modelled.
- Query features the tests expect but the handlers do not implement are absent here as in the code: `q` search, `sort_by`/`sort_dir`, `total_pages` and `/auth/me`.
- Response status codes 200, 201 and 204 are the constants `Http.OK`, `Http.CREATED` and `Http.NO_CONTENT`. They are not attached to each handler's result.
- Models.DeleteUser: no route deletes users. The function states what the cascade does when a user row is deleted.

## Findings

| source | as written | input that shows it | evidently intended | confidence | as-written member | corrected member |
|---|---|---|---|---|---|---|
| app/schemas_faulty.py:24-27 | `TaskCreate.title` is a plain `str` with no length bound, while the column is `String(200)` and `create_task` catches only `ValueError` and `IntegrityError`. | A stored user posts `{"title": "a" * 201}`: the schema accepts it, the flush raises `DataError`, and the request ends in 500. | A title over 200 characters should be refused as a client error, as the `max_length=200` of app/schemas.py does. | not executed | TasksFaulty.LongTitleBreaksCreate | Handlers.ValidCreateOnlyFailsOnOwner |
