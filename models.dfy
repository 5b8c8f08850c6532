/**
 * The ORM tables `users` and `tasks` (app/models.py; app/models_faulty.py declares the same
 * rows), the abstract database they live in, and the checks the database applies when a
 * row is flushed.
 */
module Models {
  import opened Wrappers
  import opened Status

  /** Column widths: `String(200)`, `String(50)`, `String(50)`, `String(255)`. */
  const TITLE_MAX: nat := 200
  const FIRST_NAME_MAX: nat := 50
  const USERNAME_MAX: nat := 50
  const PASSWORD_MAX: nat := 255

  /**
   * Postgres `integer` (int4), the type of `tasks.user_id` and of both serial ids, and
   * `bigint` (int8), the type of an `OFFSET`. A value outside the range is a `DataError`.
   */
  const INT4_MIN: int := -0x8000_0000
  const INT4_MAX: int := 0x7FFF_FFFF
  const INT8_MAX: int := 0x7FFF_FFFF_FFFF_FFFF

  predicate InInt4(n: int)
  {
    INT4_MIN <= n <= INT4_MAX
  }

  /**
   * psycopg2 refuses to bind a string holding U+0000: it raises a plain `ValueError`
   * before the statement reaches the server.
   */
  predicate NulFree(s: string)
  {
    forall i :: 0 <= i < |s| ==> s[i] != '\0'
  }

  predicate NulFreeOpt(s: Option<string>)
  {
    s.Some? ==> NulFree(s.value)
  }

  /** The column default of `tasks.status`. */
  const DEFAULT_STATUS: TaskStatus := New

  /** A stored `tasks` row; its id is the key it is stored under. */
  datatype Task = Task(title: string, description: Option<string>, status: TaskStatus, userId: int)

  /** A stored `users` row; `password` holds the digest, never the plaintext. */
  datatype User = User(firstName: string, lastName: Option<string>, username: string, password: string)

  /**
   * The database: both tables keyed by primary key, and the next value of each id
   * sequence. Every committed handler turns one Store into the next one, atomically.
   */
  datatype Store = Store(tasks: map<int, Task>, users: map<int, User>, nextTaskId: int, nextUserId: int)

  predicate TaskFits(t: Task)
  {
    |t.title| <= TITLE_MAX && InInt4(t.userId)
  }

  predicate UserFits(u: User)
  {
    |u.firstName| <= FIRST_NAME_MAX && |u.username| <= USERNAME_MAX && |u.password| <= PASSWORD_MAX
  }

  predicate TaskNulFree(t: Task)
  {
    NulFree(t.title) && NulFreeOpt(t.description)
  }

  predicate UserNulFree(u: User)
  {
    NulFree(u.firstName) && NulFreeOpt(u.lastName) && NulFree(u.username) && NulFree(u.password)
  }

  /** `unique=True` on `users.username`. */
  predicate UniqueUsernames(users: map<int, User>)
  {
    forall a, b :: a in users && b in users && a != b ==> users[a].username != users[b].username
  }

  predicate UsernameTaken(users: map<int, User>, name: string)
  {
    exists id :: id in users && users[id].username == name
  }

  /** Owner check shared by every owner-only operation. */
  predicate IsOwner(t: Task, caller: int)
  {
    t.userId == caller
  }

  /**
   * What the schema guarantees of every committed state: serial ids start at 1, stay
   * below their sequence and the sequence never passes the int4 range, columns fit
   * their types, no stored string holds U+0000, `tasks.user_id` references a user
   * (non-null foreign key), and usernames are unique.
   */
  predicate Valid(s: Store)
  {
    && 1 <= s.nextTaskId <= INT4_MAX + 1 && 1 <= s.nextUserId <= INT4_MAX + 1
    && (forall id :: id in s.tasks ==> 1 <= id < s.nextTaskId)
    && (forall id :: id in s.tasks ==> TaskFits(s.tasks[id]) && TaskNulFree(s.tasks[id]) && s.tasks[id].userId in s.users)
    && (forall id :: id in s.users ==> 1 <= id < s.nextUserId && UserFits(s.users[id]) && UserNulFree(s.users[id]))
    && UniqueUsernames(s.users)
  }

  /** Adding a row under the next task id keeps the store valid. */
  lemma AddTaskKeepsValid(s: Store, t: Task)
    requires Valid(s) && s.nextTaskId <= INT4_MAX
    requires TaskFits(t) && TaskNulFree(t) && t.userId in s.users
    ensures Valid(s.(tasks := s.tasks[s.nextTaskId := t], nextTaskId := s.nextTaskId + 1))
  {
  }

  /** Replacing a stored task by a row that fits and references a user keeps the store valid. */
  lemma ReplaceTaskKeepsValid(s: Store, id: int, t: Task)
    requires Valid(s) && id in s.tasks
    requires TaskFits(t) && TaskNulFree(t) && t.userId in s.users
    ensures Valid(s.(tasks := s.tasks[id := t]))
  {
  }

  /** Removing a task keeps the store valid. */
  lemma RemoveTaskKeepsValid(s: Store, id: int)
    requires Valid(s)
    ensures Valid(s.(tasks := s.tasks - {id}))
  {
  }

  /** Adding a user with a fresh username under the next user id keeps the store valid. */
  lemma AddUserKeepsValid(s: Store, u: User)
    requires Valid(s) && s.nextUserId <= INT4_MAX
    requires UserFits(u) && UserNulFree(u) && !UsernameTaken(s.users, u.username)
    ensures Valid(s.(users := s.users[s.nextUserId := u], nextUserId := s.nextUserId + 1))
  {
  }

  /**
   * What a flush can raise: the driver's `ValueError` for a string holding U+0000, and
   * the server's `DataError` and `IntegrityError`.
   */
  datatype DbError = NulInParameter | DataError | IntegrityError

  /** A `Task` object in the session before it is flushed: attributes can hold `None`. */
  datatype TaskDraft = TaskDraft(title: Option<string>, description: Option<string>, status: Option<TaskStatus>, userId: int)

  function Staged(t: Task): TaskDraft
  {
    TaskDraft(Some(t.title), t.description, Some(t.status), t.userId)
  }

  /** One `setattr(task, field, value)` of a patch. */
  datatype Assignment =
    | AssignTitle(title: Option<string>)
    | AssignDescription(description: Option<string>)
    | AssignStatus(status: Option<TaskStatus>)

  function Assign(d: TaskDraft, a: Assignment): (r: TaskDraft)
    ensures r.userId == d.userId
    ensures r.title == (if a.AssignTitle? then a.title else d.title)
    ensures r.description == (if a.AssignDescription? then a.description else d.description)
    ensures r.status == (if a.AssignStatus? then a.status else d.status)
  {
    match a
    case AssignTitle(v) => d.(title := v)
    case AssignDescription(v) => d.(description := v)
    case AssignStatus(v) => d.(status := v)
  }

  /** The assignments applied one after the other, in order. */
  function AssignAll(d: TaskDraft, data: seq<Assignment>): TaskDraft
    decreases |data|
  {
    if data == [] then d else Assign(AssignAll(d, data[..|data| - 1]), data[|data| - 1])
  }

  lemma {:induction false} AssignAllAppend(d: TaskDraft, a: seq<Assignment>, b: seq<Assignment>)
    ensures AssignAll(d, a + b) == AssignAll(AssignAll(d, a), b)
    decreases |b|
  {
    if b == [] {
      assert a + b == a;
    } else {
      var last := b[|b| - 1];
      assert (a + b)[..|a + b| - 1] == a + b[..|b| - 1];
      AssignAllAppend(d, a, b[..|b| - 1]);
      assert AssignAll(d, a + b) == Assign(AssignAll(d, a + b[..|b| - 1]), last);
    }
  }

  predicate DraftNulFree(d: TaskDraft)
  {
    NulFreeOpt(d.title) && NulFreeOpt(d.description)
  }

  /** The values Postgres cannot convert to the column types: a `DataError`. */
  predicate DraftOutOfRange(d: TaskDraft)
  {
    (d.title.Some? && |d.title.value| > TITLE_MAX) || !InInt4(d.userId)
  }

  /**
   * Flushing a task row, in the order the checks happen: the driver refuses a string
   * holding U+0000; the server then fails to convert a title longer than the column or
   * an owner id outside int4 (`DataError`), and finally checks NOT NULL on title and
   * status and the foreign key on the owner (`IntegrityError`).
   */
  function FlushTask(users: map<int, User>, d: TaskDraft): (r: Result<Task, DbError>)
    ensures r.Ok? <==> DraftNulFree(d) && !DraftOutOfRange(d) && d.title.Some? && d.status.Some? && d.userId in users
    ensures r.Ok? ==> r.value == Task(d.title.value, d.description, d.status.value, d.userId)
                      && TaskFits(r.value) && TaskNulFree(r.value)
    ensures !DraftNulFree(d) ==> r == Err(NulInParameter)
    ensures DraftNulFree(d) && DraftOutOfRange(d) ==> r == Err(DataError)
    ensures r.Err? && DraftNulFree(d) && !DraftOutOfRange(d) ==> r == Err(IntegrityError)
  {
    if !DraftNulFree(d) then Err(NulInParameter)
    else if DraftOutOfRange(d) then Err(DataError)
    else if d.title.None? || d.status.None? then Err(IntegrityError)
    else if d.userId !in users then Err(IntegrityError)
    else Ok(Task(d.title.value, d.description, d.status.value, d.userId))
  }

  /**
   * An INSERT into `tasks`: as the row is formed the serial id is drawn from its int4
   * sequence, which fails with a `DataError` once exhausted; that happens on the server,
   * after the driver has bound the strings and before any constraint is checked.
   */
  function InsertTask(s: Store, d: TaskDraft): (r: Result<Task, DbError>)
    ensures s.nextTaskId <= INT4_MAX ==> r == FlushTask(s.users, d)
    ensures s.nextTaskId > INT4_MAX ==> r == (if DraftNulFree(d) then Err(DataError) else Err(NulInParameter))
  {
    if s.nextTaskId > INT4_MAX && DraftNulFree(d) then Err(DataError) else FlushTask(s.users, d)
  }

  /**
   * Flushing a user row: the driver refuses U+0000, an over-long column is a
   * `DataError`, a username already in the table trips the unique constraint
   * (`IntegrityError`).
   */
  function FlushUser(users: map<int, User>, u: User): (r: Result<User, DbError>)
    ensures r.Ok? <==> UserNulFree(u) && UserFits(u) && !UsernameTaken(users, u.username)
    ensures r.Ok? ==> r.value == u
    ensures !UserNulFree(u) ==> r == Err(NulInParameter)
    ensures UserNulFree(u) && !UserFits(u) ==> r == Err(DataError)
    ensures UserNulFree(u) && UserFits(u) && UsernameTaken(users, u.username) ==> r == Err(IntegrityError)
  {
    if !UserNulFree(u) then Err(NulInParameter)
    else if !UserFits(u) then Err(DataError)
    else if UsernameTaken(users, u.username) then Err(IntegrityError)
    else Ok(u)
  }

  /** An INSERT into `users`, drawing the id from the int4 sequence like `InsertTask`. */
  function InsertUser(s: Store, u: User): (r: Result<User, DbError>)
    ensures s.nextUserId <= INT4_MAX ==> r == FlushUser(s.users, u)
    ensures s.nextUserId > INT4_MAX ==> r == (if UserNulFree(u) then Err(DataError) else Err(NulInParameter))
  {
    if s.nextUserId > INT4_MAX && UserNulFree(u) then Err(DataError) else FlushUser(s.users, u)
  }

  /**
   * Deleting a user cascades to their tasks (`ondelete="CASCADE"`, and the ORM's
   * `cascade="all, delete-orphan"`): the foreign key keeps holding.
   */
  function DeleteUser(s: Store, uid: int): (r: Store)
    requires Valid(s)
    ensures Valid(r)
    ensures uid !in r.users && r.users.Keys == s.users.Keys - {uid}
    ensures forall id :: id in r.users ==> r.users[id] == s.users[id]
    ensures forall id :: id in r.tasks <==> id in s.tasks && s.tasks[id].userId != uid
    ensures forall id :: id in r.tasks ==> r.tasks[id] == s.tasks[id]
  {
    s.(users := s.users - {uid},
       tasks := map id | id in s.tasks && s.tasks[id].userId != uid :: s.tasks[id])
  }

  /** `Enum(TaskStatus)` persists the member NAME in the native enum column. */
  function StatusColumnValue(st: TaskStatus): (r: string)
    ensures FromName(r) == Some(st)
  {
    Name(st)
  }

  /** Loading the native enum column: only member names are legal column values. */
  function StatusColumnLoad(s: string): (r: Option<TaskStatus>)
    ensures r.Some? <==> s in {"NEW", "IN_PROGRESS", "COMPLETED"}
    ensures r.Some? ==> StatusColumnValue(r.value) == s
  {
    FromName(s)
  }
}
