/**
 * app/routes/tasks_faulty.py: the header-authenticated routes over app/models_faulty.py and
 * app/schemas_faulty.py. There is no completion route, the status filter is cast with an
 * explicit 400 branch, and payload titles carry no length bound.
 */
module TasksFaulty {
  import opened Wrappers
  import opened Status
  import opened Models
  import opened Schemas
  import opened Http
  import opened Listing
  import SchemasFaulty
  import Handlers
  import Database
  import Tasks

  /** The `status is not None` branch of both listings: cast, or 400 for an unknown value. */
  function StatusFilter(statusFilter: Option<string>): (r: Response<Option<TaskStatus>>)
    ensures statusFilter.None? ==> r == Ok(None)
    ensures statusFilter.Some? ==> (r.Ok? <==> FromValue(statusFilter.value).Some?)
    ensures statusFilter.Some? && r.Ok? ==> r.value == FromValue(statusFilter.value)
    ensures r.Err? ==> r.error == InvalidStatus
  {
    match statusFilter
    case None => Ok(None)
    case Some(s) => if FromValue(s).None? then Err(InvalidStatus) else Ok(FromValue(s))
  }

  /** A filter of the literal type always casts, so the 400 branch is never taken. */
  lemma LiteralFilterCasts(s: string)
    requires IsStatusLiteral(s)
    ensures StatusFilter(Some(s)) == Ok(FromValue(s)) && FromValue(s).Some?
  {
    LiteralIsEnum(s);
  }

  /** `list_tasks`: the filter cast, then every user's tasks, newest first, one page. */
  function ListTasks(tasks: map<int, Task>, statusFilter: Option<string>, page: int, limit: int): (r: Response<PaginatedTasks>)
    requires 1 <= page && 1 <= limit <= 100
    ensures StatusFilter(statusFilter).Err? ==> r == Err(InvalidStatus)
    ensures StatusFilter(statusFilter).Ok? ==> r == ListPage(tasks, None, StatusFilter(statusFilter).value, page, limit)
  {
    match StatusFilter(statusFilter)
    case Err(e) => Err(e)
    case Ok(st) => ListPage(tasks, None, st, page, limit)
  }

  /** `list_my_tasks`: the header (a dependency, so checked first), the filter cast, the page. */
  function ListMyTasks(tasks: map<int, Task>, xUserId: Option<int>, statusFilter: Option<string>,
                       page: int, limit: int): (r: Response<PaginatedTasks>)
    requires 1 <= page && 1 <= limit <= 100
    ensures xUserId.None? ==> r == Err(MissingUserHeader)
    ensures xUserId.Some? && StatusFilter(statusFilter).Err? ==> r == Err(InvalidStatus)
    ensures xUserId.Some? && StatusFilter(statusFilter).Ok? ==>
      r == ListPage(tasks, xUserId, StatusFilter(statusFilter).value, page, limit)
    ensures r.Ok? ==> forall i :: 0 <= i < |r.value.items| ==> r.value.items[i].userId == xUserId.value
  {
    match Tasks.GetCurrentUserId(xUserId)
    case Err(e) => Err(e)
    case Ok(_) =>
      match StatusFilter(statusFilter)
      case Err(e) => Err(e)
      case Ok(st) =>
        PageRows(tasks, xUserId, st, page, limit);
        ListPage(tasks, xUserId, st, page, limit)
  }

  /**
   * For every filter the literal type admits, and for none, both listings give exactly
   * what the corresponding listing of app/routes/tasks.py gives.
   */
  lemma ListingsAgreeWithTasks(tasks: map<int, Task>, xUserId: Option<int>, statusFilter: Option<TaskStatus>,
                               page: int, limit: int)
    requires 1 <= page && 1 <= limit <= 100
    ensures var f := if statusFilter.Some? then Some(Value(statusFilter.value)) else None;
      && ListTasks(tasks, f, page, limit) == Tasks.ListTasks(tasks, statusFilter, page, limit)
      && ListMyTasks(tasks, xUserId, f, page, limit) == Tasks.ListMyTasks(tasks, xUserId, statusFilter, page, limit)
  {
    if statusFilter.Some? {
      ValueRoundTrip(statusFilter.value);
    }
  }

  /**
   * `create_task` behind schemas_faulty.py. A schema-valid payload may still carry a title
   * longer than the column, which fails with 500 (unless a string holds U+0000, which the
   * driver refuses first).
   */
  method CreateTask(db: Database.Db, xUserId: Option<int>, p: TaskCreate) returns (r: Response<TaskOut>)
    requires db.Valid()
    modifies db
    ensures db.Valid()
    ensures xUserId.None? ==> r == Err(MissingUserHeader) && db.State() == old(db.State())
    ensures xUserId.Some? ==> Handlers.Outcome(db.State(), r) == Handlers.CreateTask(old(db.State()), xUserId.value, p)
    ensures xUserId.Some? && SchemasFaulty.ValidTaskCreate(p) && Handlers.CreateNulFree(p) && |p.title| > TITLE_MAX ==>
      r == Err(InternalError)
  {
    var caller := Tasks.GetCurrentUserId(xUserId);
    if caller.Err? {
      return Err(caller.error);
    }
    if SchemasFaulty.ValidTaskCreate(p) {
      LiteralIsEnum(p.status);
    }
    r := db.CreateTask(caller.value, p);
  }

  /** `update_task` behind schemas_faulty.py; the same owner-only partial update. */
  method UpdateTask(db: Database.Db, xUserId: Option<int>, id: int, p: TaskUpdate) returns (r: Response<TaskOut>)
    requires db.Valid()
    modifies db
    ensures db.Valid()
    ensures xUserId.None? ==> r == Err(MissingUserHeader) && db.State() == old(db.State())
    ensures xUserId.Some? ==> Handlers.Outcome(db.State(), r) == Handlers.UpdateTask(old(db.State()), id, xUserId.value, p)
  {
    var caller := Tasks.GetCurrentUserId(xUserId);
    if caller.Err? {
      return Err(caller.error);
    }
    r := db.UpdateTask(id, caller.value, p);
  }

  /** `delete_task`: the same owner-only delete. */
  method DeleteTask(db: Database.Db, xUserId: Option<int>, id: int) returns (r: Response<()>)
    requires db.Valid()
    modifies db
    ensures db.Valid()
    ensures xUserId.None? ==> r == Err(MissingUserHeader) && db.State() == old(db.State())
    ensures xUserId.Some? ==> Handlers.Outcome(db.State(), r) == Handlers.DeleteTask(old(db.State()), id, xUserId.value)
  {
    var caller := Tasks.GetCurrentUserId(xUserId);
    if caller.Err? {
      return Err(caller.error);
    }
    r := db.DeleteTask(id, caller.value);
  }

  /**
   * The unbounded title schema lets a 201-character title through to the 200-character
   * column: a stored user creating it gets 500, the bounded schema would have refused it.
   */
  lemma LongTitleBreaksCreate(s: Store, caller: int)
    requires Valid(s) && caller in s.users
    ensures var p := TaskCreateWithDefaults(seq(201, _ => 'a'));
      && SchemasFaulty.ValidTaskCreate(p)
      && !Schemas.ValidTaskCreate(p)
      && Handlers.CreateTask(s, caller, p).response == Err(InternalError)
      && Handlers.CreateTask(s, caller, p).response.error.Code() == 500
  {
    SchemasFaulty.UnboundedTitles();
    var p := TaskCreateWithDefaults(seq(201, _ => 'a'));
    assert Handlers.CreateNulFree(p) by {
      forall i | 0 <= i < |p.title| ensures p.title[i] != '\0' { }
    }
  }
}
