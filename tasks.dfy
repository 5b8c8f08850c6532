/**
 * app/routes/tasks.py: the task routes with the temporary `X-User-Id` header identifying
 * the caller. The header is taken at its word: any integer is accepted. When a task is
 * created, an int4 id that names no user is caught by the foreign key (400), and an id
 * outside int4 fails the conversion to the column type (500).
 */
module Tasks {
  import opened Wrappers
  import opened Status
  import opened Models
  import opened Schemas
  import opened Http
  import opened Listing
  import Handlers
  import Database

  /** `get_current_user_id`: 400 when the header is absent, otherwise its value. */
  function GetCurrentUserId(xUserId: Option<int>): (r: Response<int>)
    ensures r.Ok? <==> xUserId.Some?
    ensures r.Ok? ==> r.value == xUserId.value
    ensures r.Err? ==> r.error == MissingUserHeader && r.error.Code() == 400
  {
    if xUserId.None? then Err(MissingUserHeader) else Ok(xUserId.value)
  }

  /**
   * `list_tasks`: every user's tasks, optionally of one status, newest first, one page.
   * The status arrives already validated against the literal type.
   */
  function ListTasks(tasks: map<int, Task>, statusFilter: Option<TaskStatus>, page: int, limit: int): (r: Response<PaginatedTasks>)
    requires 1 <= page && 1 <= limit <= 100
    ensures r == ListPage(tasks, None, statusFilter, page, limit)
    ensures r.Err? <==> Offset(page, limit) > INT8_MAX
    ensures r.Ok? && statusFilter.None? ==> r.value.total == |tasks|
    ensures r.Ok? && statusFilter.Some? ==> r.value.total == |set id | id in tasks && tasks[id].status == statusFilter.value|
  {
    assert Selected(tasks, None, None) == tasks.Keys;
    assert statusFilter.Some? ==>
      Selected(tasks, None, statusFilter) == set id | id in tasks && tasks[id].status == statusFilter.value;
    ListPage(tasks, None, statusFilter, page, limit)
  }

  /** `list_my_tasks`: the same listing restricted to the tasks the header's user owns. */
  function ListMyTasks(tasks: map<int, Task>, xUserId: Option<int>, statusFilter: Option<TaskStatus>,
                       page: int, limit: int): (r: Response<PaginatedTasks>)
    requires 1 <= page && 1 <= limit <= 100
    ensures xUserId.None? ==> r == Err(MissingUserHeader)
    ensures xUserId.Some? ==> r == ListPage(tasks, xUserId, statusFilter, page, limit)
    ensures r.Ok? ==> forall i :: 0 <= i < |r.value.items| ==> r.value.items[i].userId == xUserId.value
    ensures r.Ok? ==> r.value.total == |set id | id in tasks && Matches(tasks[id], xUserId, statusFilter)|
  {
    match GetCurrentUserId(xUserId)
    case Err(e) => Err(e)
    case Ok(_) =>
      PageRows(tasks, xUserId, statusFilter, page, limit);
      ListPage(tasks, xUserId, statusFilter, page, limit)
  }

  /** Each task of the caller's own listing is in the all-tasks listing with the same filter. */
  lemma MineWithinAll(tasks: map<int, Task>, user: int, statusFilter: Option<TaskStatus>)
    ensures Selected(tasks, Some(user), statusFilter) ==
      set id | id in Selected(tasks, None, statusFilter) && tasks[id].userId == user
  {
  }

  /** `create_task`: the header first, then the insert of module Handlers. */
  method CreateTask(db: Database.Db, xUserId: Option<int>, p: TaskCreate) returns (r: Response<TaskOut>)
    requires db.Valid()
    modifies db
    ensures db.Valid()
    ensures xUserId.None? ==> r == Err(MissingUserHeader) && db.State() == old(db.State())
    ensures xUserId.Some? ==> Handlers.Outcome(db.State(), r) == Handlers.CreateTask(old(db.State()), xUserId.value, p)
    ensures xUserId.Some? && ValidTaskCreate(p) && Handlers.CreateNulFree(p) && old(db.nextTaskId) <= INT4_MAX ==>
      (r.Ok? <==> xUserId.value in old(db.users)) &&
      (r.Err? ==> r == (if InInt4(xUserId.value) then Err(IntegrityViolation) else Err(InternalError)))
  {
    var caller := GetCurrentUserId(xUserId);
    if caller.Err? {
      return Err(caller.error);
    }
    if ValidTaskCreate(p) {
      Handlers.ValidCreateOnlyFailsOnOwner(db.State(), caller.value, p);
    }
    r := db.CreateTask(caller.value, p);
  }

  /** `complete_task`: the header first, then the owner-only, idempotent completion. */
  method CompleteTask(db: Database.Db, xUserId: Option<int>, id: int) returns (r: Response<TaskOut>)
    requires db.Valid()
    modifies db
    ensures db.Valid()
    ensures xUserId.None? ==> r == Err(MissingUserHeader) && db.State() == old(db.State())
    ensures xUserId.Some? ==> Handlers.Outcome(db.State(), r) == Handlers.CompleteTask(old(db.State()), id, xUserId.value)
  {
    var caller := GetCurrentUserId(xUserId);
    if caller.Err? {
      return Err(caller.error);
    }
    r := db.CompleteTask(id, caller.value);
  }

  /** `update_task`: the header first, then the owner-only partial update. */
  method UpdateTask(db: Database.Db, xUserId: Option<int>, id: int, p: TaskUpdate) returns (r: Response<TaskOut>)
    requires db.Valid()
    modifies db
    ensures db.Valid()
    ensures xUserId.None? ==> r == Err(MissingUserHeader) && db.State() == old(db.State())
    ensures xUserId.Some? ==> Handlers.Outcome(db.State(), r) == Handlers.UpdateTask(old(db.State()), id, xUserId.value, p)
  {
    var caller := GetCurrentUserId(xUserId);
    if caller.Err? {
      return Err(caller.error);
    }
    r := db.UpdateTask(id, caller.value, p);
  }

  /** `delete_task`: the header first, then the owner-only delete. */
  method DeleteTask(db: Database.Db, xUserId: Option<int>, id: int) returns (r: Response<()>)
    requires db.Valid()
    modifies db
    ensures db.Valid()
    ensures xUserId.None? ==> r == Err(MissingUserHeader) && db.State() == old(db.State())
    ensures xUserId.Some? ==> Handlers.Outcome(db.State(), r) == Handlers.DeleteTask(old(db.State()), id, xUserId.value)
  {
    var caller := GetCurrentUserId(xUserId);
    if caller.Err? {
      return Err(caller.error);
    }
    r := db.DeleteTask(id, caller.value);
  }
}
