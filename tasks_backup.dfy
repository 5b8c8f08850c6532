/**
 * app/routes/tasks_backup.py: the same task routes behind the bearer-token dependency
 * `get_current_user`. Every route, the listings and the lookup included, answers 401
 * before anything else when the token does not authenticate a stored user.
 */
module TasksBackup {
  import opened Wrappers
  import opened Status
  import opened Models
  import opened Schemas
  import opened Http
  import opened Listing
  import Auth
  import Handlers
  import Database

  type Decoder = string -> Option<Auth.TokenPayload>

  /** `list_tasks`: all users' tasks, for any authenticated caller. */
  function ListTasks(users: map<int, User>, tasks: map<int, Task>, token: Option<string>, decodeToken: Decoder,
                     statusFilter: Option<TaskStatus>, page: int, limit: int): (r: Response<PaginatedTasks>)
    requires 1 <= page && 1 <= limit <= 100
    ensures Auth.GetCurrentUser(users, token, decodeToken).Err? ==> r == Err(Unauthorized)
    ensures Auth.GetCurrentUser(users, token, decodeToken).Ok? ==> r == ListPage(tasks, None, statusFilter, page, limit)
  {
    match Auth.GetCurrentUser(users, token, decodeToken)
    case Err(e) => Err(e)
    case Ok(_) => ListPage(tasks, None, statusFilter, page, limit)
  }

  /** `list_my_tasks`: the authenticated user's own tasks. */
  function ListMyTasks(users: map<int, User>, tasks: map<int, Task>, token: Option<string>, decodeToken: Decoder,
                       statusFilter: Option<TaskStatus>, page: int, limit: int): (r: Response<PaginatedTasks>)
    requires 1 <= page && 1 <= limit <= 100
    ensures Auth.GetCurrentUser(users, token, decodeToken).Err? ==> r == Err(Unauthorized)
    ensures Auth.GetCurrentUser(users, token, decodeToken).Ok? ==>
      var me := Auth.GetCurrentUser(users, token, decodeToken).value;
      && me in users
      && r == ListPage(tasks, Some(me), statusFilter, page, limit)
      && (r.Ok? ==> forall i :: 0 <= i < |r.value.items| ==> r.value.items[i].userId == me)
  {
    match Auth.GetCurrentUser(users, token, decodeToken)
    case Err(e) => Err(e)
    case Ok(me) =>
      PageRows(tasks, Some(me), statusFilter, page, limit);
      ListPage(tasks, Some(me), statusFilter, page, limit)
  }

  /** `get_task`: 401 first, then the lookup; any authenticated user may read any task. */
  function GetTask(users: map<int, User>, tasks: map<int, Task>, token: Option<string>, decodeToken: Decoder,
                   id: int): (r: Response<TaskOut>)
    ensures Auth.GetCurrentUser(users, token, decodeToken).Err? ==> r == Err(Unauthorized)
    ensures Auth.GetCurrentUser(users, token, decodeToken).Ok? ==> r == Handlers.GetTask(tasks, id)
    ensures r.Ok? <==> Auth.GetCurrentUser(users, token, decodeToken).Ok? && id in tasks
  {
    match Auth.GetCurrentUser(users, token, decodeToken)
    case Err(e) => Err(e)
    case Ok(_) => Handlers.GetTask(tasks, id)
  }

  /**
   * `create_task` for the authenticated user. The caller is a stored user, so its id is
   * an int4 and a payload the schema accepts is inserted unless it holds U+0000 or the
   * id sequence is exhausted.
   */
  method CreateTask(db: Database.Db, token: Option<string>, decodeToken: Decoder, p: TaskCreate) returns (r: Response<TaskOut>)
    requires db.Valid()
    modifies db
    ensures db.Valid()
    ensures var me := Auth.GetCurrentUser(old(db.users), token, decodeToken);
      && (me.Err? ==> r == Err(Unauthorized) && db.State() == old(db.State()))
      && (me.Ok? ==> Handlers.Outcome(db.State(), r) == Handlers.CreateTask(old(db.State()), me.value, p))
      && (me.Ok? && ValidTaskCreate(p) && Handlers.CreateNulFree(p) && old(db.nextTaskId) <= INT4_MAX ==> r.Ok?)
  {
    var me := Auth.GetCurrentUser(db.users, token, decodeToken);
    if me.Err? {
      return Err(me.error);
    }
    if ValidTaskCreate(p) {
      Handlers.ValidCreateOnlyFailsOnOwner(db.State(), me.value, p);
    }
    r := db.CreateTask(me.value, p);
  }

  /** `complete_task` for the authenticated user. */
  method CompleteTask(db: Database.Db, token: Option<string>, decodeToken: Decoder, id: int) returns (r: Response<TaskOut>)
    requires db.Valid()
    modifies db
    ensures db.Valid()
    ensures var me := Auth.GetCurrentUser(old(db.users), token, decodeToken);
      && (me.Err? ==> r == Err(Unauthorized) && db.State() == old(db.State()))
      && (me.Ok? ==> Handlers.Outcome(db.State(), r) == Handlers.CompleteTask(old(db.State()), id, me.value))
  {
    var me := Auth.GetCurrentUser(db.users, token, decodeToken);
    if me.Err? {
      return Err(me.error);
    }
    r := db.CompleteTask(id, me.value);
  }

  /** `update_task` for the authenticated user. */
  method UpdateTask(db: Database.Db, token: Option<string>, decodeToken: Decoder, id: int, p: TaskUpdate) returns (r: Response<TaskOut>)
    requires db.Valid()
    modifies db
    ensures db.Valid()
    ensures var me := Auth.GetCurrentUser(old(db.users), token, decodeToken);
      && (me.Err? ==> r == Err(Unauthorized) && db.State() == old(db.State()))
      && (me.Ok? ==> Handlers.Outcome(db.State(), r) == Handlers.UpdateTask(old(db.State()), id, me.value, p))
  {
    var me := Auth.GetCurrentUser(db.users, token, decodeToken);
    if me.Err? {
      return Err(me.error);
    }
    r := db.UpdateTask(id, me.value, p);
  }

  /** `delete_task` for the authenticated user. */
  method DeleteTask(db: Database.Db, token: Option<string>, decodeToken: Decoder, id: int) returns (r: Response<()>)
    requires db.Valid()
    modifies db
    ensures db.Valid()
    ensures var me := Auth.GetCurrentUser(old(db.users), token, decodeToken);
      && (me.Err? ==> r == Err(Unauthorized) && db.State() == old(db.State()))
      && (me.Ok? ==> Handlers.Outcome(db.State(), r) == Handlers.DeleteTask(old(db.State()), id, me.value))
  {
    var me := Auth.GetCurrentUser(db.users, token, decodeToken);
    if me.Err? {
      return Err(me.error);
    }
    r := db.DeleteTask(id, me.value);
  }
}
