/**
 * The database session the route handlers work through: the `tasks` and `users` tables
 * and their id sequences, updated in place. Each method performs one handler's reads,
 * attribute assignments and commit, and is proved to leave the tables as the matching
 * function of module Handlers or Auth says; a failed commit is a rollback, so an error
 * leaves every field as it was.
 */
module Database {
  import opened Wrappers
  import opened Status
  import opened Models
  import opened Schemas
  import opened Http
  import Handlers
  import Auth

  /** The `for key, value in update_data.items(): setattr(task, key, value)` loop. */
  method ApplyAssignments(staged: TaskDraft, data: seq<Assignment>) returns (draft: TaskDraft)
    ensures draft == AssignAll(staged, data)
  {
    draft := staged;
    var i := 0;
    while i < |data|
      invariant 0 <= i <= |data|
      invariant draft == AssignAll(staged, data[..i])
    {
      AssignAllAppend(staged, data[..i], [data[i]]);
      assert data[..i] + [data[i]] == data[..i + 1];
      draft := Assign(draft, data[i]);
      i := i + 1;
    }
    assert data[..i] == data;
  }

  class Db {
    var tasks: map<int, Task>
    var users: map<int, User>
    var nextTaskId: int
    var nextUserId: int

    /** The tables as a value. */
    function State(): Store
      reads this
    {
      Store(tasks, users, nextTaskId, nextUserId)
    }

    predicate Valid()
      reads this
    {
      Models.Valid(State())
    }

    /** The freshly created schema: both tables empty, both sequences at 1. */
    constructor ()
      ensures Valid()
      ensures State() == Store(map[], map[], 1, 1)
    {
      tasks, users := map[], map[];
      nextTaskId, nextUserId := 1, 1;
    }

    /** `db.get(Task, id)`. */
    function Get(id: int): (r: Option<Task>)
      reads this
      ensures r.Some? <==> id in tasks
      ensures r.Some? ==> r.value == tasks[id]
    {
      if id in tasks then Some(tasks[id]) else None
    }

    /** `db.add(Task(...))` then `commit`, for an already authenticated caller. */
    method CreateTask(caller: int, p: TaskCreate) returns (r: Response<TaskOut>)
      requires Valid()
      modifies this
      ensures Valid()
      ensures Handlers.Outcome(State(), r) == Handlers.CreateTask(old(State()), caller, p)
    {
      var status := FromValue(p.status);
      if status.None? {
        return Err(InvalidStatus);
      }
      var id := nextTaskId;
      var flushed := InsertTask(State(), TaskDraft(Some(p.title), p.description, status, caller));
      match flushed {
        case Err(NulInParameter) =>
          r := Err(InvalidStatus);
        case Err(DataError) =>
          r := Err(InternalError);
        case Err(IntegrityError) =>
          r := Err(IntegrityViolation);
        case Ok(t) =>
          tasks := tasks[id := t];
          nextTaskId := id + 1;
          r := Ok(ToOut(id, t));
      }
    }

    /** Look the task up, check ownership, set COMPLETED unless it already is, commit. */
    method CompleteTask(id: int, caller: int) returns (r: Response<TaskOut>)
      requires Valid()
      modifies this
      ensures Valid()
      ensures Handlers.Outcome(State(), r) == Handlers.CompleteTask(old(State()), id, caller)
    {
      var task := Get(id);
      if task.None? {
        return Err(NotFound);
      }
      if !IsOwner(task.value, caller) {
        return Err(Forbidden);
      }
      if task.value.status != Completed {
        tasks := tasks[id := task.value.(status := Completed)];
      }
      r := Ok(ToOut(id, tasks[id]));
    }

    /**
     * Look the task up, check ownership, cast the dumped status, then assign the
     * dumped fields one by one (the `setattr` loop) and commit.
     */
    method UpdateTask(id: int, caller: int, p: TaskUpdate) returns (r: Response<TaskOut>)
      requires Valid()
      modifies this
      ensures Valid()
      ensures Handlers.Outcome(State(), r) == Handlers.UpdateTask(old(State()), id, caller, p)
    {
      ghost var before := State();
      var task := Get(id);
      if task.None? {
        return Err(NotFound);
      }
      if !IsOwner(task.value, caller) {
        return Err(Forbidden);
      }
      var updateData := Handlers.PatchData(p);
      if updateData.Err? {
        return Err(updateData.error);
      }
      var draft := ApplyAssignments(Staged(task.value), updateData.value);
      var flushed := FlushTask(users, draft);
      match flushed {
        case Err(_) =>
          r := Err(InternalError);
        case Ok(t) =>
          tasks := tasks[id := t];
          r := Ok(ToOut(id, t));
          assert State() == before.(tasks := before.tasks[id := t]);
      }
    }

    /** Look the task up, check ownership, `db.delete` and commit. */
    method DeleteTask(id: int, caller: int) returns (r: Response<()>)
      requires Valid()
      modifies this
      ensures Valid()
      ensures Handlers.Outcome(State(), r) == Handlers.DeleteTask(old(State()), id, caller)
    {
      var task := Get(id);
      if task.None? {
        return Err(NotFound);
      }
      if !IsOwner(task.value, caller) {
        return Err(Forbidden);
      }
      tasks := tasks - {id};
      r := Ok(());
    }

    /** `register`: check the password length, hash it, insert the user and commit. */
    method Register(p: Auth.UserCreate, hashPassword: string -> string) returns (r: Response<Auth.UserOut>)
      requires Valid()
      modifies this
      ensures Valid()
      ensures Handlers.Outcome(State(), r) == Auth.Register(old(State()), p, hashPassword)
    {
      if |p.password| < Auth.PASSWORD_MIN_LENGTH {
        return Err(PasswordTooShort);
      }
      var id := nextUserId;
      var flushed := InsertUser(State(), Auth.NewUser(p, hashPassword));
      match flushed {
        case Err(IntegrityError) =>
          r := Err(UsernameExists);
        case Err(_) =>
          r := Err(InternalError);
        case Ok(u) =>
          users := users[id := u];
          nextUserId := id + 1;
          r := Ok(Auth.ToUserOut(id, u));
      }
    }
  }
}
