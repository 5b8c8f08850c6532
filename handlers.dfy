/**
 * What the task handlers do once the caller is known. The three route files
 * (app/routes/tasks.py, tasks_backup.py, tasks_faulty.py) share these bodies and differ
 * only in how they obtain the caller and in the status filter; the functions here are
 * the atomic effect of one request on the database.
 */
module Handlers {
  import opened Wrappers
  import opened Status
  import opened Models
  import opened Schemas
  import opened Http

  /** The database after the request, and the response. */
  datatype Outcome<T> = Outcome(store: Store, response: Response<T>)

  /** `get_task`: a lookup by primary key, with no ownership check. */
  function GetTask(tasks: map<int, Task>, id: int): (r: Response<TaskOut>)
    ensures r.Err? <==> id !in tasks
    ensures r.Err? ==> r.error == NotFound
    ensures r.Ok? ==> r.value.id == id && r.value == ToOut(id, tasks[id])
  {
    if id in tasks then Ok(ToOut(id, tasks[id])) else Err(NotFound)
  }

  /** The strings `create_task` binds: title and description. */
  predicate CreateNulFree(p: TaskCreate)
  {
    NulFree(p.title) && NulFreeOpt(p.description)
  }

  /**
   * `create_task`: cast the status, insert a row owned by the caller and commit. Every
   * `ValueError` is answered 400 "Invalid status": the unknown status, and also the
   * driver's refusal of a string holding U+0000. An `IntegrityError` (owner unknown) is
   * rolled back into a 400; a `DataError` (title too long, owner id outside int4, id
   * sequence exhausted) is not caught.
   */
  function CreateTask(s: Store, caller: int, p: TaskCreate): (o: Outcome<TaskOut>)
    requires Valid(s)
    ensures Valid(o.store)
    ensures o.response.Err? ==> o.store == s
    ensures FromValue(p.status).None? || !CreateNulFree(p) ==> o.response == Err(InvalidStatus)
    ensures FromValue(p.status).Some? && CreateNulFree(p) &&
            (|p.title| > TITLE_MAX || !InInt4(caller) || s.nextTaskId > INT4_MAX) ==>
      o.response == Err(InternalError)
    ensures FromValue(p.status).Some? && CreateNulFree(p) &&
            |p.title| <= TITLE_MAX && InInt4(caller) && s.nextTaskId <= INT4_MAX && caller !in s.users ==>
      o.response == Err(IntegrityViolation)
    ensures o.response.Ok? <==>
      FromValue(p.status).Some? && CreateNulFree(p) && |p.title| <= TITLE_MAX && s.nextTaskId <= INT4_MAX && caller in s.users
    ensures o.response.Ok? ==>
      var id := o.response.value.id;
      && id == s.nextTaskId && id !in s.tasks
      && o.store == s.(tasks := s.tasks[id := Task(p.title, p.description, FromValue(p.status).value, caller)],
                       nextTaskId := id + 1)
      && o.response.value == ToOut(id, o.store.tasks[id])
  {
    match FromValue(p.status)
    case None => Outcome(s, Err(InvalidStatus))
    case Some(st) =>
      var id := s.nextTaskId;
      match InsertTask(s, TaskDraft(Some(p.title), p.description, Some(st), caller))
      case Err(NulInParameter) => Outcome(s, Err(InvalidStatus))
      case Err(DataError) => Outcome(s, Err(InternalError))
      case Err(IntegrityError) => Outcome(s, Err(IntegrityViolation))
      case Ok(t) =>
        AddTaskKeepsValid(s, t);
        Outcome(s.(tasks := s.tasks[id := t], nextTaskId := id + 1), Ok(ToOut(id, t)))
  }

  /**
   * `complete_task`: 404 if the task is missing, then 403 for anyone but the owner;
   * otherwise the status becomes Completed, written only if it was not already.
   */
  function CompleteTask(s: Store, id: int, caller: int): (o: Outcome<TaskOut>)
    requires Valid(s)
    ensures Valid(o.store)
    ensures o.response.Err? ==> o.store == s
    ensures id !in s.tasks ==> o.response == Err(NotFound)
    ensures id in s.tasks && !IsOwner(s.tasks[id], caller) ==> o.response == Err(Forbidden)
    ensures o.response.Ok? <==> id in s.tasks && IsOwner(s.tasks[id], caller)
    ensures o.response.Ok? ==>
      && o.store == s.(tasks := s.tasks[id := s.tasks[id].(status := Completed)])
      && o.response.value == ToOut(id, o.store.tasks[id])
    ensures o.response.Ok? && s.tasks[id].status == Completed ==> o.store == s
  {
    if id !in s.tasks then Outcome(s, Err(NotFound))
    else if !IsOwner(s.tasks[id], caller) then Outcome(s, Err(Forbidden))
    else if s.tasks[id].status != Completed then
      var t := s.tasks[id].(status := Completed);
      ReplaceTaskKeepsValid(s, id, t);
      Outcome(s.(tasks := s.tasks[id := t]), Ok(ToOut(id, t)))
    else
      assert s.tasks[id := s.tasks[id].(status := Completed)] == s.tasks;
      Outcome(s, Ok(ToOut(id, s.tasks[id])))
  }

  /** Completing twice is completing once: same database, same response, no error. */
  lemma CompleteIdempotent(s: Store, id: int, caller: int)
    requires Valid(s)
    ensures var once := CompleteTask(s, id, caller);
      CompleteTask(once.store, id, caller) == once
  {
    var once := CompleteTask(s, id, caller);
    if once.response.Ok? {
      var twice := CompleteTask(once.store, id, caller);
      assert once.store.tasks[id].status == Completed;
      assert twice.store == once.store;
    }
  }

  /** The status cast of `update_task` fails: a non-null status outside the enumeration. */
  predicate StatusCastFails(p: TaskUpdate)
  {
    p.status.Set? && p.status.value.Some? && FromValue(p.status.value.value).None?
  }

  /** One entry of the dumped patch after the status cast. */
  function CastEntry(e: DumpEntry): Assignment
    requires e.StatusEntry? && e.status.Some? ==> FromValue(e.status.value).Some?
  {
    match e
    case TitleEntry(v) => AssignTitle(v)
    case DescriptionEntry(v) => AssignDescription(v)
    case StatusEntry(v) => AssignStatus(if v.Some? then Some(FromValue(v.value).value) else None)
  }

  predicate Castable(d: seq<DumpEntry>)
  {
    forall i :: 0 <= i < |d| && d[i].StatusEntry? && d[i].status.Some? ==> FromValue(d[i].status.value).Some?
  }

  function CastAll(d: seq<DumpEntry>): (r: seq<Assignment>)
    requires Castable(d)
    ensures |r| == |d|
    ensures forall i :: 0 <= i < |d| ==> r[i] == CastEntry(d[i])
    decreases |d|
  {
    if d == [] then [] else [CastEntry(d[0])] + CastAll(d[1..])
  }

  lemma {:induction false} CastAllAppend(a: seq<DumpEntry>, b: seq<DumpEntry>)
    requires Castable(a) && Castable(b)
    ensures Castable(a + b) && CastAll(a + b) == CastAll(a) + CastAll(b)
    decreases |a|
  {
    assert Castable(a + b) by {
      forall i | 0 <= i < |a + b| ensures (a + b)[i] == (if i < |a| then a[i] else b[i - |a|]) { }
    }
    if a != [] {
      assert (a + b)[1..] == a[1..] + b;
      assert Castable(a[1..]) by { forall i | 0 <= i < |a[1..]| ensures a[1..][i] == a[i + 1] { } }
      CastAllAppend(a[1..], b);
    } else {
      assert a + b == b;
    }
  }

  /**
   * `payload.model_dump(exclude_unset=True)` followed by the status cast: the list of
   * `setattr` calls the loop will make, or 400 for an unknown status.
   */
  function PatchData(p: TaskUpdate): (r: Response<seq<Assignment>>)
    ensures r.Err? <==> StatusCastFails(p)
    ensures r.Err? ==> r.error == InvalidStatus
    ensures r.Ok? ==> |r.value| == SetCount(p)
  {
    if StatusCastFails(p) then Err(InvalidStatus)
    else
      var d := Dump(p);
      assert Castable(d) by {
        forall i | 0 <= i < |d| && d[i].StatusEntry? && d[i].status.Some?
          ensures FromValue(d[i].status.value).Some?
        {
          assert d[i] in d;
        }
      }
      Ok(CastAll(d))
  }

  /**
   * Reference definition of a partial update: a field the client sent takes the value
   * sent (`null` included), a field left out keeps its old value; the owner never changes.
   */
  function PatchedDraft(t: Task, p: TaskUpdate): TaskDraft
    requires !StatusCastFails(p)
  {
    TaskDraft(
      if p.title.Set? then p.title.value else Some(t.title),
      if p.description.Set? then p.description.value else t.description,
      if p.status.Set? then (if p.status.value.Some? then FromValue(p.status.value.value) else None) else Some(t.status),
      t.userId)
  }

  lemma AssignOne(d: TaskDraft, a: Assignment)
    ensures AssignAll(d, [a]) == Assign(d, a)
  {
    assert [a][..0] == [];
  }

  lemma CastableParts(p: TaskUpdate)
    requires !StatusCastFails(p)
    ensures Castable(DumpTitle(p)) && Castable(DumpDescription(p)) && Castable(DumpStatus(p))
    ensures Castable(DumpTitle(p) + DumpDescription(p))
  {
  }

  /** The cast patch is the cast title entry, then the description's, then the status's. */
  lemma {:induction false} PatchDataSplits(p: TaskUpdate)
    requires !StatusCastFails(p)
    ensures Castable(DumpTitle(p)) && Castable(DumpDescription(p)) && Castable(DumpStatus(p))
    ensures PatchData(p).Ok?
    ensures PatchData(p).value == CastAll(DumpTitle(p)) + CastAll(DumpDescription(p)) + CastAll(DumpStatus(p))
  {
    var T, D, S := DumpTitle(p), DumpDescription(p), DumpStatus(p);
    CastableParts(p);
    CastAllAppend(T, D);
    CastAllAppend(T + D, S);
  }

  /** The `setattr` loop over the dumped patch yields the reference partial update. */
  lemma {:induction false} SetattrLoopIsPatch(t: Task, p: TaskUpdate)
    requires !StatusCastFails(p)
    ensures PatchData(p).Ok? && AssignAll(Staged(t), PatchData(p).value) == PatchedDraft(t, p)
  {
    PatchDataSplits(p);
    var cT, cD, cS := CastAll(DumpTitle(p)), CastAll(DumpDescription(p)), CastAll(DumpStatus(p));
    var d0 := Staged(t);
    AssignAllAppend(d0, cT + cD, cS);
    AssignAllAppend(d0, cT, cD);
    var d1 := AssignAll(d0, cT);
    var d2 := AssignAll(d1, cD);
    var d3 := AssignAll(d2, cS);
    var want := PatchedDraft(t, p);
    if p.title.Set? { AssignOne(d0, cT[0]); }
    assert d1.title == want.title && d1.description == d0.description && d1.status == d0.status;
    if p.description.Set? { AssignOne(d1, cD[0]); }
    assert d2.title == want.title && d2.description == want.description && d2.status == d0.status;
    if p.status.Set? { AssignOne(d2, cS[0]); }
    assert d3.title == want.title && d3.description == want.description && d3.status == want.status;
    assert d3.userId == want.userId;
  }

  /** No string the patch sets holds U+0000. */
  predicate PatchNulFree(p: TaskUpdate)
  {
    && (p.title.Set? ==> NulFreeOpt(p.title.value))
    && (p.description.Set? ==> NulFreeOpt(p.description.value))
  }

  /** The patched row passes the driver's binding and the database's NOT NULL and width checks. */
  predicate PatchFlushes(p: TaskUpdate)
  {
    && PatchNulFree(p)
    && p.title != Set(None)
    && (p.title.Set? && p.title.value.Some? ==> |p.title.value.value| <= TITLE_MAX)
    && p.status != Set(None)
  }

  /**
   * `update_task`: 404, then 403, then 400 for an unknown status; then the `setattr` loop
   * and a commit. A flush failure (a string holding U+0000, a `null` title or status, an
   * over-long title) is not caught: the request fails with 500 and nothing is written.
   */
  function UpdateTask(s: Store, id: int, caller: int, p: TaskUpdate): (o: Outcome<TaskOut>)
    requires Valid(s)
    ensures Valid(o.store)
    ensures o.response.Err? ==> o.store == s
    ensures id !in s.tasks ==> o.response == Err(NotFound)
    ensures id in s.tasks && !IsOwner(s.tasks[id], caller) ==> o.response == Err(Forbidden)
    ensures id in s.tasks && IsOwner(s.tasks[id], caller) && StatusCastFails(p) ==> o.response == Err(InvalidStatus)
    ensures id in s.tasks && IsOwner(s.tasks[id], caller) && !StatusCastFails(p) && !PatchFlushes(p) ==>
      o.response == Err(InternalError)
    ensures o.response.Ok? <==> id in s.tasks && IsOwner(s.tasks[id], caller) && !StatusCastFails(p) && PatchFlushes(p)
    ensures o.response.Ok? ==> id in s.tasks && id in o.store.tasks
    ensures o.response.Ok? ==>
      var t, t' := s.tasks[id], o.store.tasks[id];
      && o.store == s.(tasks := s.tasks[id := t'])
      && t'.userId == t.userId
      && t'.title == (if p.title.Set? then p.title.value.value else t.title)
      && t'.description == (if p.description.Set? then p.description.value else t.description)
      && t'.status == (if p.status.Set? then FromValue(p.status.value.value).value else t.status)
      && o.response.value == ToOut(id, t')
  {
    if id !in s.tasks then Outcome(s, Err(NotFound))
    else if !IsOwner(s.tasks[id], caller) then Outcome(s, Err(Forbidden))
    else match PatchData(p)
      case Err(e) => Outcome(s, Err(e))
      case Ok(data) =>
        SetattrLoopIsPatch(s.tasks[id], p);
        match FlushTask(s.users, AssignAll(Staged(s.tasks[id]), data))
        case Err(_) => Outcome(s, Err(InternalError))
        case Ok(t) =>
          ReplaceTaskKeepsValid(s, id, t);
          Outcome(s.(tasks := s.tasks[id := t]), Ok(ToOut(id, t)))
  }

  /** The empty patch changes nothing and still answers with the task. */
  lemma EmptyPatchChangesNothing(s: Store, id: int, caller: int)
    requires Valid(s) && id in s.tasks && IsOwner(s.tasks[id], caller)
    ensures UpdateTask(s, id, caller, EmptyUpdate) == Outcome(s, Ok(ToOut(id, s.tasks[id])))
  {
    var o := UpdateTask(s, id, caller, EmptyUpdate);
    assert o.store.tasks[id] == s.tasks[id];
    assert s.tasks[id := s.tasks[id]] == s.tasks;
  }

  /** `delete_task`: 404, then 403; the owner's delete removes exactly that row. */
  function DeleteTask(s: Store, id: int, caller: int): (o: Outcome<()>)
    requires Valid(s)
    ensures Valid(o.store)
    ensures o.response.Err? ==> o.store == s
    ensures id !in s.tasks ==> o.response == Err(NotFound)
    ensures id in s.tasks && !IsOwner(s.tasks[id], caller) ==> o.response == Err(Forbidden)
    ensures o.response.Ok? <==> id in s.tasks && IsOwner(s.tasks[id], caller)
    ensures o.response.Ok? ==>
      && id !in o.store.tasks
      && o.store.tasks.Keys == s.tasks.Keys - {id}
      && (forall k :: k in o.store.tasks ==> o.store.tasks[k] == s.tasks[k])
      && o.store == s.(tasks := o.store.tasks)
  {
    if id !in s.tasks then Outcome(s, Err(NotFound))
    else if !IsOwner(s.tasks[id], caller) then Outcome(s, Err(Forbidden))
    else
      RemoveTaskKeepsValid(s, id);
      Outcome(s.(tasks := s.tasks - {id}), Ok(()))
  }

  /**
   * The three owner-only operations make the same access decision: all answer 404, or
   * all answer 403 whatever the payload, or none of them refuses access.
   */
  lemma OwnerOnlyOperationsAgree(s: Store, id: int, caller: int, p: TaskUpdate)
    requires Valid(s)
    ensures var c, u, d := CompleteTask(s, id, caller).response, UpdateTask(s, id, caller, p).response,
                           DeleteTask(s, id, caller).response;
      && (c == Err(NotFound) <==> u == Err(NotFound)) && (u == Err(NotFound) <==> d == Err(NotFound))
      && (c == Err(Forbidden) <==> u == Err(Forbidden)) && (u == Err(Forbidden) <==> d == Err(Forbidden))
  {
  }

  /**
   * A payload the bounded schema accepts never meets the status cast's 400 nor the
   * over-long title's 500: apart from a string holding U+0000 (answered 400), it fails
   * only for the caller, as a foreign-key 400 for an int4 id naming no user and as a 500
   * for an id outside int4, or, once the id sequence is exhausted, with 500.
   */
  lemma ValidCreateOnlyFailsOnOwner(s: Store, caller: int, p: TaskCreate)
    requires Valid(s) && Schemas.ValidTaskCreate(p)
    ensures var r := CreateTask(s, caller, p).response;
      && (!CreateNulFree(p) ==> r == Err(InvalidStatus))
      && (CreateNulFree(p) ==> (r.Ok? <==> caller in s.users && s.nextTaskId <= INT4_MAX))
      && (CreateNulFree(p) && s.nextTaskId <= INT4_MAX && caller !in s.users ==>
            r == (if InInt4(caller) then Err(IntegrityViolation) else Err(InternalError)))
  {
    LiteralIsEnum(p.status);
  }

  /**
   * For a payload the bounded update schema accepts and a caller who owns the task, the
   * only failures left are an explicit `null` title or status, which reaches the NOT NULL
   * columns, and a string holding U+0000, which the driver refuses; both are 500.
   */
  lemma ValidUpdateFailsOnlyOnNull(s: Store, id: int, caller: int, p: TaskUpdate)
    requires Valid(s) && Schemas.ValidTaskUpdate(p)
    requires id in s.tasks && IsOwner(s.tasks[id], caller)
    ensures var r := UpdateTask(s, id, caller, p).response;
      && (r.Ok? <==> p.title != Set(None) && p.status != Set(None) && PatchNulFree(p))
      && (r.Err? ==> r.error == InternalError)
  {
    if p.status.Set? && p.status.value.Some? {
      LiteralIsEnum(p.status.value.value);
    }
  }
}
