/** The request and response bodies of app/schemas.py. */
module Schemas {
  import opened Wrappers
  import opened Status
  import opened Models

  /** `StatusLiteral = Literal["New", "In Progress", "Completed"]`. */
  predicate IsStatusLiteral(s: string)
  {
    s == "New" || s == "In Progress" || s == "Completed"
  }

  /** The literal admits exactly the strings `TaskStatus(s)` accepts. */
  lemma LiteralIsEnum(s: string)
    ensures IsStatusLiteral(s) <==> FromValue(s).Some?
    ensures IsStatusLiteral(s) <==> exists st :: Value(st) == s
  {
    if IsStatusLiteral(s) {
      assert Value(FromValue(s).value) == s;
    }
  }

  /** `Field(min_length=1, max_length=200)` on titles. */
  const TITLE_MIN_LENGTH: nat := 1
  const TITLE_MAX_LENGTH: nat := 200

  predicate ValidTitle(t: string)
  {
    TITLE_MIN_LENGTH <= |t| <= TITLE_MAX_LENGTH
  }

  /** `TaskCreate` (= `TaskBase`) as received: the status is still a string. */
  datatype TaskCreate = TaskCreate(title: string, description: Option<string>, status: string)

  /** A body that gives only a title: the schema fills in its defaults. */
  function TaskCreateWithDefaults(title: string): (p: TaskCreate)
    ensures p.title == title && p.description.None?
    ensures IsStatusLiteral(p.status) && FromValue(p.status) == Some(DEFAULT_STATUS)
  {
    TaskCreate(title, None, "New")
  }

  /** What pydantic lets through to the handler (anything else is a 422). */
  predicate ValidTaskCreate(p: TaskCreate)
  {
    ValidTitle(p.title) && IsStatusLiteral(p.status)
  }

  /**
   * A field of a patch body: `Unset` if the client left it out (it then reads as its
   * default `None` but `exclude_unset` drops it), `Set(v)` if the client sent it, `null` included.
   */
  datatype Field<+T> = Unset | Set(value: T)

  function FieldValue<T>(f: Field<Option<T>>): (r: Option<T>)
    ensures f.Unset? ==> r.None?
    ensures f.Set? ==> r == f.value
  {
    if f.Set? then f.value else None
  }

  datatype TaskUpdate = TaskUpdate(title: Field<Option<string>>, description: Field<Option<string>>, status: Field<Option<string>>)

  /** The empty patch: every field optional and unset. */
  const EmptyUpdate: TaskUpdate := TaskUpdate(Unset, Unset, Unset)

  /** A title, when given and not null, has length 1 to 200; a status, when given and not null, is a literal. */
  predicate ValidTaskUpdate(p: TaskUpdate)
  {
    && (p.title.Set? && p.title.value.Some? ==> ValidTitle(p.title.value.value))
    && (p.status.Set? && p.status.value.Some? ==> IsStatusLiteral(p.status.value.value))
  }

  /** One key of `model_dump(exclude_unset=True)`. */
  datatype DumpEntry =
    | TitleEntry(title: Option<string>)
    | DescriptionEntry(description: Option<string>)
    | StatusEntry(status: Option<string>)

  function DumpTitle(p: TaskUpdate): seq<DumpEntry>
  {
    if p.title.Set? then [TitleEntry(p.title.value)] else []
  }

  function DumpDescription(p: TaskUpdate): seq<DumpEntry>
  {
    if p.description.Set? then [DescriptionEntry(p.description.value)] else []
  }

  function DumpStatus(p: TaskUpdate): seq<DumpEntry>
  {
    if p.status.Set? then [StatusEntry(p.status.value)] else []
  }

  function SetCount(p: TaskUpdate): nat
  {
    (if p.title.Set? then 1 else 0) + (if p.description.Set? then 1 else 0) + (if p.status.Set? then 1 else 0)
  }

  /**
   * `model_dump(exclude_unset=True)`: one entry per field the client sent, carrying the
   * value sent, in field order; fields left out do not appear.
   */
  function Dump(p: TaskUpdate): (r: seq<DumpEntry>)
    ensures |r| == SetCount(p)
    ensures p.title.Set? ==> TitleEntry(p.title.value) in r
    ensures p.description.Set? ==> DescriptionEntry(p.description.value) in r
    ensures p.status.Set? ==> StatusEntry(p.status.value) in r
    ensures forall e :: e in r ==> match e
      case TitleEntry(v) => p.title == Set(v)
      case DescriptionEntry(v) => p.description == Set(v)
      case StatusEntry(v) => p.status == Set(v)
  {
    DumpTitle(p) + DumpDescription(p) + DumpStatus(p)
  }

  /** `TaskOut`: the status is rendered as the enum's string value (`use_enum_values`). */
  datatype TaskOut = TaskOut(id: int, title: string, description: Option<string>, status: string, userId: int)

  function ToOut(id: int, t: Task): (o: TaskOut)
    ensures o.id == id && o.title == t.title && o.description == t.description && o.userId == t.userId
    ensures IsStatusLiteral(o.status) && FromValue(o.status) == Some(t.status)
  {
    TaskOut(id, t.title, t.description, Value(t.status), t.userId)
  }

  /** `PaginatedTasks`: the page and the size of the filtered set; there is no page count. */
  datatype PaginatedTasks = PaginatedTasks(items: seq<TaskOut>, total: int, page: int, limit: int)
}
