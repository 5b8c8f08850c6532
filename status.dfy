/** The task status enumeration `TaskStatus(str, Enum)` and its wire strings. */
module Status {
  import opened Wrappers

  /** The three members, in declaration order NEW, IN_PROGRESS, COMPLETED. */
  datatype TaskStatus = New | InProgress | Completed

  /** The members in declaration order (iteration over the enum class). */
  const Members: seq<TaskStatus> := [New, InProgress, Completed]

  /** `member.value`: the string the API exposes. */
  function Value(st: TaskStatus): string
  {
    match st
    case New => "New"
    case InProgress => "In Progress"
    case Completed => "Completed"
  }

  /** `member.name`: the Python identifier of the member. */
  function Name(st: TaskStatus): string
  {
    match st
    case New => "NEW"
    case InProgress => "IN_PROGRESS"
    case Completed => "COMPLETED"
  }

  /** `TaskStatus(s)`: lookup by value; `None` stands for the `ValueError` it raises. */
  function FromValue(s: string): (r: Option<TaskStatus>)
    ensures r.Some? <==> s == "New" || s == "In Progress" || s == "Completed"
    ensures r.Some? ==> Value(r.value) == s
  {
    if s == "New" then Some(New)
    else if s == "In Progress" then Some(InProgress)
    else if s == "Completed" then Some(Completed)
    else None
  }

  /** `TaskStatus[s]`: lookup by member name. */
  function FromName(s: string): (r: Option<TaskStatus>)
    ensures r.Some? <==> s == "NEW" || s == "IN_PROGRESS" || s == "COMPLETED"
    ensures r.Some? ==> Name(r.value) == s
  {
    if s == "NEW" then Some(New)
    else if s == "IN_PROGRESS" then Some(InProgress)
    else if s == "COMPLETED" then Some(Completed)
    else None
  }

  /** Value to member to value is the identity, the other way round too. */
  lemma ValueRoundTrip(st: TaskStatus)
    ensures FromValue(Value(st)) == Some(st)
    ensures FromName(Name(st)) == Some(st)
  {
  }

  /** Distinct members have distinct values. */
  lemma ValueInjective(a: TaskStatus, b: TaskStatus)
    ensures Value(a) == Value(b) <==> a == b
  {
  }

  /** The enumeration has exactly three members, each listed once. */
  lemma MembersExhaustive(st: TaskStatus)
    ensures st in Members
    ensures |Members| == 3
    ensures forall i, j :: 0 <= i < j < |Members| ==> Members[i] != Members[j]
  {
  }
}
