/**
 * What app/models_faulty.py declares differently from app/models.py: the status column is
 * a VARCHAR holding the member VALUE (`values_callable=task_status_values`) and rejects
 * other strings (`validate_strings=True`). Its `users` and `tasks` rows, widths, foreign
 * key and cascade are those of module Models.
 */
module ModelsFaulty {
  import opened Wrappers
  import opened Status

  /** `task_status_values`: the member values, in declaration order. */
  function TaskStatusValues(): (r: seq<string>)
    ensures r == ["New", "In Progress", "Completed"]
    ensures forall s :: s in r <==> FromValue(s).Some?
  {
    seq(|Members|, i requires 0 <= i < |Members| => Value(Members[i]))
  }

  /** The string the column stores for a member: its value. */
  function StatusColumnValue(st: TaskStatus): (r: string)
    ensures r in TaskStatusValues()
    ensures FromValue(r) == Some(st)
  {
    Value(st)
  }

  /** Binding a plain string to the column: accepted only if it is one of the values. */
  function StatusColumnBind(s: string): (r: Option<TaskStatus>)
    ensures r.Some? <==> s in TaskStatusValues()
    ensures r.Some? ==> StatusColumnValue(r.value) == s
  {
    FromValue(s)
  }
}
