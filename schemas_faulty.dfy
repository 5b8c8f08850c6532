/**
 * The bodies of app/schemas_faulty.py. They have the shapes of module Schemas; what
 * differs is validation: titles carry no length bound.
 */
module SchemasFaulty {
  import opened Schemas

  /** `TaskCreate`: `title: str` with no bound, the status a literal (default "New"). */
  predicate ValidTaskCreate(p: TaskCreate)
    ensures Schemas.ValidTaskCreate(p) ==> ValidTaskCreate(p)
  {
    IsStatusLiteral(p.status)
  }

  /** `TaskUpdate`: every field optional, a given status a literal, titles unbounded. */
  predicate ValidTaskUpdate(p: TaskUpdate)
    ensures Schemas.ValidTaskUpdate(p) ==> ValidTaskUpdate(p)
  {
    p.status.Set? && p.status.value.Some? ==> IsStatusLiteral(p.status.value.value)
  }

  /** An empty title, and one of 201 characters, both pass here and fail the bounded schema. */
  lemma UnboundedTitles()
    ensures var empty := TaskCreateWithDefaults("");
      ValidTaskCreate(empty) && !Schemas.ValidTaskCreate(empty)
    ensures var long := TaskCreateWithDefaults(seq(201, _ => 'a'));
      ValidTaskCreate(long) && !Schemas.ValidTaskCreate(long)
  {
  }
}
