/**
  The task rows the database hands back, and the reads the tools ask of it.
  The database itself (database/supabase_client.py) is not part of this model: every call into
  it is a function parameter whose result is `None` when the call raises.
*/
module Store {
  import opened Wrappers
  import opened Json

  /**
    A stored task as the core reads it. `id` is always present; `None` for the other columns
    means the key is absent from the row.
  */
  datatype StoredTask = StoredTask(id: string, title: Option<string>, status: Option<string>, priority: Option<string>)

  /** A read of the task table. */
  datatype Query =
    | TextSearch(text: Value)                               // db.search_tasks(text)
    | Listing(status: Value, priority: Value, limit: Value) // db.list_tasks(status=..., priority=..., limit=...), None as JNull

  /** The reply texts index `title`, `status` and `priority` directly; a row without one of them makes the handler raise. */
  predicate Displayable(t: StoredTask) {
    t.title.Some? && t.status.Some? && t.priority.Some?
  }

  /** `f"{value}"` of an optional column read with `task.get(...)`: a missing value prints as None. */
  function ShowOption(v: Option<string>): string {
    if v.Some? then v.value else "None"
  }
}
