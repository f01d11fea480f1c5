/** The records every other module works on: the to-do task as the view-models
    and the store exchange it, the record the remote endpoint returns, and the
    (section, row) position of a row in the grouped list. */
module TaskModel {

  /** A value that may be missing, as Swift's optionals are; `None` is `nil`. */
  datatype Option<T> = None | Some(value: T)

  /** Swift's `o ?? fallback`. */
  function Coalesce<T>(o: Option<T>, fallback: T): T {
    if o.Some? then o.value else fallback
  }

  /** The id a task carries while it has not been saved yet: `getEmptyTask`
      produces it and the detail editor replaces it on creation. */
  const SentinelId: int := -1

  /** A to-do item. `title` and `createdAt` are absent on records that came
      from the remote endpoint; `todo` is the description text. */
  datatype Task = Task(
    id: int,
    title: Option<string>,
    todo: string,
    completed: bool,
    userId: int,
    createdAt: Option<string>)
  {
    /** True while the task still waits for an id. */
    predicate IsUnsaved() {
      id == SentinelId
    }
  }

  /** One element of the `todos` array of the remote list page. */
  datatype RemoteTask = RemoteTask(id: int, todo: string, completed: bool, userId: int)

  /** A row position in a sectioned list. */
  datatype IndexPath = IndexPath(section: int, row: int)
}
