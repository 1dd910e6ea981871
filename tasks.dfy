/** The records of the task API and the request bodies that carry them.

    JavaScript body fields may be absent (`undefined`), empty (`""`, which is
    falsy) or present; an `Option<string>` keeps all three apart: `None`,
    `Some("")` and `Some(s)` with `s != ""`. */
module Tasks {

  datatype Option<+T> = None | Some(value: T)

  /** A stored task. `createdAt` is the creation time in milliseconds. */
  datatype Task = Task(id: int, title: string, description: string, status: string, createdAt: nat)

  /** The JSON body of a POST or PUT request. */
  datatype Body = Body(title: Option<string>, description: Option<string>, status: Option<string>)

  /** The query string of a list request: `?status=...&sort=...`. */
  datatype Query = Query(status: Option<string>, sort: Option<string>)

  /** The three status values the API accepts. */
  const Statuses: seq<string> := ["pending", "in-progress", "completed"]

  /** The status a created task gets when the body has no status field. */
  const DefaultStatus: string := "pending"

  /** JavaScript truthiness of a string-valued field: present and non-empty. */
  predicate Truthy(field: Option<string>)
  {
    field.Some? && field.value != ""
  }

  predicate IsStatus(s: string)
  {
    s in Statuses
  }

  /** The statuses a stored task can carry: one of the three, or the empty
      string, which a POST body may supply and which is stored verbatim. */
  predicate StorableStatus(s: string)
  {
    IsStatus(s) || s == ""
  }
}
