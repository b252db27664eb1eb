/**
 * Values shared by the task service and its browser client: the task row,
 * the fields of a JSON request body, and the `{success, data | error}`
 * envelope every handler answers with.
 */
module Tasks {

  datatype Option<T> = None | Some(value: T) {
    /** The wrapped value, or `default` when there is none; `GetOr("")` is JavaScript's `x || ''` on a string or null. */
    function GetOr(default: T): T {
      match this
      case Some(v) => v
      case None => default
    }
  }

  const PENDING := "pending"
  const IN_PROGRESS := "in-progress"
  const COMPLETED := "completed"

  /** One of the three statuses the user interface offers. */
  predicate KnownStatus(status: Option<string>) {
    status == Some(PENDING) || status == Some(IN_PROGRESS) || status == Some(COMPLETED)
  }

  /**
   * One row of the `tasks` table, as the store returns it and as the client
   * keeps it. `None` is SQL NULL. Timestamps are milliseconds.
   */
  datatype Task = Task(
    id: int,
    title: string,
    description: Option<string>,
    status: Option<string>,
    createdAt: int,
    updatedAt: int)

  /** A field of a parsed JSON request body: missing, `null`, or a string. */
  datatype BodyValue = Undefined | Null | Text(s: string)

  /** The SQL parameter a body field binds to; the driver sends both `undefined` and `null` as NULL. */
  function Bind(v: BodyValue): (p: Option<string>)
    ensures p.Some? <==> v.Text?
    ensures p.Some? ==> p.value == v.s
  {
    if v.Text? then Some(v.s) else None
  }

  /** JavaScript truthiness of a body field: only a non-empty string is truthy. */
  predicate Truthy(v: BodyValue)
    ensures Truthy(v) <==> Bind(v).Some? && |Bind(v).value| > 0
  {
    v.Text? && v.s != ""
  }

  /** The response envelope: `{success: true, data, message?}` or `{success: false, error}`. */
  datatype Body<T> = Success(data: T, message: Option<string>) | Failure(error: string)

  /** An HTTP response: its status code and its JSON envelope. */
  datatype Response<T> = Response(status: int, body: Body<T>)
}
