/**
 * How the form's record travels to the service and back: the JSON body the
 * client sends for a record, what the create and update handlers make of it,
 * and how the client's blank-title guard compares with the service's.
 */
module RoundTrip {
  import opened Tasks
  import opened TaskRoutes
  import opened TaskForm

  /** The request body the client sends for a form record (`JSON.stringify(taskData)`). */
  datatype Payload = Payload(title: BodyValue, description: BodyValue, status: BodyValue)

  /** A status as it is serialised: a missing (NULL) status is written as `null`. */
  function StatusField(status: Option<string>): (v: BodyValue)
    ensures Bind(v) == status
    ensures DefaultStatus(v) == status
    ensures status.Some? <==> v.Text?
  {
    if status.Some? then Text(status.value) else Null
  }

  /** The body carries every field of the record, so the service binds back exactly that record. */
  function Encode(f: FormData): (p: Payload)
    ensures Truthy(p.title) <==> f.title != ""
    ensures Bind(p.title) == Some(f.title) && Bind(p.description) == Some(f.description)
    ensures Bind(p.status) == f.status && DefaultStatus(p.status) == f.status
    ensures !p.title.Undefined? && !p.description.Undefined? && !p.status.Undefined?
  {
    Payload(Text(f.title), Text(f.description), StatusField(f.status))
  }

  /** The row a create request with this body yields under `id` at `now`. */
  function Created(id: int, f: FormData, now: int): Task {
    var p := Encode(f);
    NewRow(id, p.title.s, p.description, p.status, now)
  }

  /** The row an update request with this body makes of `row` at `now`. */
  function Updated(row: Task, f: FormData, now: int): Task {
    var p := Encode(f);
    Overwrite(row, p.title.s, p.description, p.status, now)
  }

  /**
   * A record submitted from the form and created on the service comes back,
   * when the created task is edited, as the very same record; the server's
   * `pending` default never applies, since the client always sends a status.
   */
  lemma CreateRoundTrip(id: int, f: FormData, now: int)
    ensures FromTask(Created(id, f, now)) == f
    ensures Created(id, f, now).description == Some(f.description)
    ensures Created(id, f, now).status == f.status
    ensures Created(id, f, now).createdAt == Created(id, f, now).updatedAt == now
  {
  }

  /** Whatever record an update sends, editing the updated task shows that record again. */
  lemma UpdateRoundTrip(row: Task, f: FormData, now: int)
    ensures FromTask(Updated(row, f, now)) == f
    ensures Updated(row, f, now).id == row.id
    ensures Updated(row, f, now).createdAt == row.createdAt
  {
  }

  /**
   * Opening a task for editing and saving it untouched changes only
   * `updated_at`, except that a NULL description is stored back as ''.
   */
  lemma EditUntouched(t: Task, now: int)
    ensures Updated(t, FromTask(t), now) == t.(description := Some(t.description.GetOr("")), updatedAt := now)
    ensures t.description.Some? ==> Updated(t, FromTask(t), now) == t.(updatedAt := now)
  {
  }

  /** A title the form lets through is one the service accepts. */
  lemma FormGateImpliesServerGate(title: string)
    ensures !AllWhitespace(title) ==> Truthy(Text(title))
    ensures Truthy(Text(title)) <==> title != ""
  {
  }

  /** The converse fails: the service accepts a title of one space, the form does not send it. */
  lemma ServerAcceptsBlankTitle()
    ensures Truthy(Text(" ")) && AllWhitespace(" ")
  {
  }

  /**
   * Editing task `id` end to end: fetch it, prefill the form, save it
   * untouched. The stored row keeps everything but its refreshed
   * `updated_at` and a NULL description turned into ''.
   */
  method EditAndSave(table: TaskTable, id: int, elapsed: nat)
    returns (fetched: Response<Task>, saved: Response<Task>)
    requires table.Valid()
    requires id in table.rows
    modifies table
    ensures table.Valid()
    ensures fetched == Response(200, Success(old(table.rows)[id], None))
    ensures saved.status == 200 && saved.body.Success?
    ensures table.rows == old(table.rows)[id := saved.body.data]
    ensures saved.body.data ==
      old(table.rows)[id].(description := Some(old(table.rows)[id].description.GetOr("")),
                           updatedAt := old(table.clock) + elapsed)
  {
    fetched := table.Get(id, false);
    var p := Encode(FromTask(fetched.body.data));
    saved := table.Update(id, p.title, p.description, p.status, elapsed, false);
  }
}
