/**
 * The five REST handlers of the task service (`/api/tasks`), run against an
 * abstract `tasks` table: a map from id to row, the next value of the id
 * sequence, and a clock that only moves forward. Every handler answers with
 * an HTTP status and a `{success, data | error}` envelope.
 *
 * The store itself is a parameter: `storeFails` says that a query of this
 * request raises; `elapsed` is the time since the table's last write, so the
 * `CURRENT_TIMESTAMP` of a write is `clock + elapsed`.
 */
module TaskRoutes {
  import opened Tasks

  const MSG_NOT_FOUND := "Task not found"
  const MSG_TITLE_REQUIRED := "Title is required"
  const MSG_LIST_FAILED := "Failed to get tasks"
  const MSG_GET_FAILED := "Failed to get task"
  const MSG_CREATE_FAILED := "Failed to create task"
  const MSG_UPDATE_FAILED := "Failed to update task"
  const MSG_DELETE_FAILED := "Failed to delete task"
  const MSG_CREATED := "Task created successfully"
  const MSG_UPDATED := "Task updated successfully"
  const MSG_DELETED := "Task deleted successfully"

  /** Non-increasing `created_at`: the order of `ORDER BY created_at DESC`. */
  predicate SortedByCreatedDesc(s: seq<Task>) {
    forall i, j | 0 <= i < j < |s| :: s[i].createdAt >= s[j].createdAt
  }

  /** A row no older than the head of a sorted list can go in front of it. */
  lemma SortedCons(x: Task, s: seq<Task>)
    requires SortedByCreatedDesc(s)
    requires s == [] || x.createdAt >= s[0].createdAt
    ensures SortedByCreatedDesc([x] + s)
  {
    var r := [x] + s;
    forall i, j | 0 <= i < j < |r| ensures r[i].createdAt >= r[j].createdAt {
      if i == 0 {
        assert r[j] == s[j - 1];
      } else {
        assert r[i] == s[i - 1] && r[j] == s[j - 1];
      }
    }
  }

  /** Inserts `t` into a list sorted newest first, before the first row not newer than it. */
  function InsertByCreated(t: Task, s: seq<Task>): (r: seq<Task>)
    ensures multiset(r) == multiset(s) + multiset{t}
    ensures |r| == |s| + 1
    ensures r[0] == t || (s != [] && r[0] == s[0])
    ensures SortedByCreatedDesc(s) ==> SortedByCreatedDesc(r)
  {
    if s == [] || s[0].createdAt <= t.createdAt then
      if SortedByCreatedDesc(s) then SortedCons(t, s); [t] + s else [t] + s
    else
      assert s == [s[0]] + s[1..];
      var rest := InsertByCreated(t, s[1..]);
      if SortedByCreatedDesc(s) then
        assert SortedByCreatedDesc(s[1..]);
        SortedCons(s[0], rest);
        [s[0]] + rest
      else
        [s[0]] + rest
  }

  /** The store's `ORDER BY created_at DESC`; ties come out in one of the orders the store may choose. */
  function OrderByCreatedDesc(s: seq<Task>): (r: seq<Task>)
    ensures multiset(r) == multiset(s)
    ensures SortedByCreatedDesc(r)
  {
    if s == [] then
      []
    else
      assert s == [s[0]] + s[1..];
      InsertByCreated(s[0], OrderByCreatedDesc(s[1..]))
  }

  /** Every row is filed under its own id. */
  ghost predicate KeyedById(rows: map<int, Task>) {
    forall id | id in rows :: rows[id].id == id
  }

  /** A table scan: the rows whose ids lie in `[lo, hi)`, in id order. */
  function RowsById(rows: map<int, Task>, lo: int, hi: int): seq<Task>
    decreases hi - lo
  {
    if lo >= hi then [] else (if lo in rows then [rows[lo]] else []) + RowsById(rows, lo + 1, hi)
  }

  /** The set of rows stored in the table. */
  ghost function AllRows(rows: map<int, Task>): set<Task> {
    set id | id in rows :: rows[id]
  }

  ghost function RowsBetween(rows: map<int, Task>, lo: int, hi: int): set<Task> {
    set id | id in rows && lo <= id < hi :: rows[id]
  }

  lemma MultisetOfDisjointUnion(a: set<Task>, b: set<Task>)
    requires a !! b
    ensures multiset(a + b) == multiset(a) + multiset(b)
  {
    forall x ensures multiset(a + b)[x] == (multiset(a) + multiset(b))[x] {
      if x in a { assert x !in b; }
    }
  }

  /** Splitting off the lowest id of the range: its row (if any) and the rest, which are disjoint. */
  lemma RowsBetweenSplit(rows: map<int, Task>, lo: int, hi: int)
    requires KeyedById(rows)
    requires lo < hi
    ensures RowsBetween(rows, lo, hi) == RowsAt(rows, lo) + RowsBetween(rows, lo + 1, hi)
    ensures RowsAt(rows, lo) !! RowsBetween(rows, lo + 1, hi)
  {
    forall x | x in RowsAt(rows, lo) ensures x !in RowsBetween(rows, lo + 1, hi) {
      assert x.id == lo;
    }
  }

  ghost function RowsAt(rows: map<int, Task>, id: int): set<Task> {
    if id in rows then {rows[id]} else {}
  }

  /** The scan of `[lo, hi)` lists each row with an id in that range exactly once. */
  lemma {:induction false} RowsByIdExact(rows: map<int, Task>, lo: int, hi: int)
    requires KeyedById(rows)
    ensures multiset(RowsById(rows, lo, hi)) == multiset(RowsBetween(rows, lo, hi))
    decreases hi - lo
  {
    if lo >= hi {
      assert RowsBetween(rows, lo, hi) == {};
    } else {
      var here := if lo in rows then [rows[lo]] else [];
      assert RowsById(rows, lo, hi) == here + RowsById(rows, lo + 1, hi);
      RowsByIdExact(rows, lo + 1, hi);
      RowsBetweenSplit(rows, lo, hi);
      MultisetOfDisjointUnion(RowsAt(rows, lo), RowsBetween(rows, lo + 1, hi));
      assert multiset(RowsAt(rows, lo)) == multiset(here);
    }
  }

  /** A scan over every id the sequence has handed out returns the whole table. */
  lemma ScanCoversTable(rows: map<int, Task>, nextId: int)
    requires KeyedById(rows)
    requires forall id | id in rows :: 0 <= id < nextId
    ensures multiset(RowsById(rows, 0, nextId)) == multiset(AllRows(rows))
  {
    RowsByIdExact(rows, 0, nextId);
    assert RowsBetween(rows, 0, nextId) == AllRows(rows);
  }

  /** `status = 'pending'` in the destructuring: the default applies to a missing field only, not to `null`. */
  function DefaultStatus(status: BodyValue): (r: Option<string>)
    ensures status.Undefined? ==> r == Some(PENDING)
    ensures r.None? <==> status.Null?
    ensures status.Text? ==> r == Some(status.s)
  {
    if status.Undefined? then Some(PENDING) else Bind(status)
  }

  /** The row `INSERT ... RETURNING *` yields, with the sequence's id and both timestamps at `now`. */
  function NewRow(id: int, title: string, description: BodyValue, status: BodyValue, now: int): (r: Task)
    ensures r.id == id && r.title == title
    ensures r.createdAt == r.updatedAt == now
    ensures r.description.Some? <==> description.Text?
    ensures r.description == Bind(description) && r.status == DefaultStatus(status)
    ensures status.Undefined? ==> r.status == Some(PENDING)
  {
    Task(id, title, Bind(description), DefaultStatus(status), now, now)
  }

  /**
   * The row `UPDATE ... SET title, description, status, updated_at` yields:
   * id and `created_at` are kept, and a missing field is written as NULL.
   */
  function Overwrite(row: Task, title: string, description: BodyValue, status: BodyValue, now: int): (r: Task)
    ensures r.id == row.id && r.createdAt == row.createdAt
    ensures r.title == title && r.updatedAt == now
    ensures r.description.Some? <==> description.Text?
    ensures r.status.Some? <==> status.Text?
    ensures r.description == Bind(description) && r.status == Bind(status)
  {
    row.(title := title, description := Bind(description), status := Bind(status), updatedAt := now)
  }

  class TaskTable {
    var rows: map<int, Task>
    var nextId: int
    var clock: int

    /** Ids come from the sequence and are filed under themselves; no timestamp is ahead of the clock. */
    ghost predicate Valid()
      reads this
    {
      && 1 <= nextId
      && forall id | id in rows ::
           && 1 <= id < nextId
           && rows[id].id == id
           && rows[id].createdAt <= rows[id].updatedAt <= clock
    }

    constructor (start: int)
      ensures Valid()
      ensures rows == map[] && nextId == 1 && clock == start
    {
      rows := map[];
      nextId := 1;
      clock := start;
    }

    /** GET `/`: every row, newest first. */
    method List(storeFails: bool) returns (r: Response<seq<Task>>)
      requires Valid()
      ensures storeFails ==> r == Response(500, Failure(MSG_LIST_FAILED))
      ensures !storeFails ==>
        && r.status == 200
        && r.body.Success? && r.body.message == None
        && multiset(r.body.data) == multiset(AllRows(rows))
        && SortedByCreatedDesc(r.body.data)
    {
      if storeFails {
        return Response(500, Failure(MSG_LIST_FAILED));
      }
      var scan := RowsById(rows, 0, nextId);
      ScanCoversTable(rows, nextId);
      r := Response(200, Success(OrderByCreatedDesc(scan), None));
    }

    /** GET `/:id`: the row with that id, or 404. */
    method Get(id: int, storeFails: bool) returns (r: Response<Task>)
      ensures storeFails ==> r == Response(500, Failure(MSG_GET_FAILED))
      ensures !storeFails && id !in rows ==> r == Response(404, Failure(MSG_NOT_FOUND))
      ensures !storeFails && id in rows ==> r == Response(200, Success(rows[id], None))
    {
      if storeFails {
        return Response(500, Failure(MSG_GET_FAILED));
      }
      if id !in rows {
        return Response(404, Failure(MSG_NOT_FOUND));
      }
      r := Response(200, Success(rows[id], None));
    }

    /** POST `/`: validates the title, then inserts a row under a fresh id. */
    method Create(title: BodyValue, description: BodyValue, status: BodyValue, elapsed: nat, storeFails: bool)
      returns (r: Response<Task>)
      requires Valid()
      modifies this
      ensures Valid()
      ensures !Truthy(title) ==> r == Response(400, Failure(MSG_TITLE_REQUIRED))
      ensures Truthy(title) && storeFails ==> r == Response(500, Failure(MSG_CREATE_FAILED))
      ensures !Truthy(title) || storeFails ==> unchanged(this)
      ensures Truthy(title) && !storeFails ==>
        var row := NewRow(old(nextId), title.s, description, status, old(clock) + elapsed);
        && old(nextId) !in old(rows)
        && rows == old(rows)[old(nextId) := row]
        && |rows| == |old(rows)| + 1
        && nextId == old(nextId) + 1
        && clock == old(clock) + elapsed
        && r == Response(201, Success(row, Some(MSG_CREATED)))
    {
      if !Truthy(title) {
        return Response(400, Failure(MSG_TITLE_REQUIRED));
      }
      if storeFails {
        return Response(500, Failure(MSG_CREATE_FAILED));
      }
      var now := clock + elapsed;
      var row := NewRow(nextId, title.s, description, status, now);
      rows := rows[nextId := row];
      nextId := nextId + 1;
      clock := now;
      r := Response(201, Success(row, Some(MSG_CREATED)));
    }

    /**
     * PUT `/:id`: checks that the row exists, then overwrites title,
     * description and status and refreshes `updated_at`. A missing title binds
     * NULL, which the NOT NULL title column refuses, so that write fails.
     */
    method Update(id: int, title: BodyValue, description: BodyValue, status: BodyValue, elapsed: nat, storeFails: bool)
      returns (r: Response<Task>)
      requires Valid()
      modifies this
      ensures Valid()
      ensures storeFails ==> r == Response(500, Failure(MSG_UPDATE_FAILED))
      ensures !storeFails && id !in old(rows) ==> r == Response(404, Failure(MSG_NOT_FOUND))
      ensures !storeFails && id in old(rows) && !title.Text? ==> r == Response(500, Failure(MSG_UPDATE_FAILED))
      ensures storeFails || id !in old(rows) || !title.Text? ==> unchanged(this)
      ensures !storeFails && id in old(rows) && title.Text? ==>
        var row := Overwrite(old(rows)[id], title.s, description, status, old(clock) + elapsed);
        && rows == old(rows)[id := row]
        && row.id == id && row.createdAt == old(rows)[id].createdAt
        && nextId == old(nextId)
        && clock == old(clock) + elapsed
        && r == Response(200, Success(row, Some(MSG_UPDATED)))
    {
      if storeFails {
        return Response(500, Failure(MSG_UPDATE_FAILED));
      }
      if id !in rows {
        return Response(404, Failure(MSG_NOT_FOUND));
      }
      if !title.Text? {
        return Response(500, Failure(MSG_UPDATE_FAILED));
      }
      var now := clock + elapsed;
      var row := Overwrite(rows[id], title.s, description, status, now);
      rows := rows[id := row];
      clock := now;
      r := Response(200, Success(row, Some(MSG_UPDATED)));
    }

    /** DELETE `/:id`: removes the row and answers with its last content, or 404. */
    method Delete(id: int, storeFails: bool) returns (r: Response<Task>)
      requires Valid()
      modifies this
      ensures Valid()
      ensures storeFails ==> r == Response(500, Failure(MSG_DELETE_FAILED))
      ensures !storeFails && id !in old(rows) ==> r == Response(404, Failure(MSG_NOT_FOUND))
      ensures storeFails || id !in old(rows) ==> unchanged(this)
      ensures !storeFails && id in old(rows) ==>
        && rows == old(rows) - {id}
        && |rows| == |old(rows)| - 1
        && nextId == old(nextId) && clock == old(clock)
        && r == Response(200, Success(old(rows)[id], Some(MSG_DELETED)))
    {
      if storeFails {
        return Response(500, Failure(MSG_DELETE_FAILED));
      }
      if id !in rows {
        return Response(404, Failure(MSG_NOT_FOUND));
      }
      var row := rows[id];
      rows := rows - {id};
      r := Response(200, Success(row, Some(MSG_DELETED)));
    }
  }

  /** A delete that went through, then a get of the same id: the get finds nothing. */
  method DeleteThenGet(table: TaskTable, id: int, deleteFails: bool, getFails: bool)
    returns (deleted: Response<Task>, fetched: Response<Task>)
    requires table.Valid()
    modifies table
    ensures table.Valid()
    ensures !deleteFails && !getFails ==> fetched == Response(404, Failure(MSG_NOT_FOUND))
    ensures !deleteFails && id in old(table.rows) ==> deleted.body == Success(old(table.rows)[id], Some(MSG_DELETED))
  {
    deleted := table.Delete(id, deleteFails);
    fetched := table.Get(id, getFails);
  }

  /** A create that went through, then a get of the id it returned: the get answers with the created row. */
  method CreateThenGet(table: TaskTable, title: BodyValue, description: BodyValue, status: BodyValue, elapsed: nat)
    returns (created: Response<Task>, fetched: Response<Task>)
    requires table.Valid()
    requires Truthy(title)
    modifies table
    ensures table.Valid()
    ensures created.status == 201 && created.body.Success?
    ensures fetched == Response(200, Success(created.body.data, None))
    ensures created.body.data.createdAt == created.body.data.updatedAt
    ensures status.Undefined? ==> created.body.data.status == Some(PENDING)
  {
    created := table.Create(title, description, status, elapsed, false);
    fetched := table.Get(created.body.data.id, false);
  }
}
