# Task tracker — a Dafny model

This project models a small task tracker in Dafny. The tracker has two parts:

- an Express service that serves the `tasks` table over five REST handlers under `/api/tasks`;
- a React client with three parts:
  - the application shell (`App`);
  - the task form (`TaskForm`);
  - the task list (`TaskList`).

A task has these columns:

- `id`;
- `title`;
- an optional `description`;
- a `status` (`pending`, `in-progress` or `completed`);
- the `created_at` and `updated_at` timestamps.

Every handler answers with an HTTP status and a `{success, data | error}` envelope.

| file | models | form |
|---|---|---|
| `tasks.dfy` | the task row, the fields of a JSON request body, the response envelope | datatypes |
| `task_routes.dfy` | `server/routes/tasks.js`: list, get, create, update, delete | class `TaskTable` over a `map` of rows |
| `app.dfy` | `client/src/App.js`: loading, creating, updating, deleting, editing, the view switch, the stats | class `AppState`, with pure list functions |
| `task_form.dfy` | `client/src/components/TaskForm.js`: prefill, field changes, status buttons, submit guard | class `Form`, with a pure `trim` |
| `task_list.dfy` | `client/src/components/TaskList.js`: guards, cards, icons, colours, badges, date buckets, delete confirmation | functions |
| `round_trip.dfy` | form record → request body → stored row → form record | functions and lemmas |

These things are parameters of the model:

- **The store.**
  - `storeFails` says that the query of a request raises.
  - `elapsed` is the time since the table's last write. A write stamps `CURRENT_TIMESTAMP` as `clock + elapsed`.
- **The API client.** Each client handler takes the `ApiCall` result as a parameter: either the unwrapped envelope, or `Threw`. It returns the request it would send.
- **The clock and the confirmation dialog.** The list view takes `now`. `ConfirmDelete` takes the user's answer to `window.confirm`.

The model makes these assumptions about the schema, which is not part of the model:

- `title` is a NOT NULL column.
- `description` and `status` are nullable columns with no check on their values.
- `id` comes from a serial sequence, and both timestamps default to the current time.

## Model

| member | source | states |
|---|---|---|
| `Tasks.Bind` | server/routes/tasks.js:61-64 | A body field binds a value exactly when it is a string, and binds that string; a missing or `null` field binds NULL. |
| `Tasks.Truthy` | server/routes/tasks.js:54 | A field passes `!title` exactly when it binds a non-empty string. |
| `TaskRoutes.DefaultStatus` | server/routes/tasks.js:51 | A missing status becomes `pending`. `null` stays NULL. A string is kept. |
| `TaskRoutes.NewRow` | server/routes/tasks.js:61-64 | The inserted row has the given id and title, and equal stamps at `now`. It stores the description exactly as sent (`Bind`), and the status as sent with the `pending` default for a missing one (`DefaultStatus`). |
| `TaskRoutes.Overwrite` | server/routes/tasks.js:95-98 | The updated row keeps id and `created_at`, and takes the new title and `updated_at`. It writes the description and status exactly as sent (`Bind`): a string as itself, a missing or `null` field as NULL. |
| `TaskRoutes.InsertByCreated` | server/routes/tasks.js:8 | Inserting keeps the rows (the multiset grows by exactly the new row) and keeps a newest-first list newest first. |
| `TaskRoutes.OrderByCreatedDesc` | server/routes/tasks.js:8 | `ORDER BY created_at DESC` gives a permutation of its input with non-increasing `created_at`. |
| `TaskRoutes.SortedCons` | server/routes/tasks.js:8 | A row no older than the head of a newest-first list can go in front of it. |
| `TaskRoutes.RowsByIdExact` | server/routes/tasks.js:8 | A scan of an id range lists each stored row with an id in that range exactly once. |
| `TaskRoutes.ScanCoversTable` | server/routes/tasks.js:8 | A scan over every id the sequence has handed out yields exactly the table's rows. |
| `TaskRoutes.TaskTable.constructor` | server/routes/tasks.js:1-3 | An empty table: no rows, the sequence at 1, the invariant established. |
| `TaskRoutes.TaskTable.List` | server/routes/tasks.js:6-20 | If the store fails: 500 with "Failed to get tasks". Otherwise: 200 with every row exactly once, newest first, and no message. |
| `TaskRoutes.TaskTable.Get` | server/routes/tasks.js:23-46 | If the store fails: 500 with "Failed to get task". An unknown id gives 404 "Task not found". Otherwise: 200 with that row. |
| `TaskRoutes.TaskTable.Create` | server/routes/tasks.js:49-78 | An empty or missing title gives 400 and changes nothing; a failing store gives 500 and changes nothing. Otherwise the row goes under a fresh id with both stamps equal, a missing status defaults to `pending`, and the response is 201 "Task created successfully". |
| `TaskRoutes.TaskTable.Update` | server/routes/tasks.js:81-112 | If the store fails: 500. An unknown id gives 404. A NULL title violates the column and gives 500. All three leave the table unchanged. Otherwise title, description and status are overwritten, `updated_at` is refreshed, and id and `created_at` are kept: 200. |
| `TaskRoutes.TaskTable.Delete` | server/routes/tasks.js:115-140 | If the store fails: 500. An unknown id gives 404. Otherwise exactly that row is removed and sent back: 200 "Task deleted successfully". |
| `TaskRoutes.DeleteThenGet` | server/routes/tasks.js:23-46 | After a delete that went through, a get of the same id answers 404. |
| `TaskRoutes.CreateThenGet` | server/routes/tasks.js:49-78 | A created row can be fetched by the id it was given. It was created with equal stamps, and with `pending` when no status was sent. |
| `TaskForm.Prefill` | client/src/components/TaskForm.js:11-25 | In the edit case: the edited task's record, with a NULL description shown as ''. Otherwise: an empty record with `pending`. Either way a known status stays known. |
| `TaskForm.FromTask` | client/src/components/TaskForm.js:12-17 | The edit prefill copies title and status and shows a NULL description as ''. |
| `TaskForm.OptionValue` | client/src/components/TaskForm.js:56-60 | Every status button carries one of the three known statuses. |
| `TaskForm.TrimStart` | client/src/components/TaskForm.js:39 | What is left is a suffix that starts with a non-blank, and everything dropped is whitespace. |
| `TaskForm.TrimEnd` | client/src/components/TaskForm.js:39 | What is left is a prefix that ends with a non-blank, and everything dropped is whitespace. |
| `TaskForm.Trim` | client/src/components/TaskForm.js:39 | The result is a piece of the string with only whitespace cut away on either side, and it starts and ends with a non-blank when it is not empty. |
| `TaskForm.TrimEmptyIff` | client/src/components/TaskForm.js:39 | A title trims to '' exactly when all of its characters are whitespace. |
| `TaskForm.Form.constructor` | client/src/components/TaskForm.js:3-25 | On mount the form shows the prefill for its `editingTask`. |
| `TaskForm.Form.EditingTaskChanged` | client/src/components/TaskForm.js:11-25 | When `editingTask` changes, the form shows the task, or an empty record with `pending`. |
| `TaskForm.Form.HandleChange` | client/src/components/TaskForm.js:27-33 | Typing changes the named field, and only that field. |
| `TaskForm.Form.SelectStatus` | client/src/components/TaskForm.js:134 | A status button sets a known status and leaves title and description alone. |
| `TaskForm.Form.HandleSubmit` | client/src/components/TaskForm.js:35-54 | Nothing is submitted exactly when the title is all whitespace. Otherwise the current record is submitted untrimmed; a create form then resets and an edit form keeps its contents. |
| `App.ReplaceById` | client/src/App.js:55-59 | The map keeps length and positions: entries with the id become the reply, all others stay. |
| `App.ReplaceAbsentId` | client/src/App.js:55-59 | Replacing an id no entry carries leaves the list unchanged. |
| `App.RemoveById` | client/src/App.js:75 | The filter keeps exactly the entries with another id and never grows the list. |
| `App.RemoveByIdConcat` | client/src/App.js:75 | The filter distributes over concatenation, so the survivors keep their order. |
| `App.RemoveAbsentId` | client/src/App.js:75 | Filtering out an id no entry carries removes nothing. |
| `App.CountStatus` | client/src/App.js:109-111 | A count lies between 0 and the length. It is 0 exactly when no task has that status, and the length exactly when every task has it. A single task counts 1 exactly when it has the status. |
| `App.CountStatusConcat` | client/src/App.js:109-111 | The count over a concatenation is the sum of the counts. With the one-task value, this pins every count to the number of tasks with that status. |
| `App.TaskStats` | client/src/App.js:108-113 | `total` is the length, and each count is at most the total. For a single task, each count is 1 exactly when the task has that status. |
| `App.TaskStatsConcat` | client/src/App.js:108-113 | The stats of two lists put together are the field-by-field sums of their stats. |
| `App.TaskStatsSum` | client/src/App.js:108-113 | `total` is the list length. The three counts never exceed it, and they add up to it exactly when every status is a known one. |
| `App.AppState.constructor` | client/src/App.js:7-12 | Initial state: empty list, loading, no error, nothing being edited, list view. |
| `App.AppState.LoadTasks` | client/src/App.js:19-34 | A success replaces the list and keeps any old error. A failure reply sets "Failed to load tasks". A throw sets "Failed to connect to server". Loading is off afterwards in every case. |
| `App.AppState.HandleCreateTask` | client/src/App.js:36-49 | A success puts the created task at the front, clears the error and returns to the list. A failure reply changes nothing. A throw sets "Failed to create task". |
| `App.AppState.HandleUpdateTask` | client/src/App.js:51-69 | A success replaces the entries with the edited id, ends editing, clears the error and returns to the list. A failure reply changes nothing. A throw, or a missing `editingTask`, sets "Failed to update task". |
| `App.AppState.HandleDeleteTask` | client/src/App.js:71-83 | A success filters out the id and clears the error. A failure reply changes nothing. A throw sets "Failed to delete task". |
| `App.AppState.HandleEditTask` | client/src/App.js:85-88 | The task becomes the one being edited and the form view opens. |
| `App.AppState.HandleCancelEdit` | client/src/App.js:90-93 | Editing ends and the list view returns. |
| `App.AppState.HandleFormSubmit` | client/src/App.js:95-101 | An update of the edited id when a task is being edited, a create otherwise, with that handler's effects. |
| `App.AppState.ShowTasks` | client/src/App.js:203 | The "Tasks" tab shows the list. |
| `App.AppState.NewTask` | client/src/App.js:217-220 | The "+" button opens an empty create form. |
| `App.AppState.ShowCreate` | client/src/App.js:229 | The "Create" tab opens the form and keeps the task being edited. |
| `TaskList.StatusIcon` | client/src/components/TaskList.js:33-44 | Each of `completed` and `in-progress` gets its own icon, exactly. Every other status, including NULL, gets the pending icon. |
| `TaskList.StatusColor` | client/src/components/TaskList.js:46-57 | Each of `completed` and `in-progress` gets its own colour, exactly. Every other status gets the grey pending colour. |
| `TaskList.FirstDash` | client/src/components/TaskList.js:188 | The position of the first dash, or the length when there is none. |
| `TaskList.ReplaceFirstDashAt` | client/src/components/TaskList.js:188 | `replace("-", " ")` turns the first dash, and only that one, into a space. |
| `TaskList.ToUpper` | client/src/components/TaskList.js:188 | Same length. Every lower-case ASCII letter becomes its capital, and every other character stays. ASCII-only: see Left out. |
| `TaskList.StatusLabel` | client/src/components/TaskList.js:188 | The badge has the status's length. The first dash becomes a space, and every other character is upper-cased in ASCII. ASCII-only: see Left out. |
| `TaskList.StatusLabels` | client/src/components/TaskList.js:188 | The badges read "IN PROGRESS", "PENDING" and "COMPLETED". |
| `TaskList.FormatDate` | client/src/components/TaskList.js:59-73 | The whole days between now and the date, either way round, give a bucket: less than one day is Today; one day is Yesterday; 2 to 6 days is "n days ago"; 7 or more is the calendar date. |
| `TaskList.Decimal` | client/src/components/TaskList.js:67 | The numeral of a day count is digits only, with no leading zero, and is one digit below 10. |
| `TaskList.Caption` | client/src/components/TaskList.js:65-67 | "Today" and "Yesterday" exactly for their buckets. An "n days ago" text is the numeral of n followed by " days ago". The calendar bucket has no text here. |
| `TaskList.TaskCard` | client/src/components/TaskList.js:87-203 | A card shows its description exactly when the description is non-empty. It shows an "Updated" stamp exactly when `updated_at` differs from `created_at`. |
| `TaskList.RenderTaskList` | client/src/components/TaskList.js:3-30 | Each outcome holds exactly in its case. Loading when loading. Otherwise the empty state for a missing or empty list. Otherwise a render error when some status is NULL. Otherwise one card per task, in order. |
| `TaskList.ConfirmDelete` | client/src/components/TaskList.js:75-83 | `onDelete` is called with that id exactly when the user confirms. |
| `RoundTrip.StatusField` | server/routes/tasks.js:51 | A serialised status binds back to itself, and the `pending` default never applies to it. |
| `RoundTrip.Encode` | client/src/services/api.js:39-58 | The request body carries every field of the record, so the service binds back exactly that record and never applies its `pending` default. |
| `RoundTrip.CreateRoundTrip` | server/routes/tasks.js:49-78 | A submitted record, once created and opened for editing, is the same record again. The row has equal stamps and the record's own status. |
| `RoundTrip.UpdateRoundTrip` | server/routes/tasks.js:81-112 | Whatever record an update sends, editing the updated task shows it again. Id and `created_at` are kept. |
| `RoundTrip.EditUntouched` | client/src/components/TaskForm.js:12-17 | Saving a task unedited changes only `updated_at`, except that a NULL description becomes ''. |
| `RoundTrip.FormGateImpliesServerGate` | client/src/components/TaskForm.js:39 | A title the form lets through always passes the service's `!title` check. |
| `RoundTrip.ServerAcceptsBlankTitle` | server/routes/tasks.js:54 | The converse fails: " " passes the service's check but not the form's. |
| `RoundTrip.EditAndSave` | server/routes/tasks.js:81-112 | Fetch, prefill and save leaves the stored row as it was, except for a refreshed `updated_at` and a NULL description stored as ''. |

## Left out

- `client/src/services/api.js` is not part of this model. The axios transport is left out, along with its turning every non-2xx answer into a thrown error. Each handler gets the outcome as an `ApiCall` parameter instead.
- `server/index.js` and the database pool are not part of this model. The SQL engine is replaced by the map, the sequence and the clock described above.
- The store's failures are a single `storeFails` flag. A non-numeric or out-of-range `:id`, which makes PostgreSQL raise, falls under it.
- The serial sequence advances even when an insert fails. The model advances `nextId` only on a successful create.
- Only string, `null` and missing body fields are modelled. Other JSON values (numbers, objects), and what the driver makes of them, are left out.
- `TaskRoutes.TaskTable.List`: rows with the same `created_at` come out in an order the store chooses. The contract states a permutation sorted newest first, not a particular order of ties.
- Concurrency is left out. The model has neither interleaving of awaited calls nor the race between the existence check and the `UPDATE` of a PUT. A row deleted in between would make the update answer 200 with no data.
- The client's `showForm` state is never read, so it is not modelled.
- `showToast`, `alert`, `console` logging, JSX layout, CSS and animation are left out.
- `toLocaleDateString` is left out. A date seven or more days away is the `CalendarDate` bucket holding the date.
- Parsing of the date strings is left out. Timestamps are milliseconds on both sides.
- `TaskList.ToUpper`: `toUpperCase` is modelled on ASCII letters only. A non-ASCII lower-case letter is left as it is, where JavaScript upper-cases it ('é' to 'É'). JavaScript may also change the length ('ß' to 'SS'), while the model keeps the length.
- `TaskList.StatusLabel`: stored statuses are not checked, so a non-ASCII status gets a badge that differs from the real one in the same way, and may differ in length. The three known statuses are ASCII, so their badges are exact (`TaskList.StatusLabels`).
- React's batching of state updates is left out. The effect that re-fills the form after `App` clears `editingTask` is modelled separately, by `TaskForm.Form.EditingTaskChanged`.
