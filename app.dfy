/**
 * The application shell: the local copy of the task list, the loading flag,
 * the error banner, the task being edited and the current view. Each handler
 * sends one request through the API client and reconciles the local state
 * from what came back; the API client's answer is a parameter.
 */
module App {
  import opened Tasks
  import opened TaskForm

  /** `currentView`: `'tasks'` or `'create'`. */
  datatype View = TasksView | CreateView

  /** What an awaited API call produced: the unwrapped envelope, or a thrown error. */
  datatype ApiCall<T> = Replied(body: Body<T>) | Threw

  /** The request a handler hands to the API client. */
  datatype Request = GetAllTasks | CreateTask(data: FormData) | UpdateTask(id: int, data: FormData) | DeleteTask(id: int)

  const ERR_LOAD_FAILED := "Failed to load tasks"
  const ERR_NO_SERVER := "Failed to connect to server"
  const ERR_CREATE_FAILED := "Failed to create task"
  const ERR_UPDATE_FAILED := "Failed to update task"
  const ERR_DELETE_FAILED := "Failed to delete task"

  /**
   * `prev.map(task => task.id === id ? t : task)`: length and positions are
   * kept, the entries with `id` become `t` and the others stay.
   */
  function ReplaceById(s: seq<Task>, id: int, t: Task): (r: seq<Task>)
    ensures |r| == |s|
    ensures forall i | 0 <= i < |s| :: r[i] == if s[i].id == id then t else s[i]
  {
    if s == [] then [] else [if s[0].id == id then t else s[0]] + ReplaceById(s[1..], id, t)
  }

  /** Replacing by an id no entry has leaves the list as it was. */
  lemma ReplaceAbsentId(s: seq<Task>, id: int, t: Task)
    requires forall i | 0 <= i < |s| :: s[i].id != id
    ensures ReplaceById(s, id, t) == s
  {
  }

  /** `prev.filter(task => task.id !== id)`: exactly the entries with another id survive. */
  function RemoveById(s: seq<Task>, id: int): (r: seq<Task>)
    ensures forall x :: x in r <==> x in s && x.id != id
    ensures |r| <= |s|
  {
    if s == [] then
      []
    else
      assert s == [s[0]] + s[1..];
      (if s[0].id != id then [s[0]] else []) + RemoveById(s[1..], id)
  }

  /** The filter works piecewise, so the surviving entries keep their relative order. */
  lemma {:induction false} RemoveByIdConcat(a: seq<Task>, b: seq<Task>, id: int)
    ensures RemoveById(a + b, id) == RemoveById(a, id) + RemoveById(b, id)
  {
    if a != [] {
      assert (a + b)[1..] == a[1..] + b;
      RemoveByIdConcat(a[1..], b, id);
    } else {
      assert a + b == b;
    }
  }

  /** With no entry carrying `id`, the filter removes nothing. */
  lemma {:induction false} RemoveAbsentId(s: seq<Task>, id: int)
    requires forall i | 0 <= i < |s| :: s[i].id != id
    ensures RemoveById(s, id) == s
  {
    if s != [] {
      RemoveAbsentId(s[1..], id);
    }
  }

  /** `tasks.filter(task => task.status === status).length`: none, some, or all of the list. */
  function CountStatus(s: seq<Task>, status: string): (c: nat)
    ensures c <= |s|
    ensures c == 0 <==> forall i | 0 <= i < |s| :: s[i].status != Some(status)
    ensures c == |s| <==> forall i | 0 <= i < |s| :: s[i].status == Some(status)
    ensures |s| == 1 ==> c == if s[0].status == Some(status) then 1 else 0
  {
    if s == [] then
      0
    else
      var rest := CountStatus(s[1..], status);
      assert forall i | 1 <= i < |s| :: s[i] == s[1..][i - 1];
      (if s[0].status == Some(status) then 1 else 0) + rest
  }

  /** Counting is additive: the count over `a + b` is the count over `a` plus the count over `b`. */
  lemma {:induction false} CountStatusConcat(a: seq<Task>, b: seq<Task>, status: string)
    ensures CountStatus(a + b, status) == CountStatus(a, status) + CountStatus(b, status)
  {
    if a == [] {
      assert a + b == b;
    } else {
      assert (a + b)[1..] == a[1..] + b;
      CountStatusConcat(a[1..], b, status);
    }
  }

  datatype Stats = Stats(completed: nat, inProgress: nat, pending: nat, total: nat)

  /** `getTaskStats`: the per-status counts shown above the list, each at most the total. */
  function TaskStats(s: seq<Task>): (st: Stats)
    ensures st.total == |s|
    ensures st.completed <= st.total && st.inProgress <= st.total && st.pending <= st.total
    ensures st.completed == 0 <==> forall i | 0 <= i < |s| :: s[i].status != Some(COMPLETED)
    ensures |s| == 1 ==>
      && st.completed == (if s[0].status == Some(COMPLETED) then 1 else 0)
      && st.inProgress == (if s[0].status == Some(IN_PROGRESS) then 1 else 0)
      && st.pending == (if s[0].status == Some(PENDING) then 1 else 0)
  {
    Stats(CountStatus(s, COMPLETED), CountStatus(s, IN_PROGRESS), CountStatus(s, PENDING), |s|)
  }

  /** The stats of two lists put together are the sums of their stats, field by field. */
  lemma TaskStatsConcat(a: seq<Task>, b: seq<Task>)
    ensures TaskStats(a + b).completed == TaskStats(a).completed + TaskStats(b).completed
    ensures TaskStats(a + b).inProgress == TaskStats(a).inProgress + TaskStats(b).inProgress
    ensures TaskStats(a + b).pending == TaskStats(a).pending + TaskStats(b).pending
    ensures TaskStats(a + b).total == TaskStats(a).total + TaskStats(b).total
  {
    CountStatusConcat(a, b, COMPLETED);
    CountStatusConcat(a, b, IN_PROGRESS);
    CountStatusConcat(a, b, PENDING);
  }

  /** The three counts never exceed the total, and add up to it exactly when every status is a known one. */
  lemma {:induction false} TaskStatsSum(s: seq<Task>)
    ensures TaskStats(s).total == |s|
    ensures TaskStats(s).completed + TaskStats(s).inProgress + TaskStats(s).pending <= TaskStats(s).total
    ensures TaskStats(s).completed + TaskStats(s).inProgress + TaskStats(s).pending == TaskStats(s).total
            <==> forall i | 0 <= i < |s| :: KnownStatus(s[i].status)
  {
    if s != [] {
      TaskStatsSum(s[1..]);
      var tail := s[1..];
      if forall i | 0 <= i < |tail| :: KnownStatus(tail[i].status) {
        assert KnownStatus(s[0].status) ==> forall i | 0 <= i < |s| :: KnownStatus(s[i].status) by {
          forall i | 1 <= i < |s| ensures KnownStatus(s[i].status) {
            assert s[i] == tail[i - 1];
          }
        }
      } else {
        var i :| 0 <= i < |tail| && !KnownStatus(tail[i].status);
        assert s[i + 1] == tail[i];
      }
    }
  }

  class AppState {
    var tasks: seq<Task>
    var loading: bool
    var error: string
    var editingTask: Option<Task>
    var currentView: View

    /** The state before the first load: empty list, loading, no error, list view. */
    constructor ()
      ensures tasks == [] && loading && error == "" && editingTask == None && currentView == TasksView
    {
      tasks := [];
      loading := true;
      error := "";
      editingTask := None;
      currentView := TasksView;
    }

    /**
     * `loadTasks`: a successful reply replaces the list (and keeps any old
     * error); a failed or thrown one sets the error and keeps the list.
     * Loading is off afterwards in every case.
     */
    method LoadTasks(call: ApiCall<seq<Task>>) returns (sent: Request)
      modifies this
      ensures sent == GetAllTasks
      ensures !loading
      ensures editingTask == old(editingTask) && currentView == old(currentView)
      ensures call.Replied? && call.body.Success? ==> tasks == call.body.data && error == old(error)
      ensures call.Replied? && call.body.Failure? ==> tasks == old(tasks) && error == ERR_LOAD_FAILED
      ensures call.Threw? ==> tasks == old(tasks) && error == ERR_NO_SERVER
    {
      loading := true;
      sent := GetAllTasks;
      if call.Threw? {
        error := ERR_NO_SERVER;
      } else if call.body.Success? {
        tasks := call.body.data;
      } else {
        error := ERR_LOAD_FAILED;
      }
      loading := false;
    }

    /** `handleCreateTask`: a created task goes on top of the list and the list view returns. */
    method HandleCreateTask(taskData: FormData, call: ApiCall<Task>) returns (sent: Request)
      modifies this
      ensures sent == CreateTask(taskData)
      ensures loading == old(loading) && editingTask == old(editingTask)
      ensures call.Replied? && call.body.Success? ==>
        tasks == [call.body.data] + old(tasks) && error == "" && currentView == TasksView
      ensures call.Replied? && call.body.Failure? ==> unchanged(this)
      ensures call.Threw? ==>
        tasks == old(tasks) && error == ERR_CREATE_FAILED && currentView == old(currentView)
    {
      sent := CreateTask(taskData);
      match call
      case Replied(body) =>
        if body.Success? {
          tasks := [body.data] + tasks;
          error := "";
          currentView := TasksView;
        }
      case Threw =>
        error := ERR_CREATE_FAILED;
    }

    /**
     * `handleUpdateTask`: the entries with the edited task's id are replaced
     * in place, editing ends and the list view returns. With no task being
     * edited, reading `editingTask.id` throws before any request is sent.
     */
    method HandleUpdateTask(taskData: FormData, call: ApiCall<Task>) returns (sent: Option<Request>)
      modifies this
      ensures loading == old(loading)
      ensures old(editingTask).None? ==>
        sent == None && tasks == old(tasks) && error == ERR_UPDATE_FAILED
        && editingTask == old(editingTask) && currentView == old(currentView)
      ensures old(editingTask).Some? ==> sent == Some(UpdateTask(old(editingTask).value.id, taskData))
      ensures old(editingTask).Some? && call.Replied? && call.body.Success? ==>
        && tasks == ReplaceById(old(tasks), old(editingTask).value.id, call.body.data)
        && editingTask == None && error == "" && currentView == TasksView
      ensures old(editingTask).Some? && call.Replied? && call.body.Failure? ==> unchanged(this)
      ensures old(editingTask).Some? && call.Threw? ==>
        && tasks == old(tasks) && error == ERR_UPDATE_FAILED
        && editingTask == old(editingTask) && currentView == old(currentView)
    {
      if editingTask.None? {
        error := ERR_UPDATE_FAILED;
        return None;
      }
      var id := editingTask.value.id;
      sent := Some(UpdateTask(id, taskData));
      match call
      case Replied(body) =>
        if body.Success? {
          tasks := ReplaceById(tasks, id, body.data);
          editingTask := None;
          currentView := TasksView;
          error := "";
        }
      case Threw =>
        error := ERR_UPDATE_FAILED;
    }

    /** `handleDeleteTask`: the entries with `taskId` leave the list; the view stays. */
    method HandleDeleteTask(taskId: int, call: ApiCall<Task>) returns (sent: Request)
      modifies this
      ensures sent == DeleteTask(taskId)
      ensures loading == old(loading) && editingTask == old(editingTask) && currentView == old(currentView)
      ensures call.Replied? && call.body.Success? ==> tasks == RemoveById(old(tasks), taskId) && error == ""
      ensures call.Replied? && call.body.Failure? ==> unchanged(this)
      ensures call.Threw? ==> tasks == old(tasks) && error == ERR_DELETE_FAILED
    {
      sent := DeleteTask(taskId);
      match call
      case Replied(body) =>
        if body.Success? {
          tasks := RemoveById(tasks, taskId);
          error := "";
        }
      case Threw =>
        error := ERR_DELETE_FAILED;
    }

    /** `handleEditTask`: the task becomes the one being edited and the form opens. */
    method HandleEditTask(task: Task)
      modifies this`editingTask, this`currentView
      ensures editingTask == Some(task) && currentView == CreateView
    {
      editingTask := Some(task);
      currentView := CreateView;
    }

    /** `handleCancelEdit`: editing ends and the list view returns; the list is not touched. */
    method HandleCancelEdit()
      modifies this`editingTask, this`currentView
      ensures editingTask == None && currentView == TasksView
    {
      editingTask := None;
      currentView := TasksView;
    }

    /** `handleFormSubmit`: an update when a task is being edited, a create otherwise. */
    method HandleFormSubmit(taskData: FormData, call: ApiCall<Task>) returns (sent: Option<Request>)
      modifies this
      ensures old(editingTask).Some? <==> sent.Some? && sent.value.UpdateTask?
      ensures old(editingTask).None? <==> sent == Some(CreateTask(taskData))
      ensures old(editingTask).Some? ==> sent.value.id == old(editingTask).value.id
      ensures loading == old(loading)
      ensures call.Replied? && call.body.Success? ==> error == "" && currentView == TasksView && editingTask == None
      ensures call.Replied? && call.body.Success? ==>
        tasks == if old(editingTask).Some?
                 then ReplaceById(old(tasks), old(editingTask).value.id, call.body.data)
                 else [call.body.data] + old(tasks)
      ensures call.Replied? && call.body.Failure? ==> unchanged(this)
      ensures call.Threw? ==> tasks == old(tasks) && editingTask == old(editingTask) && currentView == old(currentView)
      ensures call.Threw? ==> error == if old(editingTask).Some? then ERR_UPDATE_FAILED else ERR_CREATE_FAILED
    {
      if editingTask.Some? {
        sent := HandleUpdateTask(taskData, call);
      } else {
        var req := HandleCreateTask(taskData, call);
        sent := Some(req);
      }
    }

    /** The "Tasks" tab of the bottom navigation. */
    method ShowTasks()
      modifies this`currentView
      ensures currentView == TasksView
    {
      currentView := TasksView;
    }

    /** The "+" button: a fresh create form, with nothing being edited. */
    method NewTask()
      modifies this`editingTask, this`currentView
      ensures editingTask == None && currentView == CreateView
    {
      editingTask := None;
      currentView := CreateView;
    }

    /** The "Create" tab: opens the form view and keeps whatever task is being edited. */
    method ShowCreate()
      modifies this`currentView
      ensures currentView == CreateView
    {
      currentView := CreateView;
    }
  }
}
