/**
 * The task list component: it shows the result of the fetch hook and lets the user toggle a
 * task's status or delete a task. What matters here is which branch it renders and which
 * requests and callbacks each handler issues.
 */
module TaskList {
  import opened Wrappers
  import opened TaskStatus
  import opened ApiTypes
  import FetchTasks
  import TaskController
  import opened Wire

  /** The status a toggle asks for. An unknown status starts the cycle again at PENDING. */
  function GetNextStatus(current: string): (r: string)
    ensures r in Names
    ensures Parse(current).Some? ==> r == Parse(current).value.Next().Name()
    ensures Parse(current).None? ==> r == Pending.Name()
  {
    match current
    case "PENDING" => "IN_PROGRESS"
    case "IN_PROGRESS" => "COMPLETED"
    case "COMPLETED" => "PENDING"
    case _ => "PENDING"
  }

  /** On the three statuses the toggle always moves, and three toggles come back to the start. */
  lemma {:induction false} ToggleCycles(current: string)
    requires current in Names
    ensures GetNextStatus(current) != current
    ensures GetNextStatus(GetNextStatus(GetNextStatus(current))) == current
  {
    var st := Parse(current).value;
    NextIsThreeCycle(st);
    ParseName(st.Next());
    ParseName(st.Next().Next());
  }

  /** The body of the toggle request: the new status and nothing else. */
  function ToggleRequest(task: Task): (b: UpdateBody)
    ensures b.title.None? && b.description.None? && b.dueDate.None?
    ensures b.status == Some(GetNextStatus(task.status))
  {
    UpdateBody(None, None, Some(GetNextStatus(task.status)), None)
  }

  /** Whatever the task's status, the server's update handler accepts the toggle body. */
  lemma {:induction false} ToggleRequestAccepted(env: TaskController.Env, task: Task)
    ensures TaskController.UpdateBodyValid(env, WireUpdate(ToggleRequest(task)))
  {
    var st := Parse(GetNextStatus(task.status)).value;
    TaskController.StatusNameAccepted(st);
  }

  /** What a handler does besides rendering: the request it sends, the callback, the alert. */
  datatype Effects = Effects(sent: Option<UpdateBody>, deleted: bool, notifyModified: bool, alert: Option<string>)

  /**
   * Deleting asks for confirmation first; the parent is told only after the server deleted
   * the task, and a failure raises an alert instead.
   */
  function HandleDelete(confirmed: bool, succeeded: bool): (r: Effects)
    ensures r.sent.None?
    ensures r.deleted <==> confirmed
    ensures r.notifyModified <==> confirmed && succeeded
    ensures r.alert.Some? <==> confirmed && !succeeded
    ensures r.alert.Some? ==> r.alert.value == "Error deleting task"
  {
    if !confirmed then Effects(None, false, false, None)
    else if succeeded then Effects(None, true, true, None)
    else Effects(None, true, false, Some("Error deleting task"))
  }

  /** Toggling sends the toggle body at once; the parent is told only on success. */
  function HandleToggle(task: Task, succeeded: bool): (r: Effects)
    ensures r.sent == Some(ToggleRequest(task)) && !r.deleted
    ensures r.notifyModified <==> succeeded
    ensures r.alert.Some? <==> !succeeded
    ensures r.alert.Some? ==> r.alert.value == "Error toggling status"
  {
    var body := ToggleRequest(task);
    if succeeded then Effects(Some(body), false, true, None)
    else Effects(Some(body), false, false, Some("Error toggling status"))
  }

  /** The branch the component renders. */
  datatype ListView = Loading | ErrorText(message: string) | NoTasks | Rows(tasks: seq<Task>)

  /** The guards in order: loading, then an error, then missing or empty data, then the rows. */
  function RenderList(loading: bool, error: Option<string>, data: Option<seq<Task>>): (v: ListView)
    ensures v.Loading? <==> loading
    ensures v.ErrorText? <==> !loading && Truthy(error)
    ensures v.ErrorText? ==> v.message == error.value
    ensures v.NoTasks? <==> !loading && !Truthy(error) && (data.None? || data.value == [])
    ensures v.Rows? ==> data == Some(v.tasks) && v.tasks != []
  {
    if loading then Loading
    else if Truthy(error) then ErrorText(error.value)
    else if data.None? || |data.value| == 0 then NoTasks
    else Rows(data.value)
  }

  /**
   * What the component shows for a state of its fetch hook: "Loading..." exactly while the
   * hook loads (so right after mounting), the hook's error when one is set, its rows otherwise.
   */
  function View(s: FetchTasks.FetchResult): (v: ListView)
    ensures v.Loading? <==> s.loading
    ensures s == FetchTasks.Initial ==> v == Loading
    ensures v.ErrorText? ==> s.error.Some? && v.message == s.error.value
    ensures v.Rows? ==> s.data == Some(v.tasks)
  {
    RenderList(s.loading, s.error, s.data)
  }

  /** Once a fetch has failed the list never shows tasks again: only the spinner or the error. */
  lemma {:induction false} FailedFetchHidesRows(evs: seq<FetchTasks.Event>)
    requires FetchTasks.Fail in evs
    ensures View(FetchTasks.Run(FetchTasks.Initial, evs)) in {Loading, ErrorText(FetchTasks.FailureMessage)}
  {
    FetchTasks.ErrorIsSticky(FetchTasks.Initial, evs);
  }
}
