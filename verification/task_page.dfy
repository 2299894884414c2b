/**
 * The task page: two tabs over the fetch and search hooks, and an inline list whose toggle
 * button shows the new status at once (an optimistic override per task id) and drops the
 * override when the server answers.
 */
module TaskPage {
  import opened Wrappers
  import opened JsString
  import opened TaskStatus
  import opened ApiTypes
  import FetchTasks
  import SearchTasks
  import TaskList

  /** The status a toggle asks for: PENDING to IN_PROGRESS, IN_PROGRESS to COMPLETED, anything else to PENDING. */
  function NextStatus(original: string): (r: string)
    ensures r in Names
  {
    if original == "PENDING" then "IN_PROGRESS"
    else if original == "IN_PROGRESS" then "COMPLETED"
    else "PENDING"
  }

  /** The page's cycle and the task list's cycle agree on every string. */
  lemma {:induction false} NextStatusAgrees(original: string)
    ensures NextStatus(original) == TaskList.GetNextStatus(original)
  {
    if Parse(original).Some? {
      ParseName(Parse(original).value);
    }
  }

  /** Three toggles bring any of the three statuses back to itself, and one toggle always moves. */
  lemma {:induction false} ThreeTogglesAreIdentity(original: string)
    requires original in Names
    ensures NextStatus(original) != original
    ensures NextStatus(NextStatus(NextStatus(original))) == original
  {
    NextStatusAgrees(original);
    NextStatusAgrees(NextStatus(original));
    NextStatusAgrees(NextStatus(NextStatus(original)));
    TaskList.ToggleCycles(original);
  }

  /** The status shown for a task: its override while one is pending, else its own status. */
  function DisplayedStatus(overrides: map<int, string>, task: Task): (r: string)
    ensures task.id in overrides ==> r == overrides[task.id]
    ensures task.id !in overrides ==> r == task.status
  {
    if task.id in overrides then overrides[task.id] else task.status
  }

  /** The toggle button's caption. */
  function ButtonLabel(displayed: string): (r: string)
    ensures r == "Mark Pending" <==> displayed == "COMPLETED"
    ensures r != "Mark Pending" ==> r == "Toggle Status"
  {
    if displayed == "COMPLETED" then "Mark Pending" else "Toggle Status"
  }

  /** The message shown after a failed toggle. */
  const ToggleFailureMessage := "Failed to toggle status. Please try again."

  /** How long the failure message stays, in milliseconds. */
  const ToggleErrorMillis := 3000

  /** The body of the toggle request: the task's own fields with the new status. */
  function ToggleBody(task: Task): (b: UpdateBody)
    ensures b.title == Some(task.title) && b.description == Some(task.description)
    ensures b.dueDate == Some(task.dueDate)
    ensures b.status == Some(NextStatus(task.status))
  {
    UpdateBody(Some(task.title), Some(task.description), Some(NextStatus(task.status)), Some(task.dueDate))
  }

  /** Right after a toggle starts, the task shows its new status. */
  lemma ToggleShowsNewStatus(overrides: map<int, string>, task: Task)
    ensures DisplayedStatus(overrides[task.id := NextStatus(task.status)], task) == NextStatus(task.status)
  {
  }

  /** Starting a toggle changes what no other task shows. */
  lemma ToggleLeavesOthers(overrides: map<int, string>, task: Task, other: Task)
    requires other.id != task.id
    ensures DisplayedStatus(overrides[task.id := NextStatus(task.status)], other) == DisplayedStatus(overrides, other)
  {
  }

  /**
   * When the server answers, the task shows the status its row carries, and every other task
   * shows what it showed before. A success refetches only the All tab's list, so on the Search
   * tab that row still holds the status from before the toggle (`SearchToggleScenario`).
   */
  lemma SettleRestoresDisplay(overrides: map<int, string>, task: Task, other: Task)
    ensures DisplayedStatus(overrides - {task.id}, task) == task.status
    ensures other.id != task.id ==> DisplayedStatus(overrides - {task.id}, other) == DisplayedStatus(overrides, other)
  {
  }

  /** The inline list's state: the pending overrides and the toggle failure message. */
  class TaskListInline {
    var optimisticStatus: map<int, string>
    var toggleError: Option<string>

    constructor ()
      ensures optimisticStatus == map[] && toggleError == None
    {
      optimisticStatus := map[];
      toggleError := None;
    }

    /** The user clicks the toggle button: the override is set and the update request is sent. */
    method BeginToggle(task: Task) returns (request: UpdateBody)
      modifies this
      ensures optimisticStatus == old(optimisticStatus)[task.id := NextStatus(task.status)]
      ensures toggleError == old(toggleError)
      ensures request == ToggleBody(task)
    {
      var newStatus := NextStatus(task.status);
      optimisticStatus := optimisticStatus[task.id := newStatus];
      request := ToggleBody(task);
    }

    /** The update succeeded: the override goes and the parent is told to refetch. */
    method ToggleSucceeded(task: Task) returns (notifyModified: bool)
      modifies this
      ensures optimisticStatus == old(optimisticStatus) - {task.id}
      ensures toggleError == old(toggleError)
      ensures notifyModified
    {
      optimisticStatus := optimisticStatus - {task.id};
      notifyModified := true;
    }

    /** The update failed: the override goes, the message appears and a timer is set to clear it. */
    method ToggleFailed(task: Task) returns (notifyModified: bool, clearAfterMillis: int)
      modifies this
      ensures optimisticStatus == old(optimisticStatus) - {task.id}
      ensures toggleError == Some(ToggleFailureMessage)
      ensures !notifyModified && clearAfterMillis == ToggleErrorMillis
    {
      optimisticStatus := optimisticStatus - {task.id};
      toggleError := Some(ToggleFailureMessage);
      notifyModified := false;
      clearAfterMillis := ToggleErrorMillis;
    }

    /**
     * The list is unmounted and a fresh one mounted in its place: on the All tab this happens
     * whenever a refetch shows the loading text instead of the list.
     */
    method Remount()
      modifies this
      ensures optimisticStatus == map[] && toggleError == None
    {
      optimisticStatus := map[];
      toggleError := None;
    }

    /** A timer set by a failed toggle fires. */
    method ErrorTimerFired()
      modifies this
      ensures toggleError == None
      ensures optimisticStatus == old(optimisticStatus)
    {
      toggleError := None;
    }
  }

  /**
   * A failed toggle of a COMPLETED task: the button reads "Toggle Status" while the request
   * is out, then the task is COMPLETED again with the failure message shown.
   */
  method FailedToggleScenario(task: Task) returns (during: string, after: string, message: Option<string>)
    requires task.status == "COMPLETED"
    ensures during == "Toggle Status" && after == "Mark Pending"
    ensures message == Some(ToggleFailureMessage)
  {
    var list := new TaskListInline();
    var _ := list.BeginToggle(task);
    during := ButtonLabel(DisplayedStatus(list.optimisticStatus, task));
    var _, _ := list.ToggleFailed(task);
    SettleRestoresDisplay(list.optimisticStatus, task, task);
    after := ButtonLabel(DisplayedStatus(list.optimisticStatus, task));
    message := list.toggleError;
  }

  datatype Tab = All | Search

  /** The page's own state: the selected tab, the search box and the refresh counter. */
  class Page {
    var tab: Tab
    var searchTerm: string
    var refreshCounter: int

    constructor ()
      ensures tab == All && searchTerm == "" && refreshCounter == 0
    {
      tab := All;
      searchTerm := "";
      refreshCounter := 0;
    }

    method SelectTab(t: Tab)
      modifies this
      ensures tab == t && searchTerm == old(searchTerm) && refreshCounter == old(refreshCounter)
    {
      tab := t;
    }

    method EditSearch(term: string)
      modifies this
      ensures searchTerm == term && tab == old(tab) && refreshCounter == old(refreshCounter)
    {
      searchTerm := term;
    }

    /** A list reported a change: the counter moves on, which makes the fetch hook run again. */
    method HandleModified()
      modifies this
      ensures refreshCounter == old(refreshCounter) + 1
      ensures tab == old(tab) && searchTerm == old(searchTerm)
    {
      refreshCounter := refreshCounter + 1;
    }
  }

  /** The branch the page renders below the tabs. */
  datatype PageView =
    | LoadingAll | Searching | ErrorText(message: string)
    | TaskRows(tasks: seq<Task>) | NoTasksFound | NoMatchingTasks
  {
    /**
     * The text the branch shows: a fixed non-empty text for each message branch, the
     * error itself for an error, and none for the rows, which render as the inline list.
     */
    function Text(): (r: string)
      ensures ErrorText? ==> r == message
      ensures TaskRows? ==> r == ""
      ensures !ErrorText? && !TaskRows? ==> |r| > 0 && r[|r| - 1] == '.'
    {
      match this
      case LoadingAll => "Loading all tasks..."
      case Searching => "Searching..."
      case ErrorText(message) => message
      case TaskRows(_) => ""
      case NoTasksFound => "No tasks found."
      case NoMatchingTasks => "No matching tasks."
    }
  }

  /**
   * Per tab, loading comes first, then an error, then the rows. The All tab shows any list it
   * has, an empty one included; the Search tab shows only a non-empty list.
   */
  function SelectView(tab: Tab, all: FetchTasks.FetchResult, search: SearchTasks.SearchResult): (v: PageView)
    ensures tab == All ==> !v.Searching? && !v.NoMatchingTasks?
    ensures tab == Search ==> !v.LoadingAll? && !v.NoTasksFound?
    ensures tab == All ==> (v.LoadingAll? <==> all.loading)
    ensures tab == All && !all.loading ==> (v.ErrorText? <==> Truthy(all.error))
    ensures tab == All && v.TaskRows? ==> all.data == Some(v.tasks)
    ensures tab == All && v.NoTasksFound? ==> all.data.None?
    ensures tab == Search ==> (v.Searching? <==> search.loading)
    ensures tab == Search && !search.loading ==> (v.ErrorText? <==> Truthy(search.error))
    ensures tab == Search && v.TaskRows? ==> search.data == Some(v.tasks) && v.tasks != []
    ensures tab == Search && v.NoMatchingTasks? ==> search.data.None? || search.data.value == []
    ensures v.ErrorText? ==> v.message == (if tab == All then all.error.value else search.error.value)
  {
    match tab
    case All =>
      if all.loading then LoadingAll
      else if Truthy(all.error) then ErrorText(all.error.value)
      else if all.data.Some? then TaskRows(all.data.value)
      else NoTasksFound
    case Search =>
      if search.loading then Searching
      else if Truthy(search.error) then ErrorText(search.error.value)
      else if search.data.Some? && |search.data.value| > 0 then TaskRows(search.data.value)
      else NoMatchingTasks
  }

  /** After one failed fetch the All tab shows only the spinner or the error, for good. */
  lemma {:induction false} AllTabStuckAfterFailure(evs: seq<FetchTasks.Event>, search: SearchTasks.SearchResult)
    requires FetchTasks.Fail in evs
    ensures SelectView(All, FetchTasks.Run(FetchTasks.Initial, evs), search) in {LoadingAll, ErrorText(FetchTasks.FailureMessage)}
    ensures SelectView(All, FetchTasks.Run(FetchTasks.Initial, evs), search).Text() in
      {"Loading all tasks...", "Failed to fetch tasks"}
  {
    FetchTasks.ErrorIsSticky(FetchTasks.Initial, evs);
  }

  /** A blank search box shows "No matching tasks.", whatever the earlier searches did. */
  lemma BlankSearchShowsNoMatch(all: FetchTasks.FetchResult, s: SearchTasks.SearchResult, q: string)
    requires IsBlank(q)
    ensures SelectView(Search, all, SearchTasks.Step(s, SearchTasks.QueryChanged(q))) == NoMatchingTasks
    ensures SelectView(Search, all, SearchTasks.Step(s, SearchTasks.QueryChanged(q))).Text() == "No matching tasks."
  {
  }

  /** The All tab and the task list component show the same rows, except that an empty list shows as such. */
  lemma {:induction false} AllTabMatchesTaskList(all: FetchTasks.FetchResult, search: SearchTasks.SearchResult)
    ensures var v := SelectView(All, all, search);
      var w := TaskList.View(all);
      (w.Rows? ==> v == TaskRows(w.tasks)) && (w.Loading? <==> v.LoadingAll?) && (w.ErrorText? <==> v.ErrorText?)
    ensures all.data == Some([]) && !all.loading && !Truthy(all.error) ==>
      SelectView(All, all, search) == TaskRows([]) && TaskList.View(all) == TaskList.NoTasks
  {
  }

  /** A refetch replaces the All tab's list with the loading text, which unmounts the list. */
  lemma RefreshHidesAllList(all: FetchTasks.FetchResult, search: SearchTasks.SearchResult)
    ensures SelectView(All, FetchTasks.Step(all, FetchTasks.Begin), search) == LoadingAll
  {
  }

  /** A refetch changes nothing on the Search tab: the search hook does not run again. */
  lemma RefreshLeavesSearchTab(all: FetchTasks.FetchResult, search: SearchTasks.SearchResult)
    ensures SelectView(Search, FetchTasks.Step(all, FetchTasks.Begin), search) == SelectView(Search, all, search)
  {
  }

  /**
   * On the All tab: task `a`'s toggle fails, then task `b`'s toggle succeeds. The success bumps
   * the refresh counter, the refetch shows the loading text, and the list mounted afterwards
   * has lost both the failure message and every pending override.
   */
  method AllTabRefreshScenario(a: Task, b: Task, search: SearchTasks.SearchResult)
    returns (messageBefore: Option<string>, messageAfter: Option<string>, overridesAfter: map<int, string>)
    requires a.id != b.id
    ensures messageBefore == Some(ToggleFailureMessage)
    ensures messageAfter == None && overridesAfter == map[]
  {
    var page := new Page();
    var fetch := new FetchTasks.FetchTasksHook();
    fetch.Succeed([a, b]);
    var list := new TaskListInline();
    var _ := list.BeginToggle(a);
    var _, _ := list.ToggleFailed(a);
    var _ := list.BeginToggle(b);
    messageBefore := list.toggleError;
    var notify := list.ToggleSucceeded(b);
    if notify {
      page.HandleModified();
      fetch.Refresh();
    }
    RefreshHidesAllList(fetch.State(), search);
    if SelectView(page.tab, fetch.State(), search) == LoadingAll {
      list.Remount();
    }
    messageAfter := list.toggleError;
    overridesAfter := list.optimisticStatus;
  }

  /**
   * On the Search tab: a task found by the search is toggled and the server accepts. The
   * refetch leaves the search results alone, so the row still shows the old status and the
   * next click sends the very same request again.
   */
  method SearchToggleScenario(task: Task, rows: seq<Task>, all: FetchTasks.FetchResult, search: SearchTasks.SearchResult)
    returns (shown: string, first: UpdateBody, second: UpdateBody)
    requires SelectView(Search, all, search) == TaskRows(rows) && task in rows
    ensures SelectView(Search, FetchTasks.Step(all, FetchTasks.Begin), search) == TaskRows(rows)
    ensures shown == task.status
    ensures first == second == ToggleBody(task)
  {
    var list := new TaskListInline();
    first := list.BeginToggle(task);
    var _ := list.ToggleSucceeded(task);
    RefreshLeavesSearchTab(all, search);
    shown := DisplayedStatus(list.optimisticStatus, task);
    second := list.BeginToggle(task);
  }
}
