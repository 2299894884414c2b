# Task tracker: a Dafny model

This project models a small task tracker in Dafny. It has two parts.

- An Express backend whose controller validates requests and answers with JSON. The controller covers listing tasks, reading a task by id, creating one, updating one field by field, and deleting one.
- A React frontend with several pieces:
  - two hooks that fetch all tasks and search tasks;
  - a task list component;
  - a task page with an optimistic status toggle and two tabs;
  - a form that creates tasks.

Modules, one per source file or shared concept:

- `Wrappers`: `Option`.
- `JsString`: the JavaScript string built-ins the code depends on:
  - `trim`, with JavaScript's exact whitespace set;
  - `toUpperCase`, for ASCII and for the characters whose upper-case form is made of ASCII letters (ß, ı, ſ and the Latin ligatures);
  - `join`.
- `TaskStatus`: the three statuses and the toggle cycle over them.
- `TaskStore`: the persistence layer the controller calls, reduced to its contract. It is a map from id to task. Ids are handed out in increasing order. Its failures form a tagged error:
  - `NotFound` is Prisma's `P2025`;
  - `InvalidArgument` is an id the store refuses;
  - `Unavailable` means the store is down.
- `TaskController`: the five request handlers.
  - `Number(...)` and `new Date(...)` are the parameters `Env.number` and `Env.date`, and `Env.now` is the creation time.
  - A handler returns the response it sends, together with the store as it leaves it. `PassOn` stands for handing the error to `next(err)`.
  - `UpdateExistingTask` builds the update record step by step, as the source does.
- `ApiTypes`: the task and the request bodies as the client sees them.
- `Wire`: how a request body the client builds looks to the server's controller.
- `FetchTasks` and `SearchTasks`: each hook is a class whose fields are its state. Each hook's methods are proved against a pure `Step` function, and the lemmas are about `Run`, the fold of `Step` over a sequence of events.
- `TaskList`: the list component's pure logic:
  - the next status;
  - the effects of each handler;
  - the order of the render guards.
- `TaskPage`: the pure parts of the page:
  - the next status;
  - the displayed status;
  - the button label;
  - view selection.

  It also holds the classes `TaskListInline`, for the override map and the toggle error, and `Page`, for the tab, the search term and the refresh counter.
- `NewTaskForm`: the form as a class, with a method per input and the submit handler split at the `await`.

## Behaviour as written

The model follows the code as written:

- **Task id check.** The handlers reject only an id that `Number` turns into NaN. An id such as `"1.5"`, `"-3"`, `"Infinity"` or `""` passes that check and reaches the store. The store then refuses it (`InvalidArgument`) or does not find it. So the handlers do not require a positive integer id.
- **Status check.** The check upper-cases the status but does not trim it. Through Unicode upper-casing, a spelling such as `"in_progreß"` is accepted and stored as `IN_PROGRESS` (`SharpSStatusAccepted`).
- **Fetch errors.** The fetch hook never clears its error. Once a fetch fails, the All tab shows the error, or the loading text, for the rest of the page's life (`AllTabStuckAfterFailure`).
- **All-tab refetch.** On the All tab, a successful toggle calls `onModified`. That bumps the refresh counter, the fetch hook sets loading, and the page shows "Loading all tasks..." instead of the list. So the list is unmounted, and a fresh, empty one is mounted with the new rows. A toggle failure message still on screen, and the pending overrides of other tasks, are lost (`AllTabRefreshScenario`).
- **Search-tab toggle.** `onModified` refetches only the All tab's list; the search hook does not run again. On the Search tab, once a toggle succeeds and its override is dropped, the row shows the status from before the toggle, and the next click sends the same request again (`SearchToggleScenario`).
- **Empty lists.** An empty task list is truthy in JavaScript. So the All tab shows an empty list, not "No tasks found.", while the task list component shows "No tasks found." for the same data (`AllTabMatchesTaskList`).

## Model

| member | source | states |
|---|---|---|
| TaskStatus.Parse | backend/src/controllers/task.controller.ts:12 | a string names a status exactly when it is one of the three allowed spellings, and the parsed status spells it |
| TaskStatus.ParseName | backend/src/controllers/task.controller.ts:12 | parsing a status's spelling gives that status back |
| TaskStatus.NextIsThreeCycle | frontend/src/components/TaskList.tsx:11-18 | the toggle cycle never stays put, and after three steps it is back where it started |
| TaskStore.Key | backend/src/services/task.service.ts:9-11 | only a finite integral number names a row |
| TaskStore.ListingSound | backend/src/services/task.service.ts:5-7 | every listed task is the row stored under its id |
| TaskStore.ListingComplete | backend/src/services/task.service.ts:5-7 | every stored row in the id range is listed |
| TaskStore.ListingDistinct | backend/src/services/task.service.ts:5-7 | no two listed tasks share an id, so no task is listed twice |
| TaskStore.FindMany | backend/src/services/task.service.ts:5-7 | it fails exactly when the store is down; otherwise a task is listed iff it is stored under its id, and no task is listed twice |
| TaskStore.FindUnique | backend/src/services/task.service.ts:9-11 | the stored task with that id or nothing; a non-integral id is refused |
| TaskStore.Create | backend/src/services/task.service.ts:20-29 | the input is stored under a fresh id with the creation time; no other row changes; the store stays well formed |
| TaskStore.Patch | backend/src/services/task.service.ts:39-45 | supplied fields replace the task's fields, and the id, the omitted fields and createdAt are kept |
| TaskStore.Update | backend/src/services/task.service.ts:39-45 | `NotFound` iff no row has the id; otherwise exactly that row is patched |
| TaskStore.Delete | backend/src/services/task.service.ts:47-49 | `NotFound` iff no row has the id; otherwise that row is removed and returned |
| TaskStore.EmptyPatchKeepsTask | backend/src/services/task.service.ts:39-45 | an update with no fields leaves the task unchanged |
| TaskStore.PatchIsIdempotent | backend/src/services/task.service.ts:39-45 | patching with the same fields twice is the same as patching once |
| TaskStore.UpdateIsIdempotent | backend/src/services/task.service.ts:39-45 | sending the same update twice leaves the same task and store as sending it once |
| TaskStore.DeleteThenFindUnique | backend/src/services/task.service.ts:9-11 | after a delete, the id is not found |
| JsString.TrimStartSpec | backend/src/controllers/task.controller.ts:65 | the leading part `trim()` removes is all whitespace, and what remains is a suffix that does not start with whitespace |
| JsString.TrimEndSpec | backend/src/controllers/task.controller.ts:65 | the trailing part `trim()` removes is all whitespace, and what remains is a prefix that does not end with whitespace |
| JsString.TrimEmptyIffBlank | backend/src/controllers/task.controller.ts:49 | `trim()` returns an empty string exactly when the input is all whitespace |
| JsString.TrimEnds | backend/src/controllers/task.controller.ts:65-66 | a non-empty trimmed string neither starts nor ends with whitespace |
| JsString.TrimIsInfix | backend/src/controllers/task.controller.ts:65-66 | what `trim()` keeps is a contiguous part of the input, starting where the leading whitespace ends |
| JsString.TrimIdempotent | backend/src/controllers/task.controller.ts:91 | trimming twice is trimming once |
| JsString.UpperOfCaseVariant | backend/src/controllers/task.controller.ts:55 | any ASCII upper/lower-case spelling of an upper-case name upper-cases to that name |
| JsString.CaseVariantOfUpper | backend/src/controllers/task.controller.ts:55 | an ASCII string that upper-cases to an upper-case name is a case variant of it |
| JsString.ToUpperCaseConcat | backend/src/controllers/task.controller.ts:67 | upper-casing distributes over concatenation |
| TaskController.StatusListSpelledOut | backend/src/controllers/task.controller.ts:58 | the status error message lists "PENDING, IN_PROGRESS, COMPLETED" |
| TaskController.ErrorMessage.Text | backend/src/controllers/task.controller.ts:32-134 | each failure's JSON error message is a non-empty string |
| TaskController.TextLength | backend/src/controllers/task.controller.ts:32-134 | a proof aid for `ErrorTextsDistinct`: the length of each error message, the status messages with their spelled-out list included |
| TaskController.ErrorTextsDistinct | backend/src/controllers/task.controller.ts:32-134 | different failures answer with different messages |
| TaskController.GetTasks | backend/src/controllers/task.controller.ts:19-26 | 200 with exactly the stored tasks, each once, or the store's error passed on |
| TaskController.GetTaskById | backend/src/controllers/task.controller.ts:28-43 | 400 for a NaN id; otherwise 404 iff no task has the id, 200 with the stored task, or the store's error passed on |
| TaskController.CreateNewTask | backend/src/controllers/task.controller.ts:45-75 | the first failing check, in order, decides the 400 message and nothing is stored; 201 iff all checks pass and the store is up; the stored task holds the trimmed title and description, the upper-cased status (one of the three) and the parsed date, under a fresh id |
| TaskController.UpdateRejection | backend/src/controllers/task.controller.ts:79-112 | no rejection iff the id is not NaN and every supplied field passes its check; the id check comes first, then the first failing supplied field, in the order title, description, status, dueDate, decides the message |
| TaskController.UpdateReply | backend/src/controllers/task.controller.ts:114-121 | the store's `NotFound` becomes 404, success becomes 200 with the patched task, and other errors are passed on |
| TaskController.UpdateExistingTask | backend/src/controllers/task.controller.ts:77-122 | a failed check answers 400 and the store is not called; otherwise the record sent to the store holds the id and exactly the supplied fields, normalised as on create; a store whose rows are all well formed (status one of the three names, title not blank) stays so |
| TaskController.CreateKeepsWellFormed | backend/src/controllers/task.controller.ts:45-75 | creating keeps every stored row well formed: its status is one of the three names and its title is not blank |
| TaskController.UpdateReplyKeepsWellFormed | backend/src/controllers/task.controller.ts:87-121 | an update whose supplied title is not blank and whose status is one of the three names keeps every stored row well formed |
| TaskController.DeleteKeepsWellFormed | backend/src/controllers/task.controller.ts:124-138 | deleting keeps every remaining row well formed |
| TaskController.DeleteExistingTask | backend/src/controllers/task.controller.ts:124-138 | 400 for a NaN id; otherwise 404 iff no task has the id, or 200 with the removed task, which is gone afterwards |
| TaskController.InvalidIdIgnoresStore | backend/src/controllers/task.controller.ts:30-33 | a NaN id gets the same answer whatever the store holds |
| TaskController.DeleteThenGetIsNotFound | backend/src/controllers/task.controller.ts:124-138 | after a successful delete, reading the same id answers 404 |
| TaskController.AsciiStatusAcceptedIffCaseVariant | backend/src/controllers/task.controller.ts:55 | an ASCII status is accepted iff it spells one of the three names in any mix of case |
| TaskController.StatusNameAccepted | backend/src/controllers/task.controller.ts:100 | each of the three names passes the status check |
| TaskController.SharpSStatusAccepted | backend/src/controllers/task.controller.ts:55 | "in_progreß" upper-cases to IN_PROGRESS and is accepted |
| FetchTasks.Step | frontend/src/hooks/useFetchTasks.ts:16-27 | loading iff a request was begun; only a failure sets the error; only a success replaces the data |
| FetchTasks.ErrorIsSticky | frontend/src/hooks/useFetchTasks.ts:22-23 | after any run of events, the error is the failure message iff some request failed; nothing clears it |
| FetchTasks.DataComesFromResponses | frontend/src/hooks/useFetchTasks.ts:20-21 | the data is the initial data or the list of some successful response |
| FetchTasks.FetchTasksHook.constructor | frontend/src/hooks/useFetchTasks.ts:12-14 | starts with no data, loading, and no error |
| FetchTasks.FetchTasksHook.Refresh | frontend/src/hooks/useFetchTasks.ts:17 | sets loading; data and error are unchanged |
| FetchTasks.FetchTasksHook.Succeed | frontend/src/hooks/useFetchTasks.ts:21-26 | the data becomes the response and loading ends; the error is kept |
| FetchTasks.FetchTasksHook.Fail | frontend/src/hooks/useFetchTasks.ts:22-26 | the error becomes "Failed to fetch tasks" and loading ends; the data is kept |
| SearchTasks.Request | frontend/src/hooks/useSearchTasks.ts:20-30 | no request iff the query is blank; otherwise the query is sent untrimmed |
| SearchTasks.Step | frontend/src/hooks/useSearchTasks.ts:19-38 | a blank query resets to the initial state; any other query sets loading; success and failure as in the fetch hook, with "Search failed" |
| SearchTasks.ErrorClearedOnlyByReset | frontend/src/hooks/useSearchTasks.ts:20-33 | while no blank query arrives, the error is "Search failed" iff some search failed, and is otherwise the starting error |
| SearchTasks.RunAppend | frontend/src/hooks/useSearchTasks.ts:19-38 | running two event sequences one after the other is running their concatenation |
| SearchTasks.ResetForgetsHistory | frontend/src/hooks/useSearchTasks.ts:20-25 | after a blank query the hook behaves as if newly created, whatever came before |
| SearchTasks.SearchTasksHook.constructor | frontend/src/hooks/useSearchTasks.ts:15-17 | starts with no data, not loading, and no error |
| SearchTasks.SearchTasksHook.QueryChanged | frontend/src/hooks/useSearchTasks.ts:19-30 | a blank query resets all three fields and sends nothing; any other query sets loading, keeps data and error, and sends the query |
| SearchTasks.SearchTasksHook.Succeed | frontend/src/hooks/useSearchTasks.ts:31-36 | the data becomes the response and loading ends; the error is kept |
| SearchTasks.SearchTasksHook.Fail | frontend/src/hooks/useSearchTasks.ts:32-36 | the error becomes "Search failed" and loading ends; the data is kept |
| TaskList.GetNextStatus | frontend/src/components/TaskList.tsx:11-22 | the result is always an allowed status: the next one in the cycle for a known status, PENDING for anything else |
| TaskList.ToggleCycles | frontend/src/components/TaskList.tsx:11-21 | on the three statuses the toggle always changes the status, and three toggles give it back |
| TaskList.ToggleRequest | frontend/src/components/TaskList.tsx:38-40 | the toggle body holds only the next status |
| TaskList.ToggleRequestAccepted | frontend/src/components/TaskList.tsx:38-40 | whatever the task's status, the server's update checks accept the toggle body |
| TaskList.HandleDelete | frontend/src/components/TaskList.tsx:27-35 | delete is sent iff the user confirms; the parent is told iff it then succeeds; the alert "Error deleting task" iff it fails |
| TaskList.HandleToggle | frontend/src/components/TaskList.tsx:37-45 | the toggle body is always sent; the parent is told iff it succeeds; the alert "Error toggling status" iff it fails |
| TaskList.RenderList | frontend/src/components/TaskList.tsx:47-51 | "Loading..." iff loading; otherwise a truthy error, then missing or empty data ("No tasks found."), then the rows, which are never empty |
| TaskList.View | frontend/src/components/TaskList.tsx:25-49 | "Loading..." exactly while the fetch hook loads (so right after mounting), the hook's error when one is shown, and the hook's rows otherwise |
| TaskList.FailedFetchHidesRows | frontend/src/components/TaskList.tsx:25-48 | after a failed fetch, the list shows only the loading text or the error |
| TaskPage.NextStatus | frontend/src/pages/TaskPage.tsx:17-23 | the new status is always one of the three allowed ones |
| TaskPage.NextStatusAgrees | frontend/src/pages/TaskPage.tsx:17-23 | the page's inline cycle agrees with the list's `getNextStatus` on every string |
| TaskPage.ThreeTogglesAreIdentity | frontend/src/pages/TaskPage.tsx:17-23 | on the three statuses one toggle always moves and three toggles give the status back |
| TaskPage.DisplayedStatus | frontend/src/pages/TaskPage.tsx:57 | the override while there is one, otherwise the task's own status |
| TaskPage.ButtonLabel | frontend/src/pages/TaskPage.tsx:74 | "Mark Pending" iff the displayed status is COMPLETED, otherwise "Toggle Status" |
| TaskPage.ToggleBody | frontend/src/pages/TaskPage.tsx:28-33 | the request carries the task's own title, description and due date with the new status |
| TaskPage.ToggleShowsNewStatus | frontend/src/pages/TaskPage.tsx:25-57 | right after a toggle starts, the task shows the new status |
| TaskPage.ToggleLeavesOthers | frontend/src/pages/TaskPage.tsx:25-57 | starting a toggle changes what no other task shows |
| TaskPage.SettleRestoresDisplay | frontend/src/pages/TaskPage.tsx:34-57 | once the override is dropped, the task shows its own status and other tasks are unaffected |
| TaskPage.TaskListInline.constructor | frontend/src/pages/TaskPage.tsx:13-14 | starts with no overrides and no toggle error |
| TaskPage.TaskListInline.BeginToggle | frontend/src/pages/TaskPage.tsx:16-33 | the override is set for this task id only, and the full toggle request is sent |
| TaskPage.TaskListInline.ToggleSucceeded | frontend/src/pages/TaskPage.tsx:34-39 | the override for this id is removed, other overrides are kept, and the parent is told |
| TaskPage.TaskListInline.ToggleFailed | frontend/src/pages/TaskPage.tsx:40-47 | the override for this id is removed, the failure message is set, a 3000 ms timer is started, and the parent is not told |
| TaskPage.TaskListInline.Remount | frontend/src/pages/TaskPage.tsx:13-14 | a newly mounted list has no overrides and no toggle error |
| TaskPage.TaskListInline.ErrorTimerFired | frontend/src/pages/TaskPage.tsx:47 | the toggle error is cleared and the overrides are unchanged |
| TaskPage.FailedToggleScenario | frontend/src/pages/TaskPage.tsx:16-74 | for a COMPLETED task, the label reads "Toggle Status" during a failing toggle and "Mark Pending" after it, with the failure message shown |
| TaskPage.Page.constructor | frontend/src/pages/TaskPage.tsx:85-87 | starts on the All tab with an empty search term and counter 0 |
| TaskPage.Page.SelectTab | frontend/src/pages/TaskPage.tsx:101-112 | changes only the tab |
| TaskPage.Page.EditSearch | frontend/src/pages/TaskPage.tsx:117-123 | changes only the search term |
| TaskPage.Page.HandleModified | frontend/src/pages/TaskPage.tsx:92-94 | the refresh counter goes up by exactly one; nothing else changes |
| TaskPage.SelectView | frontend/src/pages/TaskPage.tsx:127-147 | in each tab, loading comes before an error and an error before data; the All tab shows any list, the Search tab only a non-empty one |
| TaskPage.AllTabStuckAfterFailure | frontend/src/pages/TaskPage.tsx:127-131 | after a failed fetch the All tab shows only "Loading all tasks..." or "Failed to fetch tasks", for good |
| TaskPage.RefreshHidesAllList | frontend/src/pages/TaskPage.tsx:127-133 | while the All tab refetches it shows the loading text, not the list |
| TaskPage.RefreshLeavesSearchTab | frontend/src/pages/TaskPage.tsx:89-94 | a refetch changes nothing the Search tab shows |
| TaskPage.AllTabRefreshScenario | frontend/src/pages/TaskPage.tsx:34-133 | on the All tab, a failed toggle of one task and then a successful toggle of another leave, after the refetch, a list with no failure message and no overrides |
| TaskPage.SearchToggleScenario | frontend/src/pages/TaskPage.tsx:28-143 | on the Search tab, after a successful toggle the rows are unchanged, the task shows its old status, and the next click sends the same request |
| TaskPage.BlankSearchShowsNoMatch | frontend/src/pages/TaskPage.tsx:138-146 | a blank search shows "No matching tasks." whatever came before |
| TaskPage.PageView.Text | frontend/src/pages/TaskPage.tsx:127-146 | each message branch shows a fixed, non-empty text, an error branch the error itself, and the rows branch no text |
| TaskPage.AllTabMatchesTaskList | frontend/src/pages/TaskPage.tsx:127-136 | the All tab and the list component agree on loading, error and rows, except that an empty list shows as a list on the page |
| NewTaskForm.NewTaskForm.constructor | frontend/src/components/NewTaskForm.tsx:9-14 | starts with empty fields, status PENDING, no error and not loading |
| NewTaskForm.NewTaskForm.EditTitle | frontend/src/components/NewTaskForm.tsx:59-63 | changes only the title; the input cannot be used while a request is open |
| NewTaskForm.NewTaskForm.EditDescription | frontend/src/components/NewTaskForm.tsx:73-77 | changes only the description; the input cannot be used while a request is open |
| NewTaskForm.NewTaskForm.SelectStatus | frontend/src/components/NewTaskForm.tsx:85-95 | changes only the status, which stays one of the three options; the select cannot be used while a request is open |
| NewTaskForm.NewTaskForm.EditDueDate | frontend/src/components/NewTaskForm.tsx:105-108 | changes only the due date; the input cannot be used while a request is open |
| NewTaskForm.MissingRequired | frontend/src/components/NewTaskForm.tsx:20 | the guard holds iff the title is all whitespace or the due date is empty |
| NewTaskForm.SubmitRequest | frontend/src/components/NewTaskForm.tsx:20-34 | no request iff the title is blank or the due date is empty; otherwise the trimmed title and description, with the status and due date as typed |
| NewTaskForm.NewTaskForm.Submit | frontend/src/components/NewTaskForm.tsx:16-114 | callable only while no request is open (the button is disabled meanwhile); sends exactly `SubmitRequest` of the typed fields; without a request the error is "Title and due date are required", otherwise the error is cleared and loading starts; the fields are kept either way |
| NewTaskForm.NewTaskForm.Complete | frontend/src/components/NewTaskForm.tsx:36-45 | success resets the fields to "", "", PENDING, "" and tells the parent; failure keeps them and sets "Failed to create task"; loading ends either way |
| NewTaskForm.PostedBodyPassesServerChecks | frontend/src/components/NewTaskForm.tsx:29-34 | a body the form posts passes the server's title, description and status checks |
| NewTaskForm.CreateScenario | frontend/src/components/NewTaskForm.test.tsx:11-35 | typing "New Task" and "2025-12-31" and submitting posts them with an empty description and PENDING, and the parent is told |
| NewTaskForm.MissingTitleScenario | frontend/src/components/NewTaskForm.test.tsx:37-45 | submitting with only a due date shows the required-fields message and posts nothing |

## Left out

- `Number(...)` string parsing and JavaScript `Date` parsing are not modelled. They are the `Env.number` and `Env.date` parameters. Date validity is whatever `Env.date` says, so `new Date(null)` being valid is not fixed by the model. Locale date formatting is left out.
- `JsString.ToUpperCase` covers ASCII and the characters whose upper-case form is all ASCII letters (ß, ı, ſ, ﬀ–ﬆ). Other characters are kept as they are, which differs from full Unicode upper-casing. This never changes whether a status is accepted, because only upper-case forms made of A–Z and `_` can match.
- The Prisma client, the database and `backend/src/services/task.service.ts` itself are not part of this model. `TaskStore` states the contract the controller relies on:
  - the order of `findMany` is not modelled: the query names none. `Listing` happens to list by id, but no contract states or uses that order;
  - ids are unbounded integers, so the database's integer range is not modelled;
  - an outage is a flag on the store.
- Express wiring is not part of this model. That covers `backend/src/index.ts`, `backend/src/routes/task.routes.ts`, CORS and the port. What `next(err)` does is also left out, and the model keeps it as `PassOn`.
- The 300 ms debounce (`useDebouncedValue`) is not part of this model. `SearchTasks` receives the debounced query as an event.
- `setTimeout` timing, async interleaving and stale responses are left out. Each hook and handler sees discrete begin/succeed/fail/timer events in the order given. Two overlapping toggles of the same task, or a late search response, are not modelled.
- `window.confirm`, `alert` and axios are parameters or results: the confirmation and the request outcome come in as booleans, and the alert text and the request body are returned. The URL encoding of the search query is left out.
- JSX rendering is left out. Only which branch is rendered is modelled, plus the texts the branches show.
- The `TaskList` component's `useFetchTasks` wiring is not modelled as state. `TaskList.View` reads a fetch state directly.
- `TaskPage.Page` does not own its hooks and lists. `TaskPage.Page.HandleModified` only increments the counter. The scenario methods then run the fetch hook's `FetchTasks.FetchTasksHook.Refresh` and the list's `TaskPage.TaskListInline.Remount` themselves, as React would.
- How React reconciles the list across a tab switch is not modelled. Only the All tab's remount on a refetch is (`TaskPage.TaskListInline.Remount`).
