/**
 * The request handlers of the REST backend: each checks its guards in a fixed order,
 * normalises the accepted input, calls the store, and maps the outcome to an HTTP
 * status and a JSON body. Errors the handler does not recognise are passed on to the
 * framework's error handler (`next(err)`) unchanged.
 */
module TaskController {
  import opened Wrappers
  import opened JsString
  import opened TaskStatus
  import opened TaskStore

  /** A value read from the parsed JSON body; a field the client left out is `Undefined`. */
  datatype JsValue = Undefined | Null | Bool(b: bool) | Number(n: Num) | Str(s: string) | Composite

  /** The four fields a handler destructures from `req.body`. */
  datatype Body = Body(title: JsValue, description: JsValue, status: JsValue, dueDate: JsValue)

  /**
   * What the handlers take from the JavaScript runtime: `Number(text)`, `new Date(value)`
   * as milliseconds (`None` for an Invalid Date), and the clock the store stamps
   * `createdAt` with.
   */
  datatype Env = Env(number: string -> Num, date: JsValue -> Option<int>, now: int)

  datatype ResponseBody = TaskJson(task: Task) | TaskListJson(tasks: seq<Task>) | ErrorJson(error: ErrorMessage)

  /** A response sent with a status code, or an error handed to `next`. */
  datatype Response = Reply(code: int, body: ResponseBody) | PassOn(err: StoreError)

  /** The response together with the store as the handler leaves it. */
  datatype Handled = Handled(response: Response, store: Store)

  /** The statuses the handlers accept, in the order their messages list them. */
  const AllowedStatuses: seq<string> := Names

  /** The error messages the handlers answer with; `Text` is the exact JSON `error` string. */
  datatype ErrorMessage =
    | InvalidTaskId | TaskNotFound
    | CreateTitleError | CreateDescriptionError | CreateStatusError | DueDateError
    | UpdateTitleError | UpdateDescriptionError | UpdateStatusError
  {
    function Text(): (r: string)
      ensures |r| > 0
    {
      match this
      case InvalidTaskId => "Invalid task ID"
      case TaskNotFound => "Task not found"
      case CreateTitleError => "Title is required and must be a non-empty string."
      case CreateDescriptionError => "Description is required and must be a string."
      case CreateStatusError => "Status is required and must be one of: " + Join(AllowedStatuses, ", ")
      case DueDateError => "dueDate must be a valid ISO date string."
      case UpdateTitleError => "Title must be a non-empty string."
      case UpdateDescriptionError => "Description must be a string."
      case UpdateStatusError => "Status must be one of: " + Join(AllowedStatuses, ", ")
    }
  }

  /**
   * A proof aid, not a property of the controller: the length of each message. No two are
   * equally long, which is how `ErrorTextsDistinct` tells the messages apart cheaply.
   */
  function MessageLength(e: ErrorMessage): nat {
    match e
    case InvalidTaskId => 15
    case TaskNotFound => 14
    case CreateTitleError => 49
    case CreateDescriptionError => 45
    case CreateStatusError => 70
    case DueDateError => 40
    case UpdateTitleError => 33
    case UpdateDescriptionError => 29
    case UpdateStatusError => 54
  }

  lemma {:induction false} TextLength(e: ErrorMessage)
    ensures |e.Text()| == MessageLength(e)
  {
    if e == CreateStatusError || e == UpdateStatusError {
      StatusListSpelledOut();
    }
  }

  /** Different failures answer with different messages, so a client can tell them apart. */
  lemma {:induction false} ErrorTextsDistinct(a: ErrorMessage, b: ErrorMessage)
    requires a != b
    ensures a.Text() != b.Text()
  {
    TextLength(a);
    TextLength(b);
  }

  /** A string that is not blank once trimmed. */
  predicate ValidTitle(v: JsValue) {
    v.Str? && Trim(v.s) != []
  }

  /** Any string, the empty one included. */
  predicate ValidDescription(v: JsValue) {
    v.Str?
  }

  /** A string whose upper-case form is one of the allowed statuses. */
  predicate ValidStatus(v: JsValue) {
    v.Str? && ToUpperCase(v.s) in AllowedStatuses
  }

  /** A value `new Date(...)` turns into a valid date (`isValidISODateString`). */
  predicate ValidDueDate(env: Env, v: JsValue) {
    env.date(v).Some?
  }

  /** On update a field is checked only when the client supplied it. */
  predicate UpdateTitleOk(body: Body) { body.title.Undefined? || ValidTitle(body.title) }
  predicate UpdateDescriptionOk(body: Body) { body.description.Undefined? || ValidDescription(body.description) }
  predicate UpdateStatusOk(body: Body) { body.status.Undefined? || ValidStatus(body.status) }
  predicate UpdateDueDateOk(env: Env, body: Body) { body.dueDate.Undefined? || ValidDueDate(env, body.dueDate) }

  /** Every field the client supplied passes the same check as on create. */
  predicate UpdateBodyValid(env: Env, body: Body) {
    UpdateTitleOk(body) && UpdateDescriptionOk(body) && UpdateStatusOk(body) && UpdateDueDateOk(env, body)
  }

  /** The status messages list the allowed statuses comma separated, in the server's order. */
  lemma {:induction false} StatusListSpelledOut()
    ensures Join(AllowedStatuses, ", ") == "PENDING, IN_PROGRESS, COMPLETED"
  {
    var tail := AllowedStatuses[1..];
    assert tail == ["IN_PROGRESS", "COMPLETED"];
    assert tail[1..] == ["COMPLETED"];
    assert Join(tail, ", ") == "IN_PROGRESS" + ", " + "COMPLETED";
  }

  /** `GET /`: every stored task with 200, or the store's failure passed on. */
  function GetTasks(st: Store): (r: Response)
    requires Valid(st)
    ensures r.Reply? <==> st.outage.None?
    ensures r.Reply? ==> r.code == 200 && r.body.TaskListJson?
    ensures r.Reply? ==> forall t :: t in r.body.tasks <==> t.id in st.rows && st.rows[t.id] == t
    ensures r.Reply? ==> DistinctIds(r.body.tasks)
    ensures r.PassOn? ==> r.err == Unavailable(st.outage.value)
  {
    match FindMany(st)
    case Ok(tasks) => Reply(200, TaskListJson(tasks))
    case Err(e) => PassOn(e)
  }

  /**
   * `GET /:id`: 400 when the id is NaN (without asking the store), 404 when no task has
   * that id, otherwise 200 with exactly the stored task.
   */
  function GetTaskById(env: Env, st: Store, idParam: string): (r: Response)
    ensures env.number(idParam).NaN? ==> r == Reply(400, ErrorJson(InvalidTaskId))
    ensures !env.number(idParam).NaN? && st.outage.None? && Key(env.number(idParam)).Some? ==>
      var k := Key(env.number(idParam)).value;
      && (k !in st.rows ==> r == Reply(404, ErrorJson(TaskNotFound)))
      && (k in st.rows ==> r == Reply(200, TaskJson(st.rows[k])))
    ensures !env.number(idParam).NaN? && st.outage.Some? ==> r == PassOn(Unavailable(st.outage.value))
    ensures !env.number(idParam).NaN? && st.outage.None? && Key(env.number(idParam)).None? ==>
      r == PassOn(InvalidArgument)
  {
    var id := env.number(idParam);
    if id.NaN? then Reply(400, ErrorJson(InvalidTaskId))
    else match FindUnique(st, id)
      case Err(e) => PassOn(e)
      case Ok(None) => Reply(404, ErrorJson(TaskNotFound))
      case Ok(Some(t)) => Reply(200, TaskJson(t))
  }

  /** All four create checks pass. */
  predicate CreateBodyValid(env: Env, body: Body) {
    ValidTitle(body.title) && ValidDescription(body.description) && ValidStatus(body.status)
    && ValidDueDate(env, body.dueDate)
  }

  /**
   * What the handlers' checks guarantee of every task they store: its status is one of
   * the three names and its title is not blank.
   */
  predicate WellFormedRow(t: Task) {
    t.status in AllowedStatuses && Trim(t.title) != []
  }

  /** Every row of the store is well formed. */
  predicate WellFormed(st: Store) {
    forall k :: k in st.rows ==> WellFormedRow(st.rows[k])
  }

  /**
   * `POST /`: title, description, status and dueDate are checked in that order and the
   * first failing check alone decides the 400 message, with nothing stored. When all pass,
   * the trimmed title and description, the upper-cased status and the parsed due date are
   * stored under a fresh id and answered with 201.
   */
  function CreateNewTask(env: Env, st: Store, body: Body): (h: Handled)
    requires Valid(st)
    ensures Valid(h.store)
    ensures !ValidTitle(body.title) ==> h == Handled(Reply(400, ErrorJson(CreateTitleError)), st)
    ensures ValidTitle(body.title) && !ValidDescription(body.description) ==>
      h == Handled(Reply(400, ErrorJson(CreateDescriptionError)), st)
    ensures ValidTitle(body.title) && ValidDescription(body.description) && !ValidStatus(body.status) ==>
      h == Handled(Reply(400, ErrorJson(CreateStatusError)), st)
    ensures (ValidTitle(body.title) && ValidDescription(body.description) && ValidStatus(body.status)
             && !ValidDueDate(env, body.dueDate)) ==> h == Handled(Reply(400, ErrorJson(DueDateError)), st)
    ensures (h.response.Reply? && h.response.code == 201) <==> CreateBodyValid(env, body) && st.outage.None?
    ensures CreateBodyValid(env, body) && st.outage.Some? ==>
      h == Handled(PassOn(Unavailable(st.outage.value)), st)
    ensures h.response.Reply? && h.response.code == 201 ==> h.response.body.TaskJson?
    ensures h.response.Reply? && h.response.code == 201 && h.response.body.TaskJson? ==>
      var t := h.response.body.task;
      && t.id !in st.rows && h.store.rows == st.rows[t.id := t] && h.store.outage == st.outage
      && t.title == Trim(body.title.s) && t.description == Trim(body.description.s)
      && t.status == ToUpperCase(body.status.s) && t.status in AllowedStatuses
      && t.dueDate == env.date(body.dueDate).value && t.createdAt == env.now
  {
    if !ValidTitle(body.title) then Handled(Reply(400, ErrorJson(CreateTitleError)), st)
    else if !ValidDescription(body.description) then Handled(Reply(400, ErrorJson(CreateDescriptionError)), st)
    else if !ValidStatus(body.status) then Handled(Reply(400, ErrorJson(CreateStatusError)), st)
    else if !ValidDueDate(env, body.dueDate) then Handled(Reply(400, ErrorJson(DueDateError)), st)
    else
      var payload := TaskCreateInput(
        Trim(body.title.s), Trim(body.description.s), ToUpperCase(body.status.s), env.date(body.dueDate).value);
      match Create(st, payload, env.now)
      case Ok((t, st')) => Handled(Reply(201, TaskJson(t)), st')
      case Err(e) => Handled(PassOn(e), st)
  }

  /**
   * The record handed to the store holds the parsed id and exactly the supplied fields,
   * each normalised as on create.
   */
  predicate IsUpdateRecord(env: Env, idParam: string, body: Body, u: TaskUpdateInput) {
    && u.id == env.number(idParam)
    && (u.title.Some? <==> !body.title.Undefined?)
    && (u.title.Some? ==> body.title.Str? && u.title.value == Trim(body.title.s))
    && (u.description.Some? <==> !body.description.Undefined?)
    && (u.description.Some? ==> body.description.Str? && u.description.value == Trim(body.description.s))
    && (u.status.Some? <==> !body.status.Undefined?)
    && (u.status.Some? ==> body.status.Str? && u.status.value == ToUpperCase(body.status.s))
    && (u.dueDate.Some? <==> !body.dueDate.Undefined?)
    && (u.dueDate.Some? ==> env.date(body.dueDate).Some? && u.dueDate.value == env.date(body.dueDate).value)
  }

  /**
   * The handler's answer once the store has run the update: 200 with the patched task,
   * 404 for the store's `NotFound`, and any other store error passed on unchanged.
   */
  function UpdateReply(st: Store, u: TaskUpdateInput): (h: Handled)
    requires Valid(st)
    ensures Valid(h.store)
    ensures Update(st, u) == Err(NotFound) <==> h == Handled(Reply(404, ErrorJson(TaskNotFound)), st)
    ensures Update(st, u).Ok? <==> h.response.Reply? && h.response.code == 200
    ensures Update(st, u).Ok? ==> h == Handled(Reply(200, TaskJson(Update(st, u).value.0)), Update(st, u).value.1)
    ensures Update(st, u).Err? && Update(st, u).error != NotFound ==> h == Handled(PassOn(Update(st, u).error), st)
  {
    match Update(st, u)
    case Ok((t, st')) => Handled(Reply(200, TaskJson(t)), st')
    case Err(NotFound) => Handled(Reply(404, ErrorJson(TaskNotFound)), st)
    case Err(e) => Handled(PassOn(e), st)
  }

  /**
   * The first check a `PUT /:id` fails, in the handler's order: the id, then each supplied
   * field in the order title, description, status, dueDate.
   */
  function UpdateRejection(env: Env, idParam: string, body: Body): (r: Option<ErrorMessage>)
    ensures r.None? <==> !env.number(idParam).NaN? && UpdateBodyValid(env, body)
    ensures env.number(idParam).NaN? <==> r == Some(InvalidTaskId)
    ensures !env.number(idParam).NaN? && !UpdateTitleOk(body) ==> r == Some(UpdateTitleError)
    ensures !env.number(idParam).NaN? && UpdateTitleOk(body) && !UpdateDescriptionOk(body) ==>
      r == Some(UpdateDescriptionError)
    ensures (!env.number(idParam).NaN? && UpdateTitleOk(body) && UpdateDescriptionOk(body)
             && !UpdateStatusOk(body)) ==> r == Some(UpdateStatusError)
    ensures (!env.number(idParam).NaN? && UpdateTitleOk(body) && UpdateDescriptionOk(body)
             && UpdateStatusOk(body) && !UpdateDueDateOk(env, body)) ==> r == Some(DueDateError)
  {
    if env.number(idParam).NaN? then Some(InvalidTaskId)
    else if !UpdateTitleOk(body) then Some(UpdateTitleError)
    else if !UpdateDescriptionOk(body) then Some(UpdateDescriptionError)
    else if !UpdateStatusOk(body) then Some(UpdateStatusError)
    else if !UpdateDueDateOk(env, body) then Some(DueDateError)
    else None
  }

  /**
   * `PUT /:id`: the first failing check (`UpdateRejection`) answers 400 before the store
   * is called. Otherwise the record handed to the store (`sent`) holds the id and exactly
   * the supplied fields, normalised as on create; the store's `NotFound` becomes 404 and
   * any other store error is passed on unchanged.
   */
  method UpdateExistingTask(env: Env, st: Store, idParam: string, body: Body) returns (h: Handled, sent: Option<TaskUpdateInput>)
    requires Valid(st)
    ensures Valid(h.store)
    ensures sent.None? <==> UpdateRejection(env, idParam, body).Some?
    ensures sent.None? ==> h == Handled(Reply(400, ErrorJson(UpdateRejection(env, idParam, body).value)), st)
    ensures sent.Some? ==> IsUpdateRecord(env, idParam, body, sent.value) && h == UpdateReply(st, sent.value)
    ensures WellFormed(st) ==> WellFormed(h.store)
  {
    var id := env.number(idParam);
    if id.NaN? {
      return Handled(Reply(400, ErrorJson(InvalidTaskId)), st), None;
    }
    var updateData := TaskUpdateInput(id, None, None, None, None);
    if !body.title.Undefined? {
      if !ValidTitle(body.title) {
        return Handled(Reply(400, ErrorJson(UpdateTitleError)), st), None;
      }
      updateData := updateData.(title := Some(Trim(body.title.s)));
    }
    if !body.description.Undefined? {
      if !ValidDescription(body.description) {
        return Handled(Reply(400, ErrorJson(UpdateDescriptionError)), st), None;
      }
      updateData := updateData.(description := Some(Trim(body.description.s)));
    }
    if !body.status.Undefined? {
      if !ValidStatus(body.status) {
        return Handled(Reply(400, ErrorJson(UpdateStatusError)), st), None;
      }
      updateData := updateData.(status := Some(ToUpperCase(body.status.s)));
    }
    if !body.dueDate.Undefined? {
      if !ValidDueDate(env, body.dueDate) {
        return Handled(Reply(400, ErrorJson(DueDateError)), st), None;
      }
      updateData := updateData.(dueDate := Some(env.date(body.dueDate).value));
    }
    sent := Some(updateData);
    h := UpdateReply(st, updateData);
    if WellFormed(st) {
      if updateData.title.Some? {
        TrimIdempotent(body.title.s);
      }
      UpdateReplyKeepsWellFormed(st, updateData);
    }
  }

  /**
   * `DELETE /:id`: 400 when the id is NaN, 404 when no task has that id, otherwise 200
   * with the removed task, which is gone from the store afterwards.
   */
  function DeleteExistingTask(env: Env, st: Store, idParam: string): (h: Handled)
    requires Valid(st)
    ensures Valid(h.store)
    ensures env.number(idParam).NaN? ==> h == Handled(Reply(400, ErrorJson(InvalidTaskId)), st)
    ensures !env.number(idParam).NaN? && st.outage.None? && Key(env.number(idParam)).Some? ==>
      var k := Key(env.number(idParam)).value;
      && (k !in st.rows ==> h == Handled(Reply(404, ErrorJson(TaskNotFound)), st))
      && (k in st.rows ==> h == Handled(Reply(200, TaskJson(st.rows[k])), st.(rows := st.rows - {k})))
    ensures !env.number(idParam).NaN? && st.outage.Some? ==>
      h == Handled(PassOn(Unavailable(st.outage.value)), st)
    ensures !env.number(idParam).NaN? && st.outage.None? && Key(env.number(idParam)).None? ==>
      h == Handled(PassOn(InvalidArgument), st)
  {
    var id := env.number(idParam);
    if id.NaN? then Handled(Reply(400, ErrorJson(InvalidTaskId)), st)
    else match Delete(st, id)
      case Ok((t, st')) => Handled(Reply(200, TaskJson(t)), st')
      case Err(NotFound) => Handled(Reply(404, ErrorJson(TaskNotFound)), st)
      case Err(e) => Handled(PassOn(e), st)
  }

  /** A created task is stored trimmed and upper-cased, so creating keeps every row well formed. */
  lemma {:induction false} CreateKeepsWellFormed(env: Env, st: Store, body: Body)
    requires Valid(st) && WellFormed(st)
    ensures WellFormed(CreateNewTask(env, st, body).store)
  {
    var h := CreateNewTask(env, st, body);
    if h.store != st {
      assert h.response.Reply? && h.response.code == 201;
      var t := h.response.body.task;
      TrimIdempotent(body.title.s);
      assert WellFormedRow(t);
    }
  }

  /** An update whose supplied title and status passed the checks keeps every row well formed. */
  lemma {:induction false} UpdateReplyKeepsWellFormed(st: Store, u: TaskUpdateInput)
    requires Valid(st) && WellFormed(st)
    requires u.title.Some? ==> Trim(u.title.value) != []
    requires u.status.Some? ==> u.status.value in AllowedStatuses
    ensures WellFormed(UpdateReply(st, u).store)
  {
    if st.outage.None? && Key(u.id).Some? && Key(u.id).value in st.rows {
      var k := Key(u.id).value;
      assert WellFormedRow(Patch(st.rows[k], u));
    }
  }

  /** Deleting only removes a row, so every remaining row stays well formed. */
  lemma {:induction false} DeleteKeepsWellFormed(env: Env, st: Store, idParam: string)
    requires Valid(st) && WellFormed(st)
    ensures WellFormed(DeleteExistingTask(env, st, idParam).store)
  {
  }

  /** A NaN id is answered the same whatever the store holds: the store is never consulted. */
  lemma InvalidIdIgnoresStore(env: Env, st1: Store, st2: Store, idParam: string)
    requires env.number(idParam).NaN? && Valid(st1) && Valid(st2)
    ensures GetTaskById(env, st1, idParam) == GetTaskById(env, st2, idParam)
    ensures DeleteExistingTask(env, st1, idParam).response == DeleteExistingTask(env, st2, idParam).response
  {
  }

  /** After a successful delete, reading the same id answers 404. */
  lemma DeleteThenGetIsNotFound(env: Env, st: Store, idParam: string)
    requires Valid(st)
    requires DeleteExistingTask(env, st, idParam).response.Reply?
    requires DeleteExistingTask(env, st, idParam).response.code == 200
    ensures GetTaskById(env, DeleteExistingTask(env, st, idParam).store, idParam) == Reply(404, ErrorJson(TaskNotFound))
  {
  }

  /**
   * On ASCII input the status check is case-insensitive matching: a string is accepted
   * exactly when it spells one of the three names in any mix of upper and lower case.
   */
  lemma {:induction false} AsciiStatusAcceptedIffCaseVariant(s: string)
    requires IsAscii(s)
    ensures ValidStatus(Str(s)) <==> exists st: Status :: CaseVariant(s, st.Name())
  {
    forall st: Status ensures IsUpperName(st.Name()) {
    }
    if ValidStatus(Str(s)) {
      var st: Status :| st.Name() == ToUpperCase(s);
      CaseVariantOfUpper(s, st.Name());
    }
    if st: Status :| CaseVariant(s, st.Name()) {
      UpperOfCaseVariant(s, st.Name());
    }
  }

  /** Each of the three names, spelled as the client spells it, passes the status check. */
  lemma {:induction false} StatusNameAccepted(st: Status)
    ensures ValidStatus(Str(st.Name()))
  {
    match st
    case Pending => UpperIsIdentity("PENDING");
    case InProgress => UpperIsIdentity("IN_PROGRESS");
    case Completed => UpperIsIdentity("COMPLETED");
  }

  lemma UpperIsIdentity(n: string)
    requires IsUpperName(n)
    ensures ToUpperCase(n) == n
  {
    UpperOfCaseVariant(n, n);
  }

  /**
   * Upper-casing is Unicode's, so a few non-ASCII spellings pass too: the sharp s
   * upper-cases to "SS", so "in_progreß" is accepted and stored as IN_PROGRESS.
   */
  lemma SharpSStatusAccepted()
    ensures ToUpperCase("in_progre\U{DF}") == "IN_PROGRESS" && ValidStatus(Str("in_progre\U{DF}"))
  {
    var front := "in_progre";
    assert "in_progre\U{DF}" == front + "\U{DF}";
    ToUpperCaseConcat(front, "\U{DF}");
    AsciiPrefixUpper();
    SharpSUpper();
    assert "IN_PROGRE" + "SS" == "IN_PROGRESS";
  }

  lemma SharpSUpper()
    ensures ToUpperCase("\U{DF}") == "SS"
  {
  }

  lemma AsciiPrefixUpper()
    ensures ToUpperCase("in_progre") == "IN_PROGRE"
  {
    UpperOfCaseVariant("in_progre", "IN_PROGRE");
  }
}
