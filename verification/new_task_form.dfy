/**
 * The form that creates a task. It holds what the user typed, checks that a title and a due
 * date are present, posts the trimmed fields, and clears itself once the server accepted them.
 */
module NewTaskForm {
  import opened Wrappers
  import opened JsString
  import opened TaskStatus
  import opened ApiTypes
  import TaskController
  import opened Wire

  /** Shown when the title is blank or the due date is missing. */
  const RequiredMessage := "Title and due date are required"

  /** Shown when the server rejects or cannot be reached. */
  const FailureMessage := "Failed to create task"

  /** The submit guard: the title trims to nothing or no due date was picked. */
  function MissingRequired(title: string, dueDate: string): (r: bool)
    ensures r <==> IsBlank(title) || dueDate == ""
  {
    TrimEmptyIffBlank(title);
    Trim(title) == [] || dueDate == ""
  }

  /**
   * The request a submit sends for the typed fields: none when a required field is missing,
   * otherwise the trimmed title and description with the status and due date as they are.
   */
  function SubmitRequest(title: string, description: string, status: string, dueDate: string): (r: Option<CreateBody>)
    ensures r.None? <==> IsBlank(title) || dueDate == ""
    ensures r.Some? ==> r.value.status == status && r.value.dueDate == dueDate
    ensures r.Some? ==> r.value.title == Trim(title) && r.value.description == Trim(description)
  {
    if MissingRequired(title, dueDate) then None
    else Some(CreateBody(Trim(title), Trim(description), status, dueDate))
  }

  /** The form's fields and flags, updated in place by the inputs and the submit handler. */
  class NewTaskForm {
    var title: string
    var description: string
    var status: string
    var dueDate: string
    var error: Option<string>
    var loading: bool

    /** The status field always holds one of the options of its select. */
    predicate StatusOffered()
      reads this
    {
      status in Names
    }

    constructor ()
      ensures title == "" && description == "" && status == "PENDING" && dueDate == ""
      ensures error == None && !loading
      ensures StatusOffered()
    {
      title := "";
      description := "";
      status := "PENDING";
      dueDate := "";
      error := None;
      loading := false;
    }

    method EditTitle(value: string)
      modifies this
      requires !loading
      ensures title == value
      ensures description == old(description) && status == old(status) && dueDate == old(dueDate)
      ensures error == old(error) && loading == old(loading)
    {
      title := value;
    }

    method EditDescription(value: string)
      modifies this
      requires !loading
      ensures description == value
      ensures title == old(title) && status == old(status) && dueDate == old(dueDate)
      ensures error == old(error) && loading == old(loading)
    {
      description := value;
    }

    /** The select offers the three statuses only. Like every input, it is disabled while a request is open. */
    method SelectStatus(choice: Status)
      modifies this
      requires !loading
      ensures status == choice.Name() && StatusOffered()
      ensures title == old(title) && description == old(description) && dueDate == old(dueDate)
      ensures error == old(error) && loading == old(loading)
    {
      status := choice.Name();
    }

    method EditDueDate(value: string)
      modifies this
      requires !loading
      ensures dueDate == value
      ensures title == old(title) && description == old(description) && status == old(status)
      ensures error == old(error) && loading == old(loading)
    {
      dueDate := value;
    }

    /**
     * The user submits. A blank title or an empty due date only sets the error message;
     * otherwise the request starts with the trimmed title and description.
     */
    method Submit() returns (request: Option<CreateBody>)
      modifies this
      requires !loading
      ensures request == SubmitRequest(old(title), old(description), old(status), old(dueDate))
      ensures request.None? ==> error == Some(RequiredMessage) && loading == old(loading)
      ensures request.Some? ==> error == None && loading
      ensures title == old(title) && description == old(description) && status == old(status) && dueDate == old(dueDate)
    {
      if MissingRequired(title, dueDate) {
        error := Some(RequiredMessage);
        return None;
      }
      loading := true;
      error := None;
      request := Some(CreateBody(Trim(title), Trim(description), status, dueDate));
    }

    /**
     * The request settles. Success clears the fields and tells the parent; failure keeps the
     * fields and shows the failure message. Either way loading ends.
     */
    method Complete(succeeded: bool) returns (notifyCreated: bool)
      modifies this
      requires StatusOffered()
      ensures notifyCreated <==> succeeded
      ensures !loading && StatusOffered()
      ensures succeeded ==> title == "" && description == "" && status == "PENDING" && dueDate == ""
      ensures succeeded ==> error == old(error)
      ensures !succeeded ==> error == Some(FailureMessage)
      ensures !succeeded ==> title == old(title) && description == old(description) && status == old(status) && dueDate == old(dueDate)
    {
      if succeeded {
        title := "";
        description := "";
        status := "PENDING";
        dueDate := "";
        notifyCreated := true;
      } else {
        error := Some(FailureMessage);
        notifyCreated := false;
      }
      loading := false;
    }
  }

  /**
   * A body the form posts passes the server's title, description and status checks: the
   * trimmed title is not blank (trimming again changes nothing) and the status is a name.
   */
  lemma {:induction false} PostedBodyPassesServerChecks(title: string, description: string, choice: Status, dueDate: string)
    requires !IsBlank(title)
    ensures var b := WireCreate(CreateBody(Trim(title), Trim(description), choice.Name(), dueDate));
      TaskController.ValidTitle(b.title) && TaskController.ValidDescription(b.description) && TaskController.ValidStatus(b.status)
  {
    TrimEmptyIffBlank(title);
    TrimIdempotent(title);
    TaskController.StatusNameAccepted(choice);
  }

  /** Typing a title and a due date and submitting posts them with an empty description and PENDING. */
  method CreateScenario() returns (request: Option<CreateBody>, notified: bool)
    ensures request == Some(CreateBody("New Task", "", "PENDING", "2025-12-31"))
    ensures notified
  {
    var form := new NewTaskForm();
    form.EditTitle("New Task");
    form.EditDueDate("2025-12-31");
    request := form.Submit();
    assert TrimStart("New Task") == "New Task";
    assert TrimEnd("New Task") == "New Task";
    notified := form.Complete(true);
  }

  /** Submitting with only a due date shows the required-fields message and posts nothing. */
  method MissingTitleScenario() returns (request: Option<CreateBody>, message: Option<string>)
    ensures request.None? && message == Some(RequiredMessage)
  {
    var form := new NewTaskForm();
    form.EditDueDate("2025-12-31");
    request := form.Submit();
    message := form.error;
  }
}
