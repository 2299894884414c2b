/**
 * How a request body the client builds looks to the server's controller once the JSON has
 * been parsed: a field the client leaves out is `undefined`, any other field is a string.
 */
module Wire {
  import opened Wrappers
  import ApiTypes
  import TaskController

  /** A field of a request body as the server reads it. */
  function WireField(f: Option<string>): TaskController.JsValue {
    match f
    case None => TaskController.Undefined
    case Some(s) => TaskController.Str(s)
  }

  /** An update body as the server's controller sees it. */
  function WireUpdate(b: ApiTypes.UpdateBody): TaskController.Body {
    TaskController.Body(WireField(b.title), WireField(b.description), WireField(b.status), WireField(b.dueDate))
  }

  /** A create body as the server's controller sees it. */
  function WireCreate(b: ApiTypes.CreateBody): TaskController.Body {
    TaskController.Body(TaskController.Str(b.title), TaskController.Str(b.description),
                        TaskController.Str(b.status), TaskController.Str(b.dueDate))
  }
}
