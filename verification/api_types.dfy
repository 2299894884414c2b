/**
 * The shapes the frontend exchanges with the server: a task as the client receives it, and
 * the JSON bodies it sends to create or update one. Dates travel as strings.
 */
module ApiTypes {
  import opened Wrappers

  /** A task as the client receives it. */
  datatype Task = Task(id: int, title: string, description: string, status: string, dueDate: string, createdAt: string)

  /** The body of a create request: every field is present. */
  datatype CreateBody = CreateBody(title: string, description: string, status: string, dueDate: string)

  /** The body of an update request: an absent field is left out of the JSON object. */
  datatype UpdateBody = UpdateBody(title: Option<string>, description: Option<string>, status: Option<string>, dueDate: Option<string>)

  /** A message slot is truthy when it holds a non-empty string (`null` and `""` are falsy). */
  predicate Truthy(e: Option<string>) {
    e.Some? && e.value != ""
  }
}
