/**
 * The three task statuses. Every layer of the tracker carries a status as a string;
 * this datatype names the three allowed strings and the cycle the UI walks them in.
 */
module TaskStatus {
  import opened Wrappers

  datatype Status = Pending | InProgress | Completed {

    /** The wire spelling of the status. */
    function Name(): (r: string)
      ensures r in Names
    {
      match this
      case Pending => "PENDING"
      case InProgress => "IN_PROGRESS"
      case Completed => "COMPLETED"
    }

    /** The status a toggle moves to: PENDING, IN_PROGRESS, COMPLETED and round again. */
    function Next(): Status {
      match this
      case Pending => InProgress
      case InProgress => Completed
      case Completed => Pending
    }
  }

  /** The allowed spellings, in the order the server lists them. */
  const Names: seq<string> := ["PENDING", "IN_PROGRESS", "COMPLETED"]

  /** The status a string spells exactly, if any. */
  function Parse(s: string): (r: Option<Status>)
    ensures r.Some? ==> r.value.Name() == s
    ensures r.None? <==> s !in Names
  {
    if s == "PENDING" then Some(Pending)
    else if s == "IN_PROGRESS" then Some(InProgress)
    else if s == "COMPLETED" then Some(Completed)
    else None
  }

  /** Parsing a status's spelling gives the status back. */
  lemma ParseName(st: Status)
    ensures Parse(st.Name()) == Some(st)
  {
  }

  /** The toggle cycle has length three: it never stays put and returns after three steps. */
  lemma NextIsThreeCycle(st: Status)
    ensures st.Next() != st && st.Next().Next() != st
    ensures st.Next().Next().Next() == st
  {
  }
}
