/**
 * The hook that loads every task. It keeps three pieces of state: the last list received,
 * whether a request is in flight, and an error message. A refresh starts a request; the
 * request then either succeeds with a list or fails.
 */
module FetchTasks {
  import opened Wrappers
  import opened ApiTypes

  /** What the hook hands to its caller. */
  datatype FetchResult = FetchResult(data: Option<seq<Task>>, loading: bool, error: Option<string>)

  /** Before the first response: no data, loading, no error. */
  const Initial := FetchResult(None, true, None)

  /** The message shown when loading fails. */
  const FailureMessage := "Failed to fetch tasks"

  /** A refresh starts a request; the request then succeeds with a list or fails. */
  datatype Event = Begin | Succeed(response: seq<Task>) | Fail

  /** The state after one event. A success does not clear an earlier error. */
  function Step(s: FetchResult, e: Event): (r: FetchResult)
    ensures r.loading <==> e.Begin?
    ensures r.error == (if e.Fail? then Some(FailureMessage) else s.error)
    ensures r.data == (if e.Succeed? then Some(e.response) else s.data)
  {
    match e
    case Begin => s.(loading := true)
    case Succeed(response) => s.(data := Some(response), loading := false)
    case Fail => s.(error := Some(FailureMessage), loading := false)
  }

  /** The state after a sequence of events, applied in order. */
  function Run(s: FetchResult, evs: seq<Event>): FetchResult
    decreases |evs|
  {
    if evs == [] then s else Step(Run(s, evs[..|evs| - 1]), evs[|evs| - 1])
  }

  /** Once a request has failed the error stays: nothing the hook does clears it. */
  lemma {:induction false} ErrorIsSticky(s: FetchResult, evs: seq<Event>)
    ensures Run(s, evs).error == (if Fail in evs then Some(FailureMessage) else s.error)
    decreases |evs|
  {
    if evs != [] {
      var init := evs[..|evs| - 1];
      ErrorIsSticky(s, init);
      assert evs == init + [evs[|evs| - 1]];
    }
  }

  /** The data shown is the starting data or the list of some successful response. */
  lemma {:induction false} DataComesFromResponses(s: FetchResult, evs: seq<Event>)
    ensures var d := Run(s, evs).data;
      d == s.data || exists i :: 0 <= i < |evs| && evs[i].Succeed? && d == Some(evs[i].response)
    decreases |evs|
  {
    if evs != [] {
      var init := evs[..|evs| - 1];
      DataComesFromResponses(s, init);
      var d := Run(s, init).data;
      if !evs[|evs| - 1].Succeed? && d != s.data {
        var i :| 0 <= i < |init| && init[i].Succeed? && d == Some(init[i].response);
        assert evs[i] == init[i];
      }
    }
  }

  /** The hook's state, updated in place by its effect and the request's outcome. */
  class FetchTasksHook {
    var data: Option<seq<Task>>
    var loading: bool
    var error: Option<string>

    function State(): FetchResult
      reads this
    {
      FetchResult(data, loading, error)
    }

    constructor ()
      ensures State() == Initial
    {
      data := None;
      loading := true;
      error := None;
    }

    /** The effect runs (on mount and whenever the refresh counter changes). */
    method Refresh()
      modifies this
      ensures loading && data == old(data) && error == old(error)
      ensures State() == Step(old(State()), Begin)
    {
      loading := true;
    }

    /** The request returned a list. */
    method Succeed(response: seq<Task>)
      modifies this
      ensures data == Some(response) && !loading && error == old(error)
      ensures State() == Step(old(State()), Event.Succeed(response))
    {
      data := Some(response);
      loading := false;
    }

    /** The request failed. */
    method Fail()
      modifies this
      ensures error == Some(FailureMessage) && !loading && data == old(data)
      ensures State() == Step(old(State()), Event.Fail)
    {
      error := Some(FailureMessage);
      loading := false;
    }
  }
}
