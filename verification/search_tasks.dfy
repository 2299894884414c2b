/**
 * The hook that searches tasks by a (debounced) query. A blank query resets the hook and
 * sends nothing; any other query starts a request whose outcome is a list or a failure.
 */
module SearchTasks {
  import opened Wrappers
  import opened JsString
  import opened ApiTypes

  /** What the hook hands to its caller. */
  datatype SearchResult = SearchResult(data: Option<seq<Task>>, loading: bool, error: Option<string>)

  /** Before any query: no data, not loading, no error. */
  const Initial := SearchResult(None, false, None)

  /** The message shown when a search fails. */
  const FailureMessage := "Search failed"

  /** The debounced query changes; a request then succeeds with a list or fails. */
  datatype Event = QueryChanged(query: string) | Succeed(response: seq<Task>) | Fail

  /** The query sent to the server for a debounced query, if one is sent: the query as typed. */
  function Request(query: string): (r: Option<string>)
    ensures r.None? <==> IsBlank(query)
    ensures r.Some? ==> r.value == query
  {
    TrimEmptyIffBlank(query);
    if Trim(query) == [] then None else Some(query)
  }

  /** The state after one event. */
  function Step(s: SearchResult, e: Event): (r: SearchResult)
    ensures e.QueryChanged? && IsBlank(e.query) ==> r == Initial
    ensures e.QueryChanged? && !IsBlank(e.query) ==> r == s.(loading := true)
    ensures e.Succeed? ==> r == s.(data := Some(e.response), loading := false)
    ensures e.Fail? ==> r == s.(error := Some(FailureMessage), loading := false)
  {
    match e
    case QueryChanged(q) => if Request(q).None? then Initial else s.(loading := true)
    case Succeed(response) => s.(data := Some(response), loading := false)
    case Fail => s.(error := Some(FailureMessage), loading := false)
  }

  /** The state after a sequence of events, applied in order. */
  function Run(s: SearchResult, evs: seq<Event>): SearchResult
    decreases |evs|
  {
    if evs == [] then s else Step(Run(s, evs[..|evs| - 1]), evs[|evs| - 1])
  }

  /** The event is a query that resets the hook. */
  predicate IsReset(e: Event) {
    e.QueryChanged? && IsBlank(e.query)
  }

  /**
   * Only a blank query clears a search error: as long as no blank query arrives, the error
   * is the failure message once any search has failed, and the starting error otherwise.
   */
  lemma {:induction false} ErrorClearedOnlyByReset(s: SearchResult, evs: seq<Event>)
    requires forall i :: 0 <= i < |evs| ==> !IsReset(evs[i])
    ensures Run(s, evs).error == (if Fail in evs then Some(FailureMessage) else s.error)
    decreases |evs|
  {
    if evs != [] {
      var init := evs[..|evs| - 1];
      assert forall i :: 0 <= i < |init| ==> init[i] == evs[i];
      ErrorClearedOnlyByReset(s, init);
      assert evs == init + [evs[|evs| - 1]];
    }
  }

  /** Running two event sequences one after the other is running their concatenation. */
  lemma {:induction false} RunAppend(s: SearchResult, a: seq<Event>, b: seq<Event>)
    ensures Run(s, a + b) == Run(Run(s, a), b)
    decreases |b|
  {
    if b == [] {
      assert a + b == a;
    } else {
      var init := b[..|b| - 1];
      RunAppend(s, a, init);
      assert (a + b)[..|a + b| - 1] == a + init;
      assert (a + b)[|a + b| - 1] == b[|b| - 1];
    }
  }

  /** After the last blank query, the hook behaves as if it had just been created. */
  lemma {:induction false} ResetForgetsHistory(s: SearchResult, before: seq<Event>, q: string, after: seq<Event>)
    requires IsBlank(q)
    ensures Run(s, before + [QueryChanged(q)] + after) == Run(Initial, after)
  {
    var pre := before + [QueryChanged(q)];
    RunAppend(s, pre, after);
    assert pre[..|pre| - 1] == before;
    assert Run(s, pre) == Initial;
  }

  /** The hook's state, updated in place by its effect and the request's outcome. */
  class SearchTasksHook {
    var data: Option<seq<Task>>
    var loading: bool
    var error: Option<string>

    function State(): SearchResult
      reads this
    {
      SearchResult(data, loading, error)
    }

    constructor ()
      ensures State() == Initial
    {
      data := None;
      loading := false;
      error := None;
    }

    /** The effect runs for a new debounced query; `sent` is the query of the request it starts. */
    method QueryChanged(query: string) returns (sent: Option<string>)
      modifies this
      ensures sent == Request(query)
      ensures IsBlank(query) ==> State() == Initial
      ensures !IsBlank(query) ==> loading && data == old(data) && error == old(error)
      ensures State() == Step(old(State()), Event.QueryChanged(query))
    {
      TrimEmptyIffBlank(query);
      if Trim(query) == [] {
        data := None;
        error := None;
        loading := false;
        return None;
      }
      loading := true;
      sent := Some(query);
    }

    /** The request returned a list. */
    method Succeed(response: seq<Task>)
      modifies this
      ensures data == Some(response) && !loading && error == old(error)
      ensures State() == Step(old(State()), Event.Succeed(response))
    {
      data := Some(response);
      loading := false;
    }

    /** The request failed. */
    method Fail()
      modifies this
      ensures error == Some(FailureMessage) && !loading && data == old(data)
      ensures State() == Step(old(State()), Event.Fail)
    {
      error := Some(FailureMessage);
      loading := false;
    }
  }
}
