/** Results of the service's operations: a value, or the HTTP error a route
    raises (`HTTPException` with the matching status). */
module Outcomes {

  datatype Option<T> = None | Some(value: T)

  /** The error taxonomy: 409, 404, 403, 401, the 204 raised by an empty
      patch, and 507. */
  datatype Error =
    | Conflict
    | NotFound
    | Forbidden
    | Unauthorized
    | NoChanges
    | InsufficientStorage

  datatype Result<T> = Ok(value: T) | Err(error: Error)

  /** What a step that returns nothing (Python's `None`) ends with. */
  datatype Outcome = Pass | Fail(error: Error)

  /** The first `n` steps of a run raised nothing. */
  predicate Passed(es: seq<Option<Error>>, n: int)
  {
    forall j :: 0 <= j < n && j < |es| ==> es[j].None?
  }

  /** The error a run of steps raises when it stops at the first failure. */
  function FirstFailure(es: seq<Option<Error>>): (e: Option<Error>)
    ensures e.None? <==> Passed(es, |es|)
    ensures e.Some? ==> exists i :: 0 <= i < |es| && e == es[i] && Passed(es, i)
  {
    if es == [] then None
    else if es[0].Some? then es[0]
    else
      var e := FirstFailure(es[1..]);
      assert forall j :: 1 <= j < |es| ==> es[j] == es[1..][j - 1];
      if e.Some? then
        var i :| 0 <= i < |es[1..]| && e == es[1..][i] && Passed(es[1..], i);
        assert e == es[i + 1] && Passed(es, i + 1);
        e
      else
        e
  }

  /** The first failing step decides the error. */
  lemma FirstFailureAt(es: seq<Option<Error>>, i: int)
    requires 0 <= i < |es| && Passed(es, i) && es[i].Some?
    ensures FirstFailure(es) == es[i]
  {
    var e := FirstFailure(es);
    var j :| 0 <= j < |es| && e == es[j] && Passed(es, j);
  }
}
