/** Deleting a stored procedure by its URI while tolerating its absence: the
    delete is issued once, a DocumentClientException whose error code is
    "NotFound" is swallowed, and every other exception leaves unchanged. The
    delete is not routed through the throttle-retry executor. */
module StoredProcedures {
  import opened Remote

  /** The store reported that the resource does not exist. */
  predicate IsNotFound(e: Exn) {
    e.DocumentClientException? && e.errorCode == NotFound
  }

  /** The helper, given what the single delete call did. Returned(()) means the
      helper completed normally; Threw(e) means e escaped it. It completes
      exactly when the delete succeeded or failed with "NotFound", and any
      exception that escapes is the delete's own. */
  function TryDeleteStoredProcedure(deletion: Outcome<()>): (r: Outcome<()>)
    ensures r.Returned? <==> deletion.Returned? || IsNotFound(deletion.exn)
    ensures r.Threw? ==> r == deletion
  {
    match deletion
    case Returned(_) => Returned(())
    case Threw(e) =>
      if e.DocumentClientException? then
        if e.errorCode != NotFound then deletion else Returned(())
      else
        deletion
  }

  /** The filter is decided by the error code alone: a "NotFound" code is
      swallowed whatever the status, and any other code is rethrown even with
      status 404. A throttled delete (429) is rethrown, not retried. */
  lemma NotFoundByCodeNotStatus(status: int, code: string, retryAfter: nat)
    ensures TryDeleteStoredProcedure(Threw(DocumentClientException(status, NotFound, retryAfter))) == Returned(())
    ensures code != NotFound ==>
              var e := DocumentClientException(status, code, retryAfter);
              TryDeleteStoredProcedure(Threw(e)) == Threw(e)
  {
  }

  /** Only a direct DocumentClientException is caught: unlike the retry
      executor, the helper does not look inside an AggregateException, so one
      wrapping a "NotFound" error escapes unchanged. */
  lemma AggregateNotFoundEscapes(status: int, retryAfter: nat, others: seq<Exn>)
    ensures var e := AggregateException([DocumentClientException(status, NotFound, retryAfter)] + others);
            TryDeleteStoredProcedure(Threw(e)) == Threw(e)
  {
  }
}
