/**
 * What the flush learns from the downstream store and what it reports: the
 * events signalled to the failure monitor and how the flush call ends.
 */
module Monitor {
  import opened Wrappers

  /** The error a failed downstream call raised. */
  datatype Cause = Cause(description: string)

  /** A call on the failure monitor. */
  datatype Event =
    | Success
    | Fail(reason: string, cause: Cause)

  /** The store's answer for one action of the bulk operation. */
  datatype ItemResult = ItemOk | ItemFailed(message: string)

  /** The store's answer to a bulk operation: the call itself failed, or one result per action. */
  datatype Downstream =
    | CommFailure(cause: Cause)
    | Responded(items: seq<ItemResult>)

  /**
   * How a flush call ends: normally, by re-raising the communication error,
   * or by raising an error naming a failed item.
   */
  datatype Outcome =
    | Completed
    | Rethrown(cause: Cause)
    | BatchError(message: string)

  /** Reason passed to the failure monitor when the bulk call cannot complete. */
  const BatchFailReason: string := "Unable to execute batch"

  /** Start of the message of the error raised for a failed item. */
  const ItemErrorPrefix: string := "Unable to index documents.  Errors are :"

  /** `i` is the first failed item in response order. */
  predicate IsFirstFailure(items: seq<ItemResult>, i: int)
  {
    && 0 <= i < |items|
    && items[i].ItemFailed?
    && forall j :: 0 <= j < i ==> items[j].ItemOk?
  }

  /** The message of the first failed item, if any item failed. */
  function FirstFailure(items: seq<ItemResult>): (m: Option<string>)
    ensures m.None? <==> forall i :: 0 <= i < |items| ==> items[i].ItemOk?
    ensures m.Some? ==> exists i :: IsFirstFailure(items, i) && items[i].message == m.value
  {
    if items == [] then None
    else if items[0].ItemFailed? then Some(items[0].message)
    else
      var m := FirstFailure(items[1..]);
      if m.Some? then
        var k :| IsFirstFailure(items[1..], k) && items[1..][k].message == m.value;
        assert IsFirstFailure(items, k + 1);
        m
      else
        m
  }

  /** The monitor events of one bulk call and how the flush ends. */
  datatype Report = Report(events: seq<Event>, outcome: Outcome)

  /**
   * Classifies the store's answer. A failed call reports one `fail` and
   * re-raises the same error; a completed call reports one `success`, then
   * raises an error naming the first failed item, if there is one.
   */
  function Inspect(d: Downstream): (r: Report)
    ensures d.CommFailure? ==> r.events == [Fail(BatchFailReason, d.cause)] && r.outcome == Rethrown(d.cause)
    ensures d.Responded? ==> r.events == [Success]
    ensures d.Responded? ==> (r.outcome == Completed <==> forall i :: 0 <= i < |d.items| ==> d.items[i].ItemOk?)
    ensures d.Responded? && r.outcome != Completed ==>
              exists i :: IsFirstFailure(d.items, i) && r.outcome == BatchError(ItemErrorPrefix + d.items[i].message)
  {
    match d
    case CommFailure(cause) => Report([Fail(BatchFailReason, cause)], Rethrown(cause))
    case Responded(items) =>
      match FirstFailure(items)
      case None => Report([Success], Completed)
      case Some(m) => Report([Success], BatchError(ItemErrorPrefix + m))
  }
}
