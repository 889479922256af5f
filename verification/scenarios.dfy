/**
 * Concrete puts followed by a flush: a full batch that succeeds, a batch
 * with one failed item, and a store that cannot be reached.
 */
module Scenarios {
  import opened Requests
  import Bulk
  import opened Monitor
  import opened IndexBatchBuffer

  /** Three index requests with a buffer size of three, all indexed: one bulk call, one `success`, no error. */
  lemma FullBatchSucceeds()
    ensures var a := IndexOp("A", "{}");
            var b := IndexOp("B", "{}");
            var c := IndexOp("C", "{}");
            var buffer := Put(Put(Put(Init(Config(false, 3)), a), b), c);
            var s := Flush(buffer, Responded([ItemOk, ItemOk, ItemOk]));
            && s.drained == [a, b, c]
            && s.sent.Some? && !s.sent.value.refresh
            && Bulk.Sources(s.sent.value.actions) == [a, b, c]
            && s.events == [Success]
            && s.outcome == Completed
            && s.buffer.queue == []
  {
    var a := IndexOp("A", "{}");
    var b := IndexOp("B", "{}");
    var c := IndexOp("C", "{}");
    var buffer := Put(Put(Put(Init(Config(false, 3)), a), b), c);
    assert buffer.queue == [a, b, c];
    assert buffer.queue[..3] == [a, b, c];
  }

  /** Two requests, the second rejected by the store: `success` is still reported, then the flush raises the item's error. */
  lemma SecondItemFails()
    ensures var a := IndexOp("A", "{}");
            var b := DeleteOp("B");
            var buffer := Put(Put(Init(Config(false, 10)), a), b);
            var s := Flush(buffer, Responded([ItemOk, ItemFailed("version conflict")]));
            && s.drained == [a, b]
            && s.events == [Success]
            && s.outcome == BatchError(ItemErrorPrefix + "version conflict")
  {
    var a := IndexOp("A", "{}");
    var b := DeleteOp("B");
    var items := [ItemOk, ItemFailed("version conflict")];
    var buffer := Put(Put(Init(Config(false, 10)), a), b);
    assert buffer.queue == [a, b];
    assert buffer.queue[..2] == [a, b];
    assert !IsFirstFailure(items, 0);
  }

  /** The store cannot be reached: one `fail`, the error is re-raised, and the drained request is not re-queued. */
  lemma StoreUnreachable()
    ensures var a := DeleteOp("A");
            var cause := Cause("connection refused");
            var s := FlushAndRefresh(Put(Init(Config(false, 10)), a), CommFailure(cause));
            && s.drained == [a]
            && s.buffer.queue == []
            && s.sent.Some? && s.sent.value.refresh
            && s.events == [Fail(BatchFailReason, cause)]
            && s.outcome == Rethrown(cause)
  {
    var a := DeleteOp("A");
    var buffer := Put(Init(Config(false, 10)), a);
    assert buffer.queue == [a];
    assert buffer.queue[..1] == [a];
  }
}
