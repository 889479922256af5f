# Write-behind index buffer, modelled in Dafny

This project models the drain-and-flush core of Usergrid's
`IndexBatchBufferImpl`, the buffer that sits between the code producing
Elasticsearch index and delete requests and the bulk API of the search
store. Producers `put` requests into a bounded staging queue of capacity
500; a flush (`flush()`, `flushAndRefresh()`, or the internal count/time
trigger, which calls `execute()`) drains at most `bufferSize` requests
from the head of the queue, sends them as one bulk request carrying a
refresh flag, reports `success` or `fail` to the failure monitor, and
raises an error when the call failed or some item failed.

The model is a sequential state machine over immutable values:

- `requests.dfy` (`Requests`): the two kinds of write request.
- `staging_queue.dfy` (`StagingQueue`): the 500-slot queue, the timed
  offer reduced to "insert if there is room, else lose the request", and
  the bounded drain loop.
- `bulk.dfy` (`Bulk`): the bulk operation and how drained requests become
  its index and delete actions.
- `monitor.dfy` (`Monitor`): the store's answer (a communication failure,
  or one ok/failed result per item), the failure-monitor events and the
  three ways a flush call ends.
- `index_batch_buffer.dfy` (`IndexBatchBuffer`): the buffer state, `Put`,
  `Execute`, `Flush`, `FlushAndRefresh`, and `Run`, which performs any
  sequence of puts and flushes and records what each did.
- `scenarios.dfy` (`Scenarios`): three concrete flushes after concrete
  puts (a full batch that succeeds, a batch with one failed item, an
  unreachable store).
- `wrappers.dfy` (`Wrappers`): an `Option` type.

The store is not called: each flush is given the store's answer as a
`Downstream` value, which the model consults only when the flush drained
at least one request. A flush that made no call has `sent == None`.

Two points where the model follows the code rather than a reading of the
buffer's intent: the bulk operation is not grouped by kind, but holds the drained
requests in drain order (each index request becomes an index action and
each delete request a delete action); and a full queue loses the request
silently, because the result of the timed offer is never checked.

## Model

| member | source | states |
|---|---|---|
| StagingQueue.Offer | stack/corepersistence/queryindex/src/main/java/org/apache/usergrid/persistence/index/impl/IndexBatchBufferImpl.java:79-91 | The request goes in if and only if the queue has fewer than 500 requests; if it goes in, it is appended at the tail and nothing before it moves; otherwise the queue is unchanged (the request is lost); a queue within capacity stays within capacity. |
| StagingQueue.Drain | stack/corepersistence/queryindex/src/main/java/org/apache/usergrid/persistence/index/impl/IndexBatchBufferImpl.java:137-139 | The drain takes exactly min(queue size, budget) requests, none when the budget is zero or negative; they are the head of the queue in queue order, and what stays queued is exactly the remaining suffix. |
| StagingQueue.DrainCompose | stack/corepersistence/queryindex/src/main/java/org/apache/usergrid/persistence/index/impl/IndexBatchBufferImpl.java:137-139 | Two drains in a row take the same requests, in the same order, and leave the same queue as one drain with the summed budget: consecutive flushes neither skip nor repeat a request. |
| Bulk.Actions | stack/corepersistence/queryindex/src/main/java/org/apache/usergrid/persistence/index/impl/IndexBatchBufferImpl.java:140-146 | One action per drained request, in drain order; each action stands for its request, and it is an index action exactly when the request is an index request. |
| Bulk.Build | stack/corepersistence/queryindex/src/main/java/org/apache/usergrid/persistence/index/impl/IndexBatchBufferImpl.java:135-146 | The bulk operation carries the requested refresh flag and its number of actions equals the number of drained requests. |
| Bulk.BuildRoundTrip | stack/corepersistence/queryindex/src/main/java/org/apache/usergrid/persistence/index/impl/IndexBatchBufferImpl.java:138-147 | Reading the requests back from the bulk operation gives exactly the drained requests in drain order: none is lost, added or reordered. |
| Bulk.BuildKeepsKinds | stack/corepersistence/queryindex/src/main/java/org/apache/usergrid/persistence/index/impl/IndexBatchBufferImpl.java:140-146 | The bulk operation has as many index actions as there were index requests and as many delete actions as delete requests. |
| Monitor.FirstFailure | stack/corepersistence/queryindex/src/main/java/org/apache/usergrid/persistence/index/impl/IndexBatchBufferImpl.java:165-170 | There is no failure message if and only if every item succeeded; otherwise the message is that of the first failed item in response order. |
| Monitor.Inspect | stack/corepersistence/queryindex/src/main/java/org/apache/usergrid/persistence/index/impl/IndexBatchBufferImpl.java:153-170 | A failed call reports exactly one `fail("Unable to execute batch", cause)` and re-raises the same cause; a completed call reports exactly one `success`, and ends with an error if and only if some item failed, the error's message being the fixed prefix followed by the first failed item's message. |
| IndexBatchBuffer.Init | stack/corepersistence/queryindex/src/main/java/org/apache/usergrid/persistence/index/impl/IndexBatchBufferImpl.java:74-79 | A new buffer keeps the configuration it was given and starts with an empty queue, which satisfies the capacity invariant. |
| IndexBatchBuffer.Put | stack/corepersistence/queryindex/src/main/java/org/apache/usergrid/persistence/index/impl/IndexBatchBufferImpl.java:109-117 | Below capacity the request is appended to the queue; at capacity the buffer is unchanged, so the request is silently dropped; the configuration never changes and the queue never exceeds 500. |
| IndexBatchBuffer.Execute | stack/corepersistence/queryindex/src/main/java/org/apache/usergrid/persistence/index/impl/IndexBatchBufferImpl.java:133-175 | Drains exactly the first min(queue size, bufferSize) requests and leaves exactly the rest queued, whatever the store answers; a store call is made if and only if something was drained, with the given refresh flag and exactly the drained requests, as many index actions as index requests and as many delete actions as delete requests, together covering every drained request; with nothing drained there are no events and the flush completes; otherwise the events and ending are those of a failed call (one `fail`, the cause re-raised) or a completed one (one `success`, an error naming the first failed item if and only if one failed). |
| IndexBatchBuffer.Flush | stack/corepersistence/queryindex/src/main/java/org/apache/usergrid/persistence/index/impl/IndexBatchBufferImpl.java:122-128 | `flush()` sends its bulk operation with the forced-refresh setting fixed at construction. |
| IndexBatchBuffer.FlushAndRefresh | stack/corepersistence/queryindex/src/main/java/org/apache/usergrid/persistence/index/impl/IndexBatchBufferImpl.java:119-121 | `flushAndRefresh()` always sends its bulk operation with refresh set. |
| IndexBatchBuffer.FlushModesDifferOnlyInRefresh | stack/corepersistence/queryindex/src/main/java/org/apache/usergrid/persistence/index/impl/IndexBatchBufferImpl.java:119-136 | The two flush modes drain, report and end identically and send the same actions; they differ at most in the refresh flag, and not at all when the configuration forces a refresh. |
| IndexBatchBuffer.ApplyConserves | stack/corepersistence/queryindex/src/main/java/org/apache/usergrid/persistence/index/impl/IndexBatchBufferImpl.java:109-161 | A single put or flush, whatever the store answers, keeps the settings, the capacity bound and the identity "queued then staged equals flushed then still queued". |
| IndexBatchBuffer.RunConserves | stack/corepersistence/queryindex/src/main/java/org/apache/usergrid/persistence/index/impl/IndexBatchBufferImpl.java:109-161 | Over any sequence of puts and flushes: the queue never exceeds 500, the settings never change, and every staged request leaves the queue exactly once and in FIFO order, even when flushes fail; nothing is re-queued. |
| IndexBatchBuffer.RunAccounts | stack/corepersistence/queryindex/src/main/java/org/apache/usergrid/persistence/index/impl/IndexBatchBufferImpl.java:109-170 | Every submitted request is either staged or lost to a full queue, as decided by the offer itself; each flush call has exactly one ending and makes at most one store call; the failure monitor receives exactly one event per store call and none otherwise. |
| IndexBatchBuffer.NoLossBelowCapacity | stack/corepersistence/queryindex/src/main/java/org/apache/usergrid/persistence/index/impl/IndexBatchBufferImpl.java:79-91 | When the queue has room for every submitted request, nothing is lost and the staged requests are exactly the submitted ones in submission order. |
| IndexBatchBuffer.FlushShrinks | stack/corepersistence/queryindex/src/main/java/org/apache/usergrid/persistence/index/impl/IndexBatchBufferImpl.java:137-139 | With a positive buffer size, one flush shortens the queue by bufferSize, or empties it if it held fewer. |
| IndexBatchBuffer.FlushesShrinkQueue | stack/corepersistence/queryindex/src/main/java/org/apache/usergrid/persistence/index/impl/IndexBatchBufferImpl.java:137-139 | After k flushes and no puts, the queue holds max(0, initial size minus k times bufferSize) requests. |
| IndexBatchBuffer.FlushesDrainBacklog | stack/corepersistence/queryindex/src/main/java/org/apache/usergrid/persistence/index/impl/IndexBatchBufferImpl.java:133-147 | With no puts, enough flushes (initial size divided by bufferSize, rounded up) empty the queue and have flushed exactly its former contents, in queue order. |
| Scenarios.FullBatchSucceeds | stack/corepersistence/queryindex/src/main/java/org/apache/usergrid/persistence/index/impl/IndexBatchBufferImpl.java:133-170 | Three index requests with buffer size three and an all-ok answer: one bulk call of the three requests without refresh, one `success`, a normal ending, an empty queue. |
| Scenarios.SecondItemFails | stack/corepersistence/queryindex/src/main/java/org/apache/usergrid/persistence/index/impl/IndexBatchBufferImpl.java:163-170 | When the second of two items fails, `success` is still reported and the flush ends with the error naming that item's message. |
| Scenarios.StoreUnreachable | stack/corepersistence/queryindex/src/main/java/org/apache/usergrid/persistence/index/impl/IndexBatchBufferImpl.java:155-161 | When the store cannot be reached, one `fail` is reported, the cause is re-raised, the refresh flag of `flushAndRefresh()` was sent, and the drained request is gone from the queue. |

## Left out

- The RxJava pipeline (`Observable.create`, the `Producer`, `buffer(timeout, count)`) that decides when `execute()` runs (lines 85-107, 177-189): its semantics live in a library that is not part of this model. `Run` lets flushes happen between any two puts, which covers every schedule the count or time trigger could produce; the trigger's own timing is not modelled.
- `synchronized` mutual exclusion and concurrent producers: the model is sequential, one call at a time, which is what the lock guarantees for flushes.
- The 2500 ms wait of the timed offer and `InterruptedException` (lines 92-93, 171-174): the offer is "insert if there is room, else lose the request". The model has no interrupted thread. In the source, `take()` acquires its lock interruptibly, so a flush whose thread has been interrupted stops with a `RuntimeException` even when the queue is non-empty. The requests it had already taken are then off the queue but never sent, and no `fail` is reported. This is a second way, besides a full queue, in which a staged request can be lost, and the model does not include it.
- The Elasticsearch client, `BulkRequestBuilder` and `BulkResponse`: the store is an abstract answer (communication failure, or one ok/failed result per item); nothing relates the number of item results to the number of actions. Log output is left out.
- The configured timeout (`getIndexBufferTimeout`) only feeds the trigger and is not part of `Config`.
- Metrics: `flushTimer` and the `index.buffer.size` counter (lines 101-102, 110, 115). Their drift, when the trigger's group size differs from what a flush drains, is not modelled.
- The failure monitor's own policy: only the `success` and `fail` calls are recorded, as events.
- Java's 32-bit `int` for `bufferSize`: the model uses unbounded integers. `count-- > 0` also decrements on the test that ends the loop, so with `bufferSize` at `Integer.MIN_VALUE` the counter wraps to `Integer.MAX_VALUE`. By then the loop has already exited and the counter is never read again, so the wrap cannot be observed.
- `CollectionDeleteTooSoonExceptionMapper`, which maps an exception to an HTTP 400 response, is not part of this model.
