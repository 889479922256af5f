/**
 * The write-behind index buffer as a sequential state machine. A put stages
 * one request in the bounded queue; a flush drains a FIFO prefix of at most
 * `bufferSize` requests, sends them to the store as one bulk operation, and
 * reports the store's answer to the failure monitor and to its caller.
 */
module IndexBatchBuffer {
  import opened Wrappers
  import opened Requests
  import opened StagingQueue
  import opened Bulk
  import opened Monitor

  /** Settings read once at construction. */
  datatype Config = Config(forcedRefresh: bool, bufferSize: int)

  /** The buffer: its settings and the contents of the staging queue, head first. */
  datatype Buffer = Buffer(config: Config, queue: seq<Request>)

  /** The buffer's invariant: the staging queue is within its capacity. */
  predicate Valid(b: Buffer)
  {
    Bounded(b.queue)
  }

  /** A buffer with nothing staged. */
  function Init(config: Config): (b: Buffer)
    ensures Valid(b) && b.queue == [] && b.config == config
  {
    Buffer(config, [])
  }

  /**
   * Stages one index or delete request. The insert's result is ignored, so on
   * a full queue the buffer is left as it was and the request is lost.
   */
  function Put(b: Buffer, r: Request): (b': Buffer)
    ensures b'.config == b.config
    ensures Valid(b) ==> Valid(b')
    ensures |b.queue| < Capacity ==> b'.queue == b.queue + [r]
    ensures |b.queue| >= Capacity ==> b' == b
  {
    b.(queue := Offer(b.queue, r).queue)
  }

  /**
   * The result of one flush: the buffer after it, the requests drained, the
   * bulk operation sent to the store (None when no call was made), the
   * failure-monitor events in order, and how the flush call ended.
   */
  datatype Step = Step(
    buffer: Buffer,
    drained: seq<Request>,
    sent: Option<BulkOp>,
    events: seq<Event>,
    outcome: Outcome)

  /**
   * The synchronized flush with an explicit refresh flag. `downstream` is the
   * store's answer to the bulk operation; it is consulted only when at least
   * one request was drained.
   */
  function Execute(b: Buffer, refresh: bool, downstream: Downstream): (s: Step)
    ensures s.buffer.config == b.config
    ensures Valid(b) ==> Valid(s.buffer)
    ensures var n := DrainCount(|b.queue|, b.config.bufferSize);
            s.drained == b.queue[..n] && s.buffer.queue == b.queue[n..]
    ensures s.sent.Some? <==> s.drained != []
    ensures s.sent.Some? ==> s.sent.value.refresh == refresh && Sources(s.sent.value.actions) == s.drained
    ensures s.sent.Some? ==>
              && CountIndexActions(s.sent.value.actions) == CountIndexOps(s.drained)
              && CountDeleteActions(s.sent.value.actions) == CountDeleteOps(s.drained)
              && CountIndexActions(s.sent.value.actions) + CountDeleteActions(s.sent.value.actions) == |s.drained|
    ensures s.drained == [] ==> s.events == [] && s.outcome == Completed
    ensures s.drained != [] && downstream.CommFailure? ==>
              s.events == [Fail(BatchFailReason, downstream.cause)] && s.outcome == Rethrown(downstream.cause)
    ensures s.drained != [] && downstream.Responded? ==>
              && s.events == [Success]
              && (s.outcome == Completed <==> forall i :: 0 <= i < |downstream.items| ==> downstream.items[i].ItemOk?)
    ensures s.drained != [] && downstream.Responded? && s.outcome != Completed ==>
              exists i :: IsFirstFailure(downstream.items, i)
                && s.outcome == BatchError(ItemErrorPrefix + downstream.items[i].message)
  {
    var d := Drain(b.queue, b.config.bufferSize);
    var bulk := Build(refresh, d.taken);
    BuildRoundTrip(refresh, d.taken);
    BuildKeepsKinds(refresh, d.taken);
    KindsPartition(d.taken);
    if NumberOfActions(bulk) == 0 then
      Step(b.(queue := d.rest), d.taken, None, [], Completed)
    else
      var report := Inspect(downstream);
      Step(b.(queue := d.rest), d.taken, Some(bulk), report.events, report.outcome)
  }

  /** `flush()`: a flush with the refresh flag configured at construction. */
  function Flush(b: Buffer, downstream: Downstream): (s: Step)
    ensures s.sent.Some? ==> s.sent.value.refresh == b.config.forcedRefresh
  {
    Execute(b, b.config.forcedRefresh, downstream)
  }

  /** `flushAndRefresh()`: a flush that always asks the store to refresh. */
  function FlushAndRefresh(b: Buffer, downstream: Downstream): (s: Step)
    ensures s.sent.Some? ==> s.sent.value.refresh
  {
    Execute(b, true, downstream)
  }

  /**
   * The two flush modes drain, report and end the same way; they differ at
   * most in the refresh flag of the bulk operation, and not at all when the
   * configuration already forces a refresh.
   */
  lemma FlushModesDifferOnlyInRefresh(b: Buffer, downstream: Downstream)
    ensures var f := Flush(b, downstream);
            var g := FlushAndRefresh(b, downstream);
            && f.buffer == g.buffer && f.drained == g.drained
            && f.events == g.events && f.outcome == g.outcome
            && f.sent.Some? == g.sent.Some?
            && (f.sent.Some? ==> f.sent.value.actions == g.sent.value.actions)
    ensures b.config.forcedRefresh ==> Flush(b, downstream) == FlushAndRefresh(b, downstream)
  {
  }

  /** A call on the buffer's public interface, with the store's answer for a flush. */
  datatype Command =
    | PutCmd(request: Request)
    | FlushCmd(downstream: Downstream)
    | FlushAndRefreshCmd(downstream: Downstream)

  /**
   * What a sequence of calls did: the final buffer, the requests that were
   * staged and those that were lost to a full queue, the requests flushed in
   * drain order, the bulk operations sent, every failure-monitor event, and
   * how each flush ended.
   */
  datatype Trace = Trace(
    buffer: Buffer,
    accepted: seq<Request>,
    dropped: seq<Request>,
    flushed: seq<Request>,
    sent: seq<BulkOp>,
    events: seq<Event>,
    outcomes: seq<Outcome>)

  /** The trace extended by the result of one flush. */
  function AfterFlush(t: Trace, s: Step): Trace
  {
    Trace(s.buffer, t.accepted, t.dropped, t.flushed + s.drained,
          t.sent + (if s.sent.Some? then [s.sent.value] else []),
          t.events + s.events, t.outcomes + [s.outcome])
  }

  /** The trace extended by one call. */
  function Apply(t: Trace, c: Command): Trace
  {
    match c
    case PutCmd(r) =>
      if Offer(t.buffer.queue, r).accepted then
        t.(buffer := Put(t.buffer, r), accepted := t.accepted + [r])
      else
        t.(dropped := t.dropped + [r])
    case FlushCmd(d) => AfterFlush(t, Flush(t.buffer, d))
    case FlushAndRefreshCmd(d) => AfterFlush(t, FlushAndRefresh(t.buffer, d))
  }

  /** Performs the calls in order, starting from buffer `b`. */
  function Run(b: Buffer, cmds: seq<Command>): Trace
  {
    if cmds == [] then Trace(b, [], [], [], [], [], [])
    else Apply(Run(b, cmds[..|cmds| - 1]), cmds[|cmds| - 1])
  }

  /** The requests submitted by the put calls of `cmds`, in order. */
  function Puts(cmds: seq<Command>): seq<Request>
  {
    if cmds == [] then []
    else Puts(cmds[..|cmds| - 1]) + (if cmds[|cmds| - 1].PutCmd? then [cmds[|cmds| - 1].request] else [])
  }

  /** The number of flush calls in `cmds`. */
  function Flushes(cmds: seq<Command>): nat
  {
    if cmds == [] then 0
    else Flushes(cmds[..|cmds| - 1]) + (if cmds[|cmds| - 1].PutCmd? then 0 else 1)
  }

  /** What a trace keeps from its start: the settings, the capacity bound, and FIFO conservation. */
  predicate Conserved(b: Buffer, t: Trace)
  {
    && t.buffer.config == b.config
    && (Valid(b) ==> Valid(t.buffer))
    && b.queue + t.accepted == t.flushed + t.buffer.queue
  }

  /** A flush moves a prefix of the queue to the end of the flushed requests. */
  lemma FlushConserves(b: Buffer, t: Trace, s: Step)
    requires Conserved(b, t)
    requires s.buffer.config == t.buffer.config
    requires Valid(t.buffer) ==> Valid(s.buffer)
    requires s.drained + s.buffer.queue == t.buffer.queue
    ensures Conserved(b, AfterFlush(t, s))
  {
    assert t.flushed + t.buffer.queue == (t.flushed + s.drained) + s.buffer.queue;
  }

  /** A put keeps the conservation invariant. */
  lemma PutConserves(b: Buffer, t: Trace, r: Request)
    requires Conserved(b, t)
    ensures Conserved(b, Apply(t, PutCmd(r)))
  {
    if |t.buffer.queue| < Capacity {
      assert b.queue + (t.accepted + [r]) == (b.queue + t.accepted) + [r];
      assert t.flushed + (t.buffer.queue + [r]) == (t.flushed + t.buffer.queue) + [r];
    }
  }

  /** The facts about a flush step that conservation needs. */
  lemma ExecuteSplitsQueue(b: Buffer, refresh: bool, downstream: Downstream)
    ensures var s := Execute(b, refresh, downstream);
            && s.buffer.config == b.config
            && (Valid(b) ==> Valid(s.buffer))
            && s.drained + s.buffer.queue == b.queue
  {
    var s := Execute(b, refresh, downstream);
    var n := DrainCount(|b.queue|, b.config.bufferSize);
    assert b.queue[..n] + b.queue[n..] == b.queue;
  }

  /** One call keeps the conservation invariant, whatever the store answers. */
  lemma ApplyConserves(b: Buffer, t: Trace, c: Command)
    requires Conserved(b, t)
    ensures Conserved(b, Apply(t, c))
  {
    match c
    case PutCmd(r) =>
      PutConserves(b, t, r);
    case FlushCmd(d) =>
      ExecuteSplitsQueue(t.buffer, t.buffer.config.forcedRefresh, d);
      FlushConserves(b, t, Flush(t.buffer, d));
    case FlushAndRefreshCmd(d) =>
      ExecuteSplitsQueue(t.buffer, true, d);
      FlushConserves(b, t, FlushAndRefresh(t.buffer, d));
  }

  /**
   * Over any sequence of calls, whatever the store answers, the queue stays
   * within capacity and the settings never change, and the staged requests
   * leave the queue exactly once, in FIFO order: what was queued followed by
   * what was staged equals what was flushed followed by what is still queued.
   * In particular nothing is re-queued after a failed flush.
   */
  lemma {:induction false} RunConserves(b: Buffer, cmds: seq<Command>)
    ensures Conserved(b, Run(b, cmds))
  {
    if cmds == [] {
      assert b.queue + [] == [] + b.queue;
    } else {
      RunConserves(b, cmds[..|cmds| - 1]);
      ApplyConserves(b, Run(b, cmds[..|cmds| - 1]), cmds[|cmds| - 1]);
    }
  }

  /** The bookkeeping a trace keeps about the calls that produced it. */
  predicate Accounted(t: Trace, cmds: seq<Command>)
  {
    && multiset(t.accepted) + multiset(t.dropped) == multiset(Puts(cmds))
    && |t.outcomes| == Flushes(cmds)
    && |t.sent| <= Flushes(cmds)
    && |t.events| == |t.sent|
  }

  /** A flush reports exactly one failure-monitor event per store call, and none without one. */
  lemma ExecuteReportsOncePerCall(b: Buffer, refresh: bool, downstream: Downstream)
    ensures var s := Execute(b, refresh, downstream);
            |s.events| == if s.sent.Some? then 1 else 0
  {
  }

  /** A flush with one event per store call keeps the bookkeeping. */
  lemma FlushAccounts(t: Trace, init: seq<Command>, c: Command, s: Step)
    requires Accounted(t, init)
    requires !c.PutCmd? && |s.events| == (if s.sent.Some? then 1 else 0)
    ensures Accounted(AfterFlush(t, s), init + [c])
  {
    var cmds := init + [c];
    assert cmds[..|cmds| - 1] == init;
  }

  /** One more call keeps the bookkeeping. */
  lemma ApplyAccounts(t: Trace, init: seq<Command>, c: Command)
    requires Accounted(t, init)
    ensures Accounted(Apply(t, c), init + [c])
  {
    match c
    case PutCmd(r) =>
      var cmds := init + [c];
      assert cmds[..|cmds| - 1] == init;
    case FlushCmd(d) =>
      ExecuteReportsOncePerCall(t.buffer, t.buffer.config.forcedRefresh, d);
      FlushAccounts(t, init, c, Flush(t.buffer, d));
    case FlushAndRefreshCmd(d) =>
      ExecuteReportsOncePerCall(t.buffer, true, d);
      FlushAccounts(t, init, c, FlushAndRefresh(t.buffer, d));
  }

  /**
   * Every submitted request is either staged or lost to a full queue, and
   * every flush call ends in exactly one outcome and makes at most one store
   * call; the failure monitor hears exactly one event per store call.
   */
  lemma {:induction false} RunAccounts(b: Buffer, cmds: seq<Command>)
    ensures Accounted(Run(b, cmds), cmds)
  {
    if cmds != [] {
      var init := cmds[..|cmds| - 1];
      RunAccounts(b, init);
      ApplyAccounts(Run(b, init), init, cmds[|cmds| - 1]);
      assert init + [cmds[|cmds| - 1]] == cmds;
    }
  }

  /**
   * While the queue has room for every request submitted, nothing is lost:
   * every submitted request is staged, in submission order.
   */
  lemma {:induction false} NoLossBelowCapacity(b: Buffer, cmds: seq<Command>)
    requires |b.queue| + |Puts(cmds)| <= Capacity
    ensures Run(b, cmds).dropped == []
    ensures Run(b, cmds).accepted == Puts(cmds)
  {
    if cmds != [] {
      var init := cmds[..|cmds| - 1];
      NoLossBelowCapacity(b, init);
      RunConserves(b, init);
      var t := Run(b, init);
      assert |t.buffer.queue| <= |b.queue| + |t.accepted|;
    }
  }

  /** All calls in `cmds` are flushes. */
  predicate OnlyFlushes(cmds: seq<Command>)
  {
    forall i :: 0 <= i < |cmds| ==> !cmds[i].PutCmd?
  }

  /** Dropping the last call of a sequence of flushes leaves a sequence of flushes. */
  lemma OnlyFlushesInit(cmds: seq<Command>)
    requires cmds != [] && OnlyFlushes(cmds)
    ensures OnlyFlushes(cmds[..|cmds| - 1]) && !cmds[|cmds| - 1].PutCmd?
  {
    var init := cmds[..|cmds| - 1];
    forall i | 0 <= i < |init| ensures !init[i].PutCmd? {
      assert init[i] == cmds[i];
    }
  }

  /** `x`, or zero when `x` is negative. */
  function Floor0(x: int): nat
  {
    if x < 0 then 0 else x
  }

  /** A flush with a positive buffer size takes `bufferSize` requests, or all of them if fewer. */
  lemma FlushShrinks(t: Trace, c: Command)
    requires !c.PutCmd? && t.buffer.config.bufferSize > 0
    ensures |Apply(t, c).buffer.queue| == Floor0(|t.buffer.queue| - t.buffer.config.bufferSize)
  {
  }

  /** Taking `bs` more off a queue that had `k` rounds of `bs` taken leaves `k + 1` rounds taken. */
  lemma ShrinkStep(q0: int, k: nat, bs: nat)
    ensures Floor0(Floor0(q0 - k * bs) - bs) == Floor0(q0 - (k + 1) * bs)
  {
    assert (k + 1) * bs == k * bs + bs;
  }

  /**
   * With a positive buffer size and no further puts, each flush takes
   * `bufferSize` requests off the head of the queue until it is empty.
   */
  lemma {:induction false} FlushesShrinkQueue(b: Buffer, cmds: seq<Command>)
    requires b.config.bufferSize > 0
    requires OnlyFlushes(cmds)
    ensures |Run(b, cmds).buffer.queue| == Floor0(|b.queue| - |cmds| * b.config.bufferSize)
  {
    if cmds != [] {
      var init := cmds[..|cmds| - 1];
      var t := Run(b, init);
      assert Run(b, cmds) == Apply(t, cmds[|cmds| - 1]);
      OnlyFlushesInit(cmds);
      FlushesShrinkQueue(b, init);
      RunConserves(b, init);
      FlushShrinks(t, cmds[|cmds| - 1]);
      ShrinkStep(|b.queue|, |init|, b.config.bufferSize);
    }
  }

  /** A sequence of flush calls submits no request. */
  lemma {:induction false} OnlyFlushesPutNothing(cmds: seq<Command>)
    requires OnlyFlushes(cmds)
    ensures Puts(cmds) == []
  {
    if cmds != [] {
      OnlyFlushesInit(cmds);
      OnlyFlushesPutNothing(cmds[..|cmds| - 1]);
    }
  }

  /**
   * Enough flushes drain the whole backlog: with no further puts and at
   * least |queue| / bufferSize flushes (rounded up), everything that was
   * queued has been flushed, in queue order, and the queue is empty.
   */
  lemma {:induction false} FlushesDrainBacklog(b: Buffer, cmds: seq<Command>)
    requires b.config.bufferSize > 0
    requires OnlyFlushes(cmds)
    requires |cmds| * b.config.bufferSize >= |b.queue|
    ensures Run(b, cmds).buffer.queue == []
    ensures Run(b, cmds).flushed == b.queue
  {
    var t := Run(b, cmds);
    FlushesShrinkQueue(b, cmds);
    assert t.buffer.queue == [];
    OnlyFlushesPutNothing(cmds);
    RunAccounts(b, cmds);
    assert |multiset(t.accepted)| == 0;
    RunConserves(b, cmds);
    assert b.queue == b.queue + t.accepted == t.flushed + t.buffer.queue == t.flushed;
  }
}
