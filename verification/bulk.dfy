/**
 * The bulk operation a flush assembles: a refresh flag and the ordered list
 * of index and delete actions added to it, one per drained request.
 */
module Bulk {
  import opened Requests

  /** One entry of a bulk operation. */
  datatype Action =
    | IndexAction(docId: string, payload: string)
    | DeleteAction(docId: string)

  /** A bulk operation: whether the store refreshes after it, and its actions in order. */
  datatype BulkOp = BulkOp(refresh: bool, actions: seq<Action>)

  /** The action a request is added to the bulk operation as. */
  function ToAction(r: Request): Action
  {
    match r
    case IndexOp(id, doc) => IndexAction(id, doc)
    case DeleteOp(id) => DeleteAction(id)
  }

  /** The request an action was added for. */
  function Source(a: Action): Request
  {
    match a
    case IndexAction(id, doc) => IndexOp(id, doc)
    case DeleteAction(id) => DeleteOp(id)
  }

  /**
   * The actions for the drained requests, added one by one in drain order:
   * an index request becomes an index action, a delete request a delete action.
   */
  function Actions(rs: seq<Request>): (acts: seq<Action>)
    ensures |acts| == |rs|
    ensures forall i :: 0 <= i < |rs| ==> Source(acts[i]) == rs[i]
    ensures forall i :: 0 <= i < |rs| ==> (acts[i].IndexAction? <==> rs[i].IndexOp?)
  {
    if rs == [] then [] else [ToAction(rs[0])] + Actions(rs[1..])
  }

  /** The requests a list of actions stands for, in order. */
  function Sources(acts: seq<Action>): (rs: seq<Request>)
  {
    if acts == [] then [] else [Source(acts[0])] + Sources(acts[1..])
  }

  /** Assembles the bulk operation a flush sends: the refresh flag and one action per request. */
  function Build(refresh: bool, rs: seq<Request>): (b: BulkOp)
    ensures b.refresh == refresh
    ensures NumberOfActions(b) == |rs|
  {
    BulkOp(refresh, Actions(rs))
  }

  /** The size of the bulk operation. */
  function NumberOfActions(b: BulkOp): nat
  {
    |b.actions|
  }

  /** Number of index actions in `acts`. */
  function CountIndexActions(acts: seq<Action>): nat
  {
    if acts == [] then 0
    else (if acts[0].IndexAction? then 1 else 0) + CountIndexActions(acts[1..])
  }

  /** Number of delete actions in `acts`. */
  function CountDeleteActions(acts: seq<Action>): nat
  {
    if acts == [] then 0
    else (if acts[0].DeleteAction? then 1 else 0) + CountDeleteActions(acts[1..])
  }

  /** Every drained request is in the bulk operation, in drain order, and nothing else is. */
  lemma {:induction false} BuildRoundTrip(refresh: bool, rs: seq<Request>)
    ensures Sources(Build(refresh, rs).actions) == rs
  {
    if rs != [] {
      BuildRoundTrip(refresh, rs[1..]);
      assert Actions(rs)[1..] == Actions(rs[1..]);
    }
  }

  /** Index requests become index actions and delete requests delete actions, one for one. */
  lemma {:induction false} BuildKeepsKinds(refresh: bool, rs: seq<Request>)
    ensures CountIndexActions(Build(refresh, rs).actions) == CountIndexOps(rs)
    ensures CountDeleteActions(Build(refresh, rs).actions) == CountDeleteOps(rs)
  {
    if rs != [] {
      BuildKeepsKinds(refresh, rs[1..]);
      assert Actions(rs)[1..] == Actions(rs[1..]);
    }
  }
}
