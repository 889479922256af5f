/**
 * Write requests handed to the index buffer. In the source a request is an
 * Elasticsearch request builder wrapped in a container; here it is reduced to
 * the two kinds the buffer distinguishes.
 */
module Requests {

  /** An index request (document id and the document to store) or a delete request. */
  datatype Request =
    | IndexOp(docId: string, payload: string)
    | DeleteOp(docId: string)

  /** Number of index requests in `rs`. */
  function CountIndexOps(rs: seq<Request>): nat
  {
    if rs == [] then 0
    else (if rs[0].IndexOp? then 1 else 0) + CountIndexOps(rs[1..])
  }

  /** Number of delete requests in `rs`. */
  function CountDeleteOps(rs: seq<Request>): nat
  {
    if rs == [] then 0
    else (if rs[0].DeleteOp? then 1 else 0) + CountDeleteOps(rs[1..])
  }

  /** Every request is of exactly one kind, so the two counts split the sequence. */
  lemma {:induction false} KindsPartition(rs: seq<Request>)
    ensures CountIndexOps(rs) + CountDeleteOps(rs) == |rs|
  {
    if rs != [] {
      KindsPartition(rs[1..]);
    }
  }
}
