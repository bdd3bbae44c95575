/**
 The accepter queues that carry messages, connections and remote consumers from event callbacks to
 fibers. Supplying a payload, or disconnecting, resumes a waiting fiber in the middle of the
 operation, and that fiber may use the same queues again before the operation has finished.

 A fiber is the finite list of queue operations it performs once resumed; an accept made by it
 carries the fiber that will continue there. Quantifying over all such scripts covers every way
 in which operations can nest.
 */
module AccepterSpec {
  datatype Op<P> =
    | Accept(fiber: seq<Op<P>>)
    | Supply(payload: P)
    | Disconnect

  /** A receptable in pending_accepters_: which call of accept() created it, and who waits in it. */
  datatype Accepter<P> = Accepter(id: nat, fiber: seq<Op<P>>)

  /** The three fields of the queues, and the history of what went through them. */
  datatype Queues<P> = Queues(
    data: seq<P>,
    accepters: seq<Accepter<P>>,
    disconnected: bool,
    calls: nat,                   // how often accept() was called
    supplied: seq<P>,
    delivered: seq<(nat, P)>,     // accept() calls that got a payload, as they got it
    errors: seq<nat>)             // accept() calls that got an error

  function Size<P>(ops: seq<Op<P>>): nat {
    if ops == [] then 0 else OpSize(ops[0]) + Size(ops[1..])
  }

  function OpSize<P>(op: Op<P>): nat {
    if op.Accept? then 2 + Size(op.fiber) else 1
  }

  /** The operations that waiting fibers have yet to perform. */
  function Weight<P>(waiting: seq<Accepter<P>>): nat {
    if waiting == [] then 0 else 1 + Size(waiting[0].fiber) + Weight(waiting[1..])
  }

  lemma {:induction false} WeightAppend<P>(s: seq<Accepter<P>>, a: Accepter<P>)
    ensures Weight(s + [a]) == Weight(s) + 1 + Size(a.fiber)
  {
    if s != [] {
      WeightAppend(s[1..], a);
      assert (s + [a])[1..] == s[1..] + [a];
    } else {
      assert s + [a] == [a];
    }
  }

  /** accept(): queued data first, then the error of disconnected queues, else wait. */
  function AcceptStep<P>(q: Queues<P>, fiber: seq<Op<P>>): (r: Queues<P>)
    ensures Weight(r.accepters) <= Weight(q.accepters) + 1 + Size(fiber)
  {
    WeightAppend(q.accepters, Accepter(q.calls, fiber));
    if q.data != [] then
      q.(data := q.data[1..], delivered := q.delivered + [(q.calls, q.data[0])], calls := q.calls + 1)
    else if q.disconnected then
      q.(errors := q.errors + [q.calls], calls := q.calls + 1)
    else
      q.(accepters := q.accepters + [Accepter(q.calls, fiber)], calls := q.calls + 1)
  }

  /** The longest waiting accepter receives `p` and leaves the queue. */
  function Deliver<P>(q: Queues<P>, p: P): Queues<P>
    requires q.accepters != []
  {
    q.(accepters := q.accepters[1..], supplied := q.supplied + [p],
       delivered := q.delivered + [(q.accepters[0].id, p)])
  }

  /** The longest waiting accepter receives an error and leaves the queue. */
  function Dismiss<P>(q: Queues<P>): Queues<P>
    requires q.accepters != []
  {
    q.(accepters := q.accepters[1..], errors := q.errors + [q.accepters[0].id])
  }

  function SupplyStep<P>(q: Queues<P>, p: P): (r: Queues<P>)
    ensures Weight(r.accepters) <= Weight(q.accepters)
    decreases Weight(q.accepters), 1
  {
    if q.accepters == [] then q.(data := q.data + [p], supplied := q.supplied + [p])
    else Exec(Deliver(q, p), q.accepters[0].fiber)
  }

  /** The loop of disconnect(). */
  function Drain<P>(q: Queues<P>): (r: Queues<P>)
    ensures Weight(r.accepters) <= Weight(q.accepters)
    decreases Weight(q.accepters), 1
  {
    if q.accepters == [] then q
    else Drain(Exec(Dismiss(q), q.accepters[0].fiber))
  }

  /** A fiber performs `ops`, one after another, each running to its end first. */
  function Exec<P>(q: Queues<P>, ops: seq<Op<P>>): (r: Queues<P>)
    ensures Weight(r.accepters) <= Weight(q.accepters) + Size(ops)
    decreases Weight(q.accepters) + Size(ops), 0
  {
    if ops == [] then q
    else
      assert Size(ops) == OpSize(ops[0]) + Size(ops[1..]);
      match ops[0]
      case Accept(fiber) => Exec(AcceptStep(q, fiber), ops[1..])
      case Supply(p) => Exec(SupplyStep(q, p), ops[1..])
      case Disconnect => Exec(Drain(q.(disconnected := true)), ops[1..])
  }
}
