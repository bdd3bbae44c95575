/** What the accepter queues keep, whatever fibers do when they are resumed. */
module AccepterProofs {
  import opened AccepterSpec

  ghost function AccepterIds<P>(waiting: seq<Accepter<P>>): seq<nat> {
    seq(|waiting|, i requires 0 <= i < |waiting| => waiting[i].id)
  }

  ghost function DeliveredIds<P>(delivered: seq<(nat, P)>): seq<nat> {
    seq(|delivered|, i requires 0 <= i < |delivered| => delivered[i].0)
  }

  ghost function Payloads<P>(delivered: seq<(nat, P)>): seq<P> {
    seq(|delivered|, i requires 0 <= i < |delivered| => delivered[i].1)
  }

  ghost predicate Increasing(s: seq<nat>) {
    forall i, j | 0 <= i < j < |s| :: s[i] < s[j]
  }

  ghost predicate Below(s: seq<nat>, n: nat) {
    forall i | 0 <= i < |s| :: s[i] < n
  }

  lemma IncreasingAppend(s: seq<nat>, n: nat)
    requires Increasing(s) && Below(s, n)
    ensures Increasing(s + [n]) && Below(s + [n], n + 1)
  {
  }

  /** All calls of accept(), each counted once. */
  ghost function Calls(n: nat): multiset<nat> {
    if n == 0 then multiset{} else Calls(n - 1) + multiset{n - 1}
  }

  /** The calls of accept() that got a payload, followed by those that wait for one. */
  ghost function Served<P>(q: Queues<P>): seq<nat> {
    DeliveredIds(q.delivered) + AccepterIds(q.accepters)
  }

  ghost predicate NeverBothPending<P>(q: Queues<P>) {
    q.data == [] || q.accepters == []
  }

  /** Every call of accept() waits, or got exactly one payload, or got exactly one error. */
  ghost predicate OneOutcomeEach<P>(q: Queues<P>) {
    multiset(DeliveredIds(q.delivered)) + multiset(AccepterIds(q.accepters)) + multiset(q.errors) == Calls(q.calls)
  }

  /** Payloads are served in the order of supply, to calls of accept() in the order of the calls. */
  ghost predicate Fifo<P>(q: Queues<P>) {
    && q.supplied == Payloads(q.delivered) + q.data
    && Increasing(Served(q))
    && Below(Served(q), q.calls)
  }

  ghost predicate Inv<P>(q: Queues<P>) {
    NeverBothPending(q) && OneOutcomeEach(q) && Fifo(q)
  }

  /** Outcomes are final: they are only ever added to. */
  ghost predicate Extends<P>(q: Queues<P>, r: Queues<P>) {
    && q.supplied <= r.supplied && q.delivered <= r.delivered && q.errors <= r.errors
    && q.calls <= r.calls && (q.disconnected ==> r.disconnected)
  }

  /** On disconnected queues the accepters only ever leave, from the front. */
  ghost predicate OnlyLeave<P>(q: Queues<P>, r: Queues<P>) {
    && |r.accepters| <= |q.accepters|
    && r.accepters == q.accepters[|q.accepters| - |r.accepters|..]
  }

  ghost predicate Kept<P>(q: Queues<P>, r: Queues<P>) {
    Inv(r) && Extends(q, r) && (q.disconnected ==> OnlyLeave(q, r))
  }

  lemma KeptTransitive<P>(q: Queues<P>, m: Queues<P>, r: Queues<P>)
    requires Kept(q, m) && Kept(m, r)
    ensures Kept(q, r)
  {
  }

  lemma AcceptStepKeeps<P>(q: Queues<P>, fiber: seq<Op<P>>)
    requires Inv(q)
    ensures Kept(q, AcceptStep(q, fiber))
  {
    if q.data != [] {
      AcceptTakes(q, fiber);
    } else if !q.disconnected {
      AcceptWaits(q, fiber);
    }
  }

  lemma AcceptTakes<P>(q: Queues<P>, fiber: seq<Op<P>>)
    requires Inv(q) && q.data != []
    ensures Kept(q, AcceptStep(q, fiber))
  {
    var r := AcceptStep(q, fiber);
    assert AccepterIds(q.accepters) == [];
    assert DeliveredIds(r.delivered) == DeliveredIds(q.delivered) + [q.calls];
    assert OneOutcomeEach(r);
    assert Increasing(Served(r)) && Below(Served(r), r.calls) by {
      IncreasingAppend(Served(q), q.calls);
      assert Served(r) == Served(q) + [q.calls];
    }
    assert r.supplied == Payloads(r.delivered) + r.data by {
      assert Payloads(r.delivered) == Payloads(q.delivered) + [q.data[0]];
      assert q.data == [q.data[0]] + r.data;
    }
  }

  lemma AcceptWaits<P>(q: Queues<P>, fiber: seq<Op<P>>)
    requires Inv(q) && q.data == [] && !q.disconnected
    ensures Kept(q, AcceptStep(q, fiber))
  {
    var r := AcceptStep(q, fiber);
    assert AccepterIds(r.accepters) == AccepterIds(q.accepters) + [q.calls];
    assert Fifo(r) by {
      IncreasingAppend(Served(q), q.calls);
      assert Served(r) == Served(q) + [q.calls];
    }
  }

  lemma DeliverKeeps<P>(q: Queues<P>, p: P)
    requires Inv(q) && q.accepters != []
    ensures var r := Deliver(q, p);
            Kept(q, r) && OnlyLeave(q, r)
  {
    var r := Deliver(q, p);
    var id := q.accepters[0].id;
    assert AccepterIds(q.accepters) == [id] + AccepterIds(r.accepters);
    assert DeliveredIds(r.delivered) == DeliveredIds(q.delivered) + [id];
    assert Payloads(r.delivered) == Payloads(q.delivered) + [p];
    assert Served(q) == Served(r);
  }

  lemma DismissKeeps<P>(q: Queues<P>)
    requires Inv(q) && q.accepters != []
    ensures var r := Dismiss(q);
            Kept(q, r) && OnlyLeave(q, r)
  {
    var r := Dismiss(q);
    var ids := DeliveredIds(q.delivered);
    assert AccepterIds(q.accepters) == [q.accepters[0].id] + AccepterIds(r.accepters);
    assert forall i | 0 <= i < |Served(r)| :: Served(r)[i] == Served(q)[if i < |ids| then i else i + 1];
  }

  lemma {:induction false} SupplyStepKeeps<P>(q: Queues<P>, p: P)
    requires Inv(q)
    ensures Kept(q, SupplyStep(q, p))
    decreases Weight(q.accepters), 1
  {
    if q.accepters != [] {
      DeliverKeeps(q, p);
      ExecKeeps(Deliver(q, p), q.accepters[0].fiber);
      KeptTransitive(q, Deliver(q, p), SupplyStep(q, p));
    }
  }

  lemma {:induction false} DrainKeeps<P>(q: Queues<P>)
    requires Inv(q) && q.disconnected
    ensures Kept(q, Drain(q)) && Drain(q).accepters == []
    decreases Weight(q.accepters), 1
  {
    if q.accepters != [] {
      var d := Dismiss(q);
      var m := Exec(d, q.accepters[0].fiber);
      DismissKeeps(q);
      ExecKeeps(d, q.accepters[0].fiber);
      DrainKeeps(m);
      KeptTransitive(q, d, m);
      KeptTransitive(q, m, Drain(m));
    }
  }

  /** Whatever a fiber does, and whatever the fibers do that it resumes on the way. */
  lemma {:induction false} ExecKeeps<P>(q: Queues<P>, ops: seq<Op<P>>)
    requires Inv(q)
    ensures Kept(q, Exec(q, ops))
    decreases Weight(q.accepters) + Size(ops), 0
  {
    if ops != [] {
      assert Size(ops) == OpSize(ops[0]) + Size(ops[1..]);
      var m := match ops[0]
        case Accept(fiber) => AcceptStep(q, fiber)
        case Supply(p) => SupplyStep(q, p)
        case Disconnect => Drain(q.(disconnected := true));
      match ops[0] {
        case Accept(fiber) => AcceptStepKeeps(q, fiber);
        case Supply(p) => SupplyStepKeeps(q, p);
        case Disconnect => DrainKeeps(q.(disconnected := true));
      }
      assert Kept(q, m);
      ExecKeeps(m, ops[1..]);
      KeptTransitive(q, m, Exec(m, ops[1..]));
    }
  }

  /** One round of the loop of disconnect(): fewer accepters wait after it, whatever the resumed fiber did. */
  lemma DrainRound<P>(q: Queues<P>)
    requires Inv(q) && q.disconnected && q.accepters != []
    ensures var d, fiber := Dismiss(q), q.accepters[0].fiber;
            var m := Exec(d, fiber);
            && Inv(d) && Inv(m) && m.disconnected
            && |m.accepters| < |q.accepters| && Drain(q) == Drain(m)
            && Weight(d.accepters) + Size(fiber) < Weight(q.accepters)
            && Weight(m.accepters) < Weight(q.accepters)
  {
    DismissKeeps(q);
    ExecKeeps(Dismiss(q), q.accepters[0].fiber);
  }

  function Empty<P>(): Queues<P> {
    Queues([], [], false, 0, [], [], [])
  }

  lemma RunKeeps<P>(ops: seq<Op<P>>)
    ensures Inv(Exec(Empty(), ops))
  {
    ExecKeeps(Empty<P>(), ops);
  }

  /**
   In every run, under arbitrary nesting: data and accepters never wait at the same time, the n-th
   successful accept (in the order of the calls) got the n-th supplied payload, and what was
   supplied is what was delivered followed by what is still queued.
   */
  lemma FirstInFirstOut<P>(ops: seq<Op<P>>)
    ensures var q := Exec(Empty(), ops);
            && (q.data == [] || q.accepters == [])
            && |q.supplied| == |q.delivered| + |q.data|
            && q.data == q.supplied[|q.delivered|..]
            && (forall n | 0 <= n < |q.delivered| :: q.delivered[n].1 == q.supplied[n])
            && (forall m, n | 0 <= m < n < |q.delivered| :: q.delivered[m].0 < q.delivered[n].0)
  {
    RunKeeps(ops);
    var q := Exec(Empty<P>(), ops);
    assert forall n | 0 <= n < |q.delivered| :: Payloads(q.delivered)[n] == q.supplied[n];
    assert forall m | 0 <= m < |q.delivered| :: Served(q)[m] == q.delivered[m].0;
  }
}
