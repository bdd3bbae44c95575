/** What becomes of the accepters that wait when the queues are disconnected. */
module AccepterDisconnect {
  import opened AccepterSpec
  import opened AccepterProofs

  lemma {:induction false} CallsOnce(n: nat, id: nat)
    ensures Calls(n)[id] == if id < n then 1 else 0
  {
    if n > 0 {
      CallsOnce(n - 1, id);
    }
  }

  lemma WaitingIsUnanswered<P>(q: Queues<P>, a: Accepter<P>)
    requires Inv(q) && a in q.accepters
    ensures a.id < q.calls && a.id !in DeliveredIds(q.delivered)
  {
    var i :| 0 <= i < |q.accepters| && q.accepters[i] == a;
    assert AccepterIds(q.accepters)[i] == a.id;
    assert Served(q)[|q.delivered| + i] == a.id;
    assert forall j | 0 <= j < |q.delivered| :: Served(q)[j] == DeliveredIds(q.delivered)[j];
  }

  ghost function Disconnected<P>(q: Queues<P>): Queues<P> {
    Exec(q, [Disconnect])
  }

  lemma DisconnectDrains<P>(q: Queues<P>)
    ensures Disconnected(q) == Drain(q.(disconnected := true))
  {
    var ops: seq<Op<P>> := [Disconnect];
    assert ops[1..] == [];
    assert Exec(q, ops) == Drain(q.(disconnected := true));
  }

  /** disconnect() answers every accepter that was waiting: none is left, and each got one payload or one error. */
  lemma DisconnectAnswersAll<P>(q: Queues<P>, a: Accepter<P>)
    requires Inv(q) && a in q.accepters
    ensures var r := Disconnected(q);
            && r.accepters == []
            && multiset(DeliveredIds(r.delivered))[a.id] + multiset(r.errors)[a.id] == 1
  {
    var r := Disconnected(q);
    DisconnectDrains(q);
    DrainKeeps(q.(disconnected := true));
    WaitingIsUnanswered(q, a);
    CallsOnce(r.calls, a.id);
    assert AccepterIds(r.accepters) == [];
  }

  // ---------- who gets the error ----------

  /** Among its own operations a fiber supplies nothing before it disconnects. */
  predicate Harmless<P>(ops: seq<Op<P>>) {
    ops == [] || ops[0].Disconnect? || (ops[0].Accept? && Harmless(ops[1..]))
  }

  /** All waiting fibers but the last one are harmless. */
  predicate AllHarmless<P>(waiting: seq<Accepter<P>>) {
    |waiting| <= 1 || (Harmless(waiting[0].fiber) && AllHarmless(waiting[1..]))
  }

  /** Only calls of accept() that were made after `q` received payloads. */
  ghost predicate NewlyServed<P>(q: Queues<P>, r: Queues<P>) {
    && q.delivered <= r.delivered && q.calls <= r.calls
    && forall j | |q.delivered| <= j < |r.delivered| :: r.delivered[j].0 >= q.calls
  }

  lemma NewlyTransitive<P>(q: Queues<P>, m: Queues<P>, r: Queues<P>)
    requires NewlyServed(q, m) && NewlyServed(m, r)
    ensures NewlyServed(q, r)
  {
  }

  /** With nobody waiting any more, a fiber only serves itself. */
  lemma {:induction false} ExecAlone<P>(q: Queues<P>, ops: seq<Op<P>>)
    requires q.disconnected && q.accepters == []
    ensures var r := Exec(q, ops); r.accepters == [] && r.disconnected && NewlyServed(q, r)
    decreases |ops|
  {
    if ops != [] {
      var m := match ops[0]
        case Accept(fiber) => AcceptStep(q, fiber)
        case Supply(p) => SupplyStep(q, p)
        case Disconnect => q;
      assert q.(disconnected := true) == q;
      ExecAlone(m, ops[1..]);
      NewlyTransitive(q, m, Exec(m, ops[1..]));
    }
  }

  /** A failing accept leaves the queues to the next operation. */
  lemma AcceptFails<P>(q: Queues<P>, fiber: seq<Op<P>>)
    requires q.disconnected && q.data == []
    ensures var m := AcceptStep(q, fiber);
            && m.accepters == q.accepters && m.data == [] && m.delivered == q.delivered
            && m.disconnected && NewlyServed(q, m)
  {
  }

  lemma {:induction false} ExecHarmless<P>(q: Queues<P>, ops: seq<Op<P>>)
    requires Inv(q) && q.disconnected && q.accepters != [] && Harmless(ops) && AllHarmless(q.accepters)
    ensures var r := Exec(q, ops);
            r.disconnected && NewlyServed(q, r) && (r.accepters == [] || r.accepters == q.accepters)
    decreases Weight(q.accepters) + Size(ops), 0
  {
    if ops != [] {
      assert Size(ops) == OpSize(ops[0]) + Size(ops[1..]);
      match ops[0]
      case Accept(fiber) =>
        var m := AcceptStep(q, fiber);
        AcceptStepKeeps(q, fiber);
        AcceptFails(q, fiber);
        ExecHarmless(m, ops[1..]);
        NewlyTransitive(q, m, Exec(m, ops[1..]));
      case Disconnect =>
        assert q.(disconnected := true) == q;
        var m := Drain(q);
        DrainKeeps(q);
        DrainHarmless(q);
        ExecAlone(m, ops[1..]);
        NewlyTransitive(q, m, Exec(m, ops[1..]));
    }
  }

  lemma {:induction false} DrainHarmless<P>(q: Queues<P>)
    requires Inv(q) && q.disconnected && AllHarmless(q.accepters)
    ensures NewlyServed(q, Drain(q))
    decreases Weight(q.accepters), 1
  {
    if q.accepters != [] {
      var d, fiber := Dismiss(q), q.accepters[0].fiber;
      var m := Exec(d, fiber);
      DrainRound(q);
      if d.accepters == [] {
        ExecAlone(d, fiber);
      } else {
        ExecHarmless(d, fiber);
        DrainHarmless(m);
      }
      assert NewlyServed(q, d);
      NewlyTransitive(q, d, m);
      NewlyTransitive(q, m, Drain(m));
    }
  }

  /** One of these accepters received a payload. */
  ghost predicate SomeoneServed<P>(waiting: seq<Accepter<P>>, delivered: seq<(nat, P)>) {
    exists i, j :: 0 <= i < |waiting| && 0 <= j < |delivered| && delivered[j].0 == waiting[i].id
  }

  lemma StillServed<P>(waiting: seq<Accepter<P>>, tail: seq<Accepter<P>>, q: Queues<P>, r: Queues<P>)
    requires SomeoneServed(tail, q.delivered) && q.delivered <= r.delivered
    requires tail == waiting || (waiting != [] && tail == waiting[1..])
    ensures SomeoneServed(waiting, r.delivered)
  {
    var i, j :| 0 <= i < |tail| && 0 <= j < |q.delivered| && q.delivered[j].0 == tail[i].id;
    var k := if tail == waiting then i else i + 1;
    assert r.delivered[j].0 == waiting[k].id;
  }

  /** A harmful fiber serves the next accepter; a harmless one leaves the others to whoever disconnects them. */
  lemma {:induction false} ExecHarmful<P>(q: Queues<P>, ops: seq<Op<P>>)
    requires Inv(q) && q.disconnected && q.accepters != []
    requires !Harmless(ops) || !AllHarmless(q.accepters)
    ensures var r := Exec(q, ops);
            SomeoneServed(q.accepters, r.delivered) || (Harmless(ops) && r.accepters == q.accepters)
    decreases Weight(q.accepters) + Size(ops), 0
  {
    if ops != [] {
      assert Size(ops) == OpSize(ops[0]) + Size(ops[1..]);
      match ops[0]
      case Accept(fiber) =>
        AcceptStepKeeps(q, fiber);
        AcceptFails(q, fiber);
        ExecHarmful(AcceptStep(q, fiber), ops[1..]);
      case Supply(p) =>
        SupplyServes(q, p, ops[1..]);
      case Disconnect =>
        assert q.(disconnected := true) == q;
        DrainKeeps(q);
        DrainHarmful(q);
        ExecKeeps(Drain(q), ops[1..]);
        StillServed(q.accepters, q.accepters, Drain(q), Exec(q, ops));
    }
  }

  lemma SupplyServes<P>(q: Queues<P>, p: P, rest: seq<Op<P>>)
    requires Inv(q) && q.accepters != []
    ensures SomeoneServed(q.accepters, Exec(SupplyStep(q, p), rest).delivered)
  {
    var d, m := Deliver(q, p), SupplyStep(q, p);
    DeliverKeeps(q, p);
    ExecKeeps(d, q.accepters[0].fiber);
    SupplyStepKeeps(q, p);
    ExecKeeps(m, rest);
    assert d.delivered[|q.delivered|].0 == q.accepters[0].id;
    StillServed(q.accepters, q.accepters, d, Exec(m, rest));
  }

  lemma {:induction false} DrainHarmful<P>(q: Queues<P>)
    requires Inv(q) && q.disconnected && !AllHarmless(q.accepters)
    ensures SomeoneServed(q.accepters, Drain(q).delivered)
    decreases Weight(q.accepters), 1
  {
    var d, fiber := Dismiss(q), q.accepters[0].fiber;
    var m := Exec(d, fiber);
    DrainRound(q);
    DrainKeeps(m);
    ExecHarmful(d, fiber);
    if SomeoneServed(d.accepters, m.delivered) {
      StillServed(q.accepters, d.accepters, m, Drain(m));
    } else {
      DrainHarmful(m);
      StillServed(q.accepters, d.accepters, Drain(m), Drain(m));
    }
  }

  /**
   Every accepter that waits at disconnect() gets the error if and only if no fiber but that of the
   last one supplies something, among its own operations, before it disconnects. What such a fiber
   does inside an accept() does not matter: that accept fails and its fiber never goes on.
   */
  lemma AllGetTheError<P>(q: Queues<P>)
    requires Inv(q)
    ensures (forall a | a in q.accepters :: multiset(Disconnected(q).errors)[a.id] == 1) <==> AllHarmless(q.accepters)
  {
    var d, r := q.(disconnected := true), Disconnected(q);
    DisconnectDrains(q);
    if AllHarmless(q.accepters) {
      DrainHarmless(d);
      forall a | a in q.accepters
        ensures multiset(r.errors)[a.id] == 1
      {
        DisconnectAnswersAll(q, a);
        WaitingIsUnanswered(q, a);
        NotServed(q, r, a.id);
      }
    } else {
      DrainHarmful(d);
      var i, j :| 0 <= i < |q.accepters| && 0 <= j < |r.delivered| && r.delivered[j].0 == q.accepters[i].id;
      DisconnectAnswersAll(q, q.accepters[i]);
      assert DeliveredIds(r.delivered)[j] == q.accepters[i].id;
    }
  }

  lemma NotServed<P>(q: Queues<P>, r: Queues<P>, id: nat)
    requires NewlyServed(q, r) && id < q.calls && id !in DeliveredIds(q.delivered)
    ensures id !in DeliveredIds(r.delivered)
  {
    forall j | 0 <= j < |r.delivered|
      ensures DeliveredIds(r.delivered)[j] != id
    {
      if j < |q.delivered| {
        assert DeliveredIds(q.delivered)[j] == r.delivered[j].0;
      }
    }
  }

  /** Two accepters wait, and the first one supplies when it gets its error: the second one gets the payload. */
  lemma PayloadInsteadOfError()
    ensures var r := Exec(Empty(), [Accept([Supply(5)]), Accept([]), Disconnect]);
            r.errors == [0] && r.delivered == [(1, 5)]
  {
    var ops: seq<Op<int>> := [Accept([Supply(5)]), Accept([]), Disconnect];
    var q1 := AcceptStep(Empty<int>(), [Supply(5)]);
    var q2 := AcceptStep(q1, []);
    assert ops[1..] == [Accept([]), Disconnect] && ops[1..][1..] == [Disconnect];
    assert Exec(Empty(), ops) == Exec(q1, ops[1..]) == Exec(q2, [Disconnect]);
    DisconnectDrains(q2);
    var d := q2.(disconnected := true);
    var fiber: seq<Op<int>> := [Supply(5)];
    assert d.accepters == [Accepter(0, fiber), Accepter(1, [])];
    var m := Dismiss(d);
    assert m.accepters == [Accepter(1, [])] && fiber[1..] == [];
    assert Exec(m, fiber) == SupplyStep(m, 5) == Deliver(m, 5);
  }
}
