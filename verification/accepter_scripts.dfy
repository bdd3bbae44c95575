/** What scripts of queue operations deliver, in terms of the operations alone. */
module AccepterScripts {
  import opened AccepterSpec
  import opened AccepterProofs

  /** What was supplied is recorded, before anything that the resumed fiber supplies. */
  lemma SupplyRecords<P>(q: Queues<P>, p: P)
    requires Inv(q)
    ensures q.supplied + [p] <= SupplyStep(q, p).supplied
  {
    if q.accepters != [] {
      DeliverKeeps(q, p);
      ExecKeeps(Deliver(q, p), q.accepters[0].fiber);
    }
  }

  /** A single operation. */
  function One<P>(q: Queues<P>, op: Op<P>): Queues<P> {
    match op
    case Accept(fiber) => AcceptStep(q, fiber)
    case Supply(p) => SupplyStep(q, p)
    case Disconnect => Drain(q.(disconnected := true))
  }

  lemma {:induction false} ExecAppend<P>(q: Queues<P>, a: seq<Op<P>>, b: seq<Op<P>>)
    ensures Exec(q, a + b) == Exec(Exec(q, a), b)
    decreases |a|
  {
    if a == [] {
      assert a + b == b;
    } else {
      assert (a + b)[0] == a[0] && (a + b)[1..] == a[1..] + b;
      ExecAppend(One(q, a[0]), a[1..], b);
    }
  }

  lemma ExecOne<P>(q: Queues<P>, op: Op<P>)
    ensures Exec(q, [op]) == One(q, op)
  {
    var ops := [op];
    assert ops[0] == op && ops[1..] == [];
    assert Exec(q, ops) == Exec(One(q, op), []);
  }

  // ---------- a resumed fiber runs before whoever resumed it goes on ----------

  /** The same queues, but nobody goes on when the longest waiting accepter is served. */
  function FirstAsleep<P>(q: Queues<P>): Queues<P>
    requires q.accepters != []
  {
    q.(accepters := q.accepters[0 := Accepter(q.accepters[0].id, [])])
  }

  /** Supplying a waiting accepter is the same as supplying and then performing what its fiber does. */
  lemma SupplyInlines<P>(q: Queues<P>, p: P, rest: seq<Op<P>>)
    requires q.accepters != []
    ensures Exec(q, [Supply(p)] + rest) == Exec(FirstAsleep(q), [Supply(p)] + q.accepters[0].fiber + rest)
  {
    var fiber, d := q.accepters[0].fiber, Deliver(q, p);
    var a := FirstAsleep(q);
    assert Deliver(a, p) == d by {
      assert a.accepters[1..] == q.accepters[1..];
    }
    ExecOne(q, Supply(p));
    ExecOne(a, Supply(p));
    ExecAppend(q, [Supply(p)], rest);
    assert [Supply(p)] + fiber + rest == [Supply(p)] + (fiber + rest);
    ExecAppend(a, [Supply(p)], fiber + rest);
    assert SupplyStep(a, p) == Exec(d, []) == d;
    ExecAppend(d, fiber, rest);
  }

  /** An accepter that waits alone goes on with its error in the middle of disconnect(). */
  lemma DisconnectInlines<P>(q: Queues<P>, rest: seq<Op<P>>)
    requires |q.accepters| == 1 && Inv(q)
    ensures Exec(q, [Disconnect] + rest) == Exec(FirstAsleep(q), [Disconnect] + q.accepters[0].fiber + rest)
  {
    var fiber, d := q.accepters[0].fiber, Dismiss(q.(disconnected := true));
    var a := FirstAsleep(q);
    ExecOne(q, Disconnect);
    ExecOne(a, Disconnect);
    ExecAppend(q, [Disconnect], rest);
    assert [Disconnect] + fiber + rest == [Disconnect] + (fiber + rest);
    ExecAppend(a, [Disconnect], fiber + rest);
    assert Dismiss(a.(disconnected := true)) == d;
    assert Exec(d, []) == d && Drain(d) == d;
    ExecAppend(d, fiber, rest);
    DismissKeeps(q.(disconnected := true));
    ExecKeeps(d, fiber);
    assert Drain(Exec(d, fiber)) == Exec(d, fiber);
  }

  // ---------- scripts whose fibers do nothing more ----------

  predicate Flat<P>(ops: seq<Op<P>>) {
    forall i | 0 <= i < |ops| :: ops[i].Supply? || ops[i] == Accept([])
  }

  function Supplied<P>(ops: seq<Op<P>>): seq<P> {
    if ops == [] then []
    else Supplied(ops[..|ops| - 1]) + if ops[|ops| - 1].Supply? then [ops[|ops| - 1].payload] else []
  }

  function Accepts<P>(ops: seq<Op<P>>): nat {
    if ops == [] then 0 else Accepts(ops[..|ops| - 1]) + if ops[|ops| - 1].Accept? then 1 else 0
  }

  function Min(a: nat, b: nat): nat {
    if a < b then a else b
  }

  /** The first `n` calls of accept() got the first `n` payloads. */
  function Paired<P>(ps: seq<P>, n: nat): seq<(nat, P)>
    requires n <= |ps|
  {
    seq(n, i requires 0 <= i < n => (i, ps[i]))
  }

  function Range(a: nat, b: nat): seq<nat>
    requires a <= b
  {
    seq(b - a, i requires 0 <= i < b - a => a + i)
  }

  function Waiting<P>(a: nat, b: nat): seq<Accepter<P>>
    requires a <= b
  {
    seq(b - a, i requires 0 <= i < b - a => Accepter(a + i, []))
  }

  /** What the queues hold after payloads `ps` and `n` calls of accept(), in whatever order. */
  ghost predicate Matched<P>(q: Queues<P>, ps: seq<P>, n: nat) {
    var m := Min(n, |ps|);
    && q.calls == n && !q.disconnected && q.errors == []
    && q.delivered == Paired(ps, m) && q.data == ps[m..] && q.accepters == Waiting(m, n)
  }

  lemma MatchedSupply<P>(q: Queues<P>, ps: seq<P>, n: nat, p: P)
    requires Matched(q, ps, n)
    ensures Matched(SupplyStep(q, p), ps + [p], n)
  {
    var m := Min(n, |ps|);
    if m < n {
      assert q.accepters[0] == Accepter(m, []) && q.accepters[1..] == Waiting(m + 1, n);
      assert Paired(ps + [p], m + 1) == Paired(ps, m) + [(m, p)];
      assert Exec(Deliver(q, p), []) == Deliver(q, p);
    } else {
      assert Paired(ps + [p], m) == Paired(ps, m);
      assert (ps + [p])[m..] == ps[m..] + [p];
    }
  }

  lemma MatchedAccept<P>(q: Queues<P>, ps: seq<P>, n: nat)
    requires Matched(q, ps, n)
    ensures Matched(AcceptStep(q, []), ps, n + 1)
  {
    var m := Min(n, |ps|);
    if m < |ps| {
      assert Paired(ps, m + 1) == Paired(ps, m) + [(m, ps[m])];
    } else {
      assert Waiting(m, n + 1) == Waiting<P>(m, n) + [Accepter(n, [])];
    }
  }

  /**
   After any flat script, in whatever order it supplies and accepts: the i-th call of accept() got the
   i-th payload that the script supplies, as far as both go; the other payloads are queued in order, the
   other calls wait in order.
   */
  lemma {:induction false} FlatScript<P>(ops: seq<Op<P>>)
    requires Flat(ops)
    ensures Matched(Exec(Empty(), ops), Supplied(ops), Accepts(ops))
  {
    if ops != [] {
      var front, last := ops[..|ops| - 1], ops[|ops| - 1];
      var q := Exec(Empty<P>(), front);
      FlatScript(front);
      assert ops == front + [last];
      ExecAppend(Empty<P>(), front, [last]);
      ExecOne(q, last);
      if last.Supply? {
        MatchedSupply(q, Supplied(front), Accepts(front), last.payload);
      } else {
        MatchedAccept(q, Supplied(front), Accepts(front));
      }
    }
  }

  /** After disconnect() every call of accept() has its outcome: payloads first, then errors. */
  ghost predicate Answered<P>(q: Queues<P>, ps: seq<P>, n: nat) {
    var m := Min(n, |ps|);
    && q.calls == n && q.disconnected && q.accepters == []
    && q.delivered == Paired(ps, m) && q.data == ps[m..] && q.errors == Range(m, n)
  }

  lemma {:induction false} DrainAnswers<P>(q: Queues<P>, ps: seq<P>, n: nat, m: nat)
    requires |ps| <= m <= n && q.calls == n && q.disconnected && q.accepters == Waiting(m, n)
    requires q.delivered == Paired(ps, |ps|) && q.data == [] && q.errors == Range(|ps|, m)
    ensures Answered(Drain(q), ps, n)
    decreases n - m
  {
    assert ps[|ps|..] == [];
    if m < n {
      var d := Dismiss(q);
      assert q.accepters[0] == Accepter(m, []) && d.accepters == Waiting(m + 1, n);
      assert Range(|ps|, m + 1) == Range(|ps|, m) + [m];
      assert Exec(d, []) == d && Drain(q) == Drain(d);
      DrainAnswers(d, ps, n, m + 1);
    }
  }

  lemma AnsweredAccept<P>(q: Queues<P>, ps: seq<P>, n: nat)
    requires Answered(q, ps, n)
    ensures Answered(AcceptStep(q, []), ps, n + 1)
  {
    var m := Min(n, |ps|);
    if m < |ps| {
      assert Paired(ps, m + 1) == Paired(ps, m) + [(m, ps[m])];
      assert Range(m, n) == [] == Range(m + 1, n + 1);
    } else {
      assert Range(m, n + 1) == Range(m, n) + [n];
    }
  }

  function Repeated<P>(n: nat): seq<Op<P>> {
    seq(n, i => Accept([]))
  }

  /**
   A flat script, disconnect(), and `n` more calls of accept(): the i-th call got the i-th payload, before
   or after the disconnect, and exactly the calls beyond the last payload got the error.
   */
  lemma {:induction false} FlatThenDisconnect<P>(ops: seq<Op<P>>, n: nat)
    requires Flat(ops)
    ensures Answered(Exec(Empty(), ops + [Disconnect] + Repeated(n)), Supplied(ops), Accepts(ops) + n)
  {
    var before := ops + [Disconnect];
    if n == 0 {
      var q := Exec(Empty<P>(), ops);
      var ps, calls := Supplied(ops), Accepts(ops);
      assert before + Repeated(0) == before;
      FlatScript(ops);
      ExecAppend(Empty<P>(), ops, [Disconnect]);
      ExecOne(q, Disconnect);
      if calls > |ps| {
        assert Range(|ps|, |ps|) == [];
        DrainAnswers(q.(disconnected := true), ps, calls, |ps|);
      } else {
        assert Waiting<P>(calls, calls) == [] && Range(calls, calls) == [];
      }
    } else {
      FlatThenDisconnect(ops, n - 1);
      assert before + Repeated(n) == (before + Repeated(n - 1)) + [Accept([])];
      ExecAppend(Empty<P>(), before + Repeated(n - 1), [Accept([])]);
      ExecOne(Exec(Empty<P>(), before + Repeated(n - 1)), Accept([]));
      AnsweredAccept(Exec(Empty<P>(), before + Repeated(n - 1)), Supplied(ops), Accepts(ops) + n - 1);
    }
  }
}
