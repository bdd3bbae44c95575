/** What the calls and events of an RDMA context answer, over whole runs. */
module RdmaHistory {
  import opened Histories
  import opened Options
  import opened RdmaCm

  // ---------- events ----------

  /** In every run the next establishment on its port gives a waiting listener that connection, a failure the error. */
  lemma ListenerGets(cs: seq<Cm>, es: seq<Event>, n: nat, r: nat, conn: nat)
    requires Run(cs, es) && n < |cs| && r < |cs[n].waiters| && r < |cs[n].results|
    requires cs[n].waiters[r].Listener? && cs[n].results[r] == []
    ensures var port := cs[n].waiters[r].port;
            && Step(cs[n], Established(conn, Some(port))).results == cs[n].results[r := [Connection(conn)]]
            && Step(cs[n], Failure(conn, Some(port))).results == cs[n].results[r := [Aborted]]
  {
    ListenAnswered(cs, es, n, r, conn, Connection(conn));
    ListenAnswered(cs, es, n, r, conn, Aborted);
  }

  /** A pending connect gets the connection or the error in the same way, exactly if the context does not listen. */
  lemma ConnectorGets(c: Cm, conn: nat, r: nat, port: Option<nat>)
    requires Inv(c) && c.role != NoRole && Pending(c, r) && c.waiters[r] == Connector(conn)
    ensures Step(c, Established(conn, port)).results[r] == (if c.role == Client then [Connection(conn)] else [])
    ensures Step(c, Failure(conn, port)).results[r] == (if c.role == Client then [Aborted] else [])
  {
    ConnectAnswered(c, conn, r, port, Connection(conn));
    ConnectAnswered(c, conn, r, port, Aborted);
  }

  /** A request whose accept fails answers the listener with that error; one whose accept succeeds answers nobody. */
  lemma FailedAccept(c: Cm, r: nat, reply: Option<Outcome>)
    requires Inv(c) && r < |c.results| && c.waiters[r].Listener? && c.results[r] == []
    ensures Step(c, Request(Some(c.waiters[r].port), reply)).results ==
            if reply.Some? then c.results[r := [reply.value]] else c.results
  {
    assert reply.Some? ==> [] + [reply.value] == [reply.value];
  }

  /** One waiter without a result got one, and nothing else changed. */
  ghost predicate OneAnswered(c: Cm, r: Cm) {
    exists i, o :: 0 <= i < |c.results| && c.results[i] == [] && r.results == c.results[i := [o]]
  }

  lemma ResolveAnswers(c: Cm, conn: nat, port: Option<nat>, o: Outcome)
    requires Inv(c)
    ensures var r := Resolve(c, conn, port, o);
            r.waiters == c.waiters && (r.results == c.results || OneAnswered(c, r))
  {
    var dest := Take(c, conn, port).1;
    if dest.Some? {
      assert c.results[dest.value] == [] && [] + [o] == [o];
      assert Resolve(c, conn, port, o).results == c.results[dest.value := [o]];
    }
  }

  /** An event answers at most one waiter, who had no answer yet. */
  lemma AtMostOneAnswered(c: Cm, e: Event)
    requires Inv(c) && (e.Established? || e.Failure? || e.Request?)
    ensures var r := Step(c, e);
            r.waiters == c.waiters && (r.results == c.results || OneAnswered(c, r))
  {
    if e.Request? {
      if e.port.Some? && e.port.value in c.listeners && e.reply.Some? {
        var i := c.listeners[e.port.value];
        assert c.results[i] == [] && [] + [e.reply.value] == [e.reply.value];
        assert Step(c, e).results == c.results[i := [e.reply.value]];
      }
    } else {
      ResolveAnswers(c, e.conn, e.port, if e.Established? then Connection(e.conn) else Aborted);
    }
  }

  // ---------- calls ----------

  /** The context takes a role: a connect that was sent, or a listener that was registered. */
  ghost predicate TakesRole(c: Cm, e: Event) {
    (e.Connect? && c.role == NoRole && e.reply == None) || Listens(c, e)
  }

  ghost predicate Listens(c: Cm, e: Event) {
    e.Listen? && e.reply == None && e.on !in c.listeners
  }

  lemma StepRole(c: Cm, e: Event)
    requires Possible(c, e)
    ensures Step(c, e).role != NoRole <==> c.role != NoRole || TakesRole(c, e)
    ensures Step(c, e).role == Server <==> c.role == Server || Listens(c, e)
  {
  }

  /** In every run the context has a role exactly if it has taken one, and is a server exactly if it has listened. */
  lemma RoleIsHistory(cs: seq<Cm>, es: seq<Event>, n: nat)
    requires Run(cs, es) && n < |cs|
    ensures cs[n].role != NoRole <==> exists i :: 0 <= i < n && TakesRole(cs[i], es[i])
    ensures cs[n].role == Server <==> exists i :: 0 <= i < n && Listens(cs[i], es[i])
  {
    var some := seq(|cs|, i requires 0 <= i < |cs| => cs[i].role != NoRole);
    var takes := seq(|es|, i requires 0 <= i < |es| && i < |cs| => TakesRole(cs[i], es[i]));
    var server := seq(|cs|, i requires 0 <= i < |cs| => cs[i].role == Server);
    var listens := seq(|es|, i requires 0 <= i < |es| && i < |cs| => Listens(cs[i], es[i]));
    forall i | 0 <= i < n
      ensures some[i + 1] == (some[i] || takes[i]) && server[i + 1] == (server[i] || listens[i])
    {
      StepRole(cs[i], es[i]);
    }
    Latch(some, takes, 0, n);
    Latch(server, listens, 0, n);
    assert forall i | 0 <= i < n :: takes[i] == TakesRole(cs[i], es[i]);
    assert forall i | 0 <= i < n :: listens[i] == Listens(cs[i], es[i]);
  }

  /** Somebody waits on this port. */
  ghost predicate Busy(c: Cm, port: nat) {
    exists r :: 0 <= r < |c.results| && r < |c.waiters| && c.waiters[r] == Listener(port) && c.results[r] == []
  }

  lemma BusyPort(c: Cm, port: nat)
    requires Inv(c)
    ensures Busy(c, port) <==> port in c.listeners
  {
    if port in c.listeners {
      var r := c.listeners[port];
      assert c.waiters[r] == Listener(port) && c.results[r] == [];
    }
  }

  /**
   In every run: a connect is refused as BAD_STATE if and only if a role was taken before, a listen as
   ALREADY_EXIST if and only if somebody still waits on that port, else the SDK's error is the answer, and
   without one the caller waits.
   */
  lemma CallsAnswered(cs: seq<Cm>, es: seq<Event>, n: nat)
    requires Run(cs, es) && n < |es| && (es[n].Connect? || es[n].Listen?)
    ensures var refused := if es[n].Connect? then exists i :: 0 <= i < n && TakesRole(cs[i], es[i])
                           else Busy(cs[n], es[n].on);
            var answer := if refused then [if es[n].Connect? then BadState else AlreadyExists]
                          else if es[n].reply.Some? then [es[n].reply.value] else [];
            cs[n + 1].results == cs[n].results + [answer]
  {
    RoleIsHistory(cs, es, n);
    WrittenOnce(cs, es, n);
    if es[n].Listen? {
      BusyPort(cs[n], es[n].on);
    }
  }

  /** Whoever waits after the call waits for that connection, or on that port. */
  lemma CallsWait(cs: seq<Cm>, es: seq<Event>, n: nat)
    requires Run(cs, es) && n < |es| && (es[n].Connect? || es[n].Listen?)
    requires cs[n + 1].results == cs[n].results + [[]]
    ensures cs[n + 1].waiters ==
            cs[n].waiters + [if es[n].Connect? then Connector(es[n].conn) else Listener(es[n].on)]
  {
    var x := cs[n + 1].results[|cs[n].results|];
    assert x == [];
  }
}
