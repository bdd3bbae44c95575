/** The connection manager of an RDMA context: connect and listen waiters, and the SDK's events. */
module RdmaCm {
  import opened Options

  datatype Role = NoRole | Server | Client

  datatype Outcome =
    | Connection(conn: nat)
    | BadState | AlreadyExists | SdkError(code: nat) | Aborted

  /** Who waits in a receptable. */
  datatype Waiter = Refused | Connector(conn: nat) | Listener(port: nat)

  /** Receptables are numbered in the order of their creation. */
  datatype Cm = Cm(
    role: Role,
    listeners: map<nat, nat>,           // port -> receptable
    userData: map<nat, Option<nat>>,    // the SDK's: connection -> receptable
    waiters: seq<Waiter>,
    results: seq<seq<Outcome>>)         // everything ever written into each receptable

  const Fresh := Cm(NoRole, map[], map[], [], [])

  datatype Event =
    | Connect(conn: nat, reply: Option<Outcome>)          // None: the request was sent
    | Listen(on: nat, reply: Option<Outcome>)
    | Request(port: Option<nat>, reply: Option<Outcome>)  // connection_request; reply of the accept
    | Established(conn: nat, port: Option<nat>)
    | Failure(conn: nat, port: Option<nat>)

  /** A connection handle is new when a request is sent with it. */
  predicate Possible(c: Cm, e: Event) {
    e.Connect? ==> e.conn !in c.userData
  }

  function NewReceptable(c: Cm, who: Waiter, written: seq<Outcome>): Cm {
    c.(waiters := c.waiters + [who], results := c.results + [written])
  }

  function Write(c: Cm, r: nat, o: Outcome): Cm {
    if r < |c.results| then c.(results := c.results[r := c.results[r] + [o]]) else c
  }

  /** take_connection_receptable: the receptable, and the state without it. */
  function Take(c: Cm, conn: nat, port: Option<nat>): (Cm, Option<nat>) {
    match c.role
    case Server =>
      if port.Some? && port.value in c.listeners
      then (c.(listeners := c.listeners - {port.value}), Some(c.listeners[port.value]))
      else (c, None)
    case Client =>
      (c.(userData := c.userData[conn := None]), if conn in c.userData then c.userData[conn] else None)
    case NoRole => (c, None)
  }

  function Resolve(c: Cm, conn: nat, port: Option<nat>, o: Outcome): Cm {
    var (d, dest) := Take(c, conn, port);
    if dest.Some? then Write(d, dest.value, o) else d
  }

  ghost predicate Known(c: Cm) {
    && |c.waiters| == |c.results|
    && (forall p | p in c.listeners :: c.listeners[p] < |c.results|)
    && (forall k | k in c.userData && c.userData[k].Some? :: c.userData[k].value < |c.results|)
  }

  ghost function Step(c: Cm, e: Event): Cm
    requires Possible(c, e)
  {
    match e
    case Connect(conn, reply) =>
      if c.role != NoRole then NewReceptable(c, Refused, [BadState])
      else if reply.Some? then NewReceptable(c, Refused, [reply.value])
      else NewReceptable(c.(role := Client, userData := c.userData[conn := Some(|c.results|)]), Connector(conn), [])
    case Listen(port, reply) =>
      if port in c.listeners then NewReceptable(c, Refused, [AlreadyExists])
      else if reply.Some? then NewReceptable(c, Refused, [reply.value])
      else NewReceptable(c.(role := Server, listeners := c.listeners[port := |c.results|]), Listener(port), [])
    case Request(port, reply) =>
      if port.None? || port.value !in c.listeners || reply.None? then c
      else Write(c.(listeners := c.listeners - {port.value}), c.listeners[port.value], reply.value)
    case Established(conn, port) => Resolve(c, conn, port, Connection(conn))
    case Failure(conn, port) => Resolve(c, conn, port, Aborted)
  }

  // ---------- every run ----------

  /** A listener's receptable is registered under its port exactly as long as it has no result. */
  ghost predicate ListenersExact(c: Cm)
    requires Known(c)
  {
    && (forall p | p in c.listeners :: c.waiters[c.listeners[p]] == Listener(p) && c.results[c.listeners[p]] == [])
    && (forall r | 0 <= r < |c.results| && c.waiters[r].Listener? && c.results[r] == [] ::
          c.waiters[r].port in c.listeners && c.listeners[c.waiters[r].port] == r)
  }

  /** A connector's receptable is attached to its connection exactly as long as it has no result. */
  ghost predicate ConnectorsExact(c: Cm)
    requires Known(c)
  {
    && (forall k | k in c.userData && c.userData[k].Some? ::
          c.waiters[c.userData[k].value] == Connector(k) && c.results[c.userData[k].value] == [])
    && (forall r | 0 <= r < |c.results| && c.waiters[r].Connector? && c.results[r] == [] ::
          c.waiters[r].conn in c.userData && c.userData[c.waiters[r].conn] == Some(r))
  }

  ghost predicate AtMostOneResult(c: Cm)
    requires Known(c)
  {
    forall r | 0 <= r < |c.results| ::
      |c.results[r]| <= 1 && (c.waiters[r].Refused? ==> c.results[r] != [])
  }

  ghost predicate Inv(c: Cm) {
    Known(c) && ListenersExact(c) && ConnectorsExact(c) && AtMostOneResult(c)
  }

  /** The listener on port `p` gets a result and is taken off the list. */
  lemma ListenerAnswered(c: Cm, p: nat, o: Outcome)
    requires Inv(c) && p in c.listeners
    ensures Inv(Write(c.(listeners := c.listeners - {p}), c.listeners[p], o))
  {
    var d := Write(c.(listeners := c.listeners - {p}), c.listeners[p], o);
    assert ListenersExact(d);
    assert ConnectorsExact(d);
  }

  /** The connector on `conn` gets a result and is detached. */
  lemma ConnectorAnswered(c: Cm, conn: nat, o: Outcome)
    requires Inv(c) && conn in c.userData && c.userData[conn].Some?
    ensures Inv(Write(c.(userData := c.userData[conn := None]), c.userData[conn].value, o))
  {
    var d := Write(c.(userData := c.userData[conn := None]), c.userData[conn].value, o);
    assert ListenersExact(d);
    assert ConnectorsExact(d);
  }

  lemma NobodyAnswered(c: Cm, conn: nat)
    requires Inv(c) && (conn in c.userData ==> c.userData[conn] == None)
    ensures Inv(c.(userData := c.userData[conn := None]))
  {
    var d := c.(userData := c.userData[conn := None]);
    assert ConnectorsExact(d);
  }

  lemma ResolveKeeps(c: Cm, conn: nat, port: Option<nat>, o: Outcome)
    requires Inv(c)
    ensures Inv(Resolve(c, conn, port, o))
  {
    match c.role
    case Server => if port.Some? && port.value in c.listeners { ListenerAnswered(c, port.value, o); }
    case Client =>
      if conn in c.userData && c.userData[conn].Some? {
        ConnectorAnswered(c, conn, o);
      } else {
        NobodyAnswered(c, conn);
      }
    case NoRole =>
  }

  lemma RefusedKeeps(c: Cm, o: Outcome)
    requires Inv(c)
    ensures Inv(NewReceptable(c, Refused, [o]))
  {
    var d := NewReceptable(c, Refused, [o]);
    assert ListenersExact(d);
    assert ConnectorsExact(d);
  }

  lemma ConnectKeeps(c: Cm, conn: nat)
    requires Inv(c) && conn !in c.userData
    ensures Inv(NewReceptable(c.(role := Client, userData := c.userData[conn := Some(|c.results|)]),
                              Connector(conn), []))
  {
    var d := NewReceptable(c.(role := Client, userData := c.userData[conn := Some(|c.results|)]), Connector(conn), []);
    assert ListenersExact(d);
    assert ConnectorsExact(d);
  }

  lemma ListenKeeps(c: Cm, port: nat)
    requires Inv(c) && port !in c.listeners
    ensures Inv(NewReceptable(c.(role := Server, listeners := c.listeners[port := |c.results|]), Listener(port), []))
  {
    var d := NewReceptable(c.(role := Server, listeners := c.listeners[port := |c.results|]), Listener(port), []);
    assert ListenersExact(d);
    assert ConnectorsExact(d);
  }

  lemma StepKeeps(c: Cm, e: Event)
    requires Inv(c) && Possible(c, e)
    ensures Inv(Step(c, e))
  {
    match e
    case Connect(conn, reply) =>
      if c.role != NoRole { RefusedKeeps(c, BadState); }
      else if reply.Some? { RefusedKeeps(c, reply.value); }
      else { ConnectKeeps(c, conn); }
    case Listen(port, reply) =>
      if port in c.listeners { RefusedKeeps(c, AlreadyExists); }
      else if reply.Some? { RefusedKeeps(c, reply.value); }
      else { ListenKeeps(c, port); }
    case Request(port, reply) =>
      if port.Some? && port.value in c.listeners && reply.Some? {
        ListenerAnswered(c, port.value, reply.value);
      }
    case Established(conn, port) => ResolveKeeps(c, conn, port, Connection(conn));
    case Failure(conn, port) => ResolveKeeps(c, conn, port, Aborted);
  }

  ghost predicate Run(cs: seq<Cm>, es: seq<Event>) {
    && |cs| == |es| + 1 && cs[0] == Fresh
    && forall i | 0 <= i < |es| :: Possible(cs[i], es[i]) && cs[i + 1] == Step(cs[i], es[i])
  }

  /**
   In every run, whatever requests, establishments and failures are repeated: every connect or listen
   waiter's result is written at most once, and a listener is in `listeners_` exactly as long as it
   has no result.
   */
  lemma {:induction false} WrittenOnce(cs: seq<Cm>, es: seq<Event>, n: nat)
    requires Run(cs, es) && n < |cs|
    ensures Inv(cs[n])
    ensures forall r | 0 <= r < |cs[n].results| :: |cs[n].results[r]| <= 1
    ensures forall r | 0 <= r < |cs[n].results| && cs[n].waiters[r].Listener? ::
              (cs[n].results[r] == [] <==>
                cs[n].waiters[r].port in cs[n].listeners && cs[n].listeners[cs[n].waiters[r].port] == r)
  {
    if n > 0 {
      WrittenOnce(cs, es, n - 1);
      StepKeeps(cs[n - 1], es[n - 1]);
    }
  }

  /** The role never goes back from server to client. */
  lemma {:induction false} ServerForGood(cs: seq<Cm>, es: seq<Event>, m: nat, n: nat)
    requires Run(cs, es) && m <= n < |cs| && cs[m].role == Server
    ensures cs[n].role == Server
  {
    if m < n {
      ServerForGood(cs, es, m, n - 1);
    }
  }

  /**
   A pending connect is answered by the next event of its connection if and only if the context has
   not begun to listen in the meantime.
   */
  lemma ConnectAnswered(c: Cm, conn: nat, r: nat, port: Option<nat>, o: Outcome)
    requires Inv(c) && r < |c.results| && c.waiters[r] == Connector(conn) && c.results[r] == [] && c.role != NoRole
    ensures Resolve(c, conn, port, o).results[r] == (if c.role == Client then [o] else [])
  {
  }

  /** As long as anyone listens, the context is a server. */
  lemma {:induction false} ListenersServe(cs: seq<Cm>, es: seq<Event>, n: nat)
    requires Run(cs, es) && n < |cs|
    ensures cs[n].listeners.Keys != {} ==> cs[n].role == Server
  {
    if n > 0 {
      ListenersServe(cs, es, n - 1);
      assert es[n - 1].Connect? && cs[n - 1].role == NoRole ==> cs[n - 1].listeners.Keys == {};
    }
  }

  /** In every run the next event on its port answers a waiting listener, and it alone. */
  lemma ListenAnswered(cs: seq<Cm>, es: seq<Event>, n: nat, r: nat, conn: nat, o: Outcome)
    requires Run(cs, es) && n < |cs| && r < |cs[n].waiters| && r < |cs[n].results|
    requires cs[n].waiters[r].Listener? && cs[n].results[r] == []
    ensures var port := cs[n].waiters[r].port;
            && Resolve(cs[n], conn, Some(port), o).results == cs[n].results[r := [o]]
            && Resolve(cs[n], conn, Some(port), o).listeners == cs[n].listeners - {port}
  {
    WrittenOnce(cs, es, n);
    ListenersServe(cs, es, n);
    assert cs[n].waiters[r].port in cs[n].listeners.Keys;
    assert [] + [o] == [o];
  }

  /** A connect without a result. */
  predicate Pending(c: Cm, r: nat) {
    r < |c.waiters| && r < |c.results| && c.waiters[r].Connector? && c.results[r] == []
  }

  /** Such a run exists for every connection and port: connect, then listen before the answer. */
  lemma ConnectThenListen(conn: nat, port: nat)
    ensures
      var cs := [Fresh, Step(Fresh, Connect(conn, None)), Step(Step(Fresh, Connect(conn, None)), Listen(port, None))];
      Run(cs, [Connect(conn, None), Listen(port, None)]) && cs[2].role == Server && Pending(cs[2], 0)
  {
  }

  lemma StaysPending(c: Cm, e: Event, r: nat)
    requires Inv(c) && Possible(c, e) && c.role == Server && Pending(c, r)
    ensures Pending(Step(c, e), r)
  {
  }

  /** A connect that is pending when the context begins to listen is never answered. */
  lemma {:induction false} ListeningStrandsConnect(cs: seq<Cm>, es: seq<Event>, m: nat, n: nat, r: nat)
    requires Run(cs, es) && m <= n < |cs| && cs[m].role == Server && Pending(cs[m], r)
    ensures Pending(cs[n], r)
  {
    if m < n {
      ListeningStrandsConnect(cs, es, m, n - 1, r);
      ServerForGood(cs, es, m, n - 1);
      WrittenOnce(cs, es, n - 1);
      StaysPending(cs[n - 1], es[n - 1], r);
    }
  }

  // ---------- the object ----------

  class RdmaContext {
    var cmRole: Role
    var listeners: map<nat, nat>
    ghost var userData: map<nat, Option<nat>>
    ghost var waiters: seq<Waiter>
    ghost var results: seq<seq<Outcome>>
    var count: nat  // receptables made so far

    ghost function View(): Cm
      reads this
    {
      Cm(cmRole, listeners, userData, waiters, results)
    }

    ghost predicate Valid()
      reads this
    {
      Inv(View()) && count == |results|
    }

    constructor ()
      ensures Valid() && View() == Fresh
    {
      cmRole, listeners, count := NoRole, map[], 0;
      userData, waiters, results := map[], [], [];
    }

    method Create(ghost who: Waiter, ghost written: seq<Outcome>) returns (r: nat)
      requires count == |results|
      modifies `count, `waiters, `results
      ensures View() == NewReceptable(old(View()), who, written) && r == old(count) && count == |results|
    {
      r := count;
      count := count + 1;
      waiters, results := waiters + [who], results + [written];
    }

    method ConnectTo(ghost conn: nat, reply: Option<Outcome>) returns (r: nat)
      requires Valid() && Possible(View(), Connect(conn, reply))
      modifies this
      ensures Valid() && View() == Step(old(View()), Connect(conn, reply)) && r == old(count)
    {
      StepKeeps(View(), Connect(conn, reply));
      if cmRole != NoRole {
        r := Create(Refused, [BadState]);
      } else if reply.Some? {
        r := Create(Refused, [reply.value]);
      } else {
        r := Create(Connector(conn), []);
        userData := userData[conn := Some(r)];
        cmRole := Client;
      }
    }

    method ListenOn(port: nat, reply: Option<Outcome>) returns (r: nat)
      requires Valid()
      modifies this
      ensures Valid() && View() == Step(old(View()), Listen(port, reply)) && r == old(count)
    {
      StepKeeps(View(), Listen(port, reply));
      if port in listeners {
        r := Create(Refused, [AlreadyExists]);
      } else if reply.Some? {
        r := Create(Refused, [reply.value]);
      } else {
        r := Create(Listener(port), []);
        listeners := listeners[port := r];
        cmRole := Server;
      }
    }

    method ConnectionRequest(port: Option<nat>, reply: Option<Outcome>)
      requires Valid()
      modifies this
      ensures Valid() && View() == Step(old(View()), Request(port, reply))
    {
      StepKeeps(View(), Request(port, reply));
      if port.Some? && port.value in listeners && reply.Some? {
        ghost var dest := listeners[port.value];
        results := results[dest := results[dest] + [reply.value]];
        listeners := listeners - {port.value};
      }
    }

    method TakeReceptable(ghost conn: nat, port: Option<nat>) returns (ghost dest: Option<nat>)
      requires Valid()
      modifies this
      ensures (View(), dest) == Take(old(View()), conn, port) && results == old(results) && count == old(count)
      ensures dest.Some? ==> dest.value < |results|
    {
      dest := None;
      match cmRole {
        case Server =>
          if port.Some? && port.value in listeners {
            dest := Some(listeners[port.value]);
            listeners := listeners - {port.value};
          }
        case Client =>
          dest := if conn in userData then userData[conn] else None;
          userData := userData[conn := None];
        case NoRole =>
      }
    }

    method ConnectionEstablished(ghost conn: nat, port: Option<nat>)
      requires Valid()
      modifies this
      ensures Valid() && View() == Step(old(View()), Established(conn, port))
    {
      StepKeeps(View(), Established(conn, port));
      ghost var dest := TakeReceptable(conn, port);
      if dest.Some? {
        results := results[dest.value := results[dest.value] + [Connection(conn)]];
      }
    }

    method ConnectionFailure(ghost conn: nat, port: Option<nat>)
      requires Valid()
      modifies this
      ensures Valid() && View() == Step(old(View()), Failure(conn, port))
    {
      StepKeeps(View(), Failure(conn, port));
      ghost var dest := TakeReceptable(conn, port);
      if dest.Some? {
        results := results[dest.value := results[dest.value] + [Aborted]];
      }
    }
  }
}
