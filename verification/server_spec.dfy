/**
 The stop protocol of a comch server: server -> connections -> consumers and producers.

 `World` holds what the server and its connections remember (`conns`, `open`,
 `stopRequested`) beside what is true of the SDK (`kids`, `server`) and the set of
 requests that have reached the SDK (`calls`). The code only ever looks at the former;
 the theorems are about the latter.
 */
module ServerSpec {
  type ConnId = nat  // a doca_comch_connection handle
  type Child = nat   // a consumer or producer context

  datatype ConnState = Connected | Disconnecting | Disconnected
  datatype CtxState = Running | Stopping | Idle

  /** A server_connection: its `state_` and the keys of its `active_children_` registry. */
  datatype Conn = Conn(state: ConnState, active: set<Child>)

  /** A child context as the SDK sees it: the connection it was created on and its state. */
  datatype Kid = Kid(con: ConnId, state: CtxState)

  /** A request that reached the SDK, with everything below it that was not idle at that moment. */
  datatype Call =
    | DisconnectCall(con: ConnId, liveKids: set<Child>)
    | StopCall(liveConns: set<ConnId>, liveKids: set<Child>)

  /** How the SDK answers doca_ctx_stop on a child; `Immediate` runs the IDLE callback before returning. */
  datatype StopReply = Refused | InProgress | Immediate

  /** All answers of the SDK during one callback. */
  datatype Env = Env(stop: Child -> StopReply, disconnects: ConnId -> bool, stopsRoot: bool)

  datatype World = World(
    conns: map<ConnId, Conn>,  // every connection ever created
    open: set<ConnId>,         // keys of server::open_connections_
    stopRequested: bool,
    kids: map<Child, Kid>,     // every child ever created
    server: CtxState,
    calls: set<Call>)

  const Init := World(map[], {}, false, map[], Running, {})

  ghost function Live(w: World): set<Child> {
    set k | k in w.kids && w.kids[k].state != Idle
  }

  ghost function LiveOn(w: World, c: ConnId): set<Child> {
    set k | k in w.kids && w.kids[k].con == c && w.kids[k].state != Idle
  }

  ghost function LiveConns(w: World): set<ConnId> {
    set c | c in w.conns && w.conns[c].state != Disconnected
  }

  // ---------- the server's and connections' own operations ----------

  ghost function DoStopIfAble(w: World, env: Env): World {
    if w.open != {} then w
    else w.(calls := w.calls + {StopCall(LiveConns(w), Live(w))},
            server := if w.server == Running && env.stopsRoot then Stopping else w.server)
  }

  ghost function ServerSignalDisconnect(w: World, c: ConnId, env: Env): World {
    var w1 := w.(open := w.open - {c});
    if w1.stopRequested then DoStopIfAble(w1, env) else w1
  }

  ghost function SignalDisconnect(w: World, c: ConnId, env: Env): World
    requires c in w.conns
  {
    ServerSignalDisconnect(w.(conns := w.conns[c := w.conns[c].(state := Disconnected)]), c, env)
  }

  ghost function DisconnectIfAble(w: World, c: ConnId, env: Env): World
    requires c in w.conns
  {
    if w.conns[c].active != {} then w
    else
      var w1 := w.(calls := w.calls + {DisconnectCall(c, LiveOn(w, c))});
      if env.disconnects(c) then SignalDisconnect(w1, c, env) else w1
  }

  ghost function SignalStoppedChild(w: World, c: ConnId, k: Child, env: Env): World
    requires c in w.conns
  {
    var w1 := w.(conns := w.conns[c := w.conns[c].(active := w.conns[c].active - {k})]);
    if w1.conns[c].state == Disconnecting then DisconnectIfAble(w1, c, env) else w1
  }

  /** The IDLE callback of a child context: it reports to the connection it was created on. */
  ghost function ChildIdle(w: World, k: Child, env: Env): World
    requires k in w.kids && w.kids[k].con in w.conns
  {
    SignalStoppedChild(w.(kids := w.kids[k := w.kids[k].(state := Idle)]), w.kids[k].con, k, env)
  }

  ghost function AfterRequest(s: CtxState, r: StopReply): CtxState {
    if s != Running then s
    else match r
      case Refused => Running
      case InProgress => Stopping
      case Immediate => Idle
  }

  ghost function StopChild(w: World, k: Child, env: Env): World
    requires k in w.kids && w.kids[k].con in w.conns
  {
    var s := AfterRequest(w.kids[k].state, env.stop(k));
    if s == Idle && w.kids[k].state != Idle then ChildIdle(w, k, env)
    else w.(kids := w.kids[k := w.kids[k].(state := s)])
  }

  // ---------- closed forms of the two loops ----------

  /** Every child in `asked` has been asked to stop. */
  ghost function Asked(kids: map<Child, Kid>, asked: set<Child>, env: Env): map<Child, Kid> {
    map k | k in kids ::
      if k in asked then kids[k].(state := AfterRequest(kids[k].state, env.stop(k))) else kids[k]
  }

  ghost function NotIdle(kids: map<Child, Kid>, s: set<Child>): set<Child> {
    set k | k in s && k in kids && kids[k].state != Idle
  }

  /** Connection `c` is disconnecting, and its children in `asked` have been asked to stop. */
  ghost function Winding(w: World, c: ConnId, asked: set<Child>, env: Env): World
    requires c in w.conns
  {
    var kids := Asked(w.kids, asked, env);
    var gone := asked - NotIdle(kids, asked);
    w.(kids := kids, conns := w.conns[c := Conn(Disconnecting, w.conns[c].active - gone)])
  }

  /** server_connection::disconnect */
  ghost function Disconnect(w: World, c: ConnId, env: Env): World
    requires c in w.conns
  {
    if w.conns[c].state != Connected then w
    else DisconnectIfAble(Winding(w, c, w.conns[c].active, env), c, env)
  }

  /** The loop of server::stop, visiting the connections in the order `cs`. */
  ghost function DisconnectEach(w: World, cs: seq<ConnId>, env: Env): (r: World)
    requires forall c | c in cs :: c in w.conns
    ensures r.conns.Keys == w.conns.Keys
  {
    if cs == [] then w
    else Disconnect(DisconnectEach(w, cs[..|cs| - 1], env), cs[|cs| - 1], env)
  }

  /** server::stop */
  ghost function Stop(w: World, cs: seq<ConnId>, env: Env): World
    requires forall c | c in cs :: c in w.conns
  {
    DoStopIfAble(DisconnectEach(w.(stopRequested := true), cs, env), env)
  }

  // ---------- runs ----------

  datatype Event =
    | Connection(con: ConnId)
    | CreateChild(con: ConnId, kid: Child, starts: bool)
    | RequestStop(kid: Child)            // a fiber stops a child
    | GoIdle(kid: Child)                 // the IDLE event of a child
    | RequestDisconnect(con: ConnId)     // a fiber disconnects a connection
    | RemoteDisconnect(con: ConnId)      // the client went away
    | ServerStop(order: seq<ConnId>)     // a fiber stops the server
    | ServerIdle                         // the IDLE event of the server

  ghost predicate Enumerates(cs: seq<ConnId>, s: set<ConnId>) {
    && |cs| == |s|
    && (forall c :: c in cs <==> c in s)
    && (forall i, j | 0 <= i < j < |cs| :: cs[i] != cs[j])
  }

  /** A loop over a registry: one more element has been visited. */
  lemma EnumerateNext(cs: seq<nat>, all: set<nat>, next: set<nat>, it: nat)
    requires next <= all && it in next && Enumerates(cs, all - next)
    ensures Enumerates(cs + [it], all - (next - {it}))
  {
    assert all - (next - {it}) == (all - next) + {it};
  }

  /**
   What the SDK may do. Assumed of it: handles are not reused, no connection arrives once the server's
   stop was accepted, no child starts on a connection that is gone, a client goes away only when its
   connection has no active child, and the server turns idle only after it was asked to stop.
   */
  ghost predicate Possible(w: World, e: Event) {
    match e
    case Connection(c) => c !in w.conns && w.server == Running
    case CreateChild(c, k, starts) =>
      c in w.conns && k !in w.kids && (starts ==> w.conns[c].state != Disconnected)
    case RequestStop(k) => k in w.kids && w.kids[k].con in w.conns
    case GoIdle(k) => k in w.kids && w.kids[k].con in w.conns && w.kids[k].state != Idle
    case RequestDisconnect(c) => c in w.conns
    case RemoteDisconnect(c) => LiveOn(w, c) == {}
    case ServerStop(cs) => Enumerates(cs, w.open) && w.open <= w.conns.Keys
    case ServerIdle => w.server == Stopping
  }

  ghost function Step(w: World, e: Event, env: Env): World
    requires Possible(w, e)
  {
    match e
    case Connection(c) => w.(conns := w.conns[c := Conn(Connected, {})], open := w.open + {c})
    case CreateChild(c, k, starts) =>
      if !starts then w
      else w.(kids := w.kids[k := Kid(c, Running)],
              conns := w.conns[c := w.conns[c].(active := w.conns[c].active + {k})])
    case RequestStop(k) => StopChild(w, k, env)
    case GoIdle(k) => ChildIdle(w, k, env)
    case RequestDisconnect(c) => Disconnect(w, c, env)
    case RemoteDisconnect(c) => if c in w.open && c in w.conns then SignalDisconnect(w, c, env) else w
    case ServerStop(cs) => Stop(w, cs, env)
    case ServerIdle => w.(server := Idle)
  }

  /** Worlds reachable by runs in which every event is possible and the SDK answers as it likes. */
  ghost predicate Run(ws: seq<World>, es: seq<Event>, envs: seq<Env>) {
    && |ws| == |es| + 1 && |envs| == |es|
    && ws[0] == Init
    && forall i | 0 <= i < |es| :: Possible(ws[i], es[i]) && ws[i + 1] == Step(ws[i], es[i], envs[i])
  }
}
