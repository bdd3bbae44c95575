/** The stop protocol of a comch client, which is itself the only connection its children hang on. */
module ClientStop {
  import opened ServerSpec

  /** Like `World` one level down; `calls` holds, for each doca_ctx_stop of the client, who was live. */
  datatype Client = Client(
    state: ConnState,
    active: set<Child>,
    kids: map<Child, CtxState>,
    ctx: CtxState,
    ownStop: bool,               // the SDK has accepted a doca_ctx_stop of the client
    calls: seq<set<Child>>)

  const Unstarted := Client(Disconnected, {}, map[], Idle, false, [])

  ghost function LiveKids(c: Client): set<Child> {
    set k | k in c.kids && c.kids[k] != Idle
  }

  /** client::disconnect_if_able; an accepted stop turns the context to STOPPING. */
  ghost function StopIfAble(c: Client, env: Env): Client {
    if c.active != {} then c
    else
      var d := c.(calls := c.calls + [LiveKids(c)]);
      if d.ctx == Running && env.stopsRoot then d.(ctx := Stopping, ownStop := true, state := Disconnecting) else d
  }

  ghost function KidIdle(c: Client, k: Child, env: Env): Client {
    var d := c.(kids := c.kids[k := Idle], active := c.active - {k});
    if d.state == Disconnecting then StopIfAble(d, env) else d
  }

  ghost function Ask(c: Client, k: Child, env: Env): Client
    requires k in c.kids
  {
    var s := AfterRequest(c.kids[k], env.stop(k));
    if s == Idle && c.kids[k] != Idle then KidIdle(c, k, env) else c.(kids := c.kids[k := s])
  }

  ghost function AskEach(c: Client, ks: seq<Child>, env: Env): (r: Client)
    requires forall k | k in ks :: k in c.kids
    ensures r.kids.Keys == c.kids.Keys
  {
    if ks == [] then c
    else
      var m := AskEach(c, ks[..|ks| - 1], env);
      Ask(m, ks[|ks| - 1], env)
  }

  /** client::stop, asking the children in the order `ks`. */
  ghost function StopClient(c: Client, ks: seq<Child>, env: Env): Client
    requires forall k | k in ks :: k in c.kids
  {
    if c.state != Connected then c
    else StopIfAble(AskEach(c.(state := Disconnecting), ks, env), env)
  }

  datatype ClientEvent =
    | Started                       // DOCA_CTX_STATE_RUNNING
    | SdkStopping                   // DOCA_CTX_STATE_STOPPING that nobody requested
    | SdkIdle                       // DOCA_CTX_STATE_IDLE
    | NewChild(kid: Child, starts: bool)
    | RequestChildStop(kid: Child)
    | ChildIdles(kid: Child)
    | RequestClientStop(order: seq<Child>)

  /**
   Assumed of the SDK: a child only starts on a running client, and a client that stops although
   nobody asked it to does not turn idle under a live child.
   */
  ghost predicate ClientCan(c: Client, e: ClientEvent) {
    match e
    case Started => c.ctx == Idle
    case SdkStopping => c.ctx == Running
    case SdkIdle => c.ctx == Stopping && (!c.ownStop ==> LiveKids(c) == {})
    case NewChild(k, starts) => k !in c.kids && (starts ==> c.ctx == Running)
    case RequestChildStop(k) => k in c.kids
    case ChildIdles(k) => k in c.kids && c.kids[k] != Idle
    case RequestClientStop(ks) => Enumerates(ks, c.active) && c.active <= c.kids.Keys
  }

  ghost function ClientStep(c: Client, e: ClientEvent, env: Env): Client
    requires ClientCan(c, e)
  {
    match e
    case Started => c.(ctx := Running, state := Connected, ownStop := false)
    case SdkStopping => c.(ctx := Stopping, state := Disconnecting)
    case SdkIdle => c.(ctx := Idle, state := Disconnected)
    case NewChild(k, starts) => if starts then c.(kids := c.kids[k := Running], active := c.active + {k}) else c
    case RequestChildStop(k) => Ask(c, k, env)
    case ChildIdles(k) => KidIdle(c, k, env)
    case RequestClientStop(ks) => StopClient(c, ks, env)
  }

  /** Part-way through stop_all: `order` has been asked, `next` not yet. */
  ghost predicate Asking(c: Client, order: seq<Child>, next: set<Child>, v: Client, env: Env) {
    && next <= c.active <= c.kids.Keys
    && Enumerates(order, c.active - next)
    && v == AskEach(c, order, env)
  }

  lemma AskingNext(c: Client, order: seq<Child>, next: set<Child>, v: Client, env: Env, it: Child)
    requires Asking(c, order, next, v, env) && it in next
    ensures it in v.kids && Asking(c, order + [it], next - {it}, Ask(v, it, env), env)
  {
    EnumerateNext(order, c.active, next, it);
    assert (order + [it])[..|order|] == order;
  }

  // ---------- safety ----------

  ghost predicate ClientInv(c: Client) {
    && c.active == LiveKids(c)
    && (forall i | 0 <= i < |c.calls| :: c.calls[i] == {})
    && (c.ctx == Idle ==> LiveKids(c) == {})
    && (c.ctx == Stopping && c.ownStop ==> LiveKids(c) == {})
  }

  lemma StopIfAbleKeeps(c: Client, env: Env)
    requires ClientInv(c)
    ensures ClientInv(StopIfAble(c, env)) && LiveKids(StopIfAble(c, env)) == LiveKids(c)
  {
    assert LiveKids(StopIfAble(c, env)) == LiveKids(c);
  }

  lemma KidIdleKeeps(c: Client, k: Child, env: Env)
    requires ClientInv(c) && k in c.kids
    ensures ClientInv(KidIdle(c, k, env)) && LiveKids(KidIdle(c, k, env)) == LiveKids(c) - {k}
  {
    var d := c.(kids := c.kids[k := Idle], active := c.active - {k});
    assert LiveKids(d) == LiveKids(c) - {k};
    StopIfAbleKeeps(d, env);
  }

  lemma AskKeeps(c: Client, k: Child, env: Env)
    requires ClientInv(c) && k in c.kids
    ensures ClientInv(Ask(c, k, env))
  {
    KidIdleKeeps(c, k, env);
    var r := Ask(c, k, env);
    if r.kids[k] != Idle || c.kids[k] == Idle {
      assert LiveKids(r) == LiveKids(c);
    }
  }

  lemma {:induction false} AskEachKeeps(c: Client, ks: seq<Child>, env: Env)
    requires ClientInv(c) && forall k | k in ks :: k in c.kids
    ensures ClientInv(AskEach(c, ks, env))
  {
    if ks != [] {
      AskEachKeeps(c, ks[..|ks| - 1], env);
      AskKeeps(AskEach(c, ks[..|ks| - 1], env), ks[|ks| - 1], env);
    }
  }

  lemma StopClientKeeps(c: Client, ks: seq<Child>, env: Env)
    requires ClientInv(c) && forall k | k in ks :: k in c.kids
    ensures ClientInv(StopClient(c, ks, env))
  {
    if c.state == Connected {
      var d := c.(state := Disconnecting);
      assert LiveKids(d) == LiveKids(c);
      AskEachKeeps(d, ks, env);
      StopIfAbleKeeps(AskEach(d, ks, env), env);
    }
  }

  lemma NewChildKeeps(c: Client, k: Child)
    requires ClientInv(c) && k !in c.kids && c.ctx == Running
    ensures ClientInv(c.(kids := c.kids[k := Running], active := c.active + {k}))
  {
    assert LiveKids(c.(kids := c.kids[k := Running], active := c.active + {k})) == LiveKids(c) + {k};
  }

  lemma StateKeeps(c: Client, e: ClientEvent, env: Env)
    requires ClientInv(c) && ClientCan(c, e) && (e.Started? || e.SdkStopping? || e.SdkIdle?)
    requires e.SdkStopping? ==> !c.ownStop || c.active == {}
    ensures ClientInv(ClientStep(c, e, env))
  {
    assert LiveKids(ClientStep(c, e, env)) == LiveKids(c);
  }

  /** The SDK accepts a stop of the client at most once between two starts. */
  ghost predicate OwnStopCounts(c: Client) {
    c.ctx == Running ==> !c.ownStop
  }

  lemma {:induction false} AskEachCounts(c: Client, ks: seq<Child>, env: Env)
    requires OwnStopCounts(c) && forall k | k in ks :: k in c.kids
    ensures OwnStopCounts(AskEach(c, ks, env))
  {
    if ks != [] {
      AskEachCounts(c, ks[..|ks| - 1], env);
    }
  }

  lemma ClientStepKeeps(c: Client, e: ClientEvent, env: Env)
    requires ClientInv(c) && OwnStopCounts(c) && ClientCan(c, e)
    ensures ClientInv(ClientStep(c, e, env)) && OwnStopCounts(ClientStep(c, e, env))
  {
    match e
    case RequestChildStop(k) => AskKeeps(c, k, env);
    case ChildIdles(k) => KidIdleKeeps(c, k, env);
    case RequestClientStop(ks) =>
      StopClientKeeps(c, ks, env);
      AskEachCounts(c.(state := Disconnecting), ks, env);
    case NewChild(k, starts) => if starts { NewChildKeeps(c, k); }
    case _ => StateKeeps(c, e, env);
  }

  ghost predicate ClientRun(cs: seq<Client>, es: seq<ClientEvent>, envs: seq<Env>) {
    && |cs| == |es| + 1 && |envs| == |es|
    && forall i | 0 <= i < |es| :: ClientCan(cs[i], es[i]) && cs[i + 1] == ClientStep(cs[i], es[i], envs[i])
  }

  /**
   In every run, doca_ctx_stop of the client only ever reached the SDK when every child ever created was
   idle; once the SDK has accepted it, and in an idle client, no child is live.
   */
  lemma {:induction false} ClientSafety(cs: seq<Client>, es: seq<ClientEvent>, envs: seq<Env>, n: nat)
    requires ClientRun(cs, es, envs) && cs[0] == Unstarted && n < |cs|
    ensures ClientInv(cs[n]) && OwnStopCounts(cs[n])
    ensures forall i | 0 <= i < |cs[n].calls| :: cs[n].calls[i] == {}
    ensures cs[n].ctx == Idle || cs[n].ownStop ==> LiveKids(cs[n]) == {}
  {
    if n > 0 {
      ClientSafety(cs, es, envs, n - 1);
      ClientStepKeeps(cs[n - 1], es[n - 1], envs[n - 1]);
    } else {
      assert LiveKids(cs[0]) == {};
    }
  }

  // ---------- progress ----------

  /** The SDK accepts every request. */
  ghost predicate Accepting(env: Env) {
    (forall k :: env.stop(k) != Refused) && env.stopsRoot
  }

  /** The client waits for children that have all been asked, or has none and is stopping or idle. */
  ghost predicate ClientDraining(c: Client) {
    && c.state != Connected
    && (forall k | k in c.active :: k in c.kids && c.kids[k] == Stopping)
    && (c.active != {} ==> c.state == Disconnecting)
    && (c.active == {} ==> c.ctx != Running)
  }

  lemma {:induction false} AskEachAsks(c: Client, ks: seq<Child>, env: Env)
    requires ClientInv(c) && c.state == Disconnecting && Accepting(env)
    requires forall k | k in ks :: k in c.kids
    ensures var r := AskEach(c, ks, env);
            r.state == Disconnecting && forall k | k in ks && k in r.active :: k in r.kids && r.kids[k] == Stopping
  {
    if ks != [] {
      var front, last := ks[..|ks| - 1], ks[|ks| - 1];
      AskEachAsks(c, front, env);
      AskEachKeeps(c, front, env);
      AskOneMore(AskEach(c, front, env), last, env);
      assert ks == front + [last];
    }
  }

  lemma AskOneMore(m: Client, k: Child, env: Env)
    requires ClientInv(m) && m.state == Disconnecting && Accepting(env) && k in m.kids
    ensures var r := Ask(m, k, env);
            && r.state == Disconnecting && r.active <= m.active
            && (k in r.active ==> r.kids[k] == Stopping)
            && (forall j | j in m.kids && j != k :: j in r.kids && r.kids[j] == m.kids[j])
  {
  }

  /** Unless the last child has left, asking children issues no stop; and a registry only ever shrinks. */
  lemma {:induction false} AskEachOnlyRemoves(c: Client, ks: seq<Child>, env: Env)
    requires forall k | k in ks :: k in c.kids
    ensures var r := AskEach(c, ks, env);
            r.active <= c.active && |r.calls| >= |c.calls| && (r.active != {} ==> r.calls == c.calls)
  {
    if ks != [] {
      AskEachOnlyRemoves(c, ks[..|ks| - 1], env);
    }
  }

  /**
   With an SDK that accepts every request, a client drains after stop() if and only if it was
   connected or was draining already: in any other state stop() asks nobody.
   */
  lemma ClientStopDrains(c: Client, ks: seq<Child>, env: Env)
    requires ClientInv(c) && Enumerates(ks, c.active) && c.active <= c.kids.Keys && Accepting(env)
    ensures ClientDraining(StopClient(c, ks, env)) <==> c.state == Connected || ClientDraining(c)
  {
    if c.state == Connected {
      var d := c.(state := Disconnecting);
      assert LiveKids(d) == LiveKids(c);
      AskEachAsks(d, ks, env);
      AskEachKeeps(d, ks, env);
      AskEachOnlyRemoves(d, ks, env);
    }
  }

  /** Everything but arrivals. */
  ghost predicate ClientQuiet(e: ClientEvent) {
    !e.Started? && (e.NewChild? ==> !e.starts)
  }

  /**
   In a draining client only the IDLE event of a child changes who is live, and only the last one
   makes the stop reach the SDK.
   */
  lemma ClientQuietStep(c: Client, e: ClientEvent, env: Env)
    requires ClientInv(c) && OwnStopCounts(c) && ClientDraining(c)
    requires ClientCan(c, e) && ClientQuiet(e) && Accepting(env)
    ensures var r := ClientStep(c, e, env);
            && ClientInv(r) && OwnStopCounts(r) && ClientDraining(r)
            && LiveKids(r) == (if e.ChildIdles? then LiveKids(c) - {e.kid} else LiveKids(c))
            && r.calls == (if e.ChildIdles? && LiveKids(c) == {e.kid} then c.calls + [{}] else c.calls)
  {
    ClientStepKeeps(c, e, env);
    if e.ChildIdles? {
      LastIdleStops(c, e.kid, env);
    } else if e.RequestChildStop? {
      assert c.kids[e.kid] == Stopping || c.kids[e.kid] == Idle;
      assert c.kids[e.kid := c.kids[e.kid]] == c.kids;
    } else {
      assert LiveKids(ClientStep(c, e, env)) == LiveKids(c);
    }
  }

  lemma LastIdleStops(c: Client, k: Child, env: Env)
    requires ClientInv(c) && ClientDraining(c) && k in LiveKids(c) && Accepting(env)
    ensures var r := KidIdle(c, k, env);
            && ClientDraining(r) && LiveKids(r) == LiveKids(c) - {k}
            && r.calls == (if LiveKids(c) == {k} then c.calls + [{}] else c.calls)
  {
    KidIdleKeeps(c, k, env);
    var d := c.(kids := c.kids[k := Idle], active := c.active - {k});
    assert LiveKids(d) == LiveKids(c) - {k};
    assert d.active == {} <==> LiveKids(c) == {k};
  }

  /** How many children turned idle. */
  ghost function Idles(es: seq<ClientEvent>): nat {
    if es == [] then 0 else Idles(es[..|es| - 1]) + if es[|es| - 1].ChildIdles? then 1 else 0
  }

  ghost predicate QuietRun(cs: seq<Client>, es: seq<ClientEvent>, envs: seq<Env>) {
    && ClientRun(cs, es, envs)
    && (forall i | 0 <= i < |es| :: ClientQuiet(es[i]) && Accepting(envs[i]))
  }

  lemma {:induction false} ClientDrains(cs: seq<Client>, es: seq<ClientEvent>, envs: seq<Env>)
    requires QuietRun(cs, es, envs) && ClientInv(cs[0]) && OwnStopCounts(cs[0]) && ClientDraining(cs[0])
    ensures var r := cs[|es|];
            && ClientInv(r) && OwnStopCounts(r) && ClientDraining(r)
            && Idles(es) == |LiveKids(cs[0])| - |LiveKids(r)|
            && |r.calls| == |cs[0].calls| + (if LiveKids(cs[0]) != {} && LiveKids(r) == {} then 1 else 0)
  {
    if es != [] {
      var n := |es| - 1;
      ClientDrains(cs[..|es|], es[..n], envs[..n]);
      ClientQuietStep(cs[n], es[n], envs[n]);
      if es[n].ChildIdles? {
        assert es[n].kid in LiveKids(cs[n]);
        assert |LiveKids(cs[n])| == |LiveKids(cs[n]) - {es[n].kid}| + 1;
      }
    }
  }

  /**
   Stop progress. After client::stop from CONNECTED, over every run without arrivals: a stop has reached
   the SDK exactly when as many children turned idle as were live, never more do, the SDK has then
   accepted it, and before that some child that was asked has yet to turn idle.
   */
  lemma ClientProgress(c: Client, ks: seq<Child>, env: Env, cs: seq<Client>, es: seq<ClientEvent>, envs: seq<Env>)
    requires ClientInv(c) && OwnStopCounts(c) && c.state == Connected && Enumerates(ks, c.active)
    requires Accepting(env) && c.active <= c.kids.Keys && QuietRun(cs, es, envs) && cs[0] == StopClient(c, ks, env)
    ensures var r := cs[|es|];
            && Idles(es) <= |LiveKids(cs[0])|
            && (|r.calls| > |c.calls| <==> Idles(es) == |LiveKids(cs[0])|)
            && (Idles(es) == |LiveKids(cs[0])| ==> r.ctx != Running && LiveKids(r) == {})
            && (Idles(es) < |LiveKids(cs[0])| ==> exists k :: k in LiveKids(r) && r.kids[k] == Stopping)
  {
    var d := c.(state := Disconnecting);
    assert LiveKids(d) == LiveKids(c);
    StopClientKeeps(c, ks, env);
    AskEachCounts(d, ks, env);
    ClientStopDrains(c, ks, env);
    AskEachKeeps(d, ks, env);
    AskEachOnlyRemoves(d, ks, env);
    StopIfAbleKeeps(AskEach(d, ks, env), env);
    ClientDrains(cs, es, envs);
    var r := cs[|es|];
    if LiveKids(r) != {} {
      var k :| k in LiveKids(r);
      assert r.kids[k] == Stopping && |LiveKids(r)| > 0;
    }
  }

  // ---------- the object ----------

  /** The event that a state change of the client's context is. */
  function Change(next: CtxState): ClientEvent {
    match next
    case Running => Started
    case Stopping => SdkStopping
    case Idle => SdkIdle
  }

  class ClientContext {
    var state: ConnState
    var active: set<Child>             // keys of active_children_
    var kids: map<Child, CtxState>     // the SDK's side
    var ctx: CtxState
    ghost var ownStop: bool
    ghost var calls: seq<set<Child>>

    ghost function View(): Client
      reads this
    {
      Client(state, active, kids, ctx, ownStop, calls)
    }

    constructor ()
      ensures View() == Unstarted
    {
      state, active, kids, ctx, ownStop, calls := Disconnected, {}, map[], Idle, false, [];
    }

    method DisconnectIfAble(env: Env)
      modifies this
      ensures View() == StopIfAble(old(View()), env)
    {
      if active == {} {
        calls := calls + [LiveKids(View())];
        if ctx == Running && env.stopsRoot {
          StateChanged(Stopping, env);
          ownStop := true;
        }
      }
    }

    method SignalStoppedChild(k: Child, env: Env)
      modifies this
      ensures View() == KidIdle(old(View()), k, env)
    {
      kids := kids[k := Idle];
      active := active - {k};
      if state == Disconnecting {
        DisconnectIfAble(env);
      }
    }

    /** context_base::stop on a child, which may turn idle before the call returns. */
    method StopChild(k: Child, env: Env)
      requires k in kids
      modifies this
      ensures View() == Ask(old(View()), k, env)
    {
      if kids[k] == Running && env.stop(k) == Immediate {
        SignalStoppedChild(k, env);
      } else if kids[k] == Running && env.stop(k) == InProgress {
        kids := kids[k := Stopping];
      } else {
        assert kids == kids[k := kids[k]];
      }
    }

    /** stop_all: asks every registered child once, though each may remove itself. */
    method StopAll(env: Env) returns (ghost order: seq<Child>)
      requires active <= kids.Keys
      modifies this
      ensures Enumerates(order, old(active))
      ensures View() == AskEach(old(View()), order, env)
    {
      ghost var c := View();
      var next := active;
      order := [];
      assert c.active - c.active == {};
      while next != {}
        invariant Asking(c, order, next, View(), env)
      {
        var it :| it in next;
        AskingNext(c, order, next, View(), env, it);
        StopChild(it, env);
        next := next - {it};
        order := order + [it];
      }
      assert c.active - {} == c.active;
    }

    method Stop(env: Env) returns (ghost order: seq<Child>)
      requires active <= kids.Keys
      modifies this
      ensures old(state) == Connected ==> Enumerates(order, old(active))
      ensures old(state) == Connected ==> View() == StopClient(old(View()), order, env)
      ensures old(state) != Connected ==> View() == old(View())
    {
      order := [];
      if state == Connected {
        state := Disconnecting;
        order := StopAll(env);
        DisconnectIfAble(env);
      }
    }

    /** A state change that the SDK can make is that event of the run, and keeps the invariant. */
    method StateChanged(next: CtxState, ghost env: Env)
      requires ClientCan(View(), Change(next))
      modifies this
      ensures View() == ClientStep(old(View()), Change(next), env)
      ensures old(ClientInv(View()) && OwnStopCounts(View())) ==> ClientInv(View()) && OwnStopCounts(View())
    {
      ghost var c := View();
      match next {
        case Running => state := Connected;
        case Stopping => state := Disconnecting;
        case Idle => state := Disconnected;
      }
      ctx := next;
      ownStop := ownStop && next != Running;
      if ClientInv(c) && OwnStopCounts(c) {
        ClientStepKeeps(c, Change(next), env);
      }
    }
  }
}
