/**
 comch::server and comch::server_connection as objects: methods update fields in place, call each
 other the way the source does, and are proved against the specification of the protocol.
 */
module ServerModel {
  import opened ServerSpec
  import opened ServerSafety

  /** The SDK's side: states of child contexts and of the server, and the requests it received. */
  class Sdk {
    var kids: map<Child, Kid>
    var server: CtxState
    ghost var calls: set<Call>

    constructor ()
      ensures kids == map[] && server == Running && calls == {}
    {
      kids, server, calls := map[], Running, {};
    }
  }

  class ServerConnection {
    const handle: ConnId
    const ctx: Server
    var state: ConnState
    var active: set<Child>  // keys of active_children_

    constructor (handle: ConnId, ctx: Server)
      ensures this.handle == handle && this.ctx == ctx && state == Connected && active == {}
    {
      this.handle, this.ctx, state, active := handle, ctx, Connected, {};
    }

    ghost predicate Known()
      reads ctx, ctx.all.Values
    {
      ctx.Valid() && handle in ctx.all && ctx.all[handle] == this
    }

    /** Copies this connection's fields into the server's view of all connections. */
    ghost method Publish()
      requires handle in ctx.all && ctx.all[handle] == this
      requires ctx.ValidExcept(this)
      modifies ctx`conns
      ensures ctx.Valid() && ctx.conns == old(ctx.conns)[handle := Conn(state, active)]
    {
      ctx.conns := ctx.conns[handle := Conn(state, active)];
    }

    method SignalDisconnect(env: Env)
      requires Known()
      modifies this, ctx, ctx.sdk
      ensures Known() && ctx.all == old(ctx.all)
      ensures ctx.View() == ServerSpec.SignalDisconnect(old(ctx.View()), handle, env)
    {
      state := Disconnected;
      Publish();
      ctx.SignalDisconnect(handle, env);
    }

    method DisconnectIfAble(env: Env)
      requires Known()
      modifies this, ctx, ctx.sdk
      ensures Known() && ctx.all == old(ctx.all)
      ensures ctx.View() == ServerSpec.DisconnectIfAble(old(ctx.View()), handle, env)
    {
      if active != {} {
        return;
      }
      ctx.sdk.calls := ctx.sdk.calls + {DisconnectCall(handle, LiveOn(ctx.View(), handle))};
      if env.disconnects(handle) {
        SignalDisconnect(env);
      }
    }

    method SignalStoppedChild(k: Child, env: Env)
      requires Known()
      modifies this, ctx, ctx.sdk
      ensures Known() && ctx.all == old(ctx.all)
      ensures ctx.View() == ServerSpec.SignalStoppedChild(old(ctx.View()), handle, k, env)
    {
      active := active - {k};
      Publish();
      if state == Disconnecting {
        DisconnectIfAble(env);
      }
    }

    /** The IDLE callback of child `k`, which then signals the connection it was created on. */
    method ChildStateIdle(k: Child, env: Env)
      requires Known() && k in ctx.sdk.kids && ctx.sdk.kids[k].con == handle
      modifies this, ctx, ctx.sdk
      ensures Known() && ctx.all == old(ctx.all)
      ensures ctx.View() == ChildIdle(old(ctx.View()), k, env)
    {
      ctx.sdk.kids := ctx.sdk.kids[k := ctx.sdk.kids[k].(state := Idle)];
      SignalStoppedChild(k, env);
    }

    /** context_base::stop on child `k`; the SDK may run the IDLE callback before it returns. */
    method StopChild(k: Child, env: Env)
      requires Known() && k in ctx.sdk.kids && ctx.sdk.kids[k].con == handle
      modifies this, ctx, ctx.sdk
      ensures Known() && ctx.all == old(ctx.all)
      ensures ctx.View() == ServerSpec.StopChild(old(ctx.View()), k, env)
    {
      if ctx.sdk.kids[k].state == Running {
        match env.stop(k) {
          case Refused =>
          case InProgress => ctx.sdk.kids := ctx.sdk.kids[k := ctx.sdk.kids[k].(state := Stopping)];
          case Immediate => ChildStateIdle(k, env);
        }
      }
    }

    /** dependent_contexts::create_context; nothing is registered when the child does not start. */
    method CreateChild(k: Child, starts: bool)
      requires Known() && Possible(ctx.View(), ServerSpec.CreateChild(handle, k, starts))
      modifies this, ctx, ctx.sdk
      ensures Known() && ctx.all == old(ctx.all)
      ensures ctx.View() == Step(old(ctx.View()), ServerSpec.CreateChild(handle, k, starts),
                                 Env(k => Refused, d => false, false))
    {
      if starts {
        ctx.sdk.kids := ctx.sdk.kids[k := Kid(handle, Running)];
        active := active + {k};
        Publish();
      }
    }

    /**
     Disconnects as specified, although `StopAll` may already have disconnected the connection by
     the time it returns, and the connection is then disconnected a second time.
     */
    method Disconnect(env: Env)
      requires Known() && Inv(ctx.View())
      modifies this, ctx, ctx.sdk
      ensures Known() && ctx.all == old(ctx.all)
      ensures ctx.View() == ServerSpec.Disconnect(old(ctx.View()), handle, env)
    {
      if state == Connected {
        ghost var w := ctx.View();
        state := Disconnecting;
        Publish();
        StopAll(w, env);
        DisconnectIfAble(env);
        DisconnectTwice(Winding(w, handle, w.conns[handle].active, env), handle, env);
      }
    }

    /** dependent_contexts::stop_all: asks every registered child, though each may remove itself. */
    method StopAll(ghost w: World, env: Env)
      requires Known() && handle in w.conns && w.conns[handle].state == Connected && Inv(w)
      requires ctx.View() == w.(conns := w.conns[handle := w.conns[handle].(state := Disconnecting)])
      modifies this, ctx, ctx.sdk
      ensures Known() && ctx.all == old(ctx.all)
      ensures var p := Winding(w, handle, w.conns[handle].active, env);
              ctx.View() == if w.conns[handle].active == {} then p else ServerSpec.DisconnectIfAble(p, handle, env)
    {
      var next := active;
      ghost var asked: set<Child> := {};
      WindingStart(w, handle, env);
      while next != {}
        invariant Known() && ctx.all == old(ctx.all)
        invariant Asking(w, handle, asked, next, ctx.View(), env)
      {
        var it :| it in next;
        AskingNext(w, handle, asked, next, ctx.View(), env, it);
        next := next - {it};
        asked := asked + {it};
        StopChild(it, env);
      }
      assert asked + {} == asked;
    }
  }

  class Server {
    const sdk: Sdk
    var open: map<ConnId, ServerConnection>  // open_connections_
    var stopRequested: bool
    ghost var all: map<ConnId, ServerConnection>
    ghost var conns: map<ConnId, Conn>  // the fields of all connections, as values

    constructor (sdk: Sdk)
      requires sdk.kids == map[] && sdk.server == Running && sdk.calls == {}
      ensures Valid() && this.sdk == sdk && View() == Init
    {
      this.sdk, open, stopRequested, all, conns := sdk, map[], false, map[], map[];
    }

    ghost predicate Registered()
      reads this
    {
      && all.Keys == conns.Keys
      && (forall c | c in all :: all[c].handle == c && all[c].ctx == this)
      && (forall c | c in open :: c in all && open[c] == all[c])
    }

    ghost predicate Valid()
      reads this, all.Values
    {
      Registered() && forall c | c in all :: conns[c] == Conn(all[c].state, all[c].active)
    }

    ghost predicate ValidExcept(con: ServerConnection)
      reads this, all.Values
    {
      Registered() && forall c | c in all && all[c] != con :: conns[c] == Conn(all[c].state, all[c].active)
    }

    ghost function View(): World
      reads this, sdk
    {
      World(conns, open.Keys, stopRequested, sdk.kids, sdk.server, sdk.calls)
    }

    method DoStopIfAble(env: Env)
      requires Valid()
      modifies sdk
      ensures Valid() && View() == ServerSpec.DoStopIfAble(old(View()), env)
    {
      if open.Keys == {} {
        sdk.calls := sdk.calls + {StopCall(LiveConns(View()), Live(View()))};
        if sdk.server == Running && env.stopsRoot {
          sdk.server := Stopping;
        }
      }
    }

    method SignalDisconnect(c: ConnId, env: Env)
      requires Valid()
      modifies `open, sdk
      ensures Valid() && View() == ServerSignalDisconnect(old(View()), c, env)
    {
      open := open - {c};
      assert open.Keys == old(open.Keys) - {c};
      if stopRequested {
        DoStopIfAble(env);
      }
    }

    /** The loop of server::stop: visits every open connection once, though each may erase itself. */
    method DisconnectAll(ghost w: World, env: Env) returns (ghost order: seq<ConnId>)
      requires Valid() && Visiting(w, [], open.Keys, View(), env) && open.Keys == w.open
      modifies this, all.Values, sdk
      ensures Valid() && all == old(all)
      ensures Visiting(w, order, {}, View(), env)
    {
      order := [];
      var next := open.Keys;
      while next != {}
        invariant Valid() && all == old(all)
        invariant Visiting(w, order, next, View(), env)
      {
        var it :| it in next;
        VisitNext(w, order, next, View(), env, it);
        next := next - {it};
        order := order + [it];
        open[it].Disconnect(env);
      }
    }

    method Stop(env: Env) returns (ghost order: seq<ConnId>)
      requires Valid() && Inv(View())
      modifies this, all.Values, sdk
      ensures Valid() && all == old(all)
      ensures Enumerates(order, old(View()).open) && View() == ServerSpec.Stop(old(View()), order, env)
    {
      ghost var w := View();
      VisitStart(w, env);
      stopRequested := true;
      order := DisconnectAll(w, env);
      VisitEnd(w, order, View(), env);
      DoStopIfAble(env);
    }

    method ConnectionCallback(c: ConnId)
      requires Valid() && Possible(View(), Connection(c))
      modifies this
      ensures Valid()
      ensures View() == Step(old(View()), Connection(c), Env(k => Refused, d => false, false))
    {
      var con := new ServerConnection(c, this);
      open := open[c := con];
      all := all[c := con];
      conns := conns[c := Conn(Connected, {})];
    }

    method DisconnectionCallback(c: ConnId, env: Env)
      requires Valid() && Possible(View(), RemoteDisconnect(c))
      modifies this, all.Values, sdk
      ensures Valid() && all == old(all)
      ensures View() == Step(old(View()), RemoteDisconnect(c), env)
    {
      if c in open {
        open[c].SignalDisconnect(env);
      }
    }
  }
}
