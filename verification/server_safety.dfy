/** What every run of the server's stop protocol keeps. */
module ServerSafety {
  import opened ServerSpec

  /** The registry of each connection holds exactly the children on it that are not idle. */
  ghost predicate RegistriesExact(w: World) {
    && (forall c | c in w.conns :: w.conns[c].active == LiveOn(w, c))
    && (forall k | k in w.kids :: w.kids[k].con in w.conns)
  }

  /** The server's registry holds exactly the connections that are not disconnected. */
  ghost predicate OpenExact(w: World) {
    && w.open == LiveConns(w)
    && (forall c | c in w.conns && w.conns[c].state == Disconnected :: w.conns[c].active == {})
  }

  /** No request ever reached the SDK while something below it was not idle. */
  ghost predicate CallsQuiet(w: World) {
    forall call | call in w.calls :: call.liveKids == {} && (call.StopCall? ==> call.liveConns == {})
  }

  ghost predicate StopIssued(w: World) {
    StopCall({}, {}) in w.calls
  }

  ghost predicate Inv(w: World) {
    && RegistriesExact(w)
    && OpenExact(w)
    && CallsQuiet(w)
    && (w.server != Running ==> w.stopRequested && w.open == {})
    && (w.stopRequested && w.open == {} ==> StopIssued(w))
  }

  lemma NothingOpenNothingLive(w: World)
    requires RegistriesExact(w) && OpenExact(w) && w.open == {}
    ensures Live(w) == {} && LiveConns(w) == {}
  {
    forall k | k in w.kids
      ensures w.kids[k].state == Idle
    {
      var c := w.kids[k].con;
      assert c !in LiveConns(w);
      assert w.conns[c].active == LiveOn(w, c) == {};
      assert k !in LiveOn(w, c);
    }
  }

  lemma DoStopIfAbleKeeps(w: World, env: Env)
    requires RegistriesExact(w) && OpenExact(w) && CallsQuiet(w)
    requires w.server != Running ==> w.open == {}
    requires w.stopRequested
    ensures Inv(DoStopIfAble(w, env))
  {
    if w.open == {} {
      NothingOpenNothingLive(w);
    }
    var r := DoStopIfAble(w, env);
    assert forall c | c in w.conns :: LiveOn(r, c) == LiveOn(w, c);
    assert LiveConns(r) == LiveConns(w);
  }

  lemma SignalDisconnectKeeps(w: World, c: ConnId, env: Env)
    requires Inv(w) && c in w.conns && LiveOn(w, c) == {}
    ensures Inv(SignalDisconnect(w, c, env))
  {
    var w1 := w.(conns := w.conns[c := w.conns[c].(state := Disconnected)], open := w.open - {c});
    assert forall d :: LiveOn(w1, d) == LiveOn(w, d);
    assert LiveConns(w1) == LiveConns(w) - {c};
    if w.stopRequested {
      DoStopIfAbleKeeps(w1, env);
    }
  }

  lemma DisconnectIfAbleKeeps(w: World, c: ConnId, env: Env)
    requires Inv(w) && c in w.conns
    ensures Inv(DisconnectIfAble(w, c, env))
  {
    if w.conns[c].active == {} {
      var w1 := w.(calls := w.calls + {DisconnectCall(c, LiveOn(w, c))});
      assert forall d :: LiveOn(w1, d) == LiveOn(w, d);
      assert LiveConns(w1) == LiveConns(w);
      if env.disconnects(c) {
        SignalDisconnectKeeps(w1, c, env);
      }
    }
  }

  /** A child turns idle and leaves the registry of its connection. */
  lemma ChildLeaves(w: World, k: Child)
    requires Inv(w) && k in w.kids
    ensures var c := w.kids[k].con;
            c in w.conns && Inv(w.(kids := w.kids[k := w.kids[k].(state := Idle)],
                                   conns := w.conns[c := w.conns[c].(active := w.conns[c].active - {k})]))
  {
    var c := w.kids[k].con;
    var w1 := w.(kids := w.kids[k := w.kids[k].(state := Idle)],
                 conns := w.conns[c := w.conns[c].(active := w.conns[c].active - {k})]);
    forall d | d in w.conns
      ensures LiveOn(w1, d) == LiveOn(w, d) - {k}
    {
    }
    assert forall d | d in w.conns && d != c :: k !in LiveOn(w, d);
    assert LiveConns(w1) == LiveConns(w);
  }

  lemma ChildIdleKeeps(w: World, k: Child, env: Env)
    requires Inv(w) && k in w.kids
    ensures Inv(ChildIdle(w, k, env))
  {
    var c := w.kids[k].con;
    ChildLeaves(w, k);
    var w1 := w.(kids := w.kids[k := w.kids[k].(state := Idle)],
                 conns := w.conns[c := w.conns[c].(active := w.conns[c].active - {k})]);
    if w1.conns[c].state == Disconnecting {
      DisconnectIfAbleKeeps(w1, c, env);
    }
  }

  lemma StopChildKeeps(w: World, k: Child, env: Env)
    requires Inv(w) && k in w.kids
    ensures Inv(StopChild(w, k, env))
  {
    var s := AfterRequest(w.kids[k].state, env.stop(k));
    if s == Idle && w.kids[k].state != Idle {
      ChildIdleKeeps(w, k, env);
    } else {
      var r := StopChild(w, k, env);
      assert forall d :: LiveOn(r, d) == LiveOn(w, d);
      assert LiveConns(r) == LiveConns(w);
    }
  }

  lemma WindingKeeps(w: World, c: ConnId, asked: set<Child>, env: Env)
    requires Inv(w) && c in w.conns && w.conns[c].state != Disconnected && asked <= w.conns[c].active
    ensures Inv(Winding(w, c, asked, env))
  {
    var r := Winding(w, c, asked, env);
    assert asked <= LiveOn(w, c);
    var gone := asked - NotIdle(r.kids, asked);
    forall d | d in w.conns
      ensures r.conns[d].active == LiveOn(r, d)
    {
      assert LiveOn(r, d) == LiveOn(w, d) - gone;
    }
    assert LiveConns(r) == LiveConns(w);
    assert c in w.open;
  }

  lemma DisconnectKeeps(w: World, c: ConnId, env: Env)
    requires Inv(w) && c in w.conns
    ensures Inv(Disconnect(w, c, env))
  {
    if w.conns[c].state == Connected {
      WindingKeeps(w, c, w.conns[c].active, env);
      DisconnectIfAbleKeeps(Winding(w, c, w.conns[c].active, env), c, env);
    }
  }

  lemma DisconnectIfAbleElsewhere(w: World, c: ConnId, d: ConnId, env: Env)
    requires c in w.conns && d in w.conns && c != d
    ensures var r := DisconnectIfAble(w, c, env);
            r.conns.Keys == w.conns.Keys && r.conns[d] == w.conns[d] && (d in r.open <==> d in w.open)
            && r.kids == w.kids
  {
  }

  /** disconnect() changes nothing about other connections. */
  lemma DisconnectElsewhere(w: World, c: ConnId, d: ConnId, env: Env)
    requires Inv(w) && c in w.conns && d in w.conns && c != d
    ensures var r := Disconnect(w, c, env);
            && r.conns[d] == w.conns[d]
            && (d in r.open <==> d in w.open)
            && (forall k | k in LiveOn(w, d) :: k in r.kids && r.kids[k] == w.kids[k])
  {
    assert forall k | k in LiveOn(w, d) :: k !in LiveOn(w, c);
    if w.conns[c].state == Connected {
      DisconnectIfAbleElsewhere(Winding(w, c, w.conns[c].active, env), c, d, env);
    }
  }

  // ---------- the loop of stop_all against its closed form ----------

  lemma WindingStart(w: World, c: ConnId, env: Env)
    requires c in w.conns && w.conns[c].state == Connected
    ensures Winding(w, c, {}, env) == w.(conns := w.conns[c := w.conns[c].(state := Disconnecting)])
  {
    assert Asked(w.kids, {}, env) == w.kids;
    assert w.conns[c].active - ({} - NotIdle(w.kids, {})) == w.conns[c].active;
  }

  lemma WindingShape(w: World, c: ConnId, asked: set<Child>, k: Child, env: Env)
    requires c in w.conns && k in w.kids && w.kids[k].con == c && w.kids[k].state != Idle
    requires k in w.conns[c].active - asked
    ensures var p, p' := Winding(w, c, asked, env), Winding(w, c, asked + {k}, env);
            var s := AfterRequest(w.kids[k].state, env.stop(k));
            && p.kids.Keys == w.kids.Keys && p.kids[k] == w.kids[k]
            && k in p.conns[c].active && p.conns[c].state == Disconnecting
            && p' == p.(kids := p.kids[k := Kid(c, s)],
                        conns := p.conns[c := Conn(Disconnecting,
                          if s == Idle then p.conns[c].active - {k} else p.conns[c].active)])
  {
    var kids, kids' := Asked(w.kids, asked, env), Asked(w.kids, asked + {k}, env);
    var s := AfterRequest(w.kids[k].state, env.stop(k));
    assert kids' == kids[k := Kid(c, s)];
    var gone, gone' := asked - NotIdle(kids, asked), (asked + {k}) - NotIdle(kids', asked + {k});
    assert gone' == if s == Idle then gone + {k} else gone;
    var active := w.conns[c].active;
    assert active - (gone + {k}) == active - gone - {k};
  }

  /** Asking one more child to stop, even if it turns idle at once, moves the closed form on by that child. */
  lemma WindingStep(w: World, c: ConnId, asked: set<Child>, k: Child, env: Env)
    requires c in w.conns && k in w.kids && w.kids[k].con == c && w.kids[k].state != Idle
    requires k in w.conns[c].active - asked
    ensures var p, p' := Winding(w, c, asked, env), Winding(w, c, asked + {k}, env);
            && DisconnectIfAble(p, c, env) == p
            && k in p.kids && p.kids[k] == w.kids[k]
            && StopChild(p, k, env) == DisconnectIfAble(p', c, env)
  {
    WindingShape(w, c, asked, k, env);
    AskOne(Winding(w, c, asked, env), c, k, env);
  }

  lemma AskOne(p: World, c: ConnId, k: Child, env: Env)
    requires c in p.conns && p.conns[c].state == Disconnecting
    requires k in p.conns[c].active && k in p.kids && p.kids[k].con == c && p.kids[k].state != Idle
    ensures var s := AfterRequest(p.kids[k].state, env.stop(k));
            StopChild(p, k, env) == DisconnectIfAble(
              p.(kids := p.kids[k := Kid(c, s)],
                 conns := p.conns[c := Conn(Disconnecting,
                   if s == Idle then p.conns[c].active - {k} else p.conns[c].active)]), c, env)
  {
    var s := AfterRequest(p.kids[k].state, env.stop(k));
    if s != Idle {
      assert p.conns[c := Conn(Disconnecting, p.conns[c].active)] == p.conns;
    }
  }

  /** Part-way through stop_all: the children in `asked` were asked to stop, those in `next` not yet. */
  ghost predicate Asking(w: World, c: ConnId, asked: set<Child>, next: set<Child>, v: World, env: Env) {
    && Inv(w) && c in w.conns && w.conns[c].state == Connected
    && asked !! next && asked + next == w.conns[c].active
    && var p := Winding(w, c, asked, env);
       v == if asked == {} then p else DisconnectIfAble(p, c, env)
  }

  lemma AskingNext(w: World, c: ConnId, asked: set<Child>, next: set<Child>, v: World, env: Env, it: Child)
    requires Asking(w, c, asked, next, v, env) && it in next
    ensures it in v.kids && v.kids[it].con == c && c in v.conns
    ensures Asking(w, c, asked + {it}, next - {it}, StopChild(v, it, env), env)
  {
    assert it in LiveOn(w, c);
    WindingStep(w, c, asked, it, env);
  }

  /** A repeated disconnect changes nothing. */
  lemma DisconnectTwice(w: World, c: ConnId, env: Env)
    requires c in w.conns
    ensures var r := DisconnectIfAble(w, c, env);
            DisconnectIfAble(r, c, env) == r
  {
    var r := DisconnectIfAble(w, c, env);
    if w.conns[c].active == {} {
      assert LiveOn(r, c) == LiveOn(w, c);
      if env.disconnects(c) {
        assert r.conns[c := r.conns[c].(state := Disconnected)] == r.conns;
        assert r.open - {c} == r.open;
        var w1 := r.(conns := r.conns[c := r.conns[c].(state := Disconnected)], open := r.open - {c});
        assert Live(r) == Live(w) && LiveConns(r) == LiveConns(w) - {c};
        assert r.stopRequested && r.open == {} ==> StopCall(LiveConns(r), Live(r)) in r.calls;
      }
    }
  }

  lemma {:induction false} DisconnectEachKeeps(w: World, cs: seq<ConnId>, env: Env)
    requires Inv(w) && forall c | c in cs :: c in w.conns
    ensures Inv(DisconnectEach(w, cs, env))
  {
    if cs != [] {
      DisconnectEachKeeps(w, cs[..|cs| - 1], env);
      DisconnectKeeps(DisconnectEach(w, cs[..|cs| - 1], env), cs[|cs| - 1], env);
    }
  }

  /** Part-way through the loop of server::stop: `order` has been visited, `next` not yet. */
  ghost predicate Visiting(w: World, order: seq<ConnId>, next: set<ConnId>, v: World, env: Env) {
    && next <= w.open <= w.conns.Keys
    && Enumerates(order, w.open - next)
    && v == DisconnectEach(w.(stopRequested := true), order, env)
    && (w.open != {} ==> Inv(v))
    && next <= v.open
  }

  lemma VisitStart(w: World, env: Env)
    requires Inv(w)
    ensures Visiting(w, [], w.open, w.(stopRequested := true), env)
  {
    var w0 := w.(stopRequested := true);
    assert w.open - w.open == {};
    assert forall d :: LiveOn(w0, d) == LiveOn(w, d);
    assert LiveConns(w0) == LiveConns(w);
  }

  /** Visiting one connection leaves the ones still to be visited where they were. */
  lemma VisitNext(w: World, order: seq<ConnId>, next: set<ConnId>, v: World, env: Env, it: ConnId)
    requires Visiting(w, order, next, v, env) && it in next
    ensures it in v.conns && Inv(v)
    ensures Visiting(w, order + [it], next - {it}, Disconnect(v, it, env), env)
  {
    DisconnectKeeps(v, it, env);
    forall d | d in next - {it}
      ensures d in Disconnect(v, it, env).open
    {
      DisconnectElsewhere(v, it, d, env);
    }
    assert (order + [it])[..|order|] == order;
    EnumerateNext(order, w.open, next, it);
  }

  lemma VisitEnd(w: World, order: seq<ConnId>, v: World, env: Env)
    requires Visiting(w, order, {}, v, env)
    ensures Enumerates(order, w.open) && DoStopIfAble(v, env) == Stop(w, order, env)
  {
    assert w.open - {} == w.open;
  }

  /** Whether or not connections are left, server::stop keeps the invariant. */
  lemma StopKeeps(w: World, cs: seq<ConnId>, env: Env)
    requires Inv(w) && Enumerates(cs, w.open)
    ensures Inv(Stop(w, cs, env)) && Stop(w, cs, env).stopRequested
  {
    var w0 := w.(stopRequested := true);
    assert forall d :: LiveOn(w0, d) == LiveOn(w, d);
    assert LiveConns(w0) == LiveConns(w);
    if w.open == {} {
      DoStopIfAbleKeeps(w0, env);
    } else {
      DisconnectEachKeeps(w0, cs, env);
      RequestSurvives(w0, cs, env);
      DoStopIfAbleKeeps(DisconnectEach(w0, cs, env), env);
    }
  }

  lemma {:induction false} RequestSurvives(w: World, cs: seq<ConnId>, env: Env)
    requires forall c | c in cs :: c in w.conns
    ensures DisconnectEach(w, cs, env).stopRequested == w.stopRequested
  {
    if cs != [] {
      RequestSurvives(w, cs[..|cs| - 1], env);
    }
  }

  lemma ConnectionKeeps(w: World, c: ConnId)
    requires Inv(w) && c !in w.conns && w.server == Running
    ensures Inv(w.(conns := w.conns[c := Conn(Connected, {})], open := w.open + {c}))
  {
    var r := w.(conns := w.conns[c := Conn(Connected, {})], open := w.open + {c});
    assert forall d :: LiveOn(r, d) == LiveOn(w, d);
    assert LiveOn(w, c) == {};
    assert LiveConns(r) == LiveConns(w) + {c};
  }

  lemma CreateChildKeeps(w: World, c: ConnId, k: Child)
    requires Inv(w) && c in w.conns && k !in w.kids && w.conns[c].state != Disconnected
    ensures Inv(w.(kids := w.kids[k := Kid(c, Running)],
                   conns := w.conns[c := w.conns[c].(active := w.conns[c].active + {k})]))
  {
    var r := w.(kids := w.kids[k := Kid(c, Running)],
                conns := w.conns[c := w.conns[c].(active := w.conns[c].active + {k})]);
    assert LiveOn(r, c) == LiveOn(w, c) + {k};
    assert forall d | d in w.conns && d != c :: LiveOn(r, d) == LiveOn(w, d);
    assert LiveConns(r) == LiveConns(w);
    assert c in w.open;
  }

  lemma ServerIdleKeeps(w: World)
    requires Inv(w) && w.server == Stopping
    ensures Inv(w.(server := Idle))
  {
    var r := w.(server := Idle);
    assert forall d :: LiveOn(r, d) == LiveOn(w, d);
    assert LiveConns(r) == LiveConns(w);
  }

  lemma StepKeeps(w: World, e: Event, env: Env)
    requires Inv(w) && Possible(w, e)
    ensures Inv(Step(w, e, env))
  {
    match e
    case Connection(c) => ConnectionKeeps(w, c);
    case CreateChild(c, k, starts) => if starts { CreateChildKeeps(w, c, k); }
    case RequestStop(k) => StopChildKeeps(w, k, env);
    case GoIdle(k) => ChildIdleKeeps(w, k, env);
    case RequestDisconnect(c) => DisconnectKeeps(w, c, env);
    case RemoteDisconnect(c) => if c in w.open && c in w.conns { SignalDisconnectKeeps(w, c, env); }
    case ServerStop(cs) => StopKeeps(w, cs, env);
    case ServerIdle => ServerIdleKeeps(w);
  }

  lemma {:induction false} RunKeeps(ws: seq<World>, es: seq<Event>, envs: seq<Env>, n: nat)
    requires Run(ws, es, envs) && n < |ws|
    ensures Inv(ws[n])
  {
    if n == 0 {
      assert LiveConns(Init) == {};
    } else {
      RunKeeps(ws, es, envs, n - 1);
      StepKeeps(ws[n - 1], es[n - 1], envs[n - 1]);
    }
  }

  /**
   Stop safety. In every state of every run: a disconnect request only ever reached the SDK when
   every child ever created on that connection was idle, a server stop only when every connection
   was gone and every child idle; and once the SDK has accepted the server's stop, nothing below
   the server is alive any more.
   */
  lemma StopSafety(ws: seq<World>, es: seq<Event>, envs: seq<Env>, n: nat)
    requires Run(ws, es, envs) && n < |ws|
    ensures forall call | call in ws[n].calls ::
              call.liveKids == {} && (call.StopCall? ==> call.liveConns == {})
    ensures ws[n].server != Running ==> Live(ws[n]) == {} && LiveConns(ws[n]) == {}
    ensures forall c | c in ws[n].conns && ws[n].conns[c].state == Disconnected :: LiveOn(ws[n], c) == {}
  {
    RunKeeps(ws, es, envs, n);
    if ws[n].server != Running {
      NothingOpenNothingLive(ws[n]);
    }
  }

  /** The stop is never forgotten: once requested, it has reached the SDK whenever no connection is open. */
  lemma StopNotForgotten(ws: seq<World>, es: seq<Event>, envs: seq<Env>, n: nat)
    requires Run(ws, es, envs) && n < |ws|
    requires ws[n].stopRequested && LiveConns(ws[n]) == {}
    ensures StopIssued(ws[n])
  {
    RunKeeps(ws, es, envs, n);
  }

  lemma DisconnectIfAbleStops(w: World, c: ConnId, env: Env)
    requires c in w.conns && w.stopRequested && env.stopsRoot
    ensures var r := DisconnectIfAble(w, c, env); r.open == w.open || (r.open == {} ==> r.server != Running)
  {
  }

  lemma ChildIdleStops(w: World, k: Child, env: Env)
    requires k in w.kids && w.kids[k].con in w.conns && w.stopRequested && env.stopsRoot
    ensures var r := ChildIdle(w, k, env); r.open == w.open || (r.open == {} ==> r.server != Running)
  {
    var c := w.kids[k].con;
    var w1 := w.(kids := w.kids[k := w.kids[k].(state := Idle)],
                 conns := w.conns[c := w.conns[c].(active := w.conns[c].active - {k})]);
    if w1.conns[c].state == Disconnecting {
      DisconnectIfAbleStops(w1, c, env);
    }
  }

  lemma StepStops(w: World, e: Event, env: Env)
    requires Possible(w, e) && env.stopsRoot && Step(w, e, env).stopRequested && Step(w, e, env).open == {}
    requires w.open != {} || e.ServerStop?
    ensures Step(w, e, env).server != Running
  {
    match e
    case RequestStop(k) =>
      if AfterRequest(w.kids[k].state, env.stop(k)) == Idle != w.kids[k].state {
        ChildIdleStops(w, k, env);
      }
    case GoIdle(k) => ChildIdleStops(w, k, env);
    case RequestDisconnect(c) =>
      if w.conns[c].state == Connected {
        DisconnectIfAbleStops(Winding(w, c, w.conns[c].active, env), c, env);
      }
    case _ =>
  }

  /**
   Whatever was refused before: the step that takes away the last connection after a stop was requested,
   or that requests the stop when there is none, stops the server if the SDK lets it.
   */
  lemma LastConnectionStops(ws: seq<World>, es: seq<Event>, envs: seq<Env>, n: nat)
    requires Run(ws, es, envs) && n < |es| && envs[n].stopsRoot
    requires ws[n + 1].stopRequested && LiveConns(ws[n + 1]) == {}
    requires LiveConns(ws[n]) != {} || es[n].ServerStop?
    ensures ws[n + 1].server != Running
  {
    RunKeeps(ws, es, envs, n);
    RunKeeps(ws, es, envs, n + 1);
    StepStops(ws[n], es[n], envs[n]);
  }
}
