/**
 Fibers that are resumed in the middle of the loops of server::stop and stop_all. The loops rely on the
 entries that they have not visited yet: which operations of such a fiber take one of them away?

 A fiber is resumed when its connection is marked as disconnected but still registered, so nothing is
 assumed here but that the registries of children are exact.
 */
module ServerReentry {
  import opened ServerSpec
  import opened ServerSafety

  // ---------- the registries of children alone ----------

  lemma DoStopRegistries(w: World, env: Env)
    requires RegistriesExact(w)
    ensures RegistriesExact(DoStopIfAble(w, env))
  {
    var r := DoStopIfAble(w, env);
    assert forall c | c in w.conns :: LiveOn(r, c) == LiveOn(w, c);
  }

  lemma DisconnectIfAbleRegistries(w: World, c: ConnId, env: Env)
    requires RegistriesExact(w) && c in w.conns
    ensures RegistriesExact(DisconnectIfAble(w, c, env))
  {
    var r := DisconnectIfAble(w, c, env);
    assert r.kids == w.kids;
    assert forall d | d in w.conns :: r.conns[d].active == w.conns[d].active && LiveOn(r, d) == LiveOn(w, d);
  }

  lemma SignalDisconnectRegistries(w: World, c: ConnId, env: Env)
    requires RegistriesExact(w) && c in w.conns
    ensures RegistriesExact(SignalDisconnect(w, c, env))
  {
    var r := SignalDisconnect(w, c, env);
    assert r.kids == w.kids;
    assert forall d | d in w.conns :: r.conns[d].active == w.conns[d].active && LiveOn(r, d) == LiveOn(w, d);
  }

  lemma ChildIdleRegistries(w: World, k: Child, env: Env)
    requires RegistriesExact(w) && k in w.kids
    ensures RegistriesExact(ChildIdle(w, k, env))
  {
    var c := w.kids[k].con;
    var w1 := w.(kids := w.kids[k := w.kids[k].(state := Idle)],
                 conns := w.conns[c := w.conns[c].(active := w.conns[c].active - {k})]);
    forall d | d in w.conns
      ensures w1.conns[d].active == LiveOn(w1, d)
    {
      assert LiveOn(w1, d) == LiveOn(w, d) - {k};
      assert d != c ==> k !in LiveOn(w, d);
    }
    if w1.conns[c].state == Disconnecting {
      DisconnectIfAbleRegistries(w1, c, env);
    }
  }

  lemma StopChildRegistries(w: World, k: Child, env: Env)
    requires RegistriesExact(w) && k in w.kids
    ensures RegistriesExact(StopChild(w, k, env))
  {
    if AfterRequest(w.kids[k].state, env.stop(k)) == Idle != w.kids[k].state {
      ChildIdleRegistries(w, k, env);
    } else {
      var r := StopChild(w, k, env);
      assert forall d | d in w.conns :: LiveOn(r, d) == LiveOn(w, d);
    }
  }

  lemma WindingRegistries(w: World, c: ConnId, env: Env)
    requires RegistriesExact(w) && c in w.conns
    ensures RegistriesExact(Winding(w, c, w.conns[c].active, env))
  {
    var asked := w.conns[c].active;
    var r := Winding(w, c, asked, env);
    var gone := asked - NotIdle(r.kids, asked);
    forall d | d in w.conns
      ensures r.conns[d].active == LiveOn(r, d)
    {
      assert LiveOn(r, d) == LiveOn(w, d) - gone;
    }
  }

  lemma DisconnectRegistries(w: World, c: ConnId, env: Env)
    requires RegistriesExact(w) && c in w.conns
    ensures RegistriesExact(Disconnect(w, c, env))
  {
    if w.conns[c].state == Connected {
      WindingRegistries(w, c, env);
      DisconnectIfAbleRegistries(Winding(w, c, w.conns[c].active, env), c, env);
    }
  }

  // ---------- one disconnect ----------

  /** disconnect() of `d` erases it: it is connected, all its children stop at once, and the SDK agrees. */
  ghost predicate Vanishes(w: World, d: ConnId, env: Env) {
    && d in w.conns && w.conns[d].state == Connected && env.disconnects(d)
    && forall k | k in w.conns[d].active :: k in w.kids && AfterRequest(w.kids[k].state, env.stop(k)) == Idle
  }

  /** What the loops know of connection `d`: whether it is registered, its fields, its live children. */
  ghost predicate Alike(w: World, r: World, d: ConnId) {
    && d in w.conns && d in r.conns && r.conns[d] == w.conns[d] && (d in r.open <==> d in w.open)
    && (forall k | k in LiveOn(w, d) :: k in r.kids && r.kids[k] == w.kids[k])
  }

  lemma AlikeVanishes(w: World, r: World, d: ConnId, env: Env)
    requires RegistriesExact(w) && Alike(w, r, d)
    ensures Vanishes(r, d, env) <==> Vanishes(w, d, env)
  {
    assert w.conns[d].active == LiveOn(w, d);
  }

  lemma DisconnectOther(w: World, c: ConnId, d: ConnId, env: Env)
    requires RegistriesExact(w) && c in w.conns && d in w.conns && c != d
    ensures Alike(w, Disconnect(w, c, env), d)
  {
    assert forall k | k in LiveOn(w, d) :: k !in LiveOn(w, c);
    if w.conns[c].state == Connected {
      DisconnectIfAbleElsewhere(Winding(w, c, w.conns[c].active, env), c, d, env);
    }
  }

  lemma DisconnectSelf(w: World, d: ConnId, env: Env)
    requires RegistriesExact(w) && d in w.conns && d in w.open
    ensures d !in Disconnect(w, d, env).open <==> Vanishes(w, d, env)
  {
    if w.conns[d].state == Connected {
      var active := w.conns[d].active;
      var p := Winding(w, d, active, env);
      assert active == LiveOn(w, d);
      assert p.conns[d].active == NotIdle(p.kids, active);
      assert forall k | k in active :: p.kids[k].state == AfterRequest(w.kids[k].state, env.stop(k));
      if !Vanishes(w, d, env) && env.disconnects(d) {
        var k :| k in active && AfterRequest(w.kids[k].state, env.stop(k)) != Idle;
        assert k in NotIdle(p.kids, active);
      }
    }
  }

  /** The loop of server::stop, for any set of distinct connections. */
  lemma {:induction false} EachErases(w: World, cs: seq<ConnId>, env: Env, d: ConnId)
    requires RegistriesExact(w) && d in w.conns && d in w.open
    requires (forall c | c in cs :: c in w.conns) && (forall i, j | 0 <= i < j < |cs| :: cs[i] != cs[j])
    ensures var r := DisconnectEach(w, cs, env);
            && RegistriesExact(r)
            && (d !in cs ==> Alike(w, r, d))
            && (d in cs ==> (d !in r.open <==> Vanishes(w, d, env)))
            && (w.conns[d].state != Connected ==> Alike(w, r, d))
  {
    if cs != [] {
      var front, c := cs[..|cs| - 1], cs[|cs| - 1];
      var m := DisconnectEach(w, front, env);
      assert cs == front + [c] && c !in front;
      EachErases(w, front, env, d);
      DisconnectRegistries(m, c, env);
      if c == d {
        AlikeVanishes(w, m, d, env);
        DisconnectSelf(m, d, env);
      } else {
        DisconnectOther(m, c, d, env);
        AlikeTransitive(w, m, Disconnect(m, c, env), d);
      }
    }
  }

  lemma AlikeTransitive(w: World, m: World, r: World, d: ConnId)
    requires RegistriesExact(w) && RegistriesExact(m) && Alike(m, r, d)
    ensures Alike(w, m, d) ==> Alike(w, r, d)
  {
    if Alike(w, m, d) {
      assert m.conns[d].active == LiveOn(m, d) && w.conns[d].active == LiveOn(w, d);
    }
  }

  // ---------- which operations take an entry away ----------

  /** The IDLE event of `k` erases its connection. */
  ghost predicate LastChild(w: World, k: Child, env: Env) {
    && k in w.kids && w.kids[k].con in w.conns
    && w.conns[w.kids[k].con] == Conn(Disconnecting, {k}) && env.disconnects(w.kids[k].con)
  }

  /** Operation `e` of a resumed fiber, or an event it runs into, erases the registered connection `d`. */
  ghost predicate Erases(w: World, e: Event, env: Env, d: ConnId) {
    match e
    case RequestDisconnect(c) => c == d && Vanishes(w, d, env)
    case RemoteDisconnect(c) => c == d
    case GoIdle(k) => LastChild(w, k, env) && w.kids[k].con == d
    case RequestStop(k) =>
      LastChild(w, k, env) && w.kids[k].con == d && w.kids[k].state == Running && env.stop(k) == Immediate
    case ServerStop(_) => Vanishes(w, d, env)
    case _ => false
  }

  lemma IdleErases(w: World, k: Child, env: Env, d: ConnId)
    requires RegistriesExact(w) && k in w.kids && w.kids[k].state != Idle && d in w.open && d in w.conns
    ensures d !in ChildIdle(w, k, env).open <==> LastChild(w, k, env) && w.kids[k].con == d
  {
    var c := w.kids[k].con;
    assert k in LiveOn(w, c);
    assert w.conns[c].active - {k} == {} <==> w.conns[c].active == {k};
  }

  lemma StopErases(w: World, cs: seq<ConnId>, env: Env, d: ConnId)
    requires RegistriesExact(w) && d in w.open && d in w.conns && Enumerates(cs, w.open) && w.open <= w.conns.Keys
    ensures RegistriesExact(Stop(w, cs, env)) && (d !in Stop(w, cs, env).open <==> Vanishes(w, d, env))
  {
    var w0 := w.(stopRequested := true);
    assert forall c :: LiveOn(w0, c) == LiveOn(w, c);
    EachErases(w0, cs, env, d);
    DoStopRegistries(DisconnectEach(w0, cs, env), env);
    assert Vanishes(w0, d, env) <==> Vanishes(w, d, env);
  }

  /** Exactly these operations take the unvisited connection `d` away from server::stop. */
  lemma EraseExactly(w: World, e: Event, env: Env, d: ConnId)
    requires RegistriesExact(w) && Possible(w, e) && d in w.open && w.open <= w.conns.Keys
    ensures d !in Step(w, e, env).open <==> Erases(w, e, env, d)
  {
    match e
    case RequestStop(k) =>
      if AfterRequest(w.kids[k].state, env.stop(k)) == Idle != w.kids[k].state {
        IdleErases(w, k, env, d);
      }
    case GoIdle(k) => IdleErases(w, k, env, d);
    case RequestDisconnect(c) =>
      if c == d {
        DisconnectSelf(w, d, env);
      } else {
        DisconnectOther(w, c, d, env);
      }
    case ServerStop(cs) => StopErases(w, cs, env, d);
    case _ =>
  }

  /** Exactly these operations take the unvisited child `k` away from stop_all on connection `c`. */
  lemma LeaveExactly(w: World, e: Event, env: Env, c: ConnId, k: Child)
    requires RegistriesExact(w) && Possible(w, e) && w.open <= w.conns.Keys
    requires c in w.open && c in w.conns && w.conns[c].state == Disconnecting && k in w.conns[c].active
    ensures c in Step(w, e, env).conns
    ensures k !in Step(w, e, env).conns[c].active <==>
              e == GoIdle(k) || (e == RequestStop(k) && w.kids[k].state == Running && env.stop(k) == Immediate)
  {
    assert k in LiveOn(w, c);
    match e
    case RequestStop(j) => IdleLeaves(w, j, env, c, k);
    case GoIdle(j) => IdleLeaves(w, j, env, c, k);
    case RequestDisconnect(d) => if c != d { DisconnectOther(w, d, c, env); }
    case ServerStop(cs) => StopLeaves(w, cs, env, c);
    case _ =>
  }

  lemma IdleLeaves(w: World, j: Child, env: Env, c: ConnId, k: Child)
    requires RegistriesExact(w) && j in w.kids && c in w.conns && k in w.conns[c].active
    ensures var r := ChildIdle(w, j, env); c in r.conns && (k !in r.conns[c].active <==> j == k)
  {
    assert k in LiveOn(w, c);
  }

  lemma StopLeaves(w: World, cs: seq<ConnId>, env: Env, c: ConnId)
    requires RegistriesExact(w) && Enumerates(cs, w.open) && w.open <= w.conns.Keys
    requires c in w.open && w.conns[c].state != Connected
    ensures var r := Stop(w, cs, env); c in r.conns && r.conns[c] == w.conns[c]
  {
    var w0 := w.(stopRequested := true);
    assert forall d :: LiveOn(w0, d) == LiveOn(w, d);
    EachErases(w0, cs, env, c);
  }

  // ---------- whole scripts ----------

  lemma StepRegistries(w: World, e: Event, env: Env)
    requires RegistriesExact(w) && Possible(w, e) && w.open <= w.conns.Keys
    ensures RegistriesExact(Step(w, e, env))
  {
    var r := Step(w, e, env);
    match e
    case Connection(c) =>
      assert forall d :: LiveOn(r, d) == LiveOn(w, d);
      assert LiveOn(w, c) == {};
    case CreateChild(c, k, starts) =>
      if starts {
        assert LiveOn(r, c) == LiveOn(w, c) + {k};
        assert forall d | d in w.conns && d != c :: LiveOn(r, d) == LiveOn(w, d);
      }
    case RequestStop(k) => StopChildRegistries(w, k, env);
    case GoIdle(k) => ChildIdleRegistries(w, k, env);
    case RequestDisconnect(c) => DisconnectRegistries(w, c, env);
    case RemoteDisconnect(c) => if c in w.open { SignalDisconnectRegistries(w, c, env); }
    case ServerStop(cs) => StopRegistries(w, cs, env);
    case ServerIdle => assert forall d :: LiveOn(r, d) == LiveOn(w, d);
  }

  lemma {:induction false} EachRegistries(w: World, cs: seq<ConnId>, env: Env)
    requires RegistriesExact(w) && forall c | c in cs :: c in w.conns
    ensures RegistriesExact(DisconnectEach(w, cs, env))
  {
    if cs != [] {
      EachRegistries(w, cs[..|cs| - 1], env);
      DisconnectRegistries(DisconnectEach(w, cs[..|cs| - 1], env), cs[|cs| - 1], env);
    }
  }

  lemma StopRegistries(w: World, cs: seq<ConnId>, env: Env)
    requires RegistriesExact(w) && forall c | c in cs :: c in w.conns
    ensures RegistriesExact(Stop(w, cs, env))
  {
    var w0 := w.(stopRequested := true);
    assert forall d :: LiveOn(w0, d) == LiveOn(w, d);
    EachRegistries(w0, cs, env);
    DoStopRegistries(DisconnectEach(w0, cs, env), env);
  }

  lemma DisconnectOpen(w: World, c: ConnId, env: Env)
    requires c in w.conns
    ensures var r := Disconnect(w, c, env); r.open <= w.open && r.conns.Keys == w.conns.Keys
  {
  }

  lemma StopChildOpen(w: World, k: Child, env: Env)
    requires k in w.kids && w.kids[k].con in w.conns
    ensures var r := StopChild(w, k, env); r.open <= w.open && r.conns.Keys == w.conns.Keys
    ensures var r := ChildIdle(w, k, env); r.open <= w.open && r.conns.Keys == w.conns.Keys
  {
  }

  /** Connections are never forgotten, and one that was erased is never registered again. */
  lemma StepOpen(w: World, e: Event, env: Env)
    requires Possible(w, e) && w.open <= w.conns.Keys
    ensures var r := Step(w, e, env);
            && w.conns.Keys <= r.conns.Keys && r.open <= r.conns.Keys
            && (forall d | d in w.conns && d !in w.open :: d !in r.open)
  {
    match e
    case RequestStop(k) => StopChildOpen(w, k, env);
    case GoIdle(k) => StopChildOpen(w, k, env);
    case RequestDisconnect(c) => DisconnectOpen(w, c, env);
    case ServerStop(cs) => EachOpen(w.(stopRequested := true), cs, env);
    case _ =>
  }

  lemma {:induction false} EachOpen(w: World, cs: seq<ConnId>, env: Env)
    requires forall c | c in cs :: c in w.conns
    ensures DisconnectEach(w, cs, env).open <= w.open
  {
    if cs != [] {
      EachOpen(w, cs[..|cs| - 1], env);
      DisconnectOpen(DisconnectEach(w, cs[..|cs| - 1], env), cs[|cs| - 1], env);
    }
  }

  /** What a resumed fiber does, one operation after another. */
  ghost predicate Script(ws: seq<World>, es: seq<Event>, envs: seq<Env>) {
    && |ws| == |es| + 1 && |envs| == |es|
    && RegistriesExact(ws[0]) && ws[0].open <= ws[0].conns.Keys
    && forall i | 0 <= i < |es| :: Possible(ws[i], es[i]) && ws[i + 1] == Step(ws[i], es[i], envs[i])
  }

  ghost predicate ErasesAt(ws: seq<World>, es: seq<Event>, envs: seq<Env>, d: ConnId, i: nat) {
    i < |ws| && i < |es| && i < |envs| && d in ws[i].open && Erases(ws[i], es[i], envs[i], d)
  }

  /**
   A connection that server::stop has yet to visit is still registered after the fiber's operations if and
   only if none of them erased it, as said by `Erases`.
   */
  lemma {:induction false} UnvisitedStays(ws: seq<World>, es: seq<Event>, envs: seq<Env>, d: ConnId, n: nat)
    requires Script(ws, es, envs) && n < |ws| && d in ws[0].open
    ensures RegistriesExact(ws[n]) && ws[n].open <= ws[n].conns.Keys && d in ws[n].conns
    ensures d in ws[n].open <==> !exists i :: 0 <= i < n && ErasesAt(ws, es, envs, d, i)
  {
    if n > 0 {
      UnvisitedStays(ws, es, envs, d, n - 1);
      StepRegistries(ws[n - 1], es[n - 1], envs[n - 1]);
      StepOpen(ws[n - 1], es[n - 1], envs[n - 1]);
      if d in ws[n - 1].open {
        EraseExactly(ws[n - 1], es[n - 1], envs[n - 1], d);
      }
      assert ErasesAt(ws, es, envs, d, n - 1) <==> d in ws[n - 1].open && d !in ws[n].open;
    }
  }
}
