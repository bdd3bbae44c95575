/** Once a stop was requested, the tree below the server winds down. */
module ServerProgress {
  import opened ServerSpec
  import opened ServerSafety

  /** The SDK accepts every request. */
  ghost predicate Obliging(env: Env) {
    && (forall k :: env.stop(k) != Refused)
    && (forall c :: env.disconnects(c))
    && env.stopsRoot
  }

  /** Connection `c` is waiting for children, all of which have been asked to stop. */
  ghost predicate WaitsForChildren(w: World, c: ConnId) {
    && c in w.conns
    && w.conns[c].state == Disconnecting
    && w.conns[c].active != {}
    && (forall k | k in w.conns[c].active :: k in w.kids && w.kids[k].state == Stopping)
  }

  /** Every open connection only waits for children that have been asked to stop. */
  ghost predicate Draining(w: World) {
    && w.stopRequested
    && (forall c | c in w.open :: WaitsForChildren(w, c))
    && (w.open == {} ==> w.server != Running)
  }

  /**
   What server::stop needs to find: no connection that was already disconnecting is stuck, i.e.
   each such connection waits for children, all of which have been asked to stop.
   */
  ghost predicate NoneStranded(w: World) {
    forall c | c in w.open && c in w.conns && w.conns[c].state == Disconnecting :: WaitsForChildren(w, c)
  }

  /** What is left to wind down: open connections and children that are not idle. */
  ghost function Remaining(w: World): nat {
    |w.open| + |Live(w)|
  }

  /** After disconnect() a connected connection is gone or waits for children it has asked. */
  lemma DisconnectHere(w: World, c: ConnId, env: Env)
    requires Inv(w) && c in w.conns && w.conns[c].state == Connected && Obliging(env)
    ensures var r := Disconnect(w, c, env);
            c in r.open ==> WaitsForChildren(r, c)
  {
    var active := w.conns[c].active;
    var p := Winding(w, c, active, env);
    WindingKeeps(w, c, active, env);
    assert active == LiveOn(w, c);
    assert p.conns[c].active == LiveOn(p, c);
  }

  lemma {:induction false} DisconnectEachVisits(w: World, cs: seq<ConnId>, env: Env, d: ConnId)
    requires Inv(w) && Obliging(env) && d in w.conns
    requires forall c | c in cs :: c in w.conns
    requires forall i, j | 0 <= i < j < |cs| :: cs[i] != cs[j]
    ensures var r := DisconnectEach(w, cs, env);
            if d in cs && w.conns[d].state == Connected then
              d in r.open ==> WaitsForChildren(r, d)
            else
              && r.conns[d] == w.conns[d] && (d in r.open <==> d in w.open)
              && (forall k | k in LiveOn(w, d) :: k in r.kids && r.kids[k] == w.kids[k])
  {
    if cs != [] {
      var front, c := cs[..|cs| - 1], cs[|cs| - 1];
      assert cs == front + [c] && c !in front;
      var m := DisconnectEach(w, front, env);
      DisconnectEachVisits(w, front, env, d);
      DisconnectEachVisits(w, front, env, c);
      DisconnectEachKeeps(w, front, env);
      if c == d {
        if m.conns[c].state == Connected {
          DisconnectHere(m, c, env);
        }
      } else {
        DisconnectElsewhere(m, c, d, env);
        assert forall k | k in m.conns[d].active :: k in LiveOn(m, d);
        assert d in w.conns ==> w.conns[d].active == LiveOn(w, d);
      }
    }
  }

  /** What server::stop leaves of each connection `d`. */
  lemma StopVisits(w: World, cs: seq<ConnId>, env: Env, d: ConnId)
    requires Inv(w) && Enumerates(cs, w.open) && Obliging(env) && w.open != {} && d in w.conns
    ensures var r := Stop(w, cs, env);
            && (d in w.open && w.conns[d].state == Connected && d in r.open ==> WaitsForChildren(r, d))
            && (d in w.open && w.conns[d].state == Disconnecting ==>
                  d in r.open && (WaitsForChildren(r, d) <==> WaitsForChildren(w, d)))
            && (d !in w.open ==> d !in r.open)
  {
    var w0 := w.(stopRequested := true);
    assert forall c :: LiveOn(w0, c) == LiveOn(w, c);
    assert LiveConns(w0) == LiveConns(w);
    DisconnectEachVisits(w0, cs, env, d);
    assert w.conns[d].active == LiveOn(w, d);
  }

  /**
   With an SDK that accepts every request, server::stop leaves a tree that drains if and only if
   it found no stranded connection: disconnect() does nothing for a connection that is already
   disconnecting, so a child created on it afterwards is never asked to stop.
   */
  lemma StopDrains(w: World, cs: seq<ConnId>, env: Env)
    requires Inv(w) && Enumerates(cs, w.open) && Obliging(env)
    ensures Draining(Stop(w, cs, env)) <==> NoneStranded(w)
  {
    StopKeeps(w, cs, env);
    if w.open != {} {
      forall d | d in w.conns
        ensures var r := Stop(w, cs, env);
                && (d in w.open && w.conns[d].state == Connected && d in r.open ==> WaitsForChildren(r, d))
                && (d in w.open && w.conns[d].state == Disconnecting ==>
                      d in r.open && (WaitsForChildren(r, d) <==> WaitsForChildren(w, d)))
                && (d !in w.open ==> d !in r.open)
      {
        StopVisits(w, cs, env, d);
      }
    }
  }

  /** The IDLE event of a child only touches the connection it was created on. */
  lemma IdleShape(w: World, k: Child, env: Env)
    requires Inv(w) && Draining(w) && Obliging(env) && k in Live(w)
    ensures var c, r := w.kids[k].con, Step(w, GoIdle(k), env);
            && c in w.open
            && r.kids == w.kids[k := Kid(c, Idle)] && r.stopRequested
            && (if w.conns[c].active == {k} then r.open == w.open - {c} else r.open == w.open)
            && (c in r.open ==> r.conns[c] == Conn(Disconnecting, w.conns[c].active - {k}))
            && (forall d | d in w.conns && d != c :: r.conns[d] == w.conns[d])
            && (r.open == {} ==> r.server != Running)
  {
    var c := w.kids[k].con;
    assert k in LiveOn(w, c);
    assert c in w.open;
    assert WaitsForChildren(w, c);
    assert w.conns[c].active - {k} == {} <==> w.conns[c].active == {k};
  }

  /** Each IDLE event of a child leaves strictly less to wind down, and the tree keeps draining. */
  lemma DrainStep(w: World, k: Child, env: Env)
    requires Inv(w) && Draining(w) && Obliging(env) && k in Live(w)
    ensures var r := Step(w, GoIdle(k), env);
            Inv(r) && Draining(r) && Live(r) == Live(w) - {k} && Remaining(r) < Remaining(w)
  {
    StepKeeps(w, GoIdle(k), env);
    IdleShape(w, k, env);
    IdleDrains(w, Step(w, GoIdle(k), env), k);
  }

  lemma IdleDrains(w: World, r: World, k: Child)
    requires Inv(w) && Draining(w) && k in Live(w)
    requires var c := w.kids[k].con;
             && c in w.open && r.kids == w.kids[k := Kid(c, Idle)] && r.stopRequested
             && (if w.conns[c].active == {k} then r.open == w.open - {c} else r.open == w.open)
             && (c in r.open ==> c in r.conns && r.conns[c] == Conn(Disconnecting, w.conns[c].active - {k}))
             && (forall d | d in w.conns && d != c :: d in r.conns && r.conns[d] == w.conns[d])
             && (r.open == {} ==> r.server != Running)
    ensures Draining(r) && Live(r) == Live(w) - {k} && Remaining(r) < Remaining(w)
  {
    var c := w.kids[k].con;
    assert Live(r) == Live(w) - {k};
    SubsetSize(r.open, w.open);
    forall d | d in r.open
      ensures WaitsForChildren(r, d)
    {
      assert WaitsForChildren(w, d);
      assert w.conns[d].active == LiveOn(w, d);
      if d != c {
        assert k !in w.conns[d].active;
      }
    }
  }

  lemma SubsetSize<T>(a: set<T>, b: set<T>)
    requires a <= b
    ensures |a| <= |b|
  {
    assert b == a + (b - a);
  }

  /** A draining tree is never stuck: some child that was asked to stop has yet to turn idle, or the stop was issued. */
  lemma NeverStuck(w: World)
    requires Inv(w) && Draining(w)
    ensures w.open != {} ==> exists k :: k in Live(w) && w.kids[k].state == Stopping
    ensures Remaining(w) == 0 <==> w.open == {}
    ensures w.open == {} ==> StopIssued(w) && w.server != Running
  {
    if w.open == {} {
      NothingOpenNothingLive(w);
    } else {
      var c :| c in w.open;
      assert WaitsForChildren(w, c);
      var k :| k in w.conns[c].active;
      assert k in LiveOn(w, c) && k in Live(w);
    }
  }

  /** Everything but arrivals: no new connection, and no child that starts. */
  predicate Quiet(e: Event) {
    !e.Connection? && (e.CreateChild? ==> !e.starts)
  }

  /** In a draining tree every live child has been asked and sits on an open connection that waits for it. */
  lemma AllAsked(w: World, k: Child)
    requires Inv(w) && Draining(w) && k in w.kids
    ensures w.kids[k].state == Idle || (w.kids[k].state == Stopping && w.kids[k].con in w.open)
  {
    if w.kids[k].state != Idle {
      var c := w.kids[k].con;
      assert k in LiveOn(w, c);
      assert c in w.open;
      assert WaitsForChildren(w, c);
    }
  }

  /** In a draining tree disconnect() has nothing left to do. */
  lemma NothingToDisconnect(w: World, c: ConnId, env: Env)
    requires Inv(w) && Draining(w) && c in w.conns
    ensures Disconnect(w, c, env) == w
  {
    if c in w.open {
      assert WaitsForChildren(w, c);
    } else {
      assert c !in LiveConns(w);
    }
  }

  lemma {:induction false} NothingToVisit(w: World, cs: seq<ConnId>, env: Env)
    requires Inv(w) && Draining(w) && forall c | c in cs :: c in w.conns
    ensures DisconnectEach(w, cs, env) == w
  {
    if cs != [] {
      NothingToVisit(w, cs[..|cs| - 1], env);
      NothingToDisconnect(w, cs[|cs| - 1], env);
    }
  }

  /** A repeated stop at most issues the server's own stop again. */
  lemma StopAgain(w: World, cs: seq<ConnId>, env: Env)
    requires Inv(w) && Draining(w) && forall c | c in cs :: c in w.conns
    ensures Same(w, Stop(w, cs, env))
  {
    assert w.(stopRequested := true) == w;
    NothingToVisit(w, cs, env);
  }

  /** Nothing has changed that draining depends on. */
  ghost predicate Same(w: World, r: World) {
    && r.conns == w.conns && r.open == w.open && r.kids == w.kids && r.stopRequested == w.stopRequested
    && (r.server == Running <==> w.server == Running)
  }

  lemma SameDrains(w: World, r: World)
    requires Draining(w) && Same(w, r)
    ensures Draining(r) && Live(r) == Live(w)
  {
    forall c | c in r.open
      ensures WaitsForChildren(r, c)
    {
      assert WaitsForChildren(w, c);
    }
  }

  /** Apart from arrivals, only the IDLE events of children change a draining tree. */
  lemma QuietIsSame(w: World, e: Event, env: Env)
    requires Inv(w) && Draining(w) && Possible(w, e) && Quiet(e) && !e.GoIdle?
    ensures Same(w, Step(w, e, env))
  {
    if e.RequestStop? {
      AllAsked(w, e.kid);
      assert w.kids[e.kid := w.kids[e.kid]] == w.kids;
    } else if e.RequestDisconnect? {
      NothingToDisconnect(w, e.con, env);
    } else if e.RemoteDisconnect? {
      assert e.con in w.open ==> WaitsForChildren(w, e.con);
    } else if e.ServerStop? {
      StopAgain(w, e.order, env);
    }
  }

  /** A run without arrivals, against an SDK that accepts every request. */
  ghost predicate QuietRun(ws: seq<World>, es: seq<Event>, envs: seq<Env>) {
    && |ws| == |es| + 1 && |envs| == |es|
    && forall i | 0 <= i < |es| ::
         && Possible(ws[i], es[i]) && Quiet(es[i]) && Obliging(envs[i])
         && ws[i + 1] == Step(ws[i], es[i], envs[i])
  }

  /** How many children turned idle. */
  ghost function Idles(es: seq<Event>): nat {
    if es == [] then 0 else Idles(es[..|es| - 1]) + if es[|es| - 1].GoIdle? then 1 else 0
  }

  lemma QuietStep(w: World, e: Event, env: Env)
    requires Inv(w) && Draining(w) && Possible(w, e) && Quiet(e) && Obliging(env)
    ensures var r := Step(w, e, env);
            Inv(r) && Draining(r) && |Live(r)| == |Live(w)| - (if e.GoIdle? then 1 else 0)
  {
    StepKeeps(w, e, env);
    if e.GoIdle? {
      DrainStep(w, e.kid, env);
      assert |Live(w)| == |Live(w) - {e.kid}| + 1;
    } else {
      QuietIsSame(w, e, env);
      SameDrains(w, Step(w, e, env));
    }
  }

  lemma {:induction false} DrainRun(ws: seq<World>, es: seq<Event>, envs: seq<Env>)
    requires QuietRun(ws, es, envs) && Inv(ws[0]) && Draining(ws[0])
    ensures Inv(ws[|es|]) && Draining(ws[|es|])
    ensures |Live(ws[|es|])| == |Live(ws[0])| - Idles(es)
  {
    if es != [] {
      var n := |es| - 1;
      DrainRun(ws[..|es|], es[..n], envs[..n]);
      QuietStep(ws[n], es[n], envs[n]);
    }
  }

  /**
   Stop progress. After server::stop on a tree without stranded connections, over every run without
   arrivals: no more children turn idle than were live, the server's own stop has been issued and
   accepted exactly when they all have, and before that some child that was asked has yet to turn idle.
   */
  lemma StopProgress(w: World, cs: seq<ConnId>, env: Env, ws: seq<World>, es: seq<Event>, envs: seq<Env>)
    requires Inv(w) && Enumerates(cs, w.open) && Obliging(env) && NoneStranded(w)
    requires QuietRun(ws, es, envs) && ws[0] == Stop(w, cs, env)
    ensures var r, live := ws[|es|], |Live(ws[0])|;
            && Idles(es) <= live
            && (Idles(es) == live <==> r.server != Running)
            && (Idles(es) == live ==> StopIssued(r) && LiveConns(r) == {})
            && (Idles(es) < live ==> exists k :: k in Live(r) && r.kids[k].state == Stopping)
  {
    StopKeeps(w, cs, env);
    StopDrains(w, cs, env);
    DrainRun(ws, es, envs);
    var r := ws[|es|];
    NeverStuck(r);
    if r.open != {} {
      var k :| k in Live(r);
      assert |Live(r)| > 0;
    }
  }

  /** One connection with the children 7 and 8, of which only 7 was asked to stop before 8 was created. */
  ghost function Strand(state: ConnState, active: set<Child>, kids: map<Child, Kid>, requested: bool): World {
    World(map[0 := Conn(state, active)], {0}, requested, kids, Running, {})
  }

  lemma StrandBegins(env: Env)
    ensures Possible(Init, Connection(0))
    ensures Step(Init, Connection(0), env) == Strand(Connected, {}, map[], false)
    ensures Possible(Strand(Connected, {}, map[], false), CreateChild(0, 7, true))
    ensures Step(Strand(Connected, {}, map[], false), CreateChild(0, 7, true), env)
         == Strand(Connected, {7}, map[7 := Kid(0, Running)], false)
    ensures Possible(Strand(Disconnecting, {7}, map[7 := Kid(0, Stopping)], false), CreateChild(0, 8, true))
    ensures Step(Strand(Disconnecting, {7}, map[7 := Kid(0, Stopping)], false), CreateChild(0, 8, true), env)
         == Strand(Disconnecting, {7, 8}, map[7 := Kid(0, Stopping), 8 := Kid(0, Running)], false)
  {
    assert {0} + {} == {0};
    assert {} + {7} == {7};
    assert {7} + {8} == {7, 8};
  }

  lemma StrandEnds()
    ensures var w := Strand(Disconnecting, {8}, map[7 := Kid(0, Idle), 8 := Kid(0, Running)], true);
            !StopIssued(w) && w.open == {0} && Live(w) == {8} && w.kids[8].state == Running
  {
  }

  lemma StrandDisconnects(env: Env)
    requires env.stop(7) == InProgress
    ensures Step(Strand(Connected, {7}, map[7 := Kid(0, Running)], false), RequestDisconnect(0), env)
         == Strand(Disconnecting, {7}, map[7 := Kid(0, Stopping)], false)
  {
    var w := Strand(Connected, {7}, map[7 := Kid(0, Running)], false);
    var kids := Asked(w.kids, {7}, env);
    assert kids == map[7 := Kid(0, Stopping)];
    assert NotIdle(kids, {7}) == {7};
    assert {7} - ({7} - {7}) == {7};
  }

  lemma StrandStops(env: Env)
    ensures var w := Strand(Disconnecting, {7, 8}, map[7 := Kid(0, Stopping), 8 := Kid(0, Running)], false);
            Possible(w, ServerStop([0])) && Step(w, ServerStop([0]), env)
              == Strand(Disconnecting, {7, 8}, map[7 := Kid(0, Stopping), 8 := Kid(0, Running)], true)
  {
    var w := Strand(Disconnecting, {7, 8}, map[7 := Kid(0, Stopping), 8 := Kid(0, Running)], true);
    assert [0][..0] == [];
    assert DisconnectEach(w, [], env) == w;
  }

  lemma StrandIdles(env: Env)
    ensures var w := Strand(Disconnecting, {7, 8}, map[7 := Kid(0, Stopping), 8 := Kid(0, Running)], true);
            Possible(w, GoIdle(7)) && Step(w, GoIdle(7), env)
              == Strand(Disconnecting, {8}, map[7 := Kid(0, Idle), 8 := Kid(0, Running)], true)
  {
    assert {7, 8} - {7} == {8};
  }

  /**
   A stranded connection: a child is created on a connection that is already disconnecting, and
   server::stop never asks it to stop. When the first child has turned idle, the SDK has received
   no stop for the server, and the only live child was never asked.
   */
  lemma StrandedChild(env: Env) returns (ws: seq<World>, es: seq<Event>, envs: seq<Env>)
    requires env.stop(7) == InProgress
    ensures Run(ws, es, envs) && forall i | 0 <= i < |envs| :: envs[i] == env
    ensures ServerStop([0]) in es
    ensures var w := ws[|es|];
            !StopIssued(w) && w.open == {0} && Live(w) == {8} && w.kids[8].state == Running
  {
    StrandBegins(env);
    StrandDisconnects(env);
    StrandStops(env);
    StrandIdles(env);
    StrandEnds();
    ws, es, envs := [Init], [], [];
    ws, es, envs := Extend(ws, es, envs, Connection(0), env);
    ws, es, envs := Extend(ws, es, envs, CreateChild(0, 7, true), env);
    ws, es, envs := Extend(ws, es, envs, RequestDisconnect(0), env);
    ws, es, envs := Extend(ws, es, envs, CreateChild(0, 8, true), env);
    ws, es, envs := Extend(ws, es, envs, ServerStop([0]), env);
    ws, es, envs := Extend(ws, es, envs, GoIdle(7), env);
  }

  lemma Extend(ws: seq<World>, es: seq<Event>, envs: seq<Env>, e: Event, env: Env)
    returns (ws': seq<World>, es': seq<Event>, envs': seq<Env>)
    requires Run(ws, es, envs) && Possible(ws[|es|], e)
    requires forall i | 0 <= i < |envs| :: envs[i] == env
    ensures Run(ws', es', envs') && es' == es + [e] && ws'[|es'|] == Step(ws[|es|], e, env)
    ensures forall i | 0 <= i < |envs'| :: envs'[i] == env
  {
    ws', es', envs' := ws + [Step(ws[|es|], e, env)], es + [e], envs + [env];
  }
}
