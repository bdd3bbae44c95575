/**
 What the worlds of the server's stop protocol say about the events that led to them, and the other way
 round: nothing arrives, is asked, disconnects or stops that no event accounts for, and nothing is lost.
 */
module ServerHistory {
  import opened Histories
  import opened ServerSpec
  import opened ServerSafety

  // ---------- one disconnect, one loop ----------

  /** What disconnect() on `c` does to the child `k`: a running child of a connected connection is asked. */
  lemma DisconnectKids(w: World, c: ConnId, env: Env, k: Child)
    requires RegistriesExact(w) && c in w.conns && k in w.kids
    ensures var r := Disconnect(w, c, env);
            k in r.kids && r.kids[k] ==
              if w.kids[k].con == c && w.conns[c].state == Connected && w.kids[k].state == Running
              then w.kids[k].(state := Answer(env.stop(k))) else w.kids[k]
  {
    if w.conns[c].state == Connected {
      var active := w.conns[c].active;
      assert k in active <==> k in LiveOn(w, c);
      var p := Winding(w, c, active, env);
      assert k in p.kids;
    }
  }

  /** The state in which the SDK leaves a running context that was asked to stop. */
  function Answer(r: StopReply): CtxState {
    match r
    case Refused => Running
    case InProgress => Stopping
    case Immediate => Idle
  }

  lemma DisconnectConns(w: World, c: ConnId, env: Env)
    requires c in w.conns
    ensures var r := Disconnect(w, c, env);
            && r.conns.Keys == w.conns.Keys && r.conns[c].state != Connected
            && (forall d | d in w.conns && d != c :: r.conns[d] == w.conns[d])
            && r.kids.Keys == w.kids.Keys && r.stopRequested == w.stopRequested
  {
  }

  lemma DisconnectIfAbleConns(w: World, c: ConnId, env: Env)
    requires c in w.conns && w.conns[c].state != Connected
    ensures Steady(w, DisconnectIfAble(w, c, env)) && DisconnectIfAble(w, c, env).kids == w.kids
  {
  }

  /** The same connections are known and connected, and the same stops requested. */
  ghost predicate Steady(w: World, r: World) {
    && r.conns.Keys == w.conns.Keys && r.stopRequested == w.stopRequested
    && forall d | d in w.conns :: r.conns[d].state == Connected <==> w.conns[d].state == Connected
  }

  lemma IdleConns(w: World, k: Child, env: Env)
    requires k in w.kids && w.kids[k].con in w.conns
    ensures Steady(w, ChildIdle(w, k, env)) && ChildIdle(w, k, env).kids == w.kids[k := w.kids[k].(state := Idle)]
  {
    var c := w.kids[k].con;
    var w1 := w.(kids := w.kids[k := w.kids[k].(state := Idle)],
                 conns := w.conns[c := w.conns[c].(active := w.conns[c].active - {k})]);
    if w1.conns[c].state == Disconnecting {
      DisconnectIfAbleConns(w1, c, env);
    }
  }

  lemma StopChildConns(w: World, k: Child, env: Env)
    requires k in w.kids && w.kids[k].con in w.conns
    ensures Steady(w, StopChild(w, k, env))
    ensures StopChild(w, k, env).kids ==
            if w.kids[k].state == Running then w.kids[k := w.kids[k].(state := Answer(env.stop(k)))] else w.kids
  {
    IdleConns(w, k, env);
  }

  lemma RemoteConns(w: World, c: ConnId, env: Env)
    requires c in w.conns
    ensures var r := SignalDisconnect(w, c, env);
            && r.conns == w.conns[c := w.conns[c].(state := Disconnected)] && r.kids == w.kids
            && r.stopRequested == w.stopRequested
  {
  }

  ghost predicate Distinct(cs: seq<ConnId>) {
    forall i, j | 0 <= i < j < |cs| :: cs[i] != cs[j]
  }

  lemma {:induction false} EachConns(w: World, cs: seq<ConnId>, env: Env, d: ConnId)
    requires (forall c | c in cs :: c in w.conns) && d in w.conns
    ensures var r := DisconnectEach(w, cs, env);
            && r.kids.Keys == w.kids.Keys && r.stopRequested == w.stopRequested
            && (if d in cs then r.conns[d].state != Connected else r.conns[d] == w.conns[d])
  {
    if cs != [] {
      var front, c := cs[..|cs| - 1], cs[|cs| - 1];
      assert cs == front + [c];
      EachConns(w, front, env, d);
      var m := DisconnectEach(w, front, env);
      DisconnectConns(m, c, env);
      assert m.conns[d].state != Connected ==> Disconnect(m, d, env) == m;
    }
  }

  lemma {:induction false} EachKids(w: World, cs: seq<ConnId>, env: Env, k: Child)
    requires Inv(w) && (forall c | c in cs :: c in w.conns) && Distinct(cs) && k in w.kids
    ensures var r, c := DisconnectEach(w, cs, env), w.kids[k].con;
            k in r.kids && c in w.conns && r.kids[k] ==
              if c in cs && w.conns[c].state == Connected && w.kids[k].state == Running
              then w.kids[k].(state := Answer(env.stop(k))) else w.kids[k]
  {
    if cs != [] {
      var front, c := cs[..|cs| - 1], cs[|cs| - 1];
      assert cs == front + [c] && c !in front;
      EachKids(w, front, env, k);
      EachConns(w, front, env, c);
      DisconnectEachKeeps(w, front, env);
      DisconnectKids(DisconnectEach(w, front, env), c, env, k);
    }
  }

  // ---------- connections ----------

  /** The events that end the connected state of `c`. */
  predicate Touches(e: Event, c: ConnId) {
    e == RequestDisconnect(c) || e == RemoteDisconnect(c) || e.ServerStop?
  }

  lemma StepConn(w: World, e: Event, env: Env, c: ConnId)
    requires Inv(w) && Possible(w, e) && c in w.conns
    ensures c in Step(w, e, env).conns
    ensures Step(w, e, env).conns[c].state == Connected <==> w.conns[c].state == Connected && !Touches(e, c)
  {
    assert c in w.open <==> c in LiveConns(w);
    match e
    case Connection(_) =>
    case CreateChild(_, _, _) =>
    case RequestStop(k) => StopChildConns(w, k, env);
    case GoIdle(k) => IdleConns(w, k, env);
    case RequestDisconnect(d) => DisconnectConns(w, d, env);
    case RemoteDisconnect(d) => if d in w.open && d in w.conns { RemoteConns(w, d, env); }
    case ServerStop(cs) => EachConns(w.(stopRequested := true), cs, env, c);
    case ServerIdle =>
  }

  lemma StepArrived(w: World, e: Event, env: Env, c: ConnId)
    requires Possible(w, e)
    ensures c in Step(w, e, env).conns <==> c in w.conns || e == Connection(c)
  {
    match e
    case Connection(_) =>
    case CreateChild(_, _, _) =>
    case RequestStop(j) => StopChildConns(w, j, env);
    case GoIdle(j) => IdleConns(w, j, env);
    case RequestDisconnect(d) => DisconnectConns(w, d, env);
    case RemoteDisconnect(d) => if d in w.open && d in w.conns { RemoteConns(w, d, env); }
    case ServerStop(cs) => EachKeys(w.(stopRequested := true), cs, env);
    case ServerIdle =>
  }

  lemma StepStarted(w: World, e: Event, env: Env, k: Child)
    requires Possible(w, e)
    ensures k in Step(w, e, env).kids <==> k in w.kids || Starts(e, k)
  {
    match e
    case Connection(_) =>
    case CreateChild(_, _, _) =>
    case RequestStop(j) => StopChildConns(w, j, env);
    case GoIdle(j) => IdleConns(w, j, env);
    case RequestDisconnect(d) => DisconnectConns(w, d, env);
    case RemoteDisconnect(d) => if d in w.open && d in w.conns { RemoteConns(w, d, env); }
    case ServerStop(cs) => EachKeys(w.(stopRequested := true), cs, env);
    case ServerIdle =>
  }

  lemma StepRequested(w: World, e: Event, env: Env)
    requires Possible(w, e)
    ensures Step(w, e, env).stopRequested <==> w.stopRequested || e.ServerStop?
  {
    match e
    case Connection(_) =>
    case CreateChild(_, _, _) =>
    case RequestStop(j) => StopChildConns(w, j, env);
    case GoIdle(j) => IdleConns(w, j, env);
    case RequestDisconnect(d) => DisconnectConns(w, d, env);
    case RemoteDisconnect(d) => if d in w.open && d in w.conns { RemoteConns(w, d, env); }
    case ServerStop(cs) => EachKeys(w.(stopRequested := true), cs, env);
    case ServerIdle =>
  }

  lemma {:induction false} EachKeys(w: World, cs: seq<ConnId>, env: Env)
    requires forall c | c in cs :: c in w.conns
    ensures var r := DisconnectEach(w, cs, env);
            r.conns.Keys == w.conns.Keys && r.kids.Keys == w.kids.Keys && r.stopRequested == w.stopRequested
  {
    if cs != [] {
      EachKeys(w, cs[..|cs| - 1], env);
      DisconnectConns(DisconnectEach(w, cs[..|cs| - 1], env), cs[|cs| - 1], env);
    }
  }

  /** The connections of a world are exactly those that arrived. */
  lemma ArrivedIsHistory(ws: seq<World>, es: seq<Event>, envs: seq<Env>, c: ConnId, n: nat)
    requires Run(ws, es, envs) && n < |ws|
    ensures c in ws[n].conns <==> exists i :: 0 <= i < n && es[i] == Connection(c)
  {
    var known := seq(|ws|, i requires 0 <= i < |ws| => c in ws[i].conns);
    var arrives := seq(|es|, i requires 0 <= i < |es| => es[i] == Connection(c));
    forall i | 0 <= i < n
      ensures known[i + 1] == (known[i] || arrives[i])
    {
      StepArrived(ws[i], es[i], envs[i], c);
    }
    Latch(known, arrives, 0, n);
    assert forall i | 0 <= i < n :: arrives[i] == (es[i] == Connection(c));
  }

  /** Its children are exactly those that started. */
  lemma StartedIsHistory(ws: seq<World>, es: seq<Event>, envs: seq<Env>, k: Child, n: nat)
    requires Run(ws, es, envs) && n < |ws|
    ensures k in ws[n].kids <==> exists i :: 0 <= i < n && Starts(es[i], k)
  {
    var known := seq(|ws|, i requires 0 <= i < |ws| => k in ws[i].kids);
    var starts := seq(|es|, i requires 0 <= i < |es| => Starts(es[i], k));
    forall i | 0 <= i < n
      ensures known[i + 1] == (known[i] || starts[i])
    {
      StepStarted(ws[i], es[i], envs[i], k);
    }
    Latch(known, starts, 0, n);
    assert forall i | 0 <= i < n :: starts[i] == Starts(es[i], k);
  }

  /** And a stop is remembered exactly if there was one. */
  lemma StopIsHistory(ws: seq<World>, es: seq<Event>, envs: seq<Env>, n: nat)
    requires Run(ws, es, envs) && n < |ws|
    ensures ws[n].stopRequested <==> exists i :: 0 <= i < n && es[i].ServerStop?
  {
    var requested := seq(|ws|, i requires 0 <= i < |ws| => ws[i].stopRequested);
    var stops := seq(|es|, i requires 0 <= i < |es| => es[i].ServerStop?);
    forall i | 0 <= i < n
      ensures requested[i + 1] == (requested[i] || stops[i])
    {
      StepRequested(ws[i], es[i], envs[i]);
    }
    Latch(requested, stops, 0, n);
    assert forall i | 0 <= i < n :: stops[i] == es[i].ServerStop?;
  }

  predicate Starts(e: Event, k: Child) {
    e.CreateChild? && e.starts && e.kid == k
  }

  /**
   In every run a connection is connected exactly as long as nobody has asked to disconnect it, the server
   was not stopped, and its client did not go away.
   */
  lemma {:induction false} ConnectedUntilAsked(
      ws: seq<World>, es: seq<Event>, envs: seq<Env>, c: ConnId, i: nat, n: nat)
    requires Run(ws, es, envs) && i < n < |ws| && es[i] == Connection(c)
    ensures c in ws[n].conns
    ensures ws[n].conns[c].state == Connected <==> forall j | i < j < n :: !Touches(es[j], c)
  {
    if n > i + 1 {
      ConnectedUntilAsked(ws, es, envs, c, i, n - 1);
      RunKeeps(ws, es, envs, n - 1);
      StepConn(ws[n - 1], es[n - 1], envs[n - 1], c);
    }
  }

  // ---------- children ----------

  /** Event `e` asks the running child `k` to stop. */
  ghost predicate AsksChild(w: World, e: Event, k: Child)
    requires k in w.kids
  {
    var c := w.kids[k].con;
    && w.kids[k].state == Running
    && (|| e == RequestStop(k)
        || ((e == RequestDisconnect(c) || e.ServerStop?) && c in w.conns && w.conns[c].state == Connected))
  }

  /** Exactly how an event changes the child `k`: its own IDLE event, or the SDK's answer if it is asked. */
  lemma StepKid(w: World, e: Event, env: Env, k: Child)
    requires Inv(w) && Possible(w, e) && k in w.kids
    ensures var r := Step(w, e, env);
            && k in r.kids && r.kids[k].con == w.kids[k].con
            && r.kids[k].state ==
               if e == GoIdle(k) then Idle
               else if AsksChild(w, e, k) then Answer(env.stop(k)) else w.kids[k].state
  {
    match e
    case Connection(_) =>
    case CreateChild(_, _, _) =>
    case RequestStop(j) => StopChildConns(w, j, env);
    case GoIdle(j) => IdleConns(w, j, env);
    case RequestDisconnect(c) => DisconnectKids(w, c, env, k);
    case RemoteDisconnect(c) => if c in w.open && c in w.conns { RemoteConns(w, c, env); }
    case ServerStop(cs) => StopKids(w, cs, env, k);
    case ServerIdle =>
  }

  lemma StopKids(w: World, cs: seq<ConnId>, env: Env, k: Child)
    requires Inv(w) && Enumerates(cs, w.open) && k in w.kids
    ensures var r := Stop(w, cs, env);
            k in r.kids && r.kids[k] ==
              if AsksChild(w, ServerStop(cs), k) then w.kids[k].(state := Answer(env.stop(k))) else w.kids[k]
  {
    var w0, c := w.(stopRequested := true), w.kids[k].con;
    assert c in w.open <==> c in LiveConns(w);
    if w.open == {} {
      assert cs == [];
    } else {
      assert forall d :: LiveOn(w0, d) == LiveOn(w, d);
      assert LiveConns(w0) == LiveConns(w);
      EachKids(w0, cs, env, k);
    }
  }

  /** Child `k` turned idle at step `j`. */
  ghost predicate TurnsIdle(ws: seq<World>, es: seq<Event>, envs: seq<Env>, k: Child, j: nat) {
    && j < |ws| && j < |es| && j < |envs| && k in ws[j].kids
    && (es[j] == GoIdle(k) || (AsksChild(ws[j], es[j], k) && envs[j].stop(k) == Immediate))
  }

  /**
   In every run a child that started stays with the connection it was created on, and is live until its
   IDLE event or until it answers a request by turning idle at once.
   */
  lemma LiveUntilIdle(ws: seq<World>, es: seq<Event>, envs: seq<Env>, c: ConnId, k: Child, i: nat, n: nat)
    requires Run(ws, es, envs) && i < n < |ws| && es[i] == CreateChild(c, k, true)
    ensures k in ws[n].kids && ws[n].kids[k].con == c
    ensures ws[n].kids[k].state == Idle <==> exists j :: i < j < n && TurnsIdle(ws, es, envs, k, j)
  {
    var idle := seq(|ws|, j requires 0 <= j < |ws| => k in ws[j].kids && ws[j].kids[k].state == Idle);
    var turns := seq(|es|, j requires 0 <= j < |es| => TurnsIdle(ws, es, envs, k, j));
    forall j | i < j < n
      ensures idle[j + 1] == (idle[j] || turns[j])
    {
      StaysWith(ws, es, envs, c, k, i, j);
      RunKeeps(ws, es, envs, j);
      IdleStep(ws, es, envs, k, j);
    }
    Latch(idle, turns, i + 1, n);
    assert forall j | i < j < n :: turns[j] == TurnsIdle(ws, es, envs, k, j);
    StaysWith(ws, es, envs, c, k, i, n);
  }

  lemma {:induction false} StaysWith(
      ws: seq<World>, es: seq<Event>, envs: seq<Env>, c: ConnId, k: Child, i: nat, n: nat)
    requires Run(ws, es, envs) && i < n < |ws| && es[i] == CreateChild(c, k, true)
    ensures k in ws[n].kids && ws[n].kids[k].con == c
  {
    if n > i + 1 {
      StaysWith(ws, es, envs, c, k, i, n - 1);
      RunKeeps(ws, es, envs, n - 1);
      IdleStep(ws, es, envs, k, n - 1);
    }
  }

  lemma IdleStep(ws: seq<World>, es: seq<Event>, envs: seq<Env>, k: Child, j: nat)
    requires Run(ws, es, envs) && j < |es| && Inv(ws[j]) && k in ws[j].kids
    ensures k in ws[j + 1].kids && ws[j + 1].kids[k].con == ws[j].kids[k].con
    ensures ws[j + 1].kids[k].state == Idle <==> ws[j].kids[k].state == Idle || TurnsIdle(ws, es, envs, k, j)
  {
    StepKid(ws[j], es[j], envs[j], k);
  }

  /** In every run, until then and no longer, it is registered with its connection. */
  lemma RegisteredUntilIdle(ws: seq<World>, es: seq<Event>, envs: seq<Env>, c: ConnId, k: Child, i: nat, n: nat)
    requires Run(ws, es, envs) && i < n < |ws| && es[i] == CreateChild(c, k, true)
    ensures c in ws[n].conns
    ensures k in ws[n].conns[c].active <==> !exists j :: i < j < n && TurnsIdle(ws, es, envs, k, j)
  {
    LiveUntilIdle(ws, es, envs, c, k, i, n);
    RunKeeps(ws, es, envs, n);
    assert k in ws[n].conns[c].active <==> k in LiveOn(ws[n], c);
  }

  // ---------- requests to the SDK ----------

  /** Every request to disconnect is for a connection that was asked to; every server stop was requested. */
  ghost predicate CallsAsked(w: World) {
    && (forall c, s | DisconnectCall(c, s) in w.calls :: c in w.conns && w.conns[c].state != Connected)
    && (forall cs, s | StopCall(cs, s) in w.calls :: w.stopRequested)
  }

  /** Requests are recorded for good, and a connection only becomes disconnected by its client or by a request. */
  ghost predicate Recorded(w: World, r: World, gone: set<ConnId>) {
    && w.calls <= r.calls
    && forall c | c in w.conns && c in r.conns && r.conns[c].state == Disconnected ::
         w.conns[c].state == Disconnected || c in gone || exists s :: DisconnectCall(c, s) in r.calls
  }

  lemma RecordedTransitive(w: World, m: World, r: World)
    requires Recorded(w, m, {}) && Recorded(m, r, {}) && w.conns.Keys == m.conns.Keys
    ensures Recorded(w, r, {})
  {
  }

  lemma DoStopRecords(w: World, env: Env)
    requires w.stopRequested
    ensures Recorded(w, DoStopIfAble(w, env), {}) && (CallsAsked(w) ==> CallsAsked(DoStopIfAble(w, env)))
  {
  }

  lemma SignalDisconnectRecords(w: World, c: ConnId, env: Env)
    requires c in w.conns
    ensures Recorded(w, SignalDisconnect(w, c, env), {c})
    ensures CallsAsked(w) ==> CallsAsked(SignalDisconnect(w, c, env))
  {
    var w1 := w.(conns := w.conns[c := w.conns[c].(state := Disconnected)], open := w.open - {c});
    if w.stopRequested {
      DoStopRecords(w1, env);
    }
  }

  lemma DisconnectIfAbleRecords(w: World, c: ConnId, env: Env)
    requires c in w.conns
    ensures Recorded(w, DisconnectIfAble(w, c, env), {})
    ensures CallsAsked(w) && w.conns[c].state != Connected ==> CallsAsked(DisconnectIfAble(w, c, env))
  {
    var r := DisconnectIfAble(w, c, env);
    assert w.conns[c].active == {} ==> DisconnectCall(c, LiveOn(w, c)) in r.calls;
  }

  lemma ChildIdleRecords(w: World, k: Child, env: Env)
    requires k in w.kids && w.kids[k].con in w.conns
    ensures Recorded(w, ChildIdle(w, k, env), {}) && (CallsAsked(w) ==> CallsAsked(ChildIdle(w, k, env)))
  {
    var c := w.kids[k].con;
    var w1 := w.(kids := w.kids[k := w.kids[k].(state := Idle)],
                 conns := w.conns[c := w.conns[c].(active := w.conns[c].active - {k})]);
    if w1.conns[c].state == Disconnecting {
      DisconnectIfAbleRecords(w1, c, env);
    }
  }

  lemma DisconnectRecords(w: World, c: ConnId, env: Env)
    requires c in w.conns
    ensures Recorded(w, Disconnect(w, c, env), {}) && (CallsAsked(w) ==> CallsAsked(Disconnect(w, c, env)))
  {
    if w.conns[c].state == Connected {
      var p := Winding(w, c, w.conns[c].active, env);
      DisconnectIfAbleRecords(p, c, env);
    }
  }

  lemma {:induction false} EachRecords(w: World, cs: seq<ConnId>, env: Env)
    requires forall c | c in cs :: c in w.conns
    ensures var r := DisconnectEach(w, cs, env); Recorded(w, r, {}) && (CallsAsked(w) ==> CallsAsked(r))
  {
    if cs != [] {
      var m := DisconnectEach(w, cs[..|cs| - 1], env);
      EachRecords(w, cs[..|cs| - 1], env);
      DisconnectRecords(m, cs[|cs| - 1], env);
      RecordedTransitive(w, m, Disconnect(m, cs[|cs| - 1], env));
    }
  }

  lemma StepRecords(w: World, e: Event, env: Env)
    requires Possible(w, e)
    ensures Recorded(w, Step(w, e, env), if e.RemoteDisconnect? then {e.con} else {})
    ensures CallsAsked(w) ==> CallsAsked(Step(w, e, env))
  {
    match e
    case RequestStop(k) =>
      if AfterRequest(w.kids[k].state, env.stop(k)) == Idle != w.kids[k].state {
        ChildIdleRecords(w, k, env);
      }
    case GoIdle(k) => ChildIdleRecords(w, k, env);
    case RequestDisconnect(c) => DisconnectRecords(w, c, env);
    case RemoteDisconnect(c) => if c in w.open && c in w.conns { SignalDisconnectRecords(w, c, env); }
    case ServerStop(cs) => StopRecords(w, cs, env);
    case _ =>
  }

  lemma StopRecords(w: World, cs: seq<ConnId>, env: Env)
    requires forall c | c in cs :: c in w.conns
    ensures Recorded(w, Stop(w, cs, env), {}) && (CallsAsked(w) ==> CallsAsked(Stop(w, cs, env)))
  {
    var w0 := w.(stopRequested := true);
    var m := DisconnectEach(w0, cs, env);
    EachRecords(w0, cs, env);
    EachKeys(w0, cs, env);
    DoStopRecords(m, env);
    RecordedTransitive(w, m, DoStopIfAble(m, env));
  }

  /**
   In every run a connection is disconnected only if the SDK was asked to disconnect it, with all its
   children idle, or its client went away. The SDK is asked to disconnect only what is no longer connected,
   and to stop only after a stop.
   */
  lemma {:induction false} DisconnectedWasCalled(ws: seq<World>, es: seq<Event>, envs: seq<Env>, c: ConnId, n: nat)
    requires Run(ws, es, envs) && n < |ws|
    ensures CallsAsked(ws[n])
    ensures c in ws[n].conns && ws[n].conns[c].state == Disconnected ==>
              DisconnectCall(c, {}) in ws[n].calls || exists i :: 0 <= i < n && es[i] == RemoteDisconnect(c)
  {
    RunKeeps(ws, es, envs, n);
    if n > 0 {
      DisconnectedWasCalled(ws, es, envs, c, n - 1);
      StepRecords(ws[n - 1], es[n - 1], envs[n - 1]);
      StepArrived(ws[n - 1], es[n - 1], envs[n - 1], c);
    }
  }

  // ---------- the server's own state ----------

  ghost predicate OnlyAccepted(w: World, r: World, env: Env) {
    r.server == w.server || (w.server == Running && r.server == Stopping && env.stopsRoot)
  }

  lemma {:induction false} EachAccepted(w: World, cs: seq<ConnId>, env: Env)
    requires forall c | c in cs :: c in w.conns
    ensures OnlyAccepted(w, DisconnectEach(w, cs, env), env)
  {
    if cs != [] {
      EachAccepted(w, cs[..|cs| - 1], env);
    }
  }

  /** The server leaves RUNNING only when the SDK accepts its stop, and turns idle only by its IDLE event. */
  lemma ServerObeys(w: World, e: Event, env: Env)
    requires Possible(w, e)
    ensures if e.ServerIdle? then Step(w, e, env).server == Idle else OnlyAccepted(w, Step(w, e, env), env)
  {
    if e.ServerStop? {
      EachAccepted(w.(stopRequested := true), e.order, env);
    }
  }
}
