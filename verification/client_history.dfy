/** What the states of a comch client say about the events that led to them, and the other way round. */
module ClientHistory {
  import opened ClientStop
  import opened Histories
  import opened ServerSpec
  import ServerHistory

  // ---------- a connected client ----------

  /** A client that nobody stopped goes on as it is, whatever becomes of its children. */
  lemma ConnectedGoesOn(c: Client, e: ClientEvent, env: Env)
    requires ClientCan(c, e) && c.state == Connected && (e.ChildIdles? || e.RequestChildStop?)
    ensures var r := ClientStep(c, e, env);
            r.state == Connected && r.ctx == c.ctx && r.ownStop == c.ownStop && r.calls == c.calls
  {
  }

  lemma StopIfAbleState(c: Client, env: Env)
    requires c.state == Disconnecting
    ensures StopIfAble(c, env).state == Disconnecting && c.calls <= StopIfAble(c, env).calls
  {
  }

  lemma {:induction false} AskEachState(c: Client, ks: seq<Child>, env: Env)
    requires c.state == Disconnecting && forall k | k in ks :: k in c.kids
    ensures AskEach(c, ks, env).state == Disconnecting && c.calls <= AskEach(c, ks, env).calls
  {
    if ks != [] {
      AskEachState(c, ks[..|ks| - 1], env);
    }
  }

  /** The events that end the connected state. */
  predicate Ends(e: ClientEvent) {
    e.RequestClientStop? || e.SdkStopping? || e.SdkIdle?
  }

  lemma StepState(c: Client, e: ClientEvent, env: Env)
    requires ClientCan(c, e)
    ensures var r := ClientStep(c, e, env);
            && (r.state == Connected <==> e.Started? || (c.state == Connected && !Ends(e)))
            && c.calls <= r.calls
            && (r.calls != c.calls ==> c.state == Disconnecting || (c.state == Connected && e.RequestClientStop?))
  {
    if e.RequestClientStop? && c.state == Connected {
      AskEachState(c.(state := Disconnecting), e.order, env);
      StopIfAbleState(AskEach(c.(state := Disconnecting), e.order, env), env);
    }
  }

  /** In every run the client is connected from its start until it is stopped or the SDK stops it. */
  lemma ConnectedUntilStopped(cs: seq<Client>, es: seq<ClientEvent>, envs: seq<Env>, i: nat, n: nat)
    requires ClientRun(cs, es, envs) && i < n < |cs| && es[i] == Started
    requires forall j | i < j < n :: !es[j].Started?
    ensures cs[n].state == Connected <==> forall j | i < j < n :: !Ends(es[j])
  {
    var over := seq(|cs|, j requires 0 <= j < |cs| => cs[j].state != Connected);
    var ends := seq(|es|, j requires 0 <= j < |es| => Ends(es[j]));
    forall j | i < j < n
      ensures over[j + 1] == (over[j] || ends[j])
    {
      StepState(cs[j], es[j], envs[j]);
    }
    Latch(over, ends, i + 1, n);
    assert forall j | i < j < n :: ends[j] == Ends(es[j]);
  }

  /** In every run the client's stop reaches the SDK only when the client is disconnecting or is being stopped. */
  lemma StopWasAsked(cs: seq<Client>, es: seq<ClientEvent>, envs: seq<Env>, n: nat)
    requires ClientRun(cs, es, envs) && n < |es|
    ensures cs[n].calls <= cs[n + 1].calls
    ensures cs[n + 1].calls != cs[n].calls ==> cs[n].state == Disconnecting || es[n].RequestClientStop?
  {
    StepState(cs[n], es[n], envs[n]);
  }

  // ---------- children ----------

  /** Event `e` asks the running child `k` to stop. */
  ghost predicate AsksKid(c: Client, e: ClientEvent, k: Child)
    requires k in c.kids
  {
    c.kids[k] == Running && (e == RequestChildStop(k) || (e.RequestClientStop? && c.state == Connected))
  }

  lemma AskOneKid(c: Client, j: Child, env: Env, k: Child)
    requires j in c.kids && k in c.kids
    ensures var r := Ask(c, j, env);
            k in r.kids && r.kids[k] ==
              if j == k && c.kids[k] == Running then ServerHistory.Answer(env.stop(k)) else c.kids[k]
  {
  }

  lemma {:induction false} AskEachKid(c: Client, ks: seq<Child>, env: Env, k: Child)
    requires (forall j | j in ks :: j in c.kids) && k in c.kids
    requires forall i, j | 0 <= i < j < |ks| :: ks[i] != ks[j]
    ensures var r := AskEach(c, ks, env);
            k in r.kids && r.kids[k] ==
              if k in ks && c.kids[k] == Running then ServerHistory.Answer(env.stop(k)) else c.kids[k]
  {
    if ks != [] {
      var front, last := ks[..|ks| - 1], ks[|ks| - 1];
      assert ks == front + [last] && last !in front;
      AskEachKid(c, front, env, k);
      AskOneKid(AskEach(c, front, env), last, env, k);
    }
  }

  lemma StopClientKid(c: Client, ks: seq<Child>, env: Env, k: Child)
    requires ClientInv(c) && Enumerates(ks, c.active) && c.active <= c.kids.Keys && k in c.kids
    ensures var r := StopClient(c, ks, env);
            k in r.kids && r.kids[k] ==
              if c.kids[k] == Running && c.state == Connected then ServerHistory.Answer(env.stop(k)) else c.kids[k]
  {
    if c.state == Connected {
      AskEachKid(c.(state := Disconnecting), ks, env, k);
      assert k in LiveKids(c) <==> k in ks;
    }
  }

  /** Exactly how an event changes the child `k`: its own IDLE event, or the SDK's answer if it is asked. */
  lemma StepKid(c: Client, e: ClientEvent, env: Env, k: Child)
    requires ClientInv(c) && ClientCan(c, e) && k in c.kids
    ensures var r := ClientStep(c, e, env);
            k in r.kids && r.kids[k] ==
              if e == ChildIdles(k) then Idle
              else if AsksKid(c, e, k) then ServerHistory.Answer(env.stop(k)) else c.kids[k]
  {
    match e
    case RequestChildStop(j) => AskOneKid(c, j, env, k);
    case RequestClientStop(ks) => StopClientKid(c, ks, env, k);
    case _ =>
  }

  ghost predicate TurnsIdle(cs: seq<Client>, es: seq<ClientEvent>, envs: seq<Env>, k: Child, j: nat) {
    && j < |cs| && j < |es| && j < |envs| && k in cs[j].kids
    && (es[j] == ChildIdles(k) || (AsksKid(cs[j], es[j], k) && envs[j].stop(k) == Immediate))
  }

  lemma {:induction false} KidStays(cs: seq<Client>, es: seq<ClientEvent>, envs: seq<Env>, k: Child, i: nat, n: nat)
    requires ClientRun(cs, es, envs) && cs[0] == Unstarted && i < n < |cs| && es[i] == NewChild(k, true)
    ensures k in cs[n].kids
  {
    if n > i + 1 {
      KidStays(cs, es, envs, k, i, n - 1);
      ClientSafety(cs, es, envs, n - 1);
      StepKid(cs[n - 1], es[n - 1], envs[n - 1], k);
    }
  }

  /** In every run a child that started is registered until its IDLE event, or until it turns idle when asked. */
  lemma RegisteredUntilIdle(cs: seq<Client>, es: seq<ClientEvent>, envs: seq<Env>, k: Child, i: nat, n: nat)
    requires ClientRun(cs, es, envs) && cs[0] == Unstarted && i < n < |cs| && es[i] == NewChild(k, true)
    ensures k in cs[n].active <==> !exists j :: i < j < n && TurnsIdle(cs, es, envs, k, j)
  {
    var idle := seq(|cs|, j requires 0 <= j < |cs| => k in cs[j].kids && cs[j].kids[k] == Idle);
    var turns := seq(|es|, j requires 0 <= j < |es| => TurnsIdle(cs, es, envs, k, j));
    forall j | i < j < n
      ensures idle[j + 1] == (idle[j] || turns[j])
    {
      KidStays(cs, es, envs, k, i, j);
      ClientSafety(cs, es, envs, j);
      StepKid(cs[j], es[j], envs[j], k);
    }
    Latch(idle, turns, i + 1, n);
    assert forall j | i < j < n :: turns[j] == TurnsIdle(cs, es, envs, k, j);
    KidStays(cs, es, envs, k, i, n);
    ClientSafety(cs, es, envs, n);
    assert k in cs[n].active <==> k in LiveKids(cs[n]);
  }

  // ---------- the client's own state ----------

  /** The connection is gone exactly when the context is idle, and connected only while it runs. */
  predicate StatesAgree(c: Client) {
    (c.state == Disconnected <==> c.ctx == Idle) && (c.state == Connected ==> c.ctx == Running)
  }

  lemma {:induction false} AskEachAgrees(c: Client, ks: seq<Child>, env: Env)
    requires StatesAgree(c) && c.state == Disconnecting && forall k | k in ks :: k in c.kids
    ensures StatesAgree(AskEach(c, ks, env)) && AskEach(c, ks, env).state == Disconnecting
  {
    if ks != [] {
      AskEachAgrees(c, ks[..|ks| - 1], env);
    }
  }

  lemma StepAgrees(c: Client, e: ClientEvent, env: Env)
    requires StatesAgree(c) && ClientCan(c, e)
    ensures StatesAgree(ClientStep(c, e, env))
  {
    if e.RequestClientStop? && c.state == Connected {
      AskEachAgrees(c.(state := Disconnecting), e.order, env);
    }
  }

  /** In every run the state of the connection and the state of the context agree. */
  lemma {:induction false} DisconnectedIffIdle(cs: seq<Client>, es: seq<ClientEvent>, envs: seq<Env>, n: nat)
    requires ClientRun(cs, es, envs) && cs[0] == Unstarted && n < |cs|
    ensures cs[n].state == Disconnected <==> cs[n].ctx == Idle
    ensures cs[n].state == Connected ==> cs[n].ctx == Running
  {
    if n > 0 {
      DisconnectedIffIdle(cs, es, envs, n - 1);
      StepAgrees(cs[n - 1], es[n - 1], envs[n - 1]);
    }
  }

  ghost predicate OnlyAccepted(c: Client, r: Client, env: Env) {
    (r.ctx, r.ownStop) == (c.ctx, c.ownStop) || (c.ctx == Running && r.ctx == Stopping && r.ownStop && env.stopsRoot)
  }

  lemma {:induction false} AskEachAccepted(c: Client, ks: seq<Child>, env: Env)
    requires forall k | k in ks :: k in c.kids
    ensures OnlyAccepted(c, AskEach(c, ks, env), env)
  {
    if ks != [] {
      AskEachAccepted(c, ks[..|ks| - 1], env);
    }
  }

  /** Apart from the SDK's own state changes, the client's context changes only if the SDK accepts its stop. */
  lemma ClientObeys(c: Client, e: ClientEvent, env: Env)
    requires ClientCan(c, e) && !e.Started? && !e.SdkStopping? && !e.SdkIdle?
    ensures OnlyAccepted(c, ClientStep(c, e, env), env)
  {
    if e.RequestClientStop? {
      AskEachAccepted(c.(state := Disconnecting), e.order, env);
    }
  }
}
