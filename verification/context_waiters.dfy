/**
 shoc::context: the state-change callback, and the fibers that wait for a context to run or to stop.
 */
module ContextWaiters {
  import opened Options

  datatype DocaState = Idle | Starting | Running | Stopping

  /** What a callback does, in order. */
  datatype Action =
    | Hook(next: DocaState)                              // state_changed of the concrete context
    | SignalParent                                       // parent_->signal_stopped_child
    | Continue(fiber: nat, awaited: DocaState, at: DocaState)

  datatype Ctx = Ctx(
    state: DocaState,
    coroStart: Option<nat>,
    coroStop: Option<nat>,
    hasHandle: bool,
    log: seq<Action>)

  datatype Event =
    | Changed(next: DocaState)
    | AwaitRunning(fiber: nat)
    | AwaitIdle(fiber: nat)

  /** A waiting fiber, if there is one, goes on while the context is in state `at`. */
  function Woken(fiber: Option<nat>, awaited: DocaState, at: DocaState): seq<Action> {
    if fiber.Some? then [Continue(fiber.value, awaited, at)] else []
  }

  function Step(c: Ctx, e: Event): Ctx {
    match e
    case Changed(next) =>
      var h := c.(state := next, log := c.log + [Hook(next)]);
      if next == Running then h.(coroStart := None, log := h.log + Woken(c.coroStart, Running, h.state))
      else if next == Idle then
        h.(coroStop := None, hasHandle := false, log := h.log + [SignalParent] + Woken(c.coroStop, Idle, h.state))
      else h
    case AwaitRunning(f) =>
      if c.state == Running then c.(log := c.log + [Continue(f, Running, c.state)]) else c.(coroStart := Some(f))
    case AwaitIdle(f) =>
      if c.state == Idle then c.(log := c.log + [Continue(f, Idle, c.state)]) else c.(coroStop := Some(f))
  }

  class Context {
    var currentState: DocaState
    var coroStart: Option<nat>
    var coroStop: Option<nat>
    var hasHandle: bool
    ghost var log: seq<Action>

    ghost function View(): Ctx
      reads this
    {
      Ctx(currentState, coroStart, coroStop, hasHandle, log)
    }

    constructor ()
      ensures View() == Ctx(Idle, None, None, true, [])
    {
      currentState, coroStart, coroStop, hasHandle, log := Idle, None, None, true, [];
    }

    /** Takes the waiting fiber out before the parent is told, and lets it go on last of all. */
    method StateChangedCallback(next: DocaState)
      modifies this
      ensures View() == Step(old(View()), Changed(next))
    {
      currentState := next;
      log := log + [Hook(next)];
      if next == Running {
        var coro := coroStart;
        coroStart := None;
        if coro.Some? {
          log := log + [Continue(coro.value, Running, currentState)];
        }
      } else if next == Idle {
        var coro := coroStop;
        coroStop := None;
        hasHandle := false;
        log := log + [SignalParent];
        if coro.Some? {
          log := log + [Continue(coro.value, Idle, currentState)];
        }
      }
    }

    /** await_ready and await_suspend of the awaitable that stop() returns. */
    method AwaitStopped(fiber: nat)
      modifies this
      ensures View() == Step(old(View()), AwaitIdle(fiber))
    {
      if currentState == Idle {
        log := log + [Continue(fiber, Idle, currentState)];
      } else {
        coroStop := Some(fiber);
      }
    }

    method AwaitStarted(fiber: nat)
      modifies this
      ensures View() == Step(old(View()), AwaitRunning(fiber))
    {
      if currentState == Running {
        log := log + [Continue(fiber, Running, currentState)];
      } else {
        coroStart := Some(fiber);
      }
    }
  }

  // ---------- runs ----------

  /** Every fiber awaits once. */
  ghost predicate Run(cs: seq<Ctx>, es: seq<Event>) {
    && |cs| == |es| + 1
    && cs[0] == Ctx(Idle, None, None, true, [])
    && (forall i | 0 <= i < |es| :: cs[i + 1] == Step(cs[i], es[i]))
    && (forall i, j | 0 <= i < j < |es| && !es[i].Changed? && !es[j].Changed? :: es[i].fiber != es[j].fiber)
  }

  /** How often fiber `f` went on. */
  ghost function Continued(log: seq<Action>, f: nat): nat {
    if log == [] then 0
    else Continued(log[..|log| - 1], f) +
         if log[|log| - 1].Continue? && log[|log| - 1].fiber == f then 1 else 0
  }

  lemma CountOne(log: seq<Action>, a: Action, f: nat)
    ensures Continued(log + [a], f) == Continued(log, f) + if a.Continue? && a.fiber == f then 1 else 0
  {
    assert (log + [a])[..|log|] == log;
  }

  lemma CountWoken(log: seq<Action>, fiber: Option<nat>, awaited: DocaState, at: DocaState, f: nat)
    ensures Continued(log + Woken(fiber, awaited, at), f) == Continued(log, f) + if fiber == Some(f) then 1 else 0
  {
    if fiber.Some? {
      CountOne(log, Continue(fiber.value, awaited, at), f);
    } else {
      assert log + Woken(fiber, awaited, at) == log;
    }
  }

  /** How a single step changes how often fiber `f` went on. */
  lemma StepCounts(c: Ctx, e: Event, f: nat)
    ensures Continued(Step(c, e).log, f) == Continued(c.log, f) +
              match e
              case Changed(next) =>
                if next == Running && c.coroStart == Some(f) then 1
                else if next == Idle && c.coroStop == Some(f) then 1 else 0
              case AwaitRunning(g) => if c.state == Running && f == g then 1 else 0
              case AwaitIdle(g) => if c.state == Idle && f == g then 1 else 0
  {
    match e
    case Changed(next) =>
      var h := c.log + [Hook(next)];
      CountOne(c.log, Hook(next), f);
      CountOne(h, SignalParent, f);
      CountWoken(h, c.coroStart, Running, next, f);
      CountWoken(h + [SignalParent], c.coroStop, Idle, next, f);
    case AwaitRunning(g) => CountOne(c.log, Continue(g, Running, c.state), f);
    case AwaitIdle(g) => CountOne(c.log, Continue(g, Idle, c.state), f);
  }

  /** Fiber `f` awaited at step `i`, but another fiber took its place before the context was idle. */
  ghost predicate Displaced(cs: seq<Ctx>, es: seq<Event>, f: nat, n: nat) {
    exists j :: 0 <= j < n && TakesPlace(cs, es, f, j)
  }

  ghost predicate TakesPlace(cs: seq<Ctx>, es: seq<Event>, f: nat, j: nat) {
    && j < |es| && j < |cs| && es[j].AwaitIdle? && es[j].fiber != f
    && cs[j].coroStop == Some(f) && cs[j].state != Idle
  }

  /** Whoever sits in one of the two places has awaited that state. */
  lemma {:induction false} PlacesTaken(cs: seq<Ctx>, es: seq<Event>, n: nat)
    requires Run(cs, es) && n < |cs|
    ensures cs[n].coroStop.Some? ==> exists i :: 0 <= i < n && es[i] == AwaitIdle(cs[n].coroStop.value)
    ensures cs[n].coroStart.Some? ==> exists i :: 0 <= i < n && es[i] == AwaitRunning(cs[n].coroStart.value)
  {
    if n > 0 {
      PlacesTaken(cs, es, n - 1);
      assert es[n - 1].AwaitIdle? ==> es[n - 1] == AwaitIdle(es[n - 1].fiber);
    }
  }

  lemma AwaitsOnce(cs: seq<Ctx>, es: seq<Event>, i: nat, j: nat)
    requires Run(cs, es) && i < |es| && j < |es| && !es[i].Changed? && !es[j].Changed?
    requires es[i].fiber == es[j].fiber
    ensures i == j
  {
  }

  lemma OthersAwait(cs: seq<Ctx>, es: seq<Event>, i: nat, j: nat)
    requires Run(cs, es) && i < |es| && j < |es| && i != j && !es[i].Changed?
    ensures es[j].Changed? || es[j].fiber != es[i].fiber
  {
  }

  lemma {:induction false} NotYetThere(cs: seq<Ctx>, es: seq<Event>, i: nat, n: nat)
    requires Run(cs, es) && i < |es| && !es[i].Changed? && n <= i
    ensures cs[n].coroStop != Some(es[i].fiber) && cs[n].coroStart != Some(es[i].fiber)
  {
    if n > 0 {
      NotYetThere(cs, es, i, n - 1);
      OthersAwait(cs, es, i, n - 1);
    }
  }

  lemma {:induction false} BeforeAwait(cs: seq<Ctx>, es: seq<Event>, i: nat, n: nat)
    requires Run(cs, es) && i < |es| && !es[i].Changed? && n <= i
    ensures Continued(cs[n].log, es[i].fiber) == 0
    ensures cs[n].coroStop != Some(es[i].fiber) && cs[n].coroStart != Some(es[i].fiber)
    ensures !Displaced(cs, es, es[i].fiber, n)
  {
    NotYetThere(cs, es, i, n);
    if n > 0 {
      BeforeAwait(cs, es, i, n - 1);
      StepCounts(cs[n - 1], es[n - 1], es[i].fiber);
      DisplacedNext(cs, es, es[i].fiber, n - 1);
      NotYetThere(cs, es, i, n - 1);
      OthersAwait(cs, es, i, n - 1);
    }
  }

  /** Where a fiber that has awaited stop() is: it went on once, or waits, or lost its place. */
  ghost predicate Settled(c: Ctx, f: nat, displaced: bool) {
    && c.coroStart != Some(f)
    && Continued(c.log, f) == (if c.coroStop == Some(f) || displaced then 0 else 1)
    && (c.coroStop == Some(f) ==> c.state != Idle && !displaced)
  }

  lemma SettledStep(c: Ctx, e: Event, f: nat, displaced: bool)
    requires Settled(c, f, displaced) && (e.Changed? || e.fiber != f)
    ensures Settled(Step(c, e), f, displaced || (e.AwaitIdle? && c.coroStop == Some(f) && c.state != Idle))
  {
    StepCounts(c, e, f);
  }

  lemma DisplacedNext(cs: seq<Ctx>, es: seq<Event>, f: nat, n: nat)
    ensures Displaced(cs, es, f, n + 1) <==> Displaced(cs, es, f, n) || TakesPlace(cs, es, f, n)
  {
  }

  /**
   A fiber that awaits stop() at step `i`: at every later point it has gone on exactly once, or still
   waits and the context is not idle, or another fiber took its place, which never happens to the
   only fiber that awaits stop().
   */
  lemma {:induction false} StopWaiter(cs: seq<Ctx>, es: seq<Event>, i: nat, n: nat)
    requires Run(cs, es) && i < |es| && es[i].AwaitIdle? && i < n < |cs|
    ensures var f, c := es[i].fiber, cs[n];
            && c.coroStart != Some(f)
            && Continued(c.log, f) == (if c.coroStop == Some(f) || Displaced(cs, es, f, n) then 0 else 1)
            && (c.coroStop == Some(f) ==> c.state != Idle && !Displaced(cs, es, f, n))
            && (Displaced(cs, es, f, n) ==> exists j :: 0 <= j < n && j != i && es[j].AwaitIdle?)
  {
    var f := es[i].fiber;
    DisplacedNext(cs, es, f, n - 1);
    if n == i + 1 {
      BeforeAwait(cs, es, i, i);
      StepCounts(cs[i], es[i], f);
    } else {
      StopWaiter(cs, es, i, n - 1);
      SettledStep(cs[n - 1], es[n - 1], f, Displaced(cs, es, f, n - 1));
    }
  }

  /** The state that an event waits for. */
  function Desired(e: Event): DocaState
    requires !e.Changed?
  {
    if e.AwaitIdle? then Idle else Running
  }

  /**
   Never early. In every run, a fiber that awaits stop() at step `i` only ever goes on at a step after
   which the context is idle, and one that awaits the start only when it is running; and neither goes
   on before it has awaited.
   */
  lemma NeverEarly(cs: seq<Ctx>, es: seq<Event>, i: nat, n: nat)
    requires Run(cs, es) && i < |es| && !es[i].Changed? && n < |es|
    requires Continued(cs[n + 1].log, es[i].fiber) > Continued(cs[n].log, es[i].fiber)
    ensures i <= n && cs[n + 1].state == Desired(es[i])
  {
    var f := es[i].fiber;
    StepCounts(cs[n], es[n], f);
    PlacesTaken(cs, es, n);
    if es[n] == Changed(Idle) {
      var j :| 0 <= j < n && es[j] == AwaitIdle(f);
      AwaitsOnce(cs, es, i, j);
    } else if es[n].Changed? {
      var j :| 0 <= j < n && es[j] == AwaitRunning(f);
      AwaitsOnce(cs, es, i, j);
    } else {
      AwaitsOnce(cs, es, i, n);
    }
  }

  predicate Agrees(a: Action) {
    a.Continue? ==> a.at == a.awaited
  }

  lemma StepAgrees(c: Ctx, e: Event)
    requires forall i | 0 <= i < |c.log| :: Agrees(c.log[i])
    ensures forall i | 0 <= i < |Step(c, e).log| :: Agrees(Step(c, e).log[i])
  {
    var r := Step(c, e);
    assert forall i | 0 <= i < |c.log| :: r.log[i] == c.log[i];
  }

  /** Each entry of the log agrees: what a fiber awaited is the state in which it went on. */
  lemma {:induction false} LogNeverEarly(cs: seq<Ctx>, es: seq<Event>, n: nat)
    requires Run(cs, es) && n < |cs|
    ensures forall i | 0 <= i < |cs[n].log| :: Agrees(cs[n].log[i])
  {
    if n > 0 {
      LogNeverEarly(cs, es, n - 1);
      StepAgrees(cs[n - 1], es[n - 1]);
    }
  }

  /** Displacement happens: the second of two fibers that await the stop goes on, the first never does. */
  lemma DisplacedRun() returns (cs: seq<Ctx>, es: seq<Event>)
    ensures Run(cs, es) && es == [Changed(Running), AwaitIdle(1), AwaitIdle(2), Changed(Idle)]
    ensures cs[4].state == Idle && Displaced(cs, es, 1, 4)
    ensures Continued(cs[4].log, 1) == 0 && Continued(cs[4].log, 2) == 1
  {
    es := [Changed(Running), AwaitIdle(1), AwaitIdle(2), Changed(Idle)];
    var c0 := Ctx(Idle, None, None, true, []);
    var c1 := Step(c0, es[0]);
    var c2 := Step(c1, es[1]);
    var c3 := Step(c2, es[2]);
    cs := [c0, c1, c2, c3, Step(c3, es[3])];
    assert TakesPlace(cs, es, 1, 2);
    StopWaiter(cs, es, 1, 4);
    StopWaiter(cs, es, 2, 4);
    assert forall j | 0 <= j < 4 :: !TakesPlace(cs, es, 2, j);
  }
}
