/** What a context's callback does over whole runs: start waiters, the parent, the handle. */
module ContextHistory {
  import opened ContextWaiters
  import opened Histories
  import opened Options

  // ---------- start waiters ----------

  /** At step `j` another fiber takes the place of the start waiter `f`. */
  ghost predicate TakesStart(cs: seq<Ctx>, es: seq<Event>, f: nat, j: nat) {
    && j < |es| && j < |cs| && es[j].AwaitRunning? && es[j].fiber != f
    && cs[j].coroStart == Some(f) && cs[j].state != Running
  }

  ghost predicate StartTaken(cs: seq<Ctx>, es: seq<Event>, f: nat, i: nat, n: nat) {
    exists j :: i < j < n && TakesStart(cs, es, f, j)
  }

  lemma StartTakenNext(cs: seq<Ctx>, es: seq<Event>, f: nat, i: nat, n: nat)
    requires i < n
    ensures StartTaken(cs, es, f, i, n + 1) <==> StartTaken(cs, es, f, i, n) || TakesStart(cs, es, f, n)
  {
  }

  /** Where a fiber that has awaited the start is: it went on once, or waits, or lost its place. */
  ghost predicate Started(c: Ctx, f: nat, displaced: bool) {
    && c.coroStop != Some(f)
    && Continued(c.log, f) == (if c.coroStart == Some(f) || displaced then 0 else 1)
    && (c.coroStart == Some(f) ==> c.state != Running && !displaced)
  }

  lemma StartedStep(c: Ctx, e: Event, f: nat, displaced: bool)
    requires Started(c, f, displaced) && (e.Changed? || e.fiber != f)
    ensures Started(Step(c, e), f, displaced || (e.AwaitRunning? && c.coroStart == Some(f) && c.state != Running))
  {
    StepCounts(c, e, f);
  }

  /**
   A fiber that awaits the start at step `i`: at every later point it has gone on exactly once, or still
   waits and the context is not running, or another fiber that awaits the start took its place.
   */
  lemma {:induction false} StartWaiter(cs: seq<Ctx>, es: seq<Event>, i: nat, n: nat)
    requires Run(cs, es) && i < |es| && es[i].AwaitRunning? && i < n < |cs|
    ensures Started(cs[n], es[i].fiber, StartTaken(cs, es, es[i].fiber, i, n))
  {
    var f := es[i].fiber;
    if n == i + 1 {
      BeforeAwait(cs, es, i, i);
      StepCounts(cs[i], es[i], f);
    } else {
      StartWaiter(cs, es, i, n - 1);
      OthersAwait(cs, es, i, n - 1);
      StartedStep(cs[n - 1], es[n - 1], f, StartTaken(cs, es, f, i, n - 1));
      StartTakenNext(cs, es, f, i, n - 1);
    }
  }

  // ---------- the parent, the hook and the state ----------

  ghost function Signals(log: seq<Action>): nat {
    if log == [] then 0 else Signals(log[..|log| - 1]) + if log[|log| - 1].SignalParent? then 1 else 0
  }

  ghost function Hooks(log: seq<Action>): nat {
    if log == [] then 0 else Hooks(log[..|log| - 1]) + if log[|log| - 1].Hook? then 1 else 0
  }

  ghost function Changes(es: seq<Event>): nat {
    if es == [] then 0 else Changes(es[..|es| - 1]) + if es[|es| - 1].Changed? then 1 else 0
  }

  ghost function Idles(es: seq<Event>): nat {
    if es == [] then 0 else Idles(es[..|es| - 1]) + if es[|es| - 1] == Changed(Idle) then 1 else 0
  }

  lemma LogOne(log: seq<Action>, a: Action)
    ensures Signals(log + [a]) == Signals(log) + if a.SignalParent? then 1 else 0
    ensures Hooks(log + [a]) == Hooks(log) + if a.Hook? then 1 else 0
  {
    assert (log + [a])[..|log|] == log;
  }

  lemma LogWoken(log: seq<Action>, fiber: Option<nat>, awaited: DocaState, at: DocaState)
    ensures Signals(log + Woken(fiber, awaited, at)) == Signals(log)
    ensures Hooks(log + Woken(fiber, awaited, at)) == Hooks(log)
  {
    if fiber.Some? {
      LogOne(log, Continue(fiber.value, awaited, at));
    } else {
      assert log + Woken(fiber, awaited, at) == log;
    }
  }

  lemma StepLog(c: Ctx, e: Event)
    ensures Signals(Step(c, e).log) == Signals(c.log) + if e == Changed(Idle) then 1 else 0
    ensures Hooks(Step(c, e).log) == Hooks(c.log) + if e.Changed? then 1 else 0
  {
    match e
    case Changed(next) =>
      var h := c.log + [Hook(next)];
      LogOne(c.log, Hook(next));
      LogOne(h, SignalParent);
      LogWoken(h, c.coroStart, Running, next);
      LogWoken(h + [SignalParent], c.coroStop, Idle, next);
    case AwaitRunning(f) => LogOne(c.log, Continue(f, Running, c.state));
    case AwaitIdle(f) => LogOne(c.log, Continue(f, Idle, c.state));
  }

  /** In every run the hook runs once for each state change, and the parent is told once for each IDLE. */
  lemma {:induction false} ParentToldOnce(cs: seq<Ctx>, es: seq<Event>, n: nat)
    requires Run(cs, es) && n < |cs|
    ensures Signals(cs[n].log) == Idles(es[..n]) && Hooks(cs[n].log) == Changes(es[..n])
  {
    if n > 0 {
      ParentToldOnce(cs, es, n - 1);
      StepLog(cs[n - 1], es[n - 1]);
      assert es[..n][..n - 1] == es[..n - 1];
    }
  }

  /** In every run the context is in the state that the SDK reported last. */
  lemma {:induction false} StateIsReported(cs: seq<Ctx>, es: seq<Event>, i: nat, n: nat)
    requires Run(cs, es) && i < n < |cs| && es[i].Changed? && forall j | i < j < n :: !es[j].Changed?
    ensures cs[n].state == es[i].next
  {
    if n > i + 1 {
      StateIsReported(cs, es, i, n - 1);
    }
  }

  lemma StepHandle(c: Ctx, e: Event)
    ensures !Step(c, e).hasHandle <==> !c.hasHandle || e == Changed(Idle)
  {
  }

  /** In every run the handle is there until the context was reported idle. */
  lemma HandleUntilIdle(cs: seq<Ctx>, es: seq<Event>, n: nat)
    requires Run(cs, es) && n < |cs|
    ensures cs[n].hasHandle <==> forall i | 0 <= i < n :: es[i] != Changed(Idle)
  {
    var gone := seq(|cs|, i requires 0 <= i < |cs| => !cs[i].hasHandle);
    var idles := seq(|es|, i requires 0 <= i < |es| => es[i] == Changed(Idle));
    forall i | 0 <= i < n
      ensures gone[i + 1] == (gone[i] || idles[i])
    {
      StepHandle(cs[i], es[i]);
    }
    Latch(gone, idles, 0, n);
    assert forall i | 0 <= i < n :: idles[i] == (es[i] == Changed(Idle));
  }
}
