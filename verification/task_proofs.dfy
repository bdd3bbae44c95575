/** Conservation of tasks, results and wake-ups over every run of an offload. */
module TaskProofs {
  import opened MachineWords
  import opened TaskSpec

  /** A task is freed once and its receptable written once, both at the very end. */
  ghost predicate Conserved(o: Offload) {
    && |o.results| == (if o.phase.Done? then 1 else 0)
    && o.frees == (if o.phase.Done? && o.hasTask then 1 else 0)
    && (!o.phase.Done? ==> o.hasTask)
  }

  /** The error of a given-up resubmission was stored while the fiber was already suspended. */
  ghost predicate Unwoken(o: Offload) {
    o.suspended && o.phase.Done? && !o.posted && o.continued == []
  }

  /** The fiber goes on at most once, and only with what was stored. */
  ghost predicate WokenOnce(o: Offload) {
    && (o.continued == [] || (o.phase.Done? && o.awaited && o.continued == o.results))
    && (o.posted ==> o.phase.Done? && (o.suspended ==> o.continued == []))
    && (o.suspended ==> o.awaited)
    && (o.awaited && !o.suspended ==> o.continued == o.results && o.phase.Done?)
    && (o.phase.Immediate? ==> !o.awaited)
  }

  ghost predicate Inv(o: Offload) {
    Conserved(o) && WokenOnce(o)
  }

  /** The answer to a delayed resubmission that makes it give up: an error, or no attempt or no context left. */
  predicate GivesUp(o: Offload, e: Event) {
    && o.phase.Delayed? && e.Reply? && e.status != Ok
    && !(e.status == TryAgain && Decrement(o.phase.attempts) > 0 && e.connected)
  }

  lemma StepKeeps(o: Offload, cfg: Config, e: Event)
    requires Inv(o) && Possible(o, e)
    ensures Inv(Step(o, cfg, e))
    ensures Unwoken(Step(o, cfg, e)) <==> Unwoken(o) || (o.suspended && GivesUp(o, e))
  {
  }

  /** At step `i` a delayed resubmission was answered so that it gave up, while the fiber was suspended. */
  ghost predicate GivenUpWhileSuspended(os: seq<Offload>, es: seq<Event>, i: nat) {
    i < |es| && i < |os| && os[i].suspended && GivesUp(os[i], es[i])
  }

  lemma {:induction false} RunKeeps(os: seq<Offload>, es: seq<Event>, cfg: Config, n: nat)
    requires Run(os, es, cfg) && n < |os|
    ensures Inv(os[n])
    ensures Unwoken(os[n]) <==> exists i :: 0 <= i < n && GivenUpWhileSuspended(os, es, i)
  {
    if n > 0 {
      RunKeeps(os, es, cfg, n - 1);
      StepKeeps(os[n - 1], cfg, es[n - 1]);
      assert GivenUpWhileSuspended(os, es, n - 1) <==> os[n - 1].suspended && GivesUp(os[n - 1], es[n - 1]);
    }
  }

  /**
   Task conservation. In every run, over every interleaving of submit results, timer ticks,
   completions and the fiber's co_await: the DOCA task is freed at most once, its receptable is written
   at most once, and both have happened exactly when the offload is over.
   */
  lemma TaskConservation(os: seq<Offload>, es: seq<Event>, cfg: Config, n: nat)
    requires Run(os, es, cfg) && n < |os|
    ensures os[n].frees <= 1 && |os[n].results| <= 1
    ensures os[n].phase.Done? <==> |os[n].results| == 1
    ensures os[n].hasTask ==> (os[n].phase.Done? <==> os[n].frees == 1)
  {
    RunKeeps(os, es, cfg, n);
  }

  /**
   Rendezvous. In every run the fiber goes on at most once and only with the stored result. When the
   offload is over and awaited and no resume is posted, it has gone on, unless the offload was given
   up by a delayed resubmission while the fiber was suspended: that error is stored without a resume.
   */
  lemma Rendezvous(os: seq<Offload>, es: seq<Event>, cfg: Config, n: nat)
    requires Run(os, es, cfg) && n < |os|
    ensures os[n].continued == [] || os[n].continued == os[n].results
    ensures os[n].phase.Done? && os[n].awaited && !os[n].posted ==>
              (os[n].continued == os[n].results <==>
                !exists i :: 0 <= i < n && GivenUpWhileSuspended(os, es, i))
  {
    RunKeeps(os, es, cfg, n);
  }

  /** Such a run, with one resubmission: busy, the fiber suspends, busy again; the fiber waits on. */
  lemma UnwokenRun() returns (os: seq<Offload>, es: seq<Event>)
    ensures Run(os, es, Config(0, 1)) && es == [Reply(TryAgain, true), Await, Reply(TryAgain, true)]
    ensures os[3].phase.Done? && os[3].results == [TryAgain]
    ensures os[3].awaited && !os[3].posted && os[3].continued == []
  {
    var cfg := Config(0, 1);
    es := [Reply(TryAgain, true), Await, Reply(TryAgain, true)];
    var o1 := Step(Start(Ok), cfg, es[0]);
    var o2 := Step(o1, cfg, es[1]);
    os := [Start(Ok), o1, o2, Step(o2, cfg, es[2])];
    assert os[0] == Start(Ok);
  }

  // ---------- how often a task is submitted ----------

  /** How many resubmissions the timer loop can make: its counter wraps when it starts at zero. */
  function MaxDelayed(cfg: Config): nat {
    if cfg.resubmissions == 0 then TWO32 else cfg.resubmissions
  }

  ghost predicate Bounded(o: Offload, cfg: Config) {
    match o.phase
    case Immediate(a) => o.submissions == a && a <= cfg.immediate
    case Delayed(a) =>
      && a < TWO32
      && o.submissions + (if a == 0 then TWO32 else a) == cfg.immediate + 1 + MaxDelayed(cfg)
    case _ => o.submissions <= cfg.immediate + 1 + MaxDelayed(cfg)
  }

  lemma BoundedKeeps(o: Offload, cfg: Config, e: Event)
    requires Fits(cfg) && cfg.immediate < TWO32 - 1
    requires Bounded(o, cfg) && Possible(o, e)
    ensures Bounded(Step(o, cfg, e), cfg)
  {
    if e.Reply? {
      BoundedReply(o, cfg, e.status, e.connected);
    } else {
      var r := Step(o, cfg, e);
      assert r.submissions == o.submissions;
      assert r.phase == o.phase || (o.phase.InFlight? && r.phase.Done?);
    }
  }

  lemma BoundedReply(o: Offload, cfg: Config, s: Status, connected: bool)
    requires Fits(cfg) && cfg.immediate < TWO32 - 1
    requires Bounded(o, cfg) && (o.phase.Immediate? || o.phase.Delayed?)
    ensures Bounded(OnReply(o, cfg, s, connected), cfg)
  {
  }

  lemma {:induction false} SubmissionsBounded(os: seq<Offload>, es: seq<Event>, cfg: Config, n: nat)
    requires Fits(cfg) && cfg.immediate < TWO32 - 1
    requires Run(os, es, cfg) && n < |os|
    ensures Bounded(os[n], cfg)
    ensures os[n].submissions <= cfg.immediate + 1 + MaxDelayed(cfg)
  {
    if n > 0 {
      SubmissionsBounded(os, es, cfg, n - 1);
      BoundedKeeps(os[n - 1], cfg, es[n - 1]);
    }
  }

  /** The offload after the first `n` answers of the SDK, as long as it still submits. */
  ghost function Replies(o: Offload, cfg: Config, replies: nat -> Status, n: nat): Offload {
    if n == 0 then o
    else
      var p := Replies(o, cfg, replies, n - 1);
      if p.phase.Immediate? || p.phase.Delayed? then OnReply(p, cfg, replies(n - 1), true) else p
  }

  /** The loop of submit_task goes on after `n` refusals: the limit is not reached, or can never be. */
  predicate LoopsOn(cfg: Config, n: nat) {
    n <= cfg.immediate || cfg.immediate == TWO32 - 1
  }

  /** The std::uint32_t counter after `n` increments. */
  function Counter(n: nat): nat {
    if n == 0 then 0 else Increment(Counter(n - 1))
  }

  lemma {:induction false} CounterIs(n: nat)
    ensures Counter(n) < TWO32 && (n < TWO32 ==> Counter(n) == n)
  {
    if n > 0 {
      CounterIs(n - 1);
    }
  }

  /** The condition of the loop. */
  lemma LoopGuard(cfg: Config, n: nat)
    requires Fits(cfg) && n > 0 && LoopsOn(cfg, n - 1)
    ensures Counter(n) <= cfg.immediate <==> LoopsOn(cfg, n)
  {
    CounterIs(n);
  }

  lemma {:induction false} StillImmediate(o: Offload, cfg: Config, replies: nat -> Status, n: nat)
    requires o.phase == Immediate(0) && o.submissions == 0 && Fits(cfg)
    requires LoopsOn(cfg, n) && forall i | 0 <= i < n :: replies(i) == TryAgain
    ensures Replies(o, cfg, replies, n) == o.(phase := Immediate(Counter(n)), submissions := n)
  {
    if n > 0 {
      StillImmediate(o, cfg, replies, n - 1);
      LoopGuard(cfg, n);
    }
  }

  /** The `n`-th answer ends the loop of submit_task. */
  lemma LastReply(o: Offload, cfg: Config, replies: nat -> Status, n: nat)
    requires o.phase == Immediate(0) && o.submissions == 0 && Fits(cfg) && 1 <= n
    requires LoopsOn(cfg, n - 1) && forall i | 0 <= i < n - 1 :: replies(i) == TryAgain
    requires replies(n - 1) == TryAgain ==> !LoopsOn(cfg, n)
    ensures Replies(o, cfg, replies, n) ==
            match replies(n - 1)
            case Ok => o.(phase := InFlight, submissions := n)
            case TryAgain => o.(phase := Delayed(cfg.resubmissions), submissions := n)
            case Error(_) =>
              o.(phase := Done, submissions := n, frees := o.frees + 1, results := o.results + [replies(n - 1)])
  {
    StillImmediate(o, cfg, replies, n - 1);
    LoopGuard(cfg, n);
  }

  /** The offload after `n` submissions that were all answered with DOCA_ERROR_AGAIN. */
  ghost function Busy(cfg: Config, n: nat): Offload {
    Replies(Start(Ok), cfg, i => TryAgain, n)
  }

  /** Against a busy device the bound is reached: exactly that many submissions are made. */
  lemma {:induction false} BoundReached(cfg: Config, n: nat)
    requires Fits(cfg) && cfg.immediate < TWO32 - 1 && n <= cfg.immediate + 1 + MaxDelayed(cfg)
    ensures var o := Busy(cfg, n);
            && o.submissions == n && Bounded(o, cfg)
            && (o.phase.Immediate? <==> n <= cfg.immediate)
            && (o.phase.Done? <==> n == cfg.immediate + 1 + MaxDelayed(cfg))
            && !o.phase.InFlight?
  {
    if n > 0 {
      BoundReached(cfg, n - 1);
    }
  }

  /**
   The bound "immediate attempts + 1 + resubmission attempts" is met against a busy device if and
   only if at least one resubmission is configured; with zero, the counter wraps.
   */
  lemma DocumentedBound(cfg: Config)
    requires Fits(cfg) && cfg.immediate < TWO32 - 1
    ensures Busy(cfg, cfg.immediate + 1 + cfg.resubmissions).phase.Done? <==> cfg.resubmissions >= 1
  {
    BoundReached(cfg, cfg.immediate + 1 + cfg.resubmissions);
  }

  /** With 2^32 - 1 immediate attempts the counter wraps below the limit: a busy device is retried forever. */
  lemma {:induction false} NeverGivesUp(cfg: Config, n: nat)
    requires cfg.immediate == TWO32 - 1
    ensures Busy(cfg, n).phase.Immediate? && Busy(cfg, n).phase.attempts < TWO32
  {
    if n > 0 {
      NeverGivesUp(cfg, n - 1);
    }
  }
}
