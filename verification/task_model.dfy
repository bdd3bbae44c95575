/**
 progress_engine::submit_task, delayed_resubmission, plain_status_callback and the receptable as
 objects. A suspended coroutine is resumed by callbacks, so each stretch of code between two
 suspension points is a method of its own.
 */
module TaskModel {
  import opened MachineWords
  import opened Options
  import opened TaskSpec
  import opened TaskProofs

  /** coro::value_receptable, with the single fiber that awaits it. */
  class Receptable {
    var value: Option<Status>
    var waiter: bool               // waiter_ != nullptr
    ghost var results: seq<Status>
    ghost var continued: seq<Status>

    constructor ()
      ensures Valid() && results == [] && continued == [] && !waiter
    {
      value, waiter, results, continued := None, false, [], [];
    }

    ghost predicate Valid()
      reads this
    {
      if results == [] then value == None else value == Some(results[|results| - 1])
    }

    method SetValue(s: Status)
      requires Valid()
      modifies this
      ensures Valid() && results == old(results) + [s] && unchanged(`waiter, `continued)
    {
      value, results := Some(s), results + [s];
    }

    /** Only one coroutine may wait: a second one gets DOCA_ERROR_IN_USE. */
    method SetWaiter() returns (inUse: bool)
      requires Valid()
      modifies this
      ensures Valid() && unchanged(`results, `continued) && waiter && inUse == old(waiter)
    {
      inUse := waiter;
      waiter := true;
    }

    method Resume()
      requires Valid() && results != []
      modifies this
      ensures Valid() && unchanged(`results, `waiter)
      ensures continued == if waiter then old(continued) + [results[|results| - 1]] else old(continued)
    {
      if waiter {
        continued := continued + [value.value];
      }
    }
  }

  /** One task on its way through the engine. */
  class Submission {
    const cfg: Config
    const reportee: Receptable
    var phase: Phase
    var hasTask: bool
    var posted: bool
    ghost var submissions: nat
    ghost var frees: nat
    ghost var awaited: bool

    ghost function View(): Offload
      reads this, reportee
    {
      Offload(phase, hasTask, submissions, frees, reportee.results,
              reportee.waiter, awaited, posted, reportee.continued)
    }

    /** status_offload up to the call of submit_task. */
    constructor (cfg: Config, reportee: Receptable, failure: Status)
      requires reportee.Valid() && reportee.results == [] && reportee.continued == [] && !reportee.waiter
      modifies reportee
      ensures this.cfg == cfg && this.reportee == reportee && reportee.Valid() && View() == Start(failure)
    {
      this.cfg, this.reportee, posted, submissions, frees, awaited := cfg, reportee, false, 0, 0, false;
      phase, hasTask := if failure == Ok then Immediate(0) else Done, failure == Ok;
      new;
      if failure != Ok {
        reportee.SetValue(failure);
      }
    }

    /** doca_task_free, then set_error. */
    method Fail(err: Status)
      requires reportee.Valid()
      modifies this, reportee
      ensures reportee.Valid() && View() == old(View()).(
                phase := Done, frees := old(frees) + 1, results := old(reportee.results) + [err])
    {
      frees := frees + 1;
      reportee.SetValue(err);
      phase := Done;
    }

    /**
     The do-while loop of submit_task: `replies(i)` is the answer to the i-th submission. With 2^32 - 1
     immediate attempts it ends only if the device is not busy for ever, i.e. not at some `end`.
     */
    method SubmitRepeatedly(replies: nat -> Status, ghost end: nat) returns (err: Status, n: nat)
      requires Fits(cfg) && (cfg.immediate == TWO32 - 1 ==> replies(end) != TryAgain)
      modifies `submissions
      ensures 1 <= n && submissions == old(submissions) + n
      ensures err == replies(n - 1) && forall i | 0 <= i < n - 1 :: replies(i) == TryAgain
      ensures LoopsOn(cfg, n - 1) && (err == TryAgain ==> !LoopsOn(cfg, n))
    {
      err := replies(0);
      var attempts := Increment(0);
      submissions := submissions + 1;
      n := 1;
      while err == TryAgain && attempts <= cfg.immediate
        invariant 1 <= n && attempts == Counter(n) && submissions == old(submissions) + n
        invariant err == replies(n - 1) && forall i | 0 <= i < n - 1 :: replies(i) == TryAgain
        invariant LoopsOn(cfg, n - 1)
        decreases if cfg.immediate == TWO32 - 1 then end + 1 - n else cfg.immediate + 1 - n
      {
        err := replies(n);
        LoopGuard(cfg, n);
        attempts := Increment(attempts);
        submissions := submissions + 1;
        n := n + 1;
      }
      LoopGuard(cfg, n);
    }

    /** submit_task: makes `n` submissions, then hands over to the timer, the SDK or the receptable. */
    method SubmitTask(replies: nat -> Status, ghost end: nat) returns (n: nat)
      requires Fits(cfg) && (cfg.immediate == TWO32 - 1 ==> replies(end) != TryAgain)
      requires reportee.Valid() && phase == Immediate(0) && submissions == 0
      modifies this, reportee
      ensures reportee.Valid() && !phase.Immediate? && 1 <= n
      ensures View() == Replies(old(View()), cfg, replies, n)
    {
      var err;
      err, n := SubmitRepeatedly(replies, end);
      LastReply(old(View()), cfg, replies, n);
      HandOver(err);
    }

    method HandOver(err: Status)
      requires reportee.Valid()
      modifies this, reportee
      ensures reportee.Valid()
      ensures View() == match err
                case Ok => old(View()).(phase := InFlight)
                case TryAgain => old(View()).(phase := Delayed(cfg.resubmissions))
                case Error(_) =>
                  old(View()).(phase := Done, frees := old(frees) + 1, results := old(reportee.results) + [err])
    {
      if err == TryAgain {
        phase := Delayed(cfg.resubmissions);
      } else if err != Ok {
        Fail(err);
      } else {
        phase := InFlight;
      }
    }

    /** One round of delayed_resubmission, from the end of its timer to the next suspension or its end. */
    method TimerExpired(reply: Status, connected: bool)
      requires reportee.Valid() && phase.Delayed?
      modifies this, reportee
      ensures reportee.Valid() && View() == Step(old(View()), cfg, Reply(reply, connected))
    {
      var attempts := Decrement(phase.attempts);
      submissions := submissions + 1;
      if reply == TryAgain && attempts > 0 && connected {
        phase := Delayed(attempts);
      } else if reply != Ok {
        Fail(reply);
      } else {
        phase := InFlight;
      }
    }

    /** plain_status_callback, immediate or deferred. */
    method CompletionCallback(status: Status, deferred: bool)
      requires reportee.Valid() && phase.InFlight?
      modifies this, reportee
      ensures reportee.Valid() && View() == Step(old(View()), cfg, Complete(status, deferred))
    {
      frees := frees + 1;
      phase := Done;
      reportee.SetValue(status);
      if deferred {
        posted := true;
      } else {
        reportee.Resume();
      }
    }

    method RunPosted()
      requires reportee.Valid() && Possible(View(), Event.RunPosted)
      modifies this, reportee
      ensures reportee.Valid() && View() == Step(old(View()), cfg, Event.RunPosted)
    {
      posted := false;
      reportee.Resume();
    }

    /** co_await: goes on at once when the value is there, else suspends. */
    method Await()
      requires reportee.Valid() && Possible(View(), Event.Await)
      modifies this, reportee
      ensures reportee.Valid() && View() == Step(old(View()), cfg, Event.Await)
    {
      awaited := true;
      if reportee.value.Some? {
        reportee.continued := reportee.continued + [reportee.value.value];
      } else {
        var _ := reportee.SetWaiter();
      }
    }
  }
}
