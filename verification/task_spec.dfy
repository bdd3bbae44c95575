/**
 One offloaded task from allocation to the fiber that waits for it: submission with immediate and
 delayed retries, the completion callback, and the receptable where callback and fiber meet.
 */
module TaskSpec {
  import opened MachineWords

  datatype Status = Ok | TryAgain | Error(code: nat)  // doca_error_t

  datatype Config = Config(immediate: nat, resubmissions: nat)  // two std::uint32_t

  ghost predicate Fits(cfg: Config) {
    cfg.immediate < TWO32 && cfg.resubmissions < TWO32
  }

  /** ++ and -- on a std::uint32_t. */
  function Increment(a: nat): nat {
    if a == TWO32 - 1 then 0 else a + 1
  }

  function Decrement(a: nat): nat {
    if a == 0 then TWO32 - 1 else a - 1
  }

  datatype Phase =
    | Immediate(attempts: nat)  // inside the loop of submit_task
    | Delayed(attempts: nat)    // delayed_resubmission waits for its timer
    | InFlight                  // accepted by the SDK
    | Done

  datatype Offload = Offload(
    phase: Phase,
    hasTask: bool,              // a task object was allocated
    submissions: nat,           // calls of doca_task_submit
    frees: nat,                 // calls of doca_task_free
    results: seq<Status>,       // everything ever written into the receptable
    suspended: bool,            // waiter_ is set
    awaited: bool,              // the fiber has reached its co_await
    posted: bool,               // a deferred resume waits in the executor's queue
    continued: seq<Status>)     // values with which the fiber went on

  datatype Event =
    | Reply(status: Status, connected: bool)      // doca_task_submit returns
    | Complete(status: Status, deferred: bool)    // the completion callback
    | RunPosted                                   // the executor runs the posted resume
    | Await                                       // the fiber reaches co_await

  /** status_offload; without a task object the error goes straight into the receptable. */
  function Start(failure: Status): Offload {
    if failure == Ok then Offload(Immediate(0), true, 0, 0, [], false, false, false, [])
    else Offload(Done, false, 0, 0, [failure], false, false, false, [])
  }

  /** The awaitable reaches the fiber only when submit_task has returned; one fiber awaits it, once. */
  predicate Possible(o: Offload, e: Event) {
    match e
    case Reply(_, _) => o.phase.Immediate? || o.phase.Delayed?
    case Complete(_, _) => o.phase.InFlight?
    case RunPosted => o.posted && o.results != []
    case Await => !o.phase.Immediate? && !o.awaited
  }

  function Submitted(o: Offload, phase: Phase): Offload {
    o.(phase := phase, submissions := o.submissions + 1)
  }

  /** doca_task_free and set_error, without a resume. */
  function GiveUp(o: Offload, err: Status): Offload {
    o.(phase := Done, submissions := o.submissions + 1, frees := o.frees + 1, results := o.results + [err])
  }

  /** value_receptable::resume; `waiter_` is not cleared. */
  function Resume(o: Offload): Offload
    requires o.results != []
  {
    if o.suspended then o.(continued := o.continued + [o.results[|o.results| - 1]]) else o
  }

  function OnReply(o: Offload, cfg: Config, s: Status, connected: bool): Offload
    requires o.phase.Immediate? || o.phase.Delayed?
  {
    match o.phase
    case Immediate(a) =>
      var attempts := Increment(a);
      if s == Ok then Submitted(o, InFlight)
      else if s != TryAgain then GiveUp(o, s)
      else if attempts <= cfg.immediate then Submitted(o, Immediate(attempts))
      else Submitted(o, Delayed(cfg.resubmissions))
    case Delayed(a) =>
      var attempts := Decrement(a);
      if s == Ok then Submitted(o, InFlight)
      else if s == TryAgain && attempts > 0 && connected then Submitted(o, Delayed(attempts))
      else GiveUp(o, s)
  }

  function Step(o: Offload, cfg: Config, e: Event): (r: Offload)
    requires Possible(o, e)
  {
    match e
    case Reply(s, connected) => OnReply(o, cfg, s, connected)
    case Complete(s, deferred) =>
      var d := o.(phase := Done, frees := o.frees + 1, results := o.results + [s]);
      if deferred then d.(posted := true) else Resume(d)
    case RunPosted => Resume(o.(posted := false))
    case Await =>
      if o.results != [] then o.(awaited := true, continued := o.continued + [o.results[|o.results| - 1]])
      else o.(awaited := true, suspended := true)
  }

  ghost predicate Run(os: seq<Offload>, es: seq<Event>, cfg: Config) {
    && |os| == |es| + 1
    && (exists failure :: os[0] == Start(failure))
    && forall i | 0 <= i < |es| ::
         Possible(os[i], es[i]) && os[i + 1] == Step(os[i], cfg, es[i])
  }
}
