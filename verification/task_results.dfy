/** Which status an offload stores, when it is over, and when its fiber may go on. */
module TaskResults {
  import opened TaskSpec
  import opened TaskProofs

  /** Event `e` ends the offload: a completion, an error at submission, or a resubmission that gives up. */
  predicate Ends(o: Offload, e: Event) {
    e.Complete? || (e.Reply? && o.phase.Immediate? && e.status.Error?) || GivesUp(o, e)
  }

  lemma StepResult(o: Offload, cfg: Config, e: Event)
    requires Inv(o) && Possible(o, e)
    ensures Step(o, cfg, e).results == if Ends(o, e) then [e.status] else o.results
  {
  }

  lemma {:induction false} ResultsLast(os: seq<Offload>, es: seq<Event>, cfg: Config, i: nat, n: nat)
    requires Run(os, es, cfg) && i <= n < |os| && os[i].results != []
    ensures os[n].results == os[i].results
  {
    if i < n {
      ResultsLast(os, es, cfg, i, n - 1);
      RunKeeps(os, es, cfg, n - 1);
      StepResult(os[n - 1], cfg, es[n - 1]);
    }
  }

  /** In every run the status of the event that ends the offload is stored, for good. */
  lemma ResultIs(os: seq<Offload>, es: seq<Event>, cfg: Config, i: nat, n: nat)
    requires Run(os, es, cfg) && i < n < |os| && Ends(os[i], es[i])
    ensures os[n].results == [es[i].status]
  {
    RunKeeps(os, es, cfg, i);
    StepResult(os[i], cfg, es[i]);
    ResultsLast(os, es, cfg, i + 1, n);
  }

  /** The status that the SDK reports with a completion is the one that the fiber goes on with. */
  lemma CompletionReaches(os: seq<Offload>, es: seq<Event>, cfg: Config, i: nat, n: nat)
    requires Run(os, es, cfg) && i < n < |os| && es[i].Complete?
    ensures os[n].results == [es[i].status]
    ensures os[n].continued == [] || os[n].continued == [es[i].status]
  {
    ResultIs(os, es, cfg, i, n);
    Rendezvous(os, es, cfg, n);
  }

  /** Without a task object the failure is stored, for good. */
  lemma FailureStored(os: seq<Offload>, es: seq<Event>, cfg: Config, failure: Status, n: nat)
    requires Run(os, es, cfg) && n < |os| && os[0] == Start(failure) && failure != Ok
    ensures os[n].results == [failure]
  {
    ResultsLast(os, es, cfg, 0, n);
  }

  /** Nothing is stored before one of these events. */
  lemma {:induction false} NothingBefore(os: seq<Offload>, es: seq<Event>, cfg: Config, n: nat)
    requires Run(os, es, cfg) && n < |os| && os[0] == Start(Ok)
    requires forall i | 0 <= i < n :: !Ends(os[i], es[i])
    ensures os[n].results == [] && os[n].frees == 0
  {
    RunKeeps(os, es, cfg, n);
    if n > 0 {
      NothingBefore(os, es, cfg, n - 1);
      RunKeeps(os, es, cfg, n - 1);
      StepResult(os[n - 1], cfg, es[n - 1]);
    }
  }

  /** A submission that the SDK accepts is in flight until its completion. */
  lemma {:induction false} InFlightUntilComplete(os: seq<Offload>, es: seq<Event>, cfg: Config, i: nat, n: nat)
    requires Run(os, es, cfg) && i < n < |os| && es[i].Reply? && es[i].status == Ok
    requires forall j | i < j < n :: !es[j].Complete?
    ensures os[n].phase == InFlight
  {
    if n > i + 1 {
      InFlightUntilComplete(os, es, cfg, i, n - 1);
    }
  }

  /** The fiber goes on only inside an immediate completion, a posted resume, or its own co_await. */
  lemma GoesOnOutside(os: seq<Offload>, es: seq<Event>, cfg: Config, n: nat)
    requires Run(os, es, cfg) && n < |es| && os[n + 1].continued != os[n].continued
    ensures es[n] == RunPosted || es[n] == Await || (es[n].Complete? && !es[n].deferred)
  {
  }

  /** Every answer of the SDK was asked for by one submission. */
  ghost function Answers(es: seq<Event>): nat {
    if es == [] then 0 else Answers(es[..|es| - 1]) + if es[|es| - 1].Reply? then 1 else 0
  }

  lemma StepSubmissions(o: Offload, cfg: Config, e: Event)
    requires Possible(o, e)
    ensures Step(o, cfg, e).submissions == o.submissions + if e.Reply? then 1 else 0
  {
  }

  lemma {:induction false} SubmissionsCounted(os: seq<Offload>, es: seq<Event>, cfg: Config, n: nat)
    requires Run(os, es, cfg) && n < |os|
    ensures os[n].submissions == Answers(es[..n])
  {
    if n > 0 {
      SubmissionsCounted(os, es, cfg, n - 1);
      StepSubmissions(os[n - 1], cfg, es[n - 1]);
      assert es[..n][..n - 1] == es[..n - 1];
    }
  }
}
