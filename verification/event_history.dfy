/** Leases, contexts and pumps in terms of the events of a run. */
module EventHistory {
  import opened EventPump
  import opened Options

  // ---------- leases ----------

  /** What the lease objects refer to, as values: copies refer to the same engine, moves leave nothing behind. */
  function Assigned(m: map<nat, Option<nat>>, ev: Event): map<nat, Option<nat>> {
    match ev
    case Lease(l, on) => m[l := on]
    case Copy(l, from) => if from in m then m[l := m[from]] else m
    case CopyAssign(l, from) => if from in m then m[l := m[from]] else m
    case Move(l, from) => if from in m then m[l := m[from]][from := None] else m
    case MoveAssign(l, from) => if from in m && l != from then m[l := m[from]][from := None] else m
    case Destroy(l) => m - {l}
    case _ => m
  }

  function AssignedAll(evs: seq<Event>): map<nat, Option<nat>> {
    if evs == [] then map[] else Assigned(AssignedAll(evs[..|evs| - 1]), evs[|evs| - 1])
  }

  lemma CopyAssigned(w: World, l: nat, from: nat)
    requires Inv(w) && l in w.leases && from in w.leases
    ensures Step(w, CopyAssign(l, from)).leases == w.leases[l := w.leases[from]]
  {
    ReleaseKeeps(w, l);
    if w.leases[l] == w.leases[from] {
      assert w.leases[l := w.leases[from]] == w.leases;
    } else {
      assert w.leases[l := None][l := w.leases[from]] == w.leases[l := w.leases[from]];
    }
  }

  lemma MoveAssigned(w: World, l: nat, from: nat)
    requires Inv(w) && l in w.leases && from in w.leases && l != from
    ensures Step(w, MoveAssign(l, from)).leases == w.leases[l := w.leases[from]][from := None]
  {
    ReleaseKeeps(w, l);
    assert w.leases[l := None][l := w.leases[from]] == w.leases[l := w.leases[from]];
  }

  lemma Destroyed(w: World, l: nat)
    requires Inv(w) && l in w.leases
    ensures Step(w, Destroy(l)).leases == w.leases - {l}
  {
    ReleaseKeeps(w, l);
    assert w.leases[l := None] - {l} == w.leases - {l};
  }

  lemma StepLeases(w: World, ev: Event)
    requires Inv(w) && Possible(w, ev)
    ensures Step(w, ev).leases == Assigned(w.leases, ev)
  {
    match ev
    case CopyAssign(l, from) => CopyAssigned(w, l, from);
    case MoveAssign(l, from) => if l != from { MoveAssigned(w, l, from); }
    case Destroy(l) => Destroyed(w, l);
    case _ =>
  }

  /**
   After any run the lease objects refer to what value semantics say, and each engine counts exactly the
   leases that refer to it.
   */
  lemma {:induction false} LeasesAreValues(ws: seq<World>, evs: seq<Event>, n: nat)
    requires Run(ws, evs) && n < |ws|
    ensures ws[n].leases == AssignedAll(evs[..n])
    ensures forall e | e in ws[n].engines :: ws[n].engines[e].fibers == Holders(AssignedAll(evs[..n]), e)
  {
    PumpSound(ws, evs, n);
    if n > 0 {
      LeasesAreValues(ws, evs, n - 1);
      PumpSound(ws, evs, n - 1);
      StepLeases(ws[n - 1], evs[n - 1]);
      assert evs[..n][..n - 1] == evs[..n - 1];
    }
  }

  // ---------- contexts ----------

  /** Event `ev` creates context `k` on engine `e`. */
  predicate Creates(w: World, ev: Event, e: nat, k: nat) {
    ev.CreateContext? && ev.ctx == k && ev.lease in w.leases && w.leases[ev.lease] == Some(e)
  }

  /** Event `ev` takes context `k` off engine `e`: it was removed, or the final stop_all turned it idle. */
  predicate Removes(w: World, ev: Event, e: nat, k: nat) {
    || ev == RemoveContext(e, k)
    || (&& ev.PumpTurn? && ev.engine == e && k in ev.idled && e in w.engines
        && w.engines[e].pump == Working && w.engines[e].cancelled)
  }

  /** The same engine, apart from its leases and where its pump is. */
  predicate Alike(g: Engine, h: Engine) {
    h.busy == g.busy && h.contexts == g.contexts
  }

  lemma ReleaseAlike(w: World, l: nat, e: nat)
    requires Inv(w) && l in w.leases && e in w.engines
    ensures e in Release(w, l).engines && Alike(w.engines[e], Release(w, l).engines[e])
  {
    ReleaseKeeps(w, l);
  }

  lemma CopyAssignAlike(w: World, l: nat, from: nat, e: nat)
    requires Inv(w) && l in w.leases && from in w.leases && e in w.engines
    ensures var r := Step(w, CopyAssign(l, from)); e in r.engines && Alike(w.engines[e], r.engines[e])
  {
    ReleaseKeeps(w, l);
    ReleaseAlike(w, l, e);
  }

  predicate OnLeases(ev: Event) {
    ev.Lease? || ev.Copy? || ev.Move? || ev.CopyAssign? || ev.MoveAssign? || ev.Destroy?
  }

  lemma LeasesAlike(w: World, ev: Event, e: nat)
    requires Inv(w) && Possible(w, ev) && e in w.engines && OnLeases(ev)
    ensures e in Step(w, ev).engines && Alike(w.engines[e], Step(w, ev).engines[e])
  {
    if ev.CopyAssign? {
      CopyAssignAlike(w, ev.lease, ev.from, e);
    } else if ev.MoveAssign? || ev.Destroy? {
      ReleaseAlike(w, ev.lease, e);
    }
  }

  ghost predicate Has(w: World, e: nat, k: nat) {
    e in w.engines && k in w.engines[e].contexts
  }

  lemma LeasesAddNoEngine(w: World, ev: Event)
    requires Inv(w) && Possible(w, ev) && OnLeases(ev)
    ensures Step(w, ev).engines.Keys == w.engines.Keys
  {
    if (ev.CopyAssign? || ev.MoveAssign? || ev.Destroy?) && ev.lease in w.leases {
      ReleaseKeeps(w, ev.lease);
    }
  }

  lemma StepContexts(w: World, ev: Event, e: nat, k: nat)
    requires Inv(w) && Possible(w, ev)
    ensures Has(Step(w, ev), e, k) <==> Creates(w, ev, e, k) || (Has(w, e, k) && !Removes(w, ev, e, k))
  {
    if OnLeases(ev) {
      LeasesAddNoEngine(w, ev);
      if e in w.engines {
        LeasesAlike(w, ev, e);
      }
    }
  }

  /** Context `k` was created on engine `e` at step `i`, and was not removed from it up to step `n`. */
  ghost predicate KeptSince(ws: seq<World>, evs: seq<Event>, e: nat, k: nat, i: nat, n: nat) {
    && i < n <= |evs| && |evs| < |ws| && Creates(ws[i], evs[i], e, k)
    && forall j | i < j < n :: !Removes(ws[j], evs[j], e, k)
  }

  /** In every run an engine's contexts are exactly those that were created on it and not removed since. */
  lemma {:induction false} ContextsExactly(ws: seq<World>, evs: seq<Event>, e: nat, k: nat, n: nat)
    requires Run(ws, evs) && n < |ws|
    ensures Has(ws[n], e, k) <==> exists i :: 0 <= i < n && KeptSince(ws, evs, e, k, i, n)
  {
    if n > 0 {
      var m := n - 1;
      ContextsExactly(ws, evs, e, k, m);
      PumpSound(ws, evs, m);
      StepContexts(ws[m], evs[m], e, k);
      if Creates(ws[m], evs[m], e, k) {
        assert KeptSince(ws, evs, e, k, m, n);
      } else if Has(ws[n], e, k) {
        var i :| 0 <= i < m && KeptSince(ws, evs, e, k, i, m);
        assert KeptSince(ws, evs, e, k, i, n);
      } else {
        forall i | 0 <= i < n
          ensures !KeptSince(ws, evs, e, k, i, n)
        {
          if KeptSince(ws, evs, e, k, i, n) {
            assert KeptSince(ws, evs, e, k, i, m);
          }
        }
      }
    }
  }

  // ---------- the pump ----------

  /**
   A turn of the pump is its last one if and only if the pump finds neither a fiber nor a context at its
   loop condition, or had neither at some moment of the wait that it comes from.
   */
  lemma ReturnsExactly(ws: seq<World>, evs: seq<Event>, n: nat)
    requires Run(ws, evs) && n < |evs| && evs[n].PumpTurn?
    ensures var e := evs[n].engine;
            && e in ws[n].engines && e in ws[n + 1].engines
            && (ws[n + 1].engines[e].pump == Returned <==>
                  || (ws[n].engines[e].pump == Checking && Dry(ws[n].engines[e]))
                  || (ws[n].engines[e].pump == Working && RanDry(ws, e, n)))
  {
    PumpSound(ws, evs, n);
    CancelledIffDry(ws, evs, evs[n].engine, n);
  }

  /** A pump that is polling never sleeps; one that is not works only after it has slept. */
  lemma {:induction false} SleepsUnlessBusy(ws: seq<World>, evs: seq<Event>, e: nat, n: nat)
    requires Run(ws, evs) && n < |ws| && e in ws[n].engines
    ensures ws[n].engines[e].busy ==> ws[n].engines[e].pump != Waiting
    ensures !ws[n].engines[e].busy && ws[n].engines[e].pump == Working ==>
              n > 0 && e in ws[n - 1].engines
              && (ws[n - 1].engines[e].pump == Waiting || ws[n - 1].engines[e].pump == Working)
  {
    if n > 0 && e in ws[n - 1].engines {
      SleepsUnlessBusy(ws, evs, e, n - 1);
      PumpSound(ws, evs, n - 1);
      if !(evs[n - 1].PumpTurn? && evs[n - 1].engine == e) {
        EngineStep(ws[n - 1], evs[n - 1], e);
        StaysBusy(ws[n - 1], evs[n - 1], e);
      }
    }
  }

  lemma StaysBusy(w: World, ev: Event, e: nat)
    requires Inv(w) && Possible(w, ev) && e in w.engines
    ensures e in Step(w, ev).engines && Step(w, ev).engines[e].busy == w.engines[e].busy
  {
    if OnLeases(ev) {
      LeasesAlike(w, ev, e);
    }
  }
}
