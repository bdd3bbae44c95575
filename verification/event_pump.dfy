/**
 Fibers hold leases on a progress engine. The engine's pump is meant to run as long as there are leases
 or contexts. It sleeps in epoll, so whoever takes the last of both away has to wake it; and a pump that
 was woken like this returns even if a lease was taken again before it went on.
 */
module EventPump {
  import opened Options

  /**
   Where progress_engine::run is: before the loop condition, in epoll until its wait completes, working,
   or returned.
   */
  datatype Pump = Checking | Waiting | Working | Returned

  /** `busy` is polling_mode::busy, in which the pump never sleeps. */
  datatype Engine = Engine(busy: bool, fibers: int, contexts: set<nat>, pump: Pump, cancelled: bool)

  /** Lease objects by number, each with the engine it refers to, and engines by number. */
  datatype World = World(leases: map<nat, Option<nat>>, engines: map<nat, Engine>)

  function Register(w: World, e: Option<nat>): World
    requires e.Some? ==> e.value in w.engines
  {
    if e == None then w
    else w.(engines := w.engines[e.value := w.engines[e.value].(fibers := w.engines[e.value].fibers + 1)])
  }

  function Deregistered(g: Engine): Engine {
    if g.fibers <= 0 then g  // "deregistered more fibers than were registered"
    else
      var d := g.(fibers := g.fibers - 1);
      if d.fibers == 0 && d.contexts == {} && d.pump == Waiting then d.(cancelled := true) else d
  }

  /** Lease `l` gives up its engine. */
  function Release(w: World, l: nat): World
    requires l in w.leases && (w.leases[l].Some? ==> w.leases[l].value in w.engines)
  {
    if w.leases[l] == None then w
    else
      var e := w.leases[l].value;
      World(w.leases[l := None], w.engines[e := Deregistered(w.engines[e])])
  }

  datatype Event =
    | NewEngine(engine: nat, busy: bool)
    | Lease(lease: nat, on: Option<nat>)       // constructor from an engine, or from nullptr
    | Copy(lease: nat, from: nat)              // copy constructor
    | Move(lease: nat, from: nat)              // move constructor
    | CopyAssign(lease: nat, from: nat)
    | MoveAssign(lease: nat, from: nat)
    | Destroy(lease: nat)
    | CreateContext(lease: nat, ctx: nat)      // create_context through a lease
    | RemoveContext(engine: nat, ctx: nat)     // remove_stopped_context
    | PumpTurn(engine: nat, idled: set<nat>)   // the pump's next stretch of code

  /** Context `k` is the last thing that a sleeping pump waits for, and nobody has woken the pump. */
  predicate LastOfSleeper(g: Engine, k: nat) {
    g.pump == Waiting && g.fibers == 0 && !g.cancelled && g.contexts == {k}
  }

  /**
   Assumed: the last context of a sleeping pump does not go away behind its back. Contexts that are
   removed by the pump itself, or while some fiber holds a lease, never do.
   */
  predicate Possible(w: World, ev: Event) {
    match ev
    case NewEngine(e, _) => e !in w.engines
    case Lease(l, on) => l !in w.leases && (on.Some? ==> on.value in w.engines)
    case Copy(l, from) => l !in w.leases && from in w.leases
    case Move(l, from) => l !in w.leases && from in w.leases
    case CopyAssign(l, from) => l in w.leases && from in w.leases
    case MoveAssign(l, from) => l in w.leases && from in w.leases
    case Destroy(l) => l in w.leases
    case CreateContext(l, k) => l in w.leases && w.leases[l].Some?
    case RemoveContext(e, k) => e in w.engines && !LastOfSleeper(w.engines[e], k)
    case PumpTurn(e, _) => e in w.engines && w.engines[e].pump != Returned
  }

  /**
   Loop condition and epoll wait; notification; progress and yield. A cancelled pump asks all contexts to
   stop before it returns, and `idled` turn idle from that.
   */
  function Turn(g: Engine, idled: set<nat>): Engine {
    match g.pump
    case Checking =>
      if g.fibers > 0 || g.contexts != {} then g.(pump := if g.busy then Working else Waiting, cancelled := false)
      else g.(pump := Returned)
    case Waiting => g.(pump := Working)
    case Working =>
      if g.cancelled then g.(pump := Returned, contexts := g.contexts - idled) else g.(pump := Checking)
    case Returned => g
  }

  function RemoveFrom(w: World, e: nat, k: nat): World
    requires e in w.engines
  {
    w.(engines := w.engines[e := w.engines[e].(contexts := w.engines[e].contexts - {k})])
  }

  ghost predicate Known(w: World) {
    forall l | l in w.leases && w.leases[l].Some? :: w.leases[l].value in w.engines
  }

  function Moved(w: World, l: nat, from: nat): World
    requires from in w.leases
  {
    w.(leases := w.leases[l := w.leases[from]][from := None])
  }

  function Step(w: World, ev: Event): World
    requires Possible(w, ev) && Known(w)
  {
    match ev
    case NewEngine(e, busy) => w.(engines := w.engines[e := Engine(busy, 0, {}, Checking, false)])
    case Lease(l, on) => Register(w.(leases := w.leases[l := on]), on)
    case Copy(l, from) => Register(w.(leases := w.leases[l := w.leases[from]]), w.leases[from])
    case Move(l, from) => Moved(w, l, from)
    case CopyAssign(l, from) =>
      if w.leases[l] == w.leases[from] then w
      else
        var r := Release(w, l);
        Register(r.(leases := r.leases[l := r.leases[from]]), r.leases[from])
    case MoveAssign(l, from) => if l == from then w else Moved(Release(w, l), l, from)
    case Destroy(l) => var r := Release(w, l); r.(leases := r.leases - {l})
    case CreateContext(l, k) =>
      var e := w.leases[l].value;
      w.(engines := w.engines[e := w.engines[e].(contexts := w.engines[e].contexts + {k})])
    case RemoveContext(e, k) => RemoveFrom(w, e, k)
    case PumpTurn(e, idled) => w.(engines := w.engines[e := Turn(w.engines[e], idled)])
  }

  // ---------- every run ----------

  /** How many lease objects refer to engine `e`. */
  ghost function Holders(leases: map<nat, Option<nat>>, e: nat): nat {
    |HolderSet(leases, e)|
  }

  ghost function HolderSet(leases: map<nat, Option<nat>>, e: nat): set<nat> {
    set l | l in leases && leases[l] == Some(e)
  }

  /** A pump that sleeps with nothing left to wait for has been woken. */
  predicate Awake(g: Engine) {
    g.pump == Waiting && g.fibers == 0 && g.contexts == {} ==> g.cancelled
  }

  ghost predicate Inv(w: World) {
    && Known(w)
    && (forall e | e in w.engines :: w.engines[e].fibers == Holders(w.leases, e))
    && (forall e | e in w.engines :: Awake(w.engines[e]))
  }

  lemma Repointed(leases: map<nat, Option<nat>>, l: nat, on: Option<nat>, e: nat)
    ensures Holders(leases[l := on], e) == Holders(leases, e)
              - (if l in leases && leases[l] == Some(e) then 1 else 0) + (if on == Some(e) then 1 else 0)
  {
    assert HolderSet(leases[l := on], e) == HolderSet(leases, e) - {l} + if on == Some(e) then {l} else {};
  }

  lemma Removed(leases: map<nat, Option<nat>>, l: nat, e: nat)
    requires l in leases && leases[l] == None
    ensures Holders(leases - {l}, e) == Holders(leases, e)
  {
    assert HolderSet(leases - {l}, e) == HolderSet(leases, e);
  }

  lemma Positive(leases: map<nat, Option<nat>>, l: nat, e: nat)
    requires l in leases && leases[l] == Some(e)
    ensures Holders(leases, e) > 0
  {
    assert l in HolderSet(leases, e);
  }

  lemma ReleaseKeeps(w: World, l: nat)
    requires Inv(w) && l in w.leases
    ensures Inv(Release(w, l)) && Release(w, l).leases == w.leases[l := None]
    ensures w.leases[l].Some? ==> w.engines[w.leases[l].value].fibers > 0
    ensures Release(w, l).engines.Keys == w.engines.Keys
  {
    if w.leases[l].Some? {
      Positive(w.leases, l, w.leases[l].value);
      forall e | e in w.engines
        ensures Release(w, l).engines[e].fibers == Holders(w.leases[l := None], e)
      {
        Repointed(w.leases, l, None, e);
      }
    } else {
      assert w.leases[l := None] == w.leases;
    }
  }

  /** A lease object that refers to nothing starts to refer to `on`. */
  lemma RegisterKeeps(w: World, l: nat, on: Option<nat>)
    requires Inv(w) && (l in w.leases ==> w.leases[l] == None) && (on.Some? ==> on.value in w.engines)
    ensures Inv(Register(w.(leases := w.leases[l := on]), on))
  {
    forall e | e in w.engines
      ensures Register(w.(leases := w.leases[l := on]), on).engines[e].fibers == Holders(w.leases[l := on], e)
    {
      Repointed(w.leases, l, on, e);
    }
  }

  lemma MovedKeeps(w: World, l: nat, from: nat)
    requires Inv(w) && l != from && from in w.leases && (l in w.leases ==> w.leases[l] == None)
    ensures Inv(Moved(w, l, from))
  {
    forall e | e in w.engines
      ensures Holders(Moved(w, l, from).leases, e) == Holders(w.leases, e)
    {
      Repointed(w.leases, l, w.leases[from], e);
      Repointed(w.leases[l := w.leases[from]], from, None, e);
    }
  }

  /** Taking a context away keeps every pump from oversleeping if and only if it is not the last of a sleeper. */
  lemma RemovalCondition(w: World, e: nat, k: nat)
    requires Inv(w) && e in w.engines
    ensures Inv(RemoveFrom(w, e, k)) <==> !LastOfSleeper(w.engines[e], k)
  {
    var g, r := w.engines[e], RemoveFrom(w, e, k);
    assert Known(r) && forall d | d in r.engines :: r.engines[d].fibers == Holders(r.leases, d);
    assert g.contexts - {k} == {} <==> g.contexts == {} || g.contexts == {k};
    assert Inv(r) <==> Awake(r.engines[e]);
  }

  lemma StepKeeps(w: World, ev: Event)
    requires Inv(w) && Possible(w, ev)
    ensures Inv(Step(w, ev))
  {
    match ev
    case NewEngine(e, _) => assert HolderSet(w.leases, e) == {};
    case Lease(l, on) => RegisterKeeps(w, l, on);
    case Copy(l, from) => RegisterKeeps(w, l, w.leases[from]);
    case Move(l, from) => MovedKeeps(w, l, from);
    case CopyAssign(l, from) =>
      if w.leases[l] != w.leases[from] {
        ReleaseKeeps(w, l);
        RegisterKeeps(Release(w, l), l, w.leases[from]);
      }
    case MoveAssign(l, from) =>
      if l != from {
        ReleaseKeeps(w, l);
        MovedKeeps(Release(w, l), l, from);
      }
    case Destroy(l) =>
      ReleaseKeeps(w, l);
      forall e | e in w.engines { Removed(Release(w, l).leases, l, e); }
    case CreateContext(l, k) =>
    case RemoveContext(e, k) => RemovalCondition(w, e, k);
    case PumpTurn(e, _) =>
  }

  /** `Known` only makes `Step` well defined here; `PumpSound` shows that it always holds. */
  ghost predicate Run(ws: seq<World>, evs: seq<Event>) {
    && |ws| == |evs| + 1 && ws[0] == World(map[], map[])
    && forall i | 0 <= i < |evs| :: Possible(ws[i], evs[i]) && Known(ws[i]) && ws[i + 1] == Step(ws[i], evs[i])
  }

  /**
   After any sequence of constructing, copying, moving, assigning and destroying leases on any number
   of engines, registered_fibers_ of each engine is the number of leases that refer to it, and no pump
   sleeps without having been woken once there is neither a fiber nor a context left.
   */
  lemma {:induction false} PumpSound(ws: seq<World>, evs: seq<Event>, n: nat)
    requires Run(ws, evs) && n < |ws|
    ensures Inv(ws[n])
    ensures forall e | e in ws[n].engines :: ws[n].engines[e].fibers == Holders(ws[n].leases, e)
    ensures forall e | e in ws[n].engines && ws[n].engines[e].pump == Waiting :: Awake(ws[n].engines[e])
  {
    if n > 0 {
      PumpSound(ws, evs, n - 1);
      StepKeeps(ws[n - 1], evs[n - 1]);
    }
  }

  // ---------- when the pump returns ----------

  predicate Dry(g: Engine) {
    g.fibers == 0 && g.contexts == {}
  }

  /** At some moment of the latest wait of its pump, up to `ws[n]`, engine `e` had neither fiber nor context. */
  ghost predicate RanDry(ws: seq<World>, e: nat, n: nat) {
    && n < |ws| && e in ws[n].engines
    && match ws[n].engines[e].pump
       case Waiting => Dry(ws[n].engines[e]) || (n > 0 && RanDry(ws, e, n - 1))
       case Working => n > 0 && RanDry(ws, e, n - 1)
       case _ => false
  }

  /** The pump is where it was, and its wait was cancelled only if it has run dry. */
  predicate OnlyDryCancels(g: Engine, h: Engine) {
    h.pump == g.pump && (g.cancelled ==> h.cancelled) && (h.cancelled ==> g.cancelled || (g.pump == Waiting && Dry(h)))
  }

  lemma ReleaseCancels(w: World, l: nat, e: nat)
    requires Inv(w) && l in w.leases && e in w.engines
    ensures e in Release(w, l).engines && OnlyDryCancels(w.engines[e], Release(w, l).engines[e])
    ensures w.leases[l] != Some(e) ==> Release(w, l).engines[e] == w.engines[e]
  {
    ReleaseKeeps(w, l);
  }

  lemma CopyAssignCancels(w: World, l: nat, from: nat, e: nat)
    requires Inv(w) && l in w.leases && from in w.leases && e in w.engines
    ensures OnlyDryCancels(w.engines[e], Step(w, CopyAssign(l, from)).engines[e])
  {
    ReleaseCancels(w, l, e);
    ReleaseKeeps(w, l);
  }

  /** Outside its own turns the pump stays where it is, and only running dry cancels its wait. */
  lemma EngineStep(w: World, ev: Event, e: nat)
    requires Inv(w) && Possible(w, ev) && e in w.engines && !(ev.PumpTurn? && ev.engine == e)
    ensures e in Step(w, ev).engines && OnlyDryCancels(w.engines[e], Step(w, ev).engines[e])
    ensures Awake(Step(w, ev).engines[e])
  {
    StepKeeps(w, ev);
    match ev
    case CopyAssign(l, from) => CopyAssignCancels(w, l, from, e);
    case MoveAssign(l, from) => ReleaseCancels(w, l, e);
    case Destroy(l) => ReleaseCancels(w, l, e);
    case _ =>
  }

  lemma {:induction false} CancelledIffDry(ws: seq<World>, evs: seq<Event>, e: nat, n: nat)
    requires Run(ws, evs) && n < |ws| && e in ws[n].engines
    ensures ws[n].engines[e].pump == Waiting || ws[n].engines[e].pump == Working ==>
              (ws[n].engines[e].cancelled <==> RanDry(ws, e, n))
  {
    if n > 0 && e in ws[n - 1].engines {
      PumpSound(ws, evs, n - 1);
      CancelledIffDry(ws, evs, e, n - 1);
      if !(evs[n - 1].PumpTurn? && evs[n - 1].engine == e) {
        EngineStep(ws[n - 1], evs[n - 1], e);
      }
    }
  }

  /**
   run() returns although a fiber holds a lease if and only if, at some moment of its latest wait, there
   was neither a fiber nor a context: a lease taken after that does not keep the pump.
   */
  lemma ReturnsUnderLease(ws: seq<World>, evs: seq<Event>, n: nat)
    requires Run(ws, evs) && n < |evs| && evs[n].PumpTurn? && ws[n].engines[evs[n].engine].fibers > 0
    ensures var e := evs[n].engine;
            && e in ws[n + 1].engines
            && (ws[n + 1].engines[e].pump == Returned <==> ws[n].engines[e].pump == Working && RanDry(ws, e, n))
  {
    CancelledIffDry(ws, evs, evs[n].engine, n);
  }

  /** Such a run: the only lease goes while the pump sleeps, and a new one is taken before the pump goes on. */
  lemma LeaseOutlivesPump() returns (ws: seq<World>, evs: seq<Event>)
    ensures Run(ws, evs)
    ensures evs == [NewEngine(0, false), Lease(1, Some(0)), PumpTurn(0, {}), Destroy(1), Lease(2, Some(0)),
                    PumpTurn(0, {}), PumpTurn(0, {})]
    ensures 0 in ws[7].engines && ws[7].engines[0].pump == Returned && ws[7].engines[0].fibers == 1
  {
    var g := Engine(false, 0, {}, Waiting, true);
    ws, evs := PumpRunsDry();
    Solo(2, g);
    ws, evs := Extend(ws, evs, Lease(2, Some(0)));
    ws, evs := Extend(ws, evs, PumpTurn(0, {}));
    Solo(2, g.(pump := Working));
    ws, evs := Extend(ws, evs, PumpTurn(0, {}));
  }

  lemma PumpRunsDry() returns (ws: seq<World>, evs: seq<Event>)
    ensures Run(ws, evs) && evs == [NewEngine(0, false), Lease(1, Some(0)), PumpTurn(0, {}), Destroy(1)]
    ensures ws[4] == World(map[], map[0 := Engine(false, 0, {}, Waiting, true)])
  {
    ws, evs := [World(map[], map[])], [];
    ws, evs := Extend(ws, evs, NewEngine(0, false));
    Solo(1, Engine(false, 0, {}, Checking, false));
    ws, evs := Extend(ws, evs, Lease(1, Some(0)));
    ws, evs := Extend(ws, evs, PumpTurn(0, {}));
    ws, evs := Extend(ws, evs, Destroy(1));
  }

  /** One engine and at most one lease on it. */
  lemma Solo(l: nat, g: Engine)
    requires g.pump != Returned && g.fibers == 0 && g.contexts == {}
    ensures var none, one := World(map[], map[0 := g]), World(map[l := Some(0)], map[0 := g.(fibers := 1)]);
            && Step(none, Lease(l, Some(0))) == one
            && Step(one, PumpTurn(0, {})) == World(map[l := Some(0)], map[0 := Turn(g.(fibers := 1), {})])
            && (g.pump == Checking && !g.busy ==>
                  Step(Step(one, PumpTurn(0, {})), Destroy(l))
                  == World(map[], map[0 := g.(pump := Waiting, cancelled := true)]))
  {
    var one := World(map[l := Some(0)], map[0 := g.(fibers := 1)]);
    assert Step(one, PumpTurn(0, {})) == World(map[l := Some(0)], map[0 := Turn(g.(fibers := 1), {})]);
  }

  lemma Extend(ws: seq<World>, evs: seq<Event>, ev: Event) returns (ws': seq<World>, evs': seq<Event>)
    requires Run(ws, evs) && Possible(ws[|evs|], ev) && Known(ws[|evs|])
    ensures Run(ws', evs') && evs' == evs + [ev] && ws' == ws + [Step(ws[|evs|], ev)]
  {
    ws', evs' := ws + [Step(ws[|evs|], ev)], evs + [ev];
  }

  // ---------- the objects ----------

  class ProgressEngine {
    const busy: bool
    var registeredFibers: int
    var contexts: set<nat>
    var pump: Pump
    var cancelled: bool
    ghost var holders: set<EngineLease>  // the leases that refer to this engine

    ghost predicate Valid()
      reads this, holders
    {
      registeredFibers == |holders| && Awake(View()) && forall l | l in holders :: l.engine == this
    }

    ghost function View(): Engine
      reads this
    {
      Engine(busy, registeredFibers, contexts, pump, cancelled)
    }

    constructor (busy: bool)
      ensures Valid() && View() == Engine(busy, 0, {}, Checking, false) && holders == {}
    {
      this.busy := busy;
      registeredFibers, contexts, pump, cancelled, holders := 0, {}, Checking, false, {};
    }

    method RegisterFiber(ghost l: EngineLease)
      requires Valid() && l !in holders && l.engine == this
      modifies this
      ensures Valid() && holders == old(holders) + {l}
      ensures View() == old(View()).(fibers := old(registeredFibers) + 1)
    {
      registeredFibers := registeredFibers + 1;
      holders := holders + {l};
    }

    /** The branch for too many deregistrations is never taken. */
    method DeregisterFiber(ghost l: EngineLease)
      requires Valid() && l in holders
      modifies this
      ensures Valid() && holders == old(holders) - {l}
      ensures View() == Deregistered(old(View())) && registeredFibers == old(registeredFibers) - 1
    {
      assert |holders| > 0;
      if registeredFibers <= 0 {
        return;
      }
      registeredFibers := registeredFibers - 1;
      holders := holders - {l};
      if registeredFibers == 0 && contexts == {} && pump == Waiting {
        cancelled := true;
      }
    }

    /** One stretch of run(), between two suspension points; `idled` are the contexts that stop_all turns idle. */
    method RunOnce(idled: set<nat>)
      requires Valid()
      modifies this`pump, this`cancelled, this`contexts
      ensures Valid() && View() == Turn(old(View()), idled)
    {
      match pump {
        case Checking =>
          if registeredFibers > 0 || contexts != {} {
            cancelled := false;
            pump := if busy then Working else Waiting;
          } else {
            pump := Returned;
          }
        case Waiting => pump := Working;
        case Working =>
          if cancelled {
            contexts := contexts - idled;
            pump := Returned;
          } else {
            pump := Checking;
          }
        case Returned =>
      }
    }
  }

  class EngineLease {
    var engine: ProgressEngine?

    /** This lease is counted by the engine it refers to. */
    ghost predicate Valid()
      reads this, if engine == null then {} else {engine} + engine.holders
    {
      engine != null ==> engine.Valid() && this in engine.holders
    }

    constructor (engine: ProgressEngine?)
      requires engine != null ==> engine.Valid()
      modifies engine
      ensures Valid() && this.engine == engine
      ensures engine != null ==> engine.holders == old(engine.holders) + {this}
    {
      this.engine := engine;
      new;
      if engine != null {
        assert this !in engine.holders;
        engine.RegisterFiber(this);
      }
    }

    method Clear()
      requires Valid()
      modifies this, engine
      ensures engine == null
      ensures old(engine) != null ==> old(engine).Valid() && old(engine).holders == old(engine.holders) - {this}
    {
      if engine != null {
        engine.DeregisterFiber(this);
        engine := null;
      }
    }

    /** The move assignment: the other lease's count becomes this one's. */
    method MoveFrom(other: EngineLease)
      requires Valid() && other.Valid()
      modifies this, other, engine, other.engine
      ensures this != other ==> engine == old(other.engine) && other.engine == null
      ensures this == other ==> engine == old(engine)
      ensures Valid()
      ensures this != other && engine != null ==>
                engine.holders == old(other.engine.holders) - {other} + {this}
      ensures this != other && old(engine) != null && old(engine) != engine ==>
                old(engine).Valid() && old(engine).holders == old(engine.holders) - {this}
      ensures this == other && engine != null ==> engine.holders == old(engine.holders)
    {
      if this != other {
        Clear();
        engine := other.engine;
        other.engine := null;
        if engine != null {
          engine.holders := engine.holders - {other} + {this};
        }
      }
    }
  }
}
