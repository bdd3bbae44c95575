/**
 AES-GCM contexts and their keys: a context may only be stopped when every key has been destroyed.

 A key object may hold keys of different contexts in its life. Each context sees all key objects, and
 of each one whether it holds a key of this context: what another context loads is an empty key object
 to it, and moving a key acts on the views of all contexts alike.
 */
module AesKeys {
  datatype Context = Context(
    keys: map<nat, bool>,    // every aes_gcm_key object, and whether it holds a key of this context
    loaded: int,             // loaded_keys_
    stopRequested: bool,
    hasHandle: bool,         // not idle yet
    calls: seq<set<nat>>,    // for each doca_ctx_stop: the key objects that held a key
    overwritten: nat)        // keys lost because another key was moved onto them

  const Fresh := Context(map[], 0, false, true, [], 0)

  ghost function Live(c: Context): set<nat> {
    set k | k in c.keys && c.keys[k]
  }

  ghost function DoStopIfAble(c: Context): Context {
    if c.loaded > 0 || !c.hasHandle then c else c.(calls := c.calls + [Live(c)])
  }

  ghost function SignalKeyDestroyed(c: Context): Context {
    var d := c.(loaded := c.loaded - 1);
    if d.stopRequested then DoStopIfAble(d) else d
  }

  ghost function Cleared(c: Context, k: nat): Context
    requires k in c.keys
  {
    if !c.keys[k] then c else SignalKeyDestroyed(c.(keys := c.keys[k := false]))
  }

  datatype Op =
    | Default(key: nat)                       // an empty key object
    | Load(key: nat, created: bool)           // load_key; `created` if size and SDK agree
    | MoveConstruct(key: nat, from: nat)
    | MoveAssign(key: nat, from: nat)
    | Clear(key: nat)
    | Destroy(key: nat)
    | Stop
    | WentIdle                                // the IDLE event of the context

  ghost predicate Possible(c: Context, op: Op) {
    match op
    case Default(k) => k !in c.keys
    case Load(k, created) => k !in c.keys && (created ==> c.hasHandle)
    case MoveConstruct(k, from) => k !in c.keys && from in c.keys
    case MoveAssign(k, from) => k in c.keys && from in c.keys
    case Clear(k) => k in c.keys
    case Destroy(k) => k in c.keys
    case Stop => true
    case WentIdle => c.calls != []
  }

  ghost function Step(c: Context, op: Op): Context
    requires Possible(c, op)
  {
    match op
    case Default(k) => c.(keys := c.keys[k := false])
    case Load(k, created) => if created then c.(keys := c.keys[k := true], loaded := c.loaded + 1) else c
    case MoveConstruct(k, from) => c.(keys := c.keys[k := c.keys[from]][from := false])
    case MoveAssign(k, from) =>
      if k == from then c
      else c.(keys := c.keys[k := c.keys[from]][from := false],
              overwritten := c.overwritten + if c.keys[k] then 1 else 0)
    case Clear(k) => Cleared(c, k)
    case Destroy(k) =>
      var d := Cleared(c, k);
      d.(keys := d.keys - {k})
    case Stop => DoStopIfAble(c.(stopRequested := true))
    case WentIdle => c.(hasHandle := false)
  }

  // ---------- the objects ----------

  class AesGcmContext {
    var loadedKeys: int
    var stopRequested: bool
    var hasHandle: bool
    ghost var keys: map<nat, bool>
    ghost var calls: seq<set<nat>>
    ghost var overwritten: nat

    ghost function View(): Context
      reads this
    {
      Context(keys, loadedKeys, stopRequested, hasHandle, calls, overwritten)
    }

    constructor ()
      ensures View() == Fresh
    {
      loadedKeys, stopRequested, hasHandle := 0, false, true;
      keys, calls, overwritten := map[], [], 0;
    }

    method DoStop()
      modifies this
      ensures View() == DoStopIfAble(old(View()))
    {
      if loadedKeys > 0 || !hasHandle {
        return;
      }
      calls := calls + [Live(View())];
    }

    method SignalDestroyed()
      modifies this
      ensures View() == SignalKeyDestroyed(old(View()))
    {
      loadedKeys := loadedKeys - 1;
      if stopRequested {
        DoStop();
      }
    }

    method StopContext()
      modifies this
      ensures View() == Step(old(View()), Stop)
    {
      stopRequested := true;
      DoStop();
    }

    /** The key object is made first; only when that succeeds is it counted. */
    method LoadKey(id: nat, created: bool) returns (key: AesGcmKey?)
      requires Possible(View(), Load(id, created))
      modifies this
      ensures View() == Step(old(View()), Load(id, created))
      ensures key != null <==> created
      ensures key != null ==> fresh(key) && key.Tied(this) && key.id == id && key.hasHandle
    {
      if !created {
        return null;
      }
      key := new AesGcmKey(id, this);
      loadedKeys, keys := loadedKeys + 1, keys[id := true];
    }
  }

  class AesGcmKey {
    const id: nat
    var hasHandle: bool
    var parent: AesGcmContext?

    constructor (id: nat, parent: AesGcmContext?)
      ensures this.id == id && this.parent == parent && hasHandle == (parent != null)
    {
      this.id, this.parent, hasHandle := id, parent, parent != null;
    }

    /** This key object is the one that `ctx` knows as `id`. */
    ghost predicate Tied(ctx: AesGcmContext)
      reads this, ctx
    {
      && id in ctx.keys && (ctx.keys[id] <==> hasHandle && parent == ctx)
      && (hasHandle ==> parent != null)
    }

    /** clear(), as every context that knows this key object sees it. */
    method ClearKey(ghost ctx: AesGcmContext)
      requires Tied(ctx) && (hasHandle ==> Tied(parent))
      modifies this, parent
      ensures !hasHandle && Tied(ctx) && ctx.View() == Step(old(ctx.View()), Clear(id))
    {
      if hasHandle {
        hasHandle := false;
        parent.keys := parent.keys[id := false];
        parent.SignalDestroyed();
        parent := null;
      }
    }

    /**
     The move assignment, as every context in `ctxs` sees it, whichever of them the two keys belong to:
     an own key is destroyed with its handle, but its context is not told.
     */
    method MoveFrom(other: AesGcmKey, ghost ctxs: set<AesGcmContext>)
      requires forall c | c in ctxs :: Tied(c) && other.Tied(c)
      requires this == other <==> id == other.id
      modifies this, other, ctxs
      ensures forall c | c in ctxs ::
                && old(Possible(c.View(), MoveAssign(id, other.id)))
                && Tied(c) && other.Tied(c) && c.View() == Step(old(c.View()), MoveAssign(id, other.id))
    {
      if this != other {
        hasHandle, other.hasHandle := other.hasHandle, false;
        parent, other.parent := other.parent, null;
        forall c | c in ctxs {
          c.overwritten := c.overwritten + if c.keys[id] then 1 else 0;
        }
        forall c | c in ctxs {
          c.keys := c.keys[id := c.keys[other.id]][other.id := false];
        }
      }
    }
  }

  // ---------- every run ----------

  ghost predicate Inv(c: Context) {
    && c.loaded == |Live(c)| + c.overwritten
    && (forall i | 0 <= i < |c.calls| :: c.calls[i] == {})
    && (c.stopRequested && c.loaded == 0 && c.hasHandle ==> c.calls != [])
  }

  lemma DoStopKeeps(c: Context)
    requires c.loaded == |Live(c)| + c.overwritten && forall i | 0 <= i < |c.calls| :: c.calls[i] == {}
    requires c.stopRequested
    ensures Inv(DoStopIfAble(c))
  {
    assert Live(DoStopIfAble(c)) == Live(c);
  }

  lemma ClearedKeeps(c: Context, k: nat)
    requires Inv(c) && k in c.keys
    ensures Inv(Cleared(c, k)) && Live(Cleared(c, k)) == Live(c) - {k}
    ensures c.keys[k] ==> c.loaded > 0
  {
    if c.keys[k] {
      var d := c.(keys := c.keys[k := false], loaded := c.loaded - 1);
      assert k in Live(c) && Live(d) == Live(c) - {k};
      if d.stopRequested {
        DoStopKeeps(d);
      }
      assert Live(Cleared(c, k)) == Live(d);
    } else {
      assert Live(c) - {k} == Live(c);
    }
  }

  lemma SetLive(c: Context, k: nat, held: bool)
    ensures Live(c.(keys := c.keys[k := held])) == if held then Live(c) + {k} else Live(c) - {k}
  {
  }

  lemma MovedLive(c: Context, keys: map<nat, bool>, k: nat, from: nat)
    requires from in c.keys && k != from && keys == c.keys[k := c.keys[from]][from := false]
    ensures var l := Live(c.(keys := keys));
            |l| == |Live(c)| - (if k in Live(c) then 1 else 0)
  {
    var held := c.keys[from];
    var d := c.(keys := c.keys[k := held]);
    SetLive(c, k, held);
    SetLive(d, from, false);
    assert held <==> from in Live(c);
    assert Live(c.(keys := keys)) == Live(d) - {from};
    if held {
      assert Live(d) - {from} == (Live(c) - {from}) + {k};
    } else {
      assert Live(d) - {from} == Live(c) - {k};
    }
  }

  lemma MoveKeeps(c: Context, k: nat, from: nat, lost: nat)
    requires Inv(c) && from in c.keys && k != from && lost == (if k in Live(c) then 1 else 0)
    ensures Inv(c.(keys := c.keys[k := c.keys[from]][from := false], overwritten := c.overwritten + lost))
  {
    var keys := c.keys[k := c.keys[from]][from := false];
    MovedLive(c, keys, k, from);
    assert Live(c.(keys := keys, overwritten := c.overwritten + lost)) == Live(c.(keys := keys));
  }

  /** Making a key object, with or without a key. */
  lemma MadeKeeps(c: Context, k: nat, held: bool)
    requires Inv(c) && k !in c.keys && (held ==> c.hasHandle)
    ensures Inv(c.(keys := c.keys[k := held], loaded := c.loaded + if held then 1 else 0))
  {
    SetLive(c, k, held);
    var r := c.(keys := c.keys[k := held], loaded := c.loaded + if held then 1 else 0);
    assert Live(r) == Live(c.(keys := c.keys[k := held]));
    assert k !in Live(c) && Live(c) - {k} == Live(c);
  }

  lemma DestroyKeeps(c: Context, k: nat)
    requires Inv(c) && k in c.keys
    ensures var d := Cleared(c, k); Inv(d.(keys := d.keys - {k}))
  {
    var d := Cleared(c, k);
    ClearedKeeps(c, k);
    assert Live(d.(keys := d.keys - {k})) == Live(d);
  }

  lemma StepKeeps(c: Context, op: Op)
    requires Inv(c) && Possible(c, op)
    ensures Inv(Step(c, op))
  {
    match op
    case Default(k) => MadeKeeps(c, k, false);
    case Load(k, created) => if created { MadeKeeps(c, k, true); }
    case MoveConstruct(k, from) => MoveKeeps(c, k, from, 0);
    case MoveAssign(k, from) => if k != from { MoveKeeps(c, k, from, if c.keys[k] then 1 else 0); }
    case Clear(k) => ClearedKeeps(c, k);
    case Destroy(k) => DestroyKeeps(c, k);
    case Stop =>
      assert Live(c.(stopRequested := true)) == Live(c);
      DoStopKeeps(c.(stopRequested := true));
    case WentIdle => assert Live(c.(hasHandle := false)) == Live(c);
  }

  ghost predicate Run(cs: seq<Context>, ops: seq<Op>) {
    && |cs| == |ops| + 1 && cs[0] == Fresh
    && forall i | 0 <= i < |ops| :: Possible(cs[i], ops[i]) && cs[i + 1] == Step(cs[i], ops[i])
  }

  /** At step `i` a key was moved onto a key object that held another key. */
  ghost predicate Overwrites(cs: seq<Context>, ops: seq<Op>, i: nat)
    requires Run(cs, ops) && i < |ops|
  {
    ops[i].MoveAssign? && ops[i].key != ops[i].from && cs[i].keys[ops[i].key]
  }

  lemma OverwrittenStep(c: Context, op: Op)
    requires Possible(c, op)
    ensures Step(c, op).overwritten ==
            c.overwritten + if op.MoveAssign? && op.key != op.from && c.keys[op.key] then 1 else 0
  {
  }

  lemma {:induction false} RunKeeps(cs: seq<Context>, ops: seq<Op>, n: nat)
    requires Run(cs, ops) && n < |cs|
    ensures Inv(cs[n])
    ensures cs[n].overwritten == 0 <==> forall i | 0 <= i < n :: !Overwrites(cs, ops, i)
  {
    if n == 0 {
      assert Live(cs[0]) == {};
    } else {
      RunKeeps(cs, ops, n - 1);
      StepKeeps(cs[n - 1], ops[n - 1]);
      OverwrittenStep(cs[n - 1], ops[n - 1]);
      assert cs[n].overwritten == cs[n - 1].overwritten + if Overwrites(cs, ops, n - 1) then 1 else 0;
    }
  }

  /**
   Over every sequence of loads, moves, clears and destructions: loaded_keys_ is the number of live
   keys if and only if no key was ever moved onto a live one; every doca_ctx_stop found no live key;
   and the counter is positive whenever a live key is about to be cleared.
   */
  lemma KeysCounted(cs: seq<Context>, ops: seq<Op>, n: nat)
    requires Run(cs, ops) && n < |cs|
    ensures cs[n].loaded == |Live(cs[n])| <==> forall i | 0 <= i < n :: !Overwrites(cs, ops, i)
    ensures forall i | 0 <= i < |cs[n].calls| :: cs[n].calls[i] == {}
    ensures Live(cs[n]) != {} ==> cs[n].loaded > 0
  {
    RunKeeps(cs, ops, n);
  }

  /** What one step does to the calls, by who is left. */
  lemma StepCalls(c: Context, op: Op)
    requires Inv(c) && Possible(c, op)
    ensures var r := Step(c, op);
            || r.calls == c.calls
            || (&& r.calls == c.calls + [{}] && r.stopRequested && r.loaded == 0 && c.hasHandle
                && (op.Clear? || op.Destroy? || op.Stop?))
  {
    StepKeeps(c, op);
    if op.Clear? || op.Destroy? {
      ClearedKeeps(c, op.key);
    }
  }

  lemma ClearingLast(c: Context, k: nat)
    requires Inv(c) && k in c.keys && c.keys[k] && c.stopRequested && c.hasHandle
    ensures Cleared(c, k).calls == if c.loaded == 1 then c.calls + [{}] else c.calls
  {
    ClearedKeeps(c, k);
    assert k in Live(c);
    var d := c.(keys := c.keys[k := false], loaded := c.loaded - 1);
    SetLive(c, k, false);
    assert Live(d) == Live(c) - {k} && |Live(d)| == |Live(c)| - 1;
  }

  lemma MovedStillLive(c: Context, k: nat, from: nat)
    requires from in c.keys && k != from && k !in Live(c) && Live(c) != {}
    ensures Live(c.(keys := c.keys[k := c.keys[from]][from := false])) != {}
  {
    var j :| j in Live(c);
    assert (if j == from then k else j) in Live(c.(keys := c.keys[k := c.keys[from]][from := false]));
  }

  lemma OnlyClearingEmpties(c: Context, op: Op)
    requires Inv(c) && Possible(c, op) && Live(c) != {} && Live(Step(c, op)) == {}
    ensures op.Clear? || op.Destroy? || (op.MoveAssign? && op.key != op.from && c.keys[op.key])
    ensures op.Clear? || op.Destroy? ==> c.keys[op.key] && Live(c) == {op.key}
  {
    var k :| k in Live(c);
    assert k !in Live(Step(c, op));
    if op.Clear? || op.Destroy? {
      ClearedKeeps(c, op.key);
      assert Live(Step(c, op)) == Live(Cleared(c, op.key));
    } else if op.MoveConstruct? {
      MovedStillLive(c, op.key, op.from);
    } else if op.MoveAssign? && op.key != op.from && !c.keys[op.key] {
      MovedStillLive(c, op.key, op.from);
    }
  }

  /**
   After stop(), the step by which the last key goes issues the context's own stop, once, if and only if
   no key was ever moved onto a live one, not even by that step.
   */
  lemma LastKeyStops(cs: seq<Context>, ops: seq<Op>, n: nat)
    requires Run(cs, ops) && n < |ops| && cs[n].stopRequested && cs[n].hasHandle
    requires Live(cs[n]) != {} && Live(cs[n + 1]) == {}
    ensures cs[n + 1].calls == cs[n].calls + [{}] <==> forall i | 0 <= i <= n :: !Overwrites(cs, ops, i)
  {
    var c, op := cs[n], ops[n];
    RunKeeps(cs, ops, n);
    OnlyClearingEmpties(c, op);
    StepCalls(c, op);
    if op.Clear? || op.Destroy? {
      assert c.loaded == 1 + c.overwritten;
      ClearingLast(c, op.key);
      assert !Overwrites(cs, ops, n);
    } else {
      assert Overwrites(cs, ops, n);
    }
  }

  /** stop() itself issues the context's own stop if and only if no key is counted. */
  lemma StopWithoutKeys(cs: seq<Context>, ops: seq<Op>, n: nat)
    requires Run(cs, ops) && n < |ops| && ops[n] == Stop && cs[n].hasHandle
    requires forall i | 0 <= i < n :: !Overwrites(cs, ops, i)
    ensures cs[n + 1].calls == (if Live(cs[n]) == {} then cs[n].calls + [{}] else cs[n].calls)
  {
    RunKeeps(cs, ops, n);
    assert Live(cs[n].(stopRequested := true)) == Live(cs[n]);
  }

  /** Once a live key has been overwritten, keys are counted forever and no stop is ever issued again. */
  lemma {:induction false} OverwrittenNeverStops(cs: seq<Context>, ops: seq<Op>, m: nat, n: nat)
    requires Run(cs, ops) && m <= n < |cs| && cs[m].overwritten > 0
    ensures cs[n].overwritten > 0 && cs[n].loaded > 0 && cs[n].calls == cs[m].calls
  {
    RunKeeps(cs, ops, m);
    if m < n {
      OverwrittenNeverStops(cs, ops, m, n - 1);
      RunKeeps(cs, ops, n - 1);
      StaysOverwritten(cs[n - 1], ops[n - 1]);
    }
  }

  lemma StaysOverwritten(c: Context, op: Op)
    requires Inv(c) && Possible(c, op) && c.overwritten > 0
    ensures var r := Step(c, op); r.overwritten > 0 && r.loaded > 0 && r.calls == c.calls
  {
    StepKeeps(c, op);
    StepCalls(c, op);
    OverwrittenStep(c, op);
  }

  /** Such a run: one key is moved onto another and cleared. None is left, one is counted, stop() does nothing. */
  lemma OverwrittenRun() returns (cs: seq<Context>, ops: seq<Op>)
    ensures Run(cs, ops) && ops == [Load(0, true), Load(1, true), MoveAssign(0, 1), Clear(0), Stop]
    ensures cs[5].stopRequested && Live(cs[5]) == {} && cs[5].loaded == 1 && cs[5].calls == []
  {
    ops := [Load(0, true), Load(1, true), MoveAssign(0, 1), Clear(0), Stop];
    var c1 := Step(Fresh, ops[0]);
    var c2 := Step(c1, ops[1]);
    var c3 := Step(c2, ops[2]);
    var c4 := Step(c3, ops[3]);
    cs := [Fresh, c1, c2, c3, c4, Step(c4, ops[4])];
    assert c3.keys[0] && !c3.keys[1];
    assert Live(cs[5]) == {};
  }
}
