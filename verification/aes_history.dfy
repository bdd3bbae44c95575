/** Where each loaded AES-GCM key is, and what a context remembers, over whole runs. */
module AesHistory {
  import opened AesKeys
  import opened Histories
  import opened Options

  // ---------- each key by itself ----------

  /** Where a key that sits at `at` is after `op`: moves carry it along, clearing or overwriting destroys it. */
  function Carried(at: Option<nat>, op: Op): Option<nat> {
    match op
    case MoveConstruct(k, from) => if at == Some(from) then Some(k) else at
    case MoveAssign(k, from) =>
      if k == from then at else if at == Some(from) then Some(k) else if at == Some(k) then None else at
    case Clear(k) => if at == Some(k) then None else at
    case Destroy(k) => if at == Some(k) then None else at
    case _ => at
  }

  /** Where the key that step `i` loaded is after `n` steps. */
  function Place(ops: seq<Op>, i: nat, n: nat): Option<nat>
    requires i < n <= |ops| && ops[i].Load?
    decreases n
  {
    if n == i + 1 then Some(ops[i].key) else Carried(Place(ops, i, n - 1), ops[n - 1])
  }

  /** A key that was loaded earlier sits at `k` after `n` steps. */
  ghost predicate SomeKeyAt(ops: seq<Op>, k: nat, n: nat) {
    exists i :: 0 <= i < n <= |ops| && Sits(ops, i, k, n)
  }

  ghost predicate Sits(ops: seq<Op>, i: nat, k: nat, n: nat) {
    i < n <= |ops| && ops[i].Load? && ops[i].created && Place(ops, i, n) == Some(k)
  }

  /** How one operation changes who holds a key. */
  lemma StepHolds(c: Context, op: Op, k: nat)
    requires Possible(c, op)
    ensures k in Live(Step(c, op)) <==>
              || (op.Load? && op.created && op.key == k)
              || exists j :: j in Live(c) && Carried(Some(j), op) == Some(k)
  {
    var r := Step(c, op);
    assert op.Clear? || op.Destroy? ==> Live(r) == Live(c) - {op.key} by {
      if op.Clear? || op.Destroy? {
        ClearedLive(c, op.key);
      }
    }
    if k in Live(r) && !(op.Load? && op.created && op.key == k) {
      var moved := op.MoveConstruct? || (op.MoveAssign? && op.key != op.from);
      var j := if moved && k == op.key then op.from else k;
      assert j in Live(c) && Carried(Some(j), op) == Some(k);
    }
  }

  lemma ClearedLive(c: Context, k: nat)
    requires k in c.keys
    ensures Live(Cleared(c, k)) == Live(c) - {k}
    ensures var d := Cleared(c, k); Live(d.(keys := d.keys - {k})) == Live(c) - {k}
  {
  }

  /**
   In every run a key object holds a key of the context if and only if one that was loaded has been carried
   there by moves, and neither cleared nor overwritten on the way.
   */
  lemma {:induction false} KeysAreCarried(cs: seq<Context>, ops: seq<Op>, k: nat, n: nat)
    requires Run(cs, ops) && n < |cs|
    ensures k in Live(cs[n]) <==> SomeKeyAt(ops, k, n)
    decreases n
  {
    if n > 0 {
      var op := ops[n - 1];
      StepHolds(cs[n - 1], op, k);
      if k in Live(cs[n]) {
        if op.Load? && op.created && op.key == k {
          assert Sits(ops, n - 1, k, n);
        } else {
          var j :| j in Live(cs[n - 1]) && Carried(Some(j), op) == Some(k);
          KeysAreCarried(cs, ops, j, n - 1);
          var i :| 0 <= i < n - 1 && Sits(ops, i, j, n - 1);
          assert Sits(ops, i, k, n);
        }
      }
      if SomeKeyAt(ops, k, n) {
        var i :| 0 <= i < n && Sits(ops, i, k, n);
        if i < n - 1 {
          var j := Place(ops, i, n - 1).value;
          assert Sits(ops, i, j, n - 1);
          KeysAreCarried(cs, ops, j, n - 1);
        }
      }
    }
  }

  // ---------- what the context remembers ----------

  lemma StepFlags(c: Context, op: Op)
    requires Possible(c, op)
    ensures Step(c, op).stopRequested <==> c.stopRequested || op == Stop
    ensures !Step(c, op).hasHandle <==> !c.hasHandle || op == WentIdle
  {
  }

  /** In every run a stop is remembered exactly if there was one, and the handle is there until IDLE. */
  lemma FlagsAreHistory(cs: seq<Context>, ops: seq<Op>, n: nat)
    requires Run(cs, ops) && n < |cs|
    ensures cs[n].stopRequested <==> exists i :: 0 <= i < n && ops[i] == Stop
    ensures cs[n].hasHandle <==> forall i | 0 <= i < n :: ops[i] != WentIdle
  {
    var requested := seq(|cs|, i requires 0 <= i < |cs| => cs[i].stopRequested);
    var stops := seq(|ops|, i requires 0 <= i < |ops| => ops[i] == Stop);
    var gone := seq(|cs|, i requires 0 <= i < |cs| => !cs[i].hasHandle);
    var idles := seq(|ops|, i requires 0 <= i < |ops| => ops[i] == WentIdle);
    forall i | 0 <= i < n
      ensures requested[i + 1] == (requested[i] || stops[i]) && gone[i + 1] == (gone[i] || idles[i])
    {
      StepFlags(cs[i], ops[i]);
    }
    Latch(requested, stops, 0, n);
    Latch(gone, idles, 0, n);
    assert forall i | 0 <= i < n :: stops[i] == (ops[i] == Stop);
    assert forall i | 0 <= i < n :: idles[i] == (ops[i] == WentIdle);
  }

  /** Without a stop, no stop is ever issued. */
  lemma {:induction false} NothingUnasked(cs: seq<Context>, ops: seq<Op>, n: nat)
    requires Run(cs, ops) && n < |cs| && forall i | 0 <= i < n :: ops[i] != Stop
    ensures cs[n].calls == []
  {
    if n > 0 {
      NothingUnasked(cs, ops, n - 1);
      FlagsAreHistory(cs, ops, n);
      RunKeeps(cs, ops, n - 1);
      StepCalls(cs[n - 1], ops[n - 1]);
    }
  }
}
