/**
 Compressing a file chunk by chunk: one chunk at a time (simple_compress), and with a window of
 chunks in flight whose awaitables sit in a ring of slots (parallel_compress).
 */
module CompressWindow {
  import opened BitOperations
  import opened Options

  datatype Result<T> = Ok(value: T) | EmptyAwaitable  // co_await on a default-constructed awaitable

  datatype Action =
    | Offload(chunk: nat)
    | Finish(chunk: nat)   // the device completes the chunk
    | Awaited(chunk: nat)  // the fiber's co_await on the chunk returns

  // ---------- what a window of `p` slots may do ----------

  ghost function Offloaded(trace: seq<Action>): set<nat> {
    if trace == [] then {}
    else
      var last := trace[|trace| - 1];
      Offloaded(trace[..|trace| - 1]) + if last.Offload? then {last.chunk} else {}
  }

  ghost function Finished(trace: seq<Action>): set<nat> {
    if trace == [] then {}
    else
      var last := trace[|trace| - 1];
      Finished(trace[..|trace| - 1]) + if last.Finish? then {last.chunk} else {}
  }

  ghost function AwaitedIn(trace: seq<Action>): set<nat> {
    if trace == [] then {}
    else
      var last := trace[|trace| - 1];
      AwaitedIn(trace[..|trace| - 1]) + if last.Awaited? then {last.chunk} else {}
  }

  /** Whether `a` may follow `before`. */
  ghost predicate Allowed(before: seq<Action>, a: Action, p: nat) {
    var k := a.chunk;
    match a
    case Offload(_) =>
      && k !in Offloaded(before)
      && (k > 0 ==> k - 1 in Offloaded(before))
      && (k >= p ==> k - p in AwaitedIn(before))
    case Finish(_) => k in Offloaded(before) && k !in Finished(before)
    case Awaited(_) => k in Finished(before) && k !in AwaitedIn(before)
  }

  /**
   Chunks are offloaded once each in order, finished once each after that, awaited once each after
   that, and a slot is reused only when the chunk in it has been awaited.
   */
  ghost predicate Windowed(trace: seq<Action>, p: nat) {
    trace != [] ==>
      && Windowed(trace[..|trace| - 1], p)
      && Allowed(trace[..|trace| - 1], trace[|trace| - 1], p)
  }

  lemma Append(trace: seq<Action>, a: Action, p: nat)
    ensures Windowed(trace + [a], p) <==> Windowed(trace, p) && Allowed(trace, a, p)
    ensures Offloaded(trace + [a]) == Offloaded(trace) + if a.Offload? then {a.chunk} else {}
    ensures Finished(trace + [a]) == Finished(trace) + if a.Finish? then {a.chunk} else {}
    ensures AwaitedIn(trace + [a]) == AwaitedIn(trace) + if a.Awaited? then {a.chunk} else {}
  {
    assert (trace + [a])[..|trace + [a]| - 1] == trace;
  }

  ghost function Upto(n: nat): (r: set<nat>)
    ensures forall k :: k in r <==> 0 <= k < n
  {
    if n == 0 then {} else Upto(n - 1) + {n - 1}
  }

  /** How many chunks have been offloaded. */
  ghost function Count(trace: seq<Action>): nat {
    if trace == [] then 0
    else Count(trace[..|trace| - 1]) + if trace[|trace| - 1].Offload? then 1 else 0
  }

  /** Chunks are offloaded in order, and a window behind the latest everything has been awaited. */
  lemma {:induction false} WindowShape(trace: seq<Action>, p: nat)
    requires Windowed(trace, p)
    ensures AwaitedIn(trace) <= Finished(trace) <= Offloaded(trace) == Upto(Count(trace))
    ensures forall k | 0 <= k && k + p < Count(trace) :: k in AwaitedIn(trace)
  {
    if trace != [] {
      var front, last := trace[..|trace| - 1], trace[|trace| - 1];
      WindowShape(front, p);
      if last.Offload? {
        assert last.chunk == Count(front);
        assert Upto(Count(front)) + {Count(front)} == Upto(Count(trace));
      }
    }
  }

  /** At every moment at most `p` chunks are offloaded and not awaited. */
  lemma InFlightBounded(trace: seq<Action>, p: nat)
    requires Windowed(trace, p)
    ensures |Offloaded(trace) - AwaitedIn(trace)| <= p
  {
    WindowShape(trace, p);
    var n := Count(trace);
    RangeSize(Offloaded(trace) - AwaitedIn(trace), if n < p then 0 else n - p, p);
  }

  lemma {:induction false} RangeSize(s: set<nat>, lo: nat, n: nat)
    requires forall k | k in s :: lo <= k < lo + n
    ensures |s| <= n
    decreases n
  {
    if n == 0 {
      assert s == {};
    } else {
      RangeSize(s - {lo + n - 1}, lo, n - 1);
      assert s == (s - {lo + n - 1}) + (s * {lo + n - 1});
      assert |s * {lo + n - 1}| <= |{lo + n - 1}| by {
        assert s * {lo + n - 1} == {} || s * {lo + n - 1} == {lo + n - 1};
      }
    }
  }

  // ---------- the device ----------

  function Mapped<In, Out>(src: seq<In>, f: In -> Out): seq<Out> {
    seq(|src|, i requires 0 <= i < |src| => f(src[i]))
  }

  /** The compress context and the destination buffers; `f` is what the hardware computes. */
  class Device<In, Out> {
    const src: seq<In>
    const f: In -> Out
    const window: nat
    var dst: seq<Option<Out>>
    var busy: set<nat>
    ghost var trace: seq<Action>

    ghost predicate Valid()
      reads this
    {
      && |dst| == |src| && Windowed(trace, window)
      && busy == Offloaded(trace) - Finished(trace)
      && (forall k | k in Offloaded(trace) :: k < |src|)
      && (forall k | k in Finished(trace) :: k < |src| && dst[k] == Some(f(src[k])))
    }

    constructor (src: seq<In>, f: In -> Out, window: nat)
      ensures Valid() && this.src == src && this.f == f && this.window == window
      ensures trace == []
    {
      this.src, this.f, this.window := src, f, window;
      dst, busy, trace := seq(|src|, i => None), {}, [];
    }

    method Compress(k: nat)
      requires Valid() && k < |src| && Allowed(trace, Offload(k), window)
      modifies this
      ensures Valid()
      ensures Offloaded(trace) == old(Offloaded(trace)) + {k} && AwaitedIn(trace) == old(AwaitedIn(trace))
    {
      Append(trace, Offload(k), window);
      WindowShape(trace, window);
      busy := busy + {k};
      trace := trace + [Offload(k)];
    }

    method FinishChunk(k: nat)
      requires Valid() && k in busy
      modifies this
      ensures Valid() && busy == old(busy) - {k} && Finished(trace) == old(Finished(trace)) + {k}
      ensures Offloaded(trace) == old(Offloaded(trace)) && AwaitedIn(trace) == old(AwaitedIn(trace))
    {
      Append(trace, Finish(k), window);
      busy := busy - {k};
      dst := dst[k := Some(f(src[k]))];
      trace := trace + [Finish(k)];
    }

    /** While a fiber waits, the device finishes the chunks in `chosen`, in some order. */
    method Progress(chosen: set<nat>)
      requires Valid() && chosen <= busy
      modifies this
      ensures Valid() && Finished(trace) == old(Finished(trace)) + chosen
      ensures Offloaded(trace) == old(Offloaded(trace)) && AwaitedIn(trace) == old(AwaitedIn(trace))
      decreases chosen
    {
      if chosen != {} {
        var j :| j in chosen;
        FinishChunk(j);
        Progress(chosen - {j});
      }
    }

    /** co_await: the device finishes chunk `k`, and any others it likes, before the fiber goes on. */
    method Await(k: nat, also: set<nat>)
      requires Valid() && k in Offloaded(trace) && k !in AwaitedIn(trace)
      modifies this
      ensures Valid()
      ensures Offloaded(trace) == old(Offloaded(trace)) && AwaitedIn(trace) == old(AwaitedIn(trace)) + {k}
    {
      Progress(busy * (also + {k}));
      Append(trace, Awaited(k), window);
      trace := trace + [Awaited(k)];
    }
  }

  // ---------- the two programs ----------

  /** simple_compress: each chunk is awaited before the next one is offloaded. */
  method CompressSequentially<In, Out>(src: seq<In>, f: In -> Out, timing: nat -> set<nat>) returns (out: seq<Out>)
    ensures out == Mapped(src, f)
  {
    var device := new Device(src, f, 1);
    out := [];
    for i := 0 to |src|
      invariant device.Valid() && device.src == src && device.f == f && device.window == 1
      invariant Offloaded(device.trace) == Upto(i) && AwaitedIn(device.trace) == Upto(i)
      invariant |out| == i && forall k | 0 <= k < i :: out[k] == f(src[k])
    {
      var compressed := CompressOne(device, i, timing(i));
      out := out + [compressed];
    }
  }

  method CompressOne<In, Out>(device: Device<In, Out>, i: nat, also: set<nat>) returns (compressed: Out)
    requires device.Valid() && device.window == 1 && i < |device.src|
    requires Offloaded(device.trace) == Upto(i) && AwaitedIn(device.trace) == Upto(i)
    modifies device
    ensures device.Valid() && Offloaded(device.trace) == Upto(i + 1) && AwaitedIn(device.trace) == Upto(i + 1)
    ensures compressed == device.f(device.src[i])
  {
    device.Compress(i);
    device.Await(i, also);
    WindowShape(device.trace, 1);
    compressed := device.dst[i].value;
  }

  /**
   parallel_compress: slot `i % p` holds the awaitable of the latest chunk with that remainder. For
   every timing of the device the output is the sequential one; with fewer chunks than slots the
   final loop awaits a slot that was never filled.
   */
  method CompressInParallel<In, Out>(src: seq<In>, f: In -> Out, p: nat, timing: nat -> set<nat>)
    returns (r: Result<seq<Out>>, ghost trace: seq<Action>)
    requires p > 0
    ensures r.Ok? <==> |src| >= p
    ensures r.Ok? ==> r.value == Mapped(src, f)
    ensures Windowed(trace, p) && Offloaded(trace) == Upto(|src|)
    ensures r.Ok? ==> AwaitedIn(trace) == Upto(|src|)
  {
    var device := new Device(src, f, p);
    var waiters := new Option<nat>[p](i => None);
    OffloadAll(device, waiters, timing);
    var ok := AwaitRest(device, waiters, timing);
    trace := device.trace;
    if !ok {
      return EmptyAwaitable, trace;
    }
    var out := Collect(device);
    r := Ok(out);
  }

  /** Once every chunk has been awaited, the destination buffers hold the output. */
  method Collect<In, Out>(device: Device<In, Out>) returns (out: seq<Out>)
    requires device.Valid() && AwaitedIn(device.trace) == Upto(|device.src|)
    ensures out == Mapped(device.src, device.f)
  {
    WindowShape(device.trace, device.window);
    var dst := device.dst;
    assert forall i | 0 <= i < |dst| :: i in Upto(|dst|);
    out := seq(|dst|, i requires 0 <= i < |dst| && dst[i].Some? => dst[i].value);
  }

  /** The first loop: awaits what sits in the slot, then offloads the next chunk into it. */
  method OffloadAll<In, Out>(device: Device<In, Out>, waiters: array<Option<nat>>, timing: nat -> set<nat>)
    requires device.Valid() && device.trace == [] && device.window == waiters.Length > 0
    requires forall j | 0 <= j < waiters.Length :: waiters[j] == None
    modifies device, waiters
    ensures device.Valid() && Offloaded(device.trace) == Upto(|device.src|)
    ensures DrainedTo(AwaitedIn(device.trace), |device.src|, 0, waiters.Length)
    ensures forall j | 0 <= j < waiters.Length :: waiters[j] == Latest(|device.src|, j, waiters.Length)
  {
    for i := 0 to |device.src|
      invariant Filled(device, waiters, i)
    {
      OffloadOne(device, waiters, i, timing(i));
    }
  }

  ghost predicate Filled<In, Out>(device: Device<In, Out>, waiters: array<Option<nat>>, i: nat)
    reads device, waiters
  {
    var p := waiters.Length;
    && device.Valid() && device.window == p > 0 && Offloaded(device.trace) == Upto(i)
    && AwaitedIn(device.trace) == Upto(if i < p then 0 else i - p)
    && (forall j | 0 <= j < p :: waiters[j] == Latest(i, j, p))
  }

  method OffloadOne<In, Out>(device: Device<In, Out>, waiters: array<Option<nat>>, i: nat, also: set<nat>)
    requires Filled(device, waiters, i) && i < |device.src|
    modifies device, waiters
    ensures Filled(device, waiters, i + 1)
  {
    var slot := i % waiters.Length;
    SlotIsRemainder(i, waiters.Length);
    LatestStep(i, waiters.Length);
    if i >= waiters.Length {
      device.Await(waiters[slot].value, also);
    }
    device.Compress(i);
    waiters[slot] := Some(i);
  }

  /** The second loop awaits slot after slot, and fails at a slot that was never filled. */
  method AwaitRest<In, Out>(device: Device<In, Out>, waiters: array<Option<nat>>, timing: nat -> set<nat>)
    returns (ok: bool)
    requires device.Valid() && device.window == waiters.Length > 0
    requires Offloaded(device.trace) == Upto(|device.src|)
    requires DrainedTo(AwaitedIn(device.trace), |device.src|, 0, waiters.Length)
    requires forall j | 0 <= j < waiters.Length :: waiters[j] == Latest(|device.src|, j, waiters.Length)
    modifies device
    ensures device.Valid() && Offloaded(device.trace) == Upto(|device.src|)
    ensures ok <==> |device.src| >= waiters.Length
    ensures ok ==> AwaitedIn(device.trace) == Upto(|device.src|)
  {
    var p, n := waiters.Length, |device.src|;
    for j := 0 to p
      invariant device.Valid() && Offloaded(device.trace) == Upto(n) && n >= j
      invariant DrainedTo(AwaitedIn(device.trace), n, j, p)
    {
      LatestIs(n, j, p);
      if waiters[j] == None {
        return false;
      }
      DrainNext(AwaitedIn(device.trace), n, j, p);
      device.Await(waiters[j].value, timing(n + j));
    }
    ok := true;
    DrainedAll(AwaitedIn(device.trace), n, p);
  }

  /** Everything a window behind the end is awaited, and of the last window what sat in the first `j` slots. */
  ghost predicate DrainedTo(awaited: set<nat>, n: nat, j: nat, p: nat)
    requires p > 0
  {
    forall k :: k in awaited <==> 0 <= k < n && (k + p < n || SlotOf(k, p) < j)
  }

  lemma DrainNext(awaited: set<nat>, n: nat, j: nat, p: nat)
    requires j < p && DrainedTo(awaited, n, j, p) && Latest(n, j, p).Some?
    ensures var k := Latest(n, j, p).value;
            k < n && k !in awaited && DrainedTo(awaited + {k}, n, j + 1, p)
  {
    LatestIs(n, j, p);
    forall k: nat | SlotOf(k, p) == j && k < n <= k + p
      ensures Latest(n, j, p) == Some(k)
    {
      LatestOnly(n, j, p, k);
    }
  }

  lemma DrainedAll(awaited: set<nat>, n: nat, p: nat)
    requires p > 0 && DrainedTo(awaited, n, p, p)
    ensures awaited == Upto(n)
  {
  }

  /** The slot of chunk `k`: the remainder by `p`, counted out. */
  ghost function SlotOf(k: nat, p: nat): (r: nat)
    requires p > 0
    ensures r < p
  {
    if k < p then k else SlotOf(k - p, p)
  }

  lemma {:induction false} SlotIsRemainder(k: nat, p: nat)
    requires p > 0
    ensures SlotOf(k, p) == k % p
  {
    if k < p {
      RemainderIs(k, p, 0, k);
    } else {
      SlotIsRemainder(k - p, p);
      assert p * ((k - p) / p + 1) == p * ((k - p) / p) + p;
      RemainderIs(k, p, (k - p) / p + 1, (k - p) % p);
    }
  }

  /** Chunks that share a slot are at least a whole window apart. */
  lemma {:induction false} SameSlot(k: nat, i: nat, p: nat)
    requires p > 0 && k < i < k + p
    ensures SlotOf(k, p) != SlotOf(i, p)
  {
    if k >= p {
      SameSlot(k - p, i - p, p);
    }
  }

  /** The latest chunk below `n` that uses slot `j`. */
  ghost function Latest(n: nat, j: nat, p: nat): Option<nat>
    requires p > 0
  {
    if n == 0 then None
    else if SlotOf(n - 1, p) == j then Some(n - 1)
    else Latest(n - 1, j, p)
  }

  lemma {:induction false} LatestIs(n: nat, j: nat, p: nat)
    requires j < p
    ensures Latest(n, j, p) == None <==> n <= j
    ensures Latest(n, j, p).Some? ==> var k := Latest(n, j, p).value; k < n <= k + p && SlotOf(k, p) == j
  {
    if n > 0 {
      LatestIs(n - 1, j, p);
    }
  }

  lemma LatestOnly(n: nat, j: nat, p: nat, k: nat)
    requires j < p && Latest(n, j, p).Some? && k < n <= k + p && SlotOf(k, p) == j
    ensures Latest(n, j, p) == Some(k)
  {
    LatestIs(n, j, p);
    var l := Latest(n, j, p).value;
    OneInWindow(k, l, n, p);
  }

  lemma OneInWindow(k: nat, l: nat, n: nat, p: nat)
    requires p > 0 && k < n <= k + p && l < n <= l + p && SlotOf(k, p) == SlotOf(l, p)
    ensures k == l
  {
    if k < l < k + p {
      SameSlot(k, l, p);
    } else if l < k < l + p {
      SameSlot(l, k, p);
    }
  }

  /** The slot that chunk `i` is about to take holds the chunk a whole window before it. */
  lemma LatestStep(i: nat, p: nat)
    requires p > 0
    ensures i >= p ==> Latest(i, SlotOf(i, p), p) == Some(i - p)
  {
    if i >= p {
      LatestIs(i, SlotOf(i, p), p);
      LatestOnly(i, SlotOf(i, p), p, i - p);
    }
  }
}
