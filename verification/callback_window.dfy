/**
 The plain-DOCA compression sample: no fibers, only callbacks that keep up to four blocks in flight.
 */
module CallbackWindow {
  const PARALLEL_OFFLOADS: nat := 4

  datatype Window = Window(
    blocks: nat,
    offloaded: nat,
    completed: nat,
    inFlight: set<nat>,      // the device's side
    offloads: seq<nat>,      // block numbers as they were submitted
    writes: seq<nat>,        // entries of out_regions as they were written
    stops: nat)              // calls of doca_ctx_stop

  /** offload_next; `ok` says whether buffers, task and submission all succeed. */
  function OffloadNext(w: Window, ok: bool): Window {
    if !ok then w
    else w.(offloaded := w.offloaded + 1,
            inFlight := w.inFlight + {w.offloaded}, offloads := w.offloads + [w.offloaded])
  }

  /** The RUNNING callback: up to four attempts to offload, the i-th succeeding if `ok(i)`. */
  function FillFirst(w: Window, ok: nat -> bool, n: nat): Window {
    if n == 0 then w else OffloadNext(FillFirst(w, ok, n - 1), ok(n - 1))
  }

  function Attempts(blocks: nat): nat {
    if blocks < PARALLEL_OFFLOADS then blocks else PARALLEL_OFFLOADS
  }

  function Start(blocks: nat, ok: nat -> bool): Window {
    FillFirst(Window(blocks, 0, 0, {}, [], [], 0), ok, Attempts(blocks))
  }

  /** The completion callback for block `num`. */
  function Completed(w: Window, num: nat, ok: bool): Window {
    var c := w.(completed := w.completed + 1, inFlight := w.inFlight - {num}, writes := w.writes + [num]);
    if c.offloaded < c.blocks then OffloadNext(c, ok)
    else if c.completed == c.blocks then c.(stops := c.stops + 1)
    else c
  }

  /** The device completes one block after another, in any order. */
  ghost predicate Run(ws: seq<Window>, nums: seq<nat>, oks: seq<bool>) {
    && |ws| == |nums| + 1 && |oks| == |nums|
    && (exists first: nat -> bool :: ws[0] == Start(ws[0].blocks, first))
    && forall i | 0 <= i < |nums| :: nums[i] in ws[i].inFlight && ws[i + 1] == Completed(ws[i], nums[i], oks[i])
  }

  // ---------- the callbacks as code ----------

  class CompressionState {
    const blockCount: nat
    var offloaded: nat
    var completed: nat
    var outRegions: seq<nat>  // size of each compressed block
    ghost var inFlight: set<nat>
    ghost var offloads: seq<nat>
    ghost var writes: seq<nat>
    ghost var stops: nat

    ghost function View(): Window
      reads this
    {
      Window(blockCount, offloaded, completed, inFlight, offloads, writes, stops)
    }

    constructor (blocks: nat)
      ensures View() == Window(blocks, 0, 0, {}, [], [], 0) && |outRegions| == blocks
    {
      blockCount, offloaded, completed, outRegions := blocks, 0, 0, seq(blocks, i => 0);
      inFlight, offloads, writes, stops := {}, [], [], 0;
    }

    method OffloadNextBlock(ok: bool)
      modifies this
      ensures View() == OffloadNext(old(View()), ok) && outRegions == old(outRegions)
    {
      if ok {
        inFlight, offloads := inFlight + {offloaded}, offloads + [offloaded];
        offloaded := offloaded + 1;
      }
    }

    method StateChangedToRunning(ok: nat -> bool)
      modifies this
      ensures View() == FillFirst(old(View()), ok, Attempts(blockCount)) && outRegions == old(outRegions)
    {
      var i := 0;
      while i < PARALLEL_OFFLOADS && i < blockCount
        invariant 0 <= i <= Attempts(blockCount) && outRegions == old(outRegions)
        invariant View() == FillFirst(old(View()), ok, i)
      {
        OffloadNextBlock(ok(i));
        i := i + 1;
      }
    }

    method CompletedCallback(num: nat, size: nat, ok: bool)
      requires num < |outRegions|
      modifies this
      ensures View() == Completed(old(View()), num, ok)
      ensures outRegions == old(outRegions)[num := size]
    {
      completed := completed + 1;
      outRegions := outRegions[num := size];
      inFlight, writes := inFlight - {num}, writes + [num];
      if offloaded < blockCount {
        OffloadNextBlock(ok);
      } else if completed == blockCount {
        stops := stops + 1;
      }
    }
  }

  // ---------- every run ----------

  ghost function Upto(n: nat): (r: seq<nat>)
    ensures |r| == n && forall i | 0 <= i < n :: r[i] == i
  {
    if n == 0 then [] else Upto(n - 1) + [n - 1]
  }

  /** Each block below `offloaded` is either in flight or has had its region written, exactly once. */
  ghost predicate Inv(w: Window) {
    && w.completed <= w.offloaded <= w.blocks
    && w.offloads == Upto(w.offloaded)
    && |w.writes| == w.completed
    && multiset(w.writes) + multiset(w.inFlight) == multiset(Upto(w.offloaded))
    && w.offloaded <= w.completed + PARALLEL_OFFLOADS
    && w.stops == (if w.blocks > 0 && w.completed == w.blocks then 1 else 0)
  }

  lemma InFlightCount(w: Window)
    requires Inv(w)
    ensures |w.inFlight| == w.offloaded - w.completed
    ensures forall k | k in w.inFlight :: k < w.offloaded && k !in w.writes
  {
    assert |multiset(w.writes) + multiset(w.inFlight)| == |multiset(Upto(w.offloaded))|;
    forall k | k in w.inFlight
      ensures k < w.offloaded && k !in w.writes
    {
      UptoOnce(w.offloaded, k);
      assert (multiset(w.writes) + multiset(w.inFlight))[k] == multiset(w.writes)[k] + 1;
    }
  }

  lemma AppendCount(s: seq<nat>, x: nat, k: nat)
    ensures multiset(s + [x])[k] == multiset(s)[k] + if x == k then 1 else 0
  {
    assert multiset(s + [x]) == multiset(s) + multiset{x};
  }

  lemma {:induction false} UptoOnce(n: nat, k: nat)
    ensures multiset(Upto(n))[k] == if k < n then 1 else 0
  {
    if n > 0 {
      UptoOnce(n - 1, k);
      AppendCount(Upto(n - 1), n - 1, k);
    }
  }

  lemma OffloadKeeps(w: Window, ok: bool)
    requires Inv(w) && w.offloaded < w.blocks && w.offloaded < w.completed + PARALLEL_OFFLOADS
    ensures Inv(OffloadNext(w, ok))
  {
    InFlightCount(w);
    if ok {
      assert w.offloaded !in w.inFlight;
      assert multiset(w.inFlight + {w.offloaded}) == multiset(w.inFlight) + multiset{w.offloaded};
    }
  }

  /** A block leaves the window and has its region written. */
  lemma WrittenKeeps(w: Window, num: nat)
    requires Inv(w) && num in w.inFlight
    ensures var c := w.(completed := w.completed + 1, inFlight := w.inFlight - {num}, writes := w.writes + [num]);
            && multiset(c.writes) + multiset(c.inFlight) == multiset(Upto(c.offloaded))
            && c.completed <= c.offloaded
  {
    InFlightCount(w);
    assert multiset(w.inFlight) == multiset(w.inFlight - {num}) + multiset{num};
    assert |w.inFlight| > 0;
  }

  lemma CompletedKeeps(w: Window, num: nat, ok: bool)
    requires Inv(w) && num in w.inFlight
    ensures Inv(Completed(w, num, ok))
  {
    var c := w.(completed := w.completed + 1, inFlight := w.inFlight - {num}, writes := w.writes + [num]);
    WrittenKeeps(w, num);
    if c.offloaded < c.blocks {
      OffloadKeeps(c, ok);
    }
  }

  ghost function Filled(blocks: nat, ok: nat -> bool, n: nat): Window {
    FillFirst(Window(blocks, 0, 0, {}, [], [], 0), ok, n)
  }

  lemma {:induction false} FillCounts(blocks: nat, ok: nat -> bool, n: nat)
    ensures var w := Filled(blocks, ok, n); w.blocks == blocks && w.completed == 0 && w.offloaded <= n
    ensures (forall i | 0 <= i < n :: ok(i)) ==> Filled(blocks, ok, n).offloaded == n
  {
    if n > 0 {
      FillCounts(blocks, ok, n - 1);
    }
  }

  lemma NothingOffloaded(blocks: nat)
    ensures Inv(Window(blocks, 0, 0, {}, [], [], 0))
  {
  }

  lemma {:induction false} FillKeeps(blocks: nat, ok: nat -> bool, n: nat)
    requires n <= Attempts(blocks)
    ensures Inv(Filled(blocks, ok, n))
  {
    if n == 0 {
      NothingOffloaded(blocks);
    } else {
      FillKeeps(blocks, ok, n - 1);
      FillCounts(blocks, ok, n - 1);
      OffloadKeeps(Filled(blocks, ok, n - 1), ok(n - 1));
    }
  }

  lemma {:induction false} RunKeeps(ws: seq<Window>, nums: seq<nat>, oks: seq<bool>, n: nat)
    requires Run(ws, nums, oks) && n < |ws|
    ensures Inv(ws[n]) && ws[n].blocks == ws[0].blocks
  {
    if n == 0 {
      var first: nat -> bool :| ws[0] == Start(ws[0].blocks, first);
      FillKeeps(ws[0].blocks, first, Attempts(ws[0].blocks));
    } else {
      RunKeeps(ws, nums, oks, n - 1);
      CompletedKeeps(ws[n - 1], nums[n - 1], oks[n - 1]);
    }
  }

  /**
   In every run, for any order of completions and even if offloads fail: blocks are submitted once
   each in index order, at most four are in flight, no region is written twice, and the stop has been
   requested exactly once if all blocks are complete and not at all otherwise.
   */
  lemma WindowSafety(ws: seq<Window>, nums: seq<nat>, oks: seq<bool>, n: nat)
    requires Run(ws, nums, oks) && n < |ws|
    ensures var w := ws[n];
            && w.offloads == Upto(w.offloaded)
            && |w.inFlight| == w.offloaded - w.completed <= PARALLEL_OFFLOADS
            && (forall k: nat :: multiset(w.writes)[k] <= 1)
            && w.stops == (if w.blocks > 0 && w.completed == w.blocks then 1 else 0)
  {
    RunKeeps(ws, nums, oks, n);
    InFlightCount(ws[n]);
    forall k: nat
      ensures multiset(ws[n].writes)[k] <= 1
    {
      UptoOnce(ws[n].offloaded, k);
      assert (multiset(ws[n].writes) + multiset(ws[n].inFlight))[k] >= multiset(ws[n].writes)[k];
    }
  }

  /** The window is as full as the remaining blocks allow. */
  predicate Full(w: Window) {
    w.offloaded == if w.blocks < w.completed + PARALLEL_OFFLOADS then w.blocks else w.completed + PARALLEL_OFFLOADS
  }

  lemma FullStep(w: Window, num: nat)
    requires Inv(w) && Full(w) && num in w.inFlight
    ensures Full(Completed(w, num, true))
  {
    InFlightCount(w);
    assert |w.inFlight| > 0;
  }

  /** As long as no offload fails, the window is full. */
  lemma {:induction false} WindowFull(ws: seq<Window>, nums: seq<nat>, oks: seq<bool>, first: nat -> bool, n: nat)
    requires Run(ws, nums, oks) && n < |ws| && ws[0] == Start(ws[0].blocks, first)
    requires (forall i | 0 <= i < Attempts(ws[0].blocks) :: first(i)) && (forall i | 0 <= i < n :: oks[i])
    ensures Full(ws[n])
  {
    if n == 0 {
      FillCounts(ws[0].blocks, first, Attempts(ws[0].blocks));
    } else {
      RunKeeps(ws, nums, oks, n - 1);
      WindowFull(ws, nums, oks, first, n - 1);
      FullStep(ws[n - 1], nums[n - 1]);
    }
  }

  /** Hence, with at least one block, the device owes a completion until the stop has been requested. */
  lemma WindowProgress(ws: seq<Window>, nums: seq<nat>, oks: seq<bool>, first: nat -> bool, n: nat)
    requires Run(ws, nums, oks) && n < |ws| && ws[0] == Start(ws[0].blocks, first)
    requires (forall i | 0 <= i < Attempts(ws[0].blocks) :: first(i)) && (forall i | 0 <= i < n :: oks[i])
    ensures ws[n].blocks > 0 ==> (ws[n].inFlight == {} <==> ws[n].stops == 1)
  {
    RunKeeps(ws, nums, oks, n);
    InFlightCount(ws[n]);
    WindowFull(ws, nums, oks, first, n);
  }

  /** Without a block, or when the first offloads all fail, nothing is in flight and no stop is ever requested. */
  lemma NeverStarts(blocks: nat, ok: nat -> bool)
    requires forall i | 0 <= i < Attempts(blocks) :: !ok(i)
    ensures var w := Start(blocks, ok);
            w.inFlight == {} && w.stops == 0
  {
    NothingFilled(blocks, ok, Attempts(blocks));
  }

  lemma {:induction false} NothingFilled(blocks: nat, ok: nat -> bool, n: nat)
    requires forall i | 0 <= i < n :: !ok(i)
    ensures FillFirst(Window(blocks, 0, 0, {}, [], [], 0), ok, n) == Window(blocks, 0, 0, {}, [], [], 0)
  {
    if n > 0 {
      NothingFilled(blocks, ok, n - 1);
    }
  }
}
