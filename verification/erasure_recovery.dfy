/**
 The erasure coding samples: the encoder writes data and redundancy blocks into a file, the recovery
 loads the first available blocks, has the hardware recompute the missing ones and merges the two.
 */
module ErasureRecovery {
  datatype Entry<B> = Entry(index: nat, content: B)

  /** The file that the encoder writes for these data and redundancy blocks. */
  function Written<B>(blocks: seq<B>): (file: seq<Entry<B>>)
    ensures |file| == |blocks|
  {
    seq(|blocks|, i requires 0 <= i < |blocks| => Entry(i, blocks[i]))
  }

  method DumpBlocks<B>(data: seq<B>, redundancy: seq<B>) returns (file: seq<Entry<B>>)
    ensures file == Written(data + redundancy)
  {
    file := [];
    for i := 0 to |data|
      invariant file == Written(data[..i])
    {
      file := file + [Entry(i, data[i])];
    }
    for i := 0 to |redundancy|
      invariant file == Written(data + redundancy[..i])
    {
      file := file + [Entry(|data| + i, redundancy[i])];
    }
    assert redundancy[..|redundancy|] == redundancy;
  }

  // ---------- loading ----------

  /** The blocks of the file that are not ignored, in the order of the file. */
  function Kept<B>(file: seq<Entry<B>>, ignored: set<nat>): seq<B> {
    if file == [] then []
    else
      var last := file[|file| - 1];
      Kept(file[..|file| - 1], ignored) + (if last.index in ignored then [] else [last.content])
  }

  lemma {:induction false} KeptPrefix<B>(file: seq<Entry<B>>, ignored: set<nat>, n: nat)
    requires n <= |file|
    ensures Kept(file[..n], ignored) <= Kept(file, ignored)
  {
    if n < |file| {
      KeptPrefix(file[..|file| - 1], ignored, n);
      assert file[..|file| - 1][..n] == file[..n];
    } else {
      assert file[..n] == file;
    }
  }

  method LoadAvailable<B(0)>(file: seq<Entry<B>>, ignored: set<nat>, count: nat)
      returns (available: array<B>, loaded: nat)
    requires count > 0
    ensures fresh(available) && available.Length == count
    ensures loaded == (if |Kept(file, ignored)| < count then |Kept(file, ignored)| else count)
    ensures available[..loaded] == Kept(file, ignored)[..loaded]
  {
    available := new B[count];
    loaded := 0;
    for i := 0 to |file|
      invariant loaded == |Kept(file[..i], ignored)| < count
      invariant available[..loaded] == Kept(file[..i], ignored)
    {
      assert file[..i + 1][..i] == file[..i];
      KeptPrefix(file, ignored, i + 1);
      if file[i].index !in ignored {
        available[loaded] := file[i].content;
        loaded := loaded + 1;
        if loaded >= count {
          return;
        }
      }
    }
    assert file[..|file|] == file;
  }

  // ---------- merging ----------

  /** How many of the indices below `i` are ignored. */
  function Below(ignored: set<nat>, i: nat): (r: nat)
    ensures r <= i
  {
    if i == 0 then 0 else Below(ignored, i - 1) + (if i - 1 in ignored then 1 else 0)
  }

  lemma {:induction false} BelowGrows(ignored: set<nat>, i: nat, n: nat)
    requires i <= n
    ensures Below(ignored, i) <= Below(ignored, n) <= Below(ignored, i) + n - i
  {
    if i < n {
      BelowGrows(ignored, i, n - 1);
    }
  }

  /** Each of the first `n` blocks from the one source or from the other. */
  function Merged<B>(available: seq<B>, recovered: seq<B>, ignored: set<nat>, n: nat): seq<B>
    requires Below(ignored, n) <= |recovered| && n - Below(ignored, n) <= |available|
  {
    if n == 0 then []
    else
      var r := Below(ignored, n - 1);
      Merged(available, recovered, ignored, n - 1) +
      [if n - 1 in ignored then recovered[r] else available[n - 1 - r]]
  }

  method MergeBlocks<B>(available: seq<B>, recovered: seq<B>, ignored: set<nat>, count: nat) returns (out: seq<B>)
    requires Below(ignored, count) <= |recovered| && count - Below(ignored, count) <= |available|
    ensures out == Merged(available, recovered, ignored, count)
  {
    var recoveredIx, availableIx := 0, 0;
    out := [];
    for i := 0 to count
      invariant recoveredIx == Below(ignored, i) <= |recovered|
      invariant availableIx == i - Below(ignored, i) <= |available|
      invariant out == Merged(available, recovered, ignored, i)
    {
      BelowGrows(ignored, i + 1, count);
      if i in ignored {
        out := out + [recovered[recoveredIx]];
        recoveredIx := recoveredIx + 1;
      } else {
        out := out + [available[availableIx]];
        availableIx := availableIx + 1;
      }
    }
  }

  // ---------- the round trip ----------

  predicate Increasing(missing: seq<nat>) {
    forall i, j | 0 <= i < j < |missing| :: missing[i] < missing[j]
  }

  function Members(missing: seq<nat>): set<nat> {
    set m | m in missing
  }

  lemma NoLater(missing: seq<nat>, i: nat, j: nat)
    requires Increasing(missing) && i <= j < |missing|
    ensures missing[i] <= missing[j]
  {
  }

  /** The missing indices below `n` are the first ones of the list. */
  lemma {:induction false} Ranked(missing: seq<nat>, n: nat)
    requires Increasing(missing)
    ensures var r := Below(Members(missing), n);
            r <= |missing| && forall j | 0 <= j < |missing| :: missing[j] < n <==> j < r
  {
    if n > 0 {
      Ranked(missing, n - 1);
      var r := Below(Members(missing), n - 1);
      if n - 1 in missing {
        var j :| 0 <= j < |missing| && missing[j] == n - 1;
        NoLater(missing, r, j);
      }
    }
  }

  /** What is kept of the first `n` blocks, and where the next one goes. */
  lemma {:induction false} KeptWritten<B>(blocks: seq<B>, ignored: set<nat>, n: nat)
    requires n <= |blocks|
    ensures |Kept(Written(blocks)[..n], ignored)| == n - Below(ignored, n)
  {
    if n > 0 {
      KeptWritten(blocks, ignored, n - 1);
      assert Written(blocks)[..n][..n - 1] == Written(blocks)[..n - 1];
    }
  }

  lemma KeptAt<B>(blocks: seq<B>, ignored: set<nat>, i: nat)
    requires i < |blocks| && i !in ignored
    ensures var kept, k := Kept(Written(blocks), ignored), i - Below(ignored, i);
            k < |kept| && kept[k] == blocks[i]
  {
    KeptWritten(blocks, ignored, i);
    KeptPrefix(Written(blocks), ignored, i + 1);
    assert Written(blocks)[..i + 1][..i] == Written(blocks)[..i];
  }

  /** The hardware: from the first available blocks it computes the missing ones in ascending order. */
  ghost predicate Recovers<B>(recover: seq<B> -> seq<B>, blocks: seq<B>, count: nat, missing: seq<nat>) {
    var kept := Kept(Written(blocks), Members(missing));
    count <= |kept| ==>
      var r := recover(kept[..count]);
      |r| == |missing| && forall j | 0 <= j < |missing| && missing[j] < |blocks| :: r[j] == blocks[missing[j]]
  }

  /** As many blocks as there are data blocks remain if no more are missing than are redundant. */
  lemma EnoughKept<B>(blocks: seq<B>, count: nat, missing: seq<nat>)
    requires Increasing(missing) && count + |missing| <= |blocks|
    ensures |Kept(Written(blocks), Members(missing))| >= count
  {
    KeptWritten(blocks, Members(missing), |blocks|);
    assert Written(blocks)[..|blocks|] == Written(blocks);
    Ranked(missing, |blocks|);
  }

  lemma MissingAt(missing: seq<nat>, i: nat)
    requires Increasing(missing) && i in missing
    ensures var r := Below(Members(missing), i); r < |missing| && missing[r] == i
  {
    Ranked(missing, i);
    Ranked(missing, i + 1);
  }

  /** The available and the recovered blocks, merged, are the first `n` blocks that were encoded. */
  lemma {:induction false} MergedOriginal<B>(
      blocks: seq<B>, missing: seq<nat>, available: seq<B>, recovered: seq<B>, n: nat)
    requires Increasing(missing) && n <= |blocks| && available <= Kept(Written(blocks), Members(missing))
    requires |recovered| == |missing|
    requires forall j | 0 <= j < |missing| && missing[j] < |blocks| :: recovered[j] == blocks[missing[j]]
    requires Below(Members(missing), n) <= |recovered| && n - Below(Members(missing), n) <= |available|
    ensures Merged(available, recovered, Members(missing), n) == blocks[..n]
  {
    if n > 0 {
      MergedOriginal(blocks, missing, available, recovered, n - 1);
      if n - 1 in missing {
        MissingAt(missing, n - 1);
      } else {
        KeptAt(blocks, Members(missing), n - 1);
      }
      assert blocks[..n] == blocks[..n - 1] + [blocks[n - 1]];
    }
  }

  /**
   Whichever blocks are missing, data or redundancy, up to the number of redundancy blocks: the
   recovered file holds the original data blocks in order.
   */
  method RecoverFile<B(0)>(file: seq<Entry<B>>, missing: seq<nat>, count: nat, recover: seq<B> -> seq<B>,
                           ghost blocks: seq<B>) returns (out: seq<B>)
    requires file == Written(blocks) && 0 < count && Increasing(missing) && count + |missing| <= |blocks|
    requires Recovers(recover, blocks, count, missing)
    ensures out == blocks[..count]
  {
    var ignored := Members(missing);
    EnoughKept(blocks, count, missing);
    var available, loaded := LoadAvailable(file, ignored, count);
    assert available[..] == available[..loaded];
    var recovered := recover(available[..]);
    Ranked(missing, count);
    out := MergeBlocks(available[..], recovered, ignored, count);
    MergedOriginal(blocks, missing, available[..], recovered, count);
  }
}
