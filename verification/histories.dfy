/** A flag that is set by some steps of a run and never reset. */
module Histories {
  lemma {:induction false} Latch(flags: seq<bool>, sets: seq<bool>, m: nat, n: nat)
    requires m <= n < |flags| && n <= |sets| && !flags[m]
    requires forall i | m <= i < n :: flags[i + 1] == (flags[i] || sets[i])
    ensures flags[n] <==> exists i :: m <= i < n && sets[i]
  {
    if m < n {
      Latch(flags, sets, m, n - 1);
    }
  }
}
