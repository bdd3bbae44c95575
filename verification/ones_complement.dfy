/**
 One's complement sums of 16-bit words (RFC 1071): the textbook sum with end-around carry, the fast
 form that adds into 32 bits and folds twice, and why both byte orders give the same checksum.
 */
module OnesComplement {
  import opened MachineWords

  // ---------- the reference: 16-bit addition with end-around carry ----------

  function OnesAdd(a: u16, b: u16): u16 {
    if a + b < TWO16 then a + b else a + b - TWO16 + 1
  }

  function OnesSum(ws: seq<u16>): u16 {
    if ws == [] then 0 else OnesAdd(OnesSum(ws[..|ws| - 1]), ws[|ws| - 1])
  }

  // ---------- the fast form ----------

  function Sum(ws: seq<u16>): nat {
    if ws == [] then 0 else Sum(ws[..|ws| - 1]) + ws[|ws| - 1]
  }

  /** (x & 0xffff) + (x >> 16) */
  function Fold(x: u32): u32 {
    x % TWO16 + x / TWO16
  }

  function Complement(x: u16): u16 {
    TWO16 - 1 - x
  }

  function Swap16(x: u16): u16 {
    x % 256 * 256 + x / 256
  }

  /** be16toh and htobe16: the identity on a big-endian host, a swap on a little-endian one. */
  function ToHost(little: bool, x: u16): u16 {
    if little then Swap16(x) else x
  }

  lemma ToHostTwice(little: bool, x: u16)
    ensures ToHost(little, ToHost(little, x)) == x
  {
    var h, l := x / 256, x % 256;
    assert (256 * l + h) / 256 == l && (256 * l + h) % 256 == h;
  }

  lemma ComplementSwaps(x: u16)
    ensures Swap16(Complement(x)) == Complement(Swap16(x))
  {
    var h, l := x / 256, x % 256;
    assert Complement(x) == 256 * (255 - h) + (255 - l);
    assert Complement(x) / 256 == 255 - h && Complement(x) % 256 == 255 - l;
  }

  /** The representative of `s` modulo 0xffff that only zero itself maps to zero. */
  function Canon(s: nat): (r: u16)
    ensures r == 0 <==> s == 0
  {
    if s == 0 then 0 else (s - 1) % 0xffff + 1
  }

  lemma CanonUnique(s: nat, k: int, x: u16)
    requires s == 0xffff * k + x && s > 0 && x > 0
    ensures Canon(s) == x
  {
    assert s - 1 == 0xffff * k + (x - 1);
    assert (s - 1) / 0xffff == k;
    assert (s - 1) % 0xffff == x - 1;
  }

  lemma CanonOf(s: nat) returns (k: nat)
    ensures s == 0xffff * k + Canon(s)
  {
    if s == 0 {
      k := 0;
    } else {
      k := (s - 1) / 0xffff;
    }
  }

  /** Two sums above zero have the same checksum exactly if they agree modulo 0xffff. */
  lemma CanonCongruent(s: nat, t: nat)
    requires s > 0 && t > 0
    ensures Canon(s) == Canon(t) <==> s % 0xffff == t % 0xffff
  {
    var k := CanonOf(s);
    var l := CanonOf(t);
    if s % 0xffff == t % 0xffff {
      var m := s / 0xffff - t / 0xffff;
      assert s == 0xffff * (l + m) + Canon(t);
      CanonUnique(s, l + m, Canon(t));
    }
    if Canon(s) == Canon(t) {
      SameRemainder(s, t, k - l);
    }
  }

  lemma SameRemainder(s: nat, t: nat, m: int)
    requires s == t + 0xffff * m
    ensures s % 0xffff == t % 0xffff
  {
    assert s / 0xffff == t / 0xffff + m;
  }

  lemma {:induction false} OnesSumIsCanon(ws: seq<u16>)
    ensures OnesSum(ws) == Canon(Sum(ws))
  {
    if ws != [] {
      var front, w := ws[..|ws| - 1], ws[|ws| - 1];
      OnesSumIsCanon(front);
      var k := CanonOf(Sum(front));
      var a := OnesSum(front);
      if Sum(ws) > 0 {
        if a + w < TWO16 {
          CanonUnique(Sum(ws), k, a + w);
        } else {
          assert Sum(ws) == 0xffff * (k + 1) + (a + w - 0xffff);
          CanonUnique(Sum(ws), k + 1, a + w - 0xffff);
        }
      }
    }
  }

  /** Two folds always suffice to bring a 32-bit sum down to its one's complement sum. */
  lemma FoldTwice(s: u32)
    ensures Fold(Fold(s)) == Canon(s)
  {
    var q, r := s / TWO16, s % TWO16;
    assert s == 0xffff * q + (q + r);
    if s > 0 {
      if q + r < TWO16 {
        CanonUnique(s, q, q + r);
      } else {
        assert s == 0xffff * (q + 1) + (q + r - 0xffff);
        CanonUnique(s, q + 1, q + r - 0xffff);
      }
    }
  }

  // ---------- byte order (section 2(B) of RFC 1071) ----------

  /** The words as a host reads them from memory. */
  function Native(little: bool, ws: seq<u16>): (r: seq<u16>)
    ensures |r| == |ws|
  {
    seq(|ws|, i requires 0 <= i < |ws| => if little then Swap16(ws[i]) else ws[i])
  }

  function HighBytes(ws: seq<u16>): nat {
    if ws == [] then 0 else HighBytes(ws[..|ws| - 1]) + ws[|ws| - 1] / 256
  }

  lemma {:induction false} SwappedSum(ws: seq<u16>)
    ensures Sum(Native(true, ws)) == 256 * Sum(ws) - 0xffff * HighBytes(ws)
  {
    if ws != [] {
      SwappedSum(ws[..|ws| - 1]);
      assert Native(true, ws)[..|ws| - 1] == Native(true, ws[..|ws| - 1]);
    }
  }

  lemma SwapCanon(ws: seq<u16>)
    ensures Canon(Sum(Native(true, ws))) == Swap16(Canon(Sum(ws)))
  {
    var s, t := Sum(ws), Sum(Native(true, ws));
    SwappedSum(ws);
    var k := CanonOf(s);
    var c: int := Canon(s);
    assert Swap16(c) == 256 * c - 0xffff * (c / 256);
    var m := 256 * k - HighBytes(ws) + c / 256;
    assert t == 0xffff * m + Swap16(c);
    ZeroSwapped(ws);
    if c > 0 {
      CanonUnique(t, m, Swap16(c));
    }
  }

  lemma {:induction false} ZeroSwapped(ws: seq<u16>)
    ensures Sum(Native(true, ws)) == 0 <==> Sum(ws) == 0
  {
    if ws != [] {
      ZeroSwapped(ws[..|ws| - 1]);
      assert Native(true, ws)[..|ws| - 1] == Native(true, ws[..|ws| - 1]);
    }
  }

  lemma NativeBig(ws: seq<u16>)
    ensures Native(false, ws) == ws
  {
  }

  /**
   Adding the words as the host reads them, folding twice, complementing and converting back gives
   the complement of the one's complement sum of the big-endian words, on either byte order.
   */
  lemma ByteOrderIndependent(little: bool, ws: seq<u16>)
    requires Sum(Native(little, ws)) < TWO32
    ensures Fold(Fold(Sum(Native(little, ws)))) < TWO16
    ensures ToHost(little, Complement(Fold(Fold(Sum(Native(little, ws)))))) == Complement(OnesSum(ws))
  {
    FoldTwice(Sum(Native(little, ws)));
    OnesSumIsCanon(ws);
    if little {
      SwapCanon(ws);
      ComplementSwaps(OnesSum(ws));
      ComplementSwaps(Swap16(OnesSum(ws)));
      ToHostTwice(true, OnesSum(ws));
    } else {
      NativeBig(ws);
    }
  }

  // ---------- sums ----------

  lemma {:induction false} SumBound(ws: seq<u16>)
    ensures Sum(ws) <= 0xffff * |ws|
  {
    if ws != [] {
      SumBound(ws[..|ws| - 1]);
    }
  }

  lemma {:induction false} SumAppend(a: seq<u16>, b: seq<u16>)
    ensures Sum(a + b) == Sum(a) + Sum(b)
  {
    if b == [] {
      assert a + b == a;
    } else {
      SumAppend(a, b[..|b| - 1]);
      assert (a + b)[..|a + b| - 1] == a + b[..|b| - 1];
    }
  }

  lemma SumUpdate(ws: seq<u16>, i: nat, w: u16)
    requires i < |ws|
    ensures Sum(ws[i := w]) == Sum(ws) - ws[i] + w
  {
    assert ws == ws[..i] + [ws[i]] + ws[i + 1..];
    assert ws[i := w] == ws[..i] + [w] + ws[i + 1..];
    SumAppend(ws[..i] + [ws[i]], ws[i + 1..]);
    SumAppend(ws[..i] + [w], ws[i + 1..]);
    SumAppend(ws[..i], [ws[i]]);
    SumAppend(ws[..i], [w]);
  }

  /** Storing the complement of the sum of the other words makes the whole sum all ones. */
  lemma ChecksumVerifies(ws: seq<u16>, i: nat)
    requires i < |ws|
    ensures OnesSum(ws[i := Complement(OnesSum(ws[i := 0]))]) == 0xffff
  {
    var s := Sum(ws[i := 0]);
    var c := Complement(OnesSum(ws[i := 0]));
    OnesSumIsCanon(ws[i := 0]);
    OnesSumIsCanon(ws[i := c]);
    SumUpdate(ws, i, 0);
    SumUpdate(ws, i, c);
    var k := CanonOf(s);
    assert s + c == 0xffff * k + 0xffff;
    CanonUnique(s + c, k, 0xffff);
  }
}
