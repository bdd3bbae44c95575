/** Shift left, bitwise or and remainders of integers, and how they act on the parts of a word. */
module BitOperations {
  function Or(a: nat, b: nat): nat {
    if a == 0 && b == 0 then 0
    else 2 * Or(a / 2, b / 2) + (if a % 2 == 1 || b % 2 == 1 then 1 else 0)
  }

  /** x << k, before any truncation. */
  function Shl(x: nat, k: nat): nat {
    if k == 0 then x else 2 * Shl(x, k - 1)
  }

  lemma {:induction false} OrZero(a: nat)
    ensures Or(a, 0) == a && Or(0, a) == a
  {
    if a > 0 {
      OrZero(a / 2);
    }
  }

  lemma {:induction false} OrBound(a: nat, b: nat, k: nat)
    requires a < Power(k) && b < Power(k)
    ensures Or(a, b) < Power(k)
  {
    if k > 0 {
      OrBound(a / 2, b / 2, k - 1);
    }
  }

  lemma {:induction false} ShlZero(k: nat)
    ensures Shl(0, k) == 0
  {
    if k > 0 {
      ShlZero(k - 1);
    }
  }

  /** Or acts on the high and the low part of a word separately. */
  lemma {:induction false} OrSplit(x: nat, y: nat, l: nat, m: nat, k: nat)
    requires l < Shl(1, k) && m < Shl(1, k)
    ensures Or(Shl(x, k) + l, Shl(y, k) + m) == Shl(Or(x, y), k) + Or(l, m)
  {
    if k > 0 {
      OrSplit(x, y, l / 2, m / 2, k - 1);
      var a, b := Shl(x, k) + l, Shl(y, k) + m;
      assert a / 2 == Shl(x, k - 1) + l / 2 && a % 2 == l % 2;
      assert b / 2 == Shl(y, k - 1) + m / 2 && b % 2 == m % 2;
      assert Or(a, b) == 2 * Or(a / 2, b / 2) + (if a % 2 == 1 || b % 2 == 1 then 1 else 0);
    }
  }

  lemma {:induction false} ShlTimes(x: nat, k: nat)
    ensures Shl(x, k) == Shl(1, k) * x
  {
    if k > 0 {
      ShlTimes(x, k - 1);
      assert 2 * (Shl(1, k - 1) * x) == 2 * Shl(1, k - 1) * x;
    }
  }

  function Power(k: nat): nat {
    Shl(1, k)
  }

  lemma Powers()
    ensures Power(2) == 4 && Power(3) == 8 && Power(4) == 16 && Power(6) == 64 && Power(8) == 256
    ensures Power(12) == 0x1000 && Power(13) == 0x2000 && Power(20) == 0x10_0000
    ensures Power(28) == 0x1000_0000 && Power(32) == 0x1_0000_0000
  {
    assert Shl(1, 10) == 1024;
    assert Shl(1, 20) == 0x10_0000;
    assert Shl(1, 30) == 0x4000_0000;
  }

  lemma OrParts(x: nat, y: nat, l: nat, m: nat, k: nat, p: nat)
    requires p == Power(k) && l < p && m < p
    ensures Or(p * x + l, p * y + m) == p * Or(x, y) + Or(l, m)
  {
    OrSplit(x, y, l, m, k);
    ShlTimes(x, k);
    ShlTimes(y, k);
    ShlTimes(Or(x, y), k);
  }

  /** A value merged into the empty low bits of a word: what does not fit reaches the high bits. */
  lemma OrLow(high: nat, over: nat, rest: nat, k: nat, p: nat)
    requires p == Power(k) && rest < p
    ensures Or(p * high, p * over + rest) == p * Or(high, over) + rest
  {
    OrParts(high, over, 0, rest, k, p);
    OrZero(rest);
  }

  /** With room for the value the word holds both parts side by side. */
  lemma OrDisjoint(high: nat, low: nat, k: nat, p: nat)
    requires p == Power(k) && low < p
    ensures Or(p * high, low) == p * high + low
  {
    OrParts(high, 0, 0, low, k, p);
    OrZero(high);
    OrZero(low);
  }

  lemma {:induction false} OrCommutes(a: nat, b: nat)
    ensures Or(a, b) == Or(b, a)
  {
    if a + b > 0 {
      OrCommutes(a / 2, b / 2);
    }
  }

  /** Quotient and remainder are the only numbers that make up the dividend. */
  lemma QuotientIs(x: int, m: int, q: int, r: int)
    requires 0 <= r < m && x == m * q + r
    ensures x / m == q
  {
    var d := x / m - q;
    assert m * d == r - x % m;
    assert d >= 1 ==> m * d >= m;
    assert d <= -1 ==> m * d <= -m;
  }

  lemma RemainderIs(x: int, m: int, q: int, r: int)
    requires 0 <= r < m && x == m * q + r
    ensures x % m == r
  {
    QuotientIs(x, m, q, r);
  }
}
