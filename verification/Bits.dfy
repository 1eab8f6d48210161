/** Bitwise operations of the C++ sources, written out on natural numbers. */
module Bits {

  const WORD64: nat := 0x1_0000_0000_0000_0000
  const WORD32: nat := 0x1_0000_0000

  function Pow2(k: nat): (p: nat)
    ensures p >= 1
  {
    if k == 0 then 1 else 2 * Pow2(k - 1)
  }

  ghost predicate IsPow2(a: nat) {
    exists k: nat :: a == Pow2(k)
  }

  /** The bitwise `x & y`. */
  function And(x: nat, y: nat): nat {
    if x == 0 || y == 0 then 0
    else 2 * And(x / 2, y / 2) + (if x % 2 == 1 && y % 2 == 1 then 1 else 0)
  }

  /** The bitwise `~m` of a 64-bit word. */
  function Not64(m: nat): nat
    requires m < WORD64
  {
    WORD64 - 1 - m
  }

  lemma {:induction false} Pow2Divides(j: nat, k: nat)
    requires j <= k
    ensures Pow2(k) % Pow2(j) == 0
    decreases k
  {
    if j == k {
      QuotientUnique(Pow2(k), Pow2(j), 1, 0);
    } else {
      Pow2Divides(j, k - 1);
      DoubleMultiple(Pow2(k - 1), Pow2(j));
    }
  }

  lemma DoubleMultiple(x: nat, m: nat)
    requires m > 0 && x % m == 0
    ensures (2 * x) % m == 0
  {
    var q := x / m;
    assert x == q * m;
    MultipleMod(2 * q, m);
    assert 2 * x == (2 * q) * m;
  }

  lemma MultipleMod(q: nat, m: nat)
    requires m > 0
    ensures (q * m) % m == 0
  {
    QuotientUnique(q * m, m, q, 0);
  }

  /** Euclidean division is determined by its equation. */
  lemma QuotientUnique(x: nat, m: nat, q: nat, r: nat)
    requires m > 0 && r < m && x == q * m + r
    ensures x / m == q && x % m == r
  {
    var d := x / m - q;
    assert x == (x / m) * m + x % m;
    assert (x / m) * m == (d + q) * m == d * m + q * m;
    assert d * m == r - x % m;
    if d >= 1 {
      MulAtLeast(d, m);
    } else if d <= -1 {
      NegatedAtLeast(d, m);
    }
  }

  lemma NegatedAtLeast(d: int, m: nat)
    requires d <= -1
    ensures d * m + m <= 0
  {
    MulAtLeast(-d, m);
    assert (-d) * m == -(d * m);
  }

  lemma MulAtLeast(a: nat, m: nat)
    requires a >= 1
    ensures a * m >= m
  {
    assert a * m == (a - 1) * m + m;
  }

  /** Halving commutes with reduction modulo a power of two. */
  lemma HalfMod(v: nat, k: nat)
    requires k > 0
    ensures v % Pow2(k) == 2 * ((v / 2) % Pow2(k - 1)) + v % 2
  {
    var m := Pow2(k - 1);
    var q, r := (v / 2) / m, (v / 2) % m;
    assert v / 2 == q * m + r;
    assert v == q * (2 * m) + (2 * r + v % 2) by {
      assert q * (2 * m) == 2 * (q * m);
    }
    QuotientUnique(v, 2 * m, q, 2 * r + v % 2);
  }

  lemma {:induction false} Pow2Monotone(j: nat, k: nat)
    requires j < k
    ensures Pow2(j) < Pow2(k)
  {
    if j < k - 1 {
      Pow2Monotone(j, k - 1);
    }
  }

  lemma {:induction false} Pow2Injective(j: nat, k: nat)
    requires Pow2(j) <= Pow2(k)
    ensures j <= k
  {
    if k < j { Pow2Monotone(k, j); }
  }

  lemma SmallMod(v: nat, m: nat)
    requires v < m
    ensures v % m == v
  {
    QuotientUnique(v, m, 0, v);
  }

  /** `~(2^k - 1)` of an n-bit word. */
  function HighMask(n: nat, k: nat): (r: nat)
    requires k <= n
  {
    if k < n then Pow2Monotone(k, n); Pow2(n) - Pow2(k) else 0
  }

  lemma AndUnfold(v: nat, m: nat)
    ensures And(v, 2 * m) == 2 * And(v / 2, m)
    ensures And(v, 2 * m + 1) == 2 * And(v / 2, m) + v % 2
  {
    assert 2 * m / 2 == m && 2 * m % 2 == 0;
    assert (2 * m + 1) / 2 == m && (2 * m + 1) % 2 == 1;
  }

  /** Masking with `~(2^k - 1)` clears the low k bits. */
  lemma {:induction false} AndClearsLowBits(v: nat, n: nat, k: nat)
    requires v < Pow2(n) && k <= n
    ensures And(v, HighMask(n, k)) == v - v % Pow2(k)
    decreases n
  {
    if k == n {
      SmallMod(v, Pow2(k));
    } else if k > 0 {
      assert HighMask(n, k) == 2 * HighMask(n - 1, k - 1);
      AndUnfold(v, HighMask(n - 1, k - 1));
      AndClearsLowBits(v / 2, n - 1, k - 1);
      HalfMod(v, k);
    } else {
      assert HighMask(n, 0) == 2 * HighMask(n - 1, 0) + 1;
      AndUnfold(v, HighMask(n - 1, 0));
      AndClearsLowBits(v / 2, n - 1, 0);
      QuotientUnique(v, 1, v, 0);
      QuotientUnique(v / 2, 1, v / 2, 0);
    }
  }

  lemma Pow2At64()
    ensures Pow2(64) == WORD64
  {
    assert Pow2(8) == 256;
    assert Pow2(16) == 0x1_0000;
    assert Pow2(24) == 0x100_0000;
    assert Pow2(32) == 0x1_0000_0000;
    assert Pow2(40) == 0x100_0000_0000;
    assert Pow2(48) == 0x1_0000_0000_0000;
    assert Pow2(56) == 0x100_0000_0000_0000;
  }
}
