/** Unsigned machine words as natural numbers, with the bitwise operators the
    sources use defined bit by bit. A width is a modulus written at the use. */
module Bits {

  function Pow2(n: nat): (r: nat)
    ensures r > 0
  {
    if n == 0 then 1 else 2 * Pow2(n - 1)
  }

  /** Bit number i of w. */
  predicate Bit(w: nat, i: nat)
  {
    if i == 0 then w % 2 == 1 else Bit(w / 2, i - 1)
  }

  function And(x: nat, y: nat): nat
  {
    if x == 0 || y == 0 then 0 else (if x % 2 == 1 && y % 2 == 1 then 1 else 0) + 2 * And(x / 2, y / 2)
  }

  function Or(x: nat, y: nat): nat
  {
    if x == 0 then y
    else if y == 0 then x
    else (if x % 2 + y % 2 == 0 then 0 else 1) + 2 * Or(x / 2, y / 2)
  }

  lemma Pow2Add(a: nat, b: nat)
    ensures Pow2(a + b) == Pow2(a) * Pow2(b)
  {
    if a != 0 {
      Pow2Add(a - 1, b);
    }
  }

  lemma Pow2Less(a: nat, b: nat)
    requires a < b
    ensures 2 * Pow2(a) <= Pow2(b)
  {
    if a + 1 < b {
      Pow2Less(a, b - 1);
    }
  }

  lemma WordSizes()
    ensures Pow2(8) == 0x100
    ensures Pow2(16) == 0x1_0000
    ensures Pow2(24) == 0x100_0000
    ensures Pow2(32) == 0x1_0000_0000
    ensures Pow2(64) == 0x1_0000_0000_0000_0000
  {
    assert Pow2(4) == 16;
    Pow2Add(4, 4);
    Pow2Add(8, 8);
    Pow2Add(8, 16);
    Pow2Add(16, 16);
    Pow2Add(32, 32);
  }

  lemma ZeroHasNoBits(i: nat)
    ensures !Bit(0, i)
  {
    if i != 0 {
      ZeroHasNoBits(i - 1);
    }
  }

  lemma AndBits(x: nat, y: nat, i: nat)
    ensures Bit(And(x, y), i) == (Bit(x, i) && Bit(y, i))
    decreases i
  {
    if x == 0 || y == 0 {
      ZeroHasNoBits(i);
    } else if i != 0 {
      AndBits(x / 2, y / 2, i - 1);
    }
  }

  lemma OrBits(x: nat, y: nat, i: nat)
    ensures Bit(Or(x, y), i) == (Bit(x, i) || Bit(y, i))
    decreases i
  {
    if x == 0 || y == 0 {
      ZeroHasNoBits(i);
    } else if i != 0 {
      OrBits(x / 2, y / 2, i - 1);
    }
  }

  lemma ShiftBits(w: nat, s: nat, i: nat)
    ensures Bit(w * Pow2(s), i) == (i >= s && Bit(w, i - s))
    decreases s
  {
    if s != 0 {
      assert w * Pow2(s) == 2 * (w * Pow2(s - 1));
      if i != 0 {
        ShiftBits(w, s - 1, i - 1);
      }
    }
  }

  lemma HalfMod(w: nat, m: nat)
    requires m > 0
    ensures w % (2 * m) / 2 == w / 2 % m
    ensures w % (2 * m) % 2 == w % 2
  {
    var q := w / 2 / m;
    var r := w / 2 % m;
    assert w == 2 * (q * m + r) + w % 2;
    assert w == q * (2 * m) + (2 * r + w % 2);
    ModUnique(w, 2 * m, q, 2 * r + w % 2);
  }

  lemma ModUnique(x: int, m: int, q: int, r: int)
    requires m > 0 && 0 <= r < m && x == q * m + r
    ensures x % m == r && x / m == q
  {
    var d := x / m - q;
    assert d * m == r - x % m;
    assert d >= 1 ==> d * m >= m;
    assert d <= -1 ==> d * m <= -m;
  }

  lemma ModBits(w: nat, k: nat, i: nat)
    ensures Bit(w % Pow2(k), i) == (i < k && Bit(w, i))
    decreases i
  {
    if k == 0 {
      ZeroHasNoBits(i);
    } else {
      HalfMod(w, Pow2(k - 1));
      if i != 0 {
        ModBits(w / 2, k - 1, i - 1);
      }
    }
  }

  lemma Pow2Bits(a: nat, i: nat)
    ensures Bit(Pow2(a), i) == (i == a)
    decreases i
  {
    if a == 0 {
      if i != 0 { ZeroHasNoBits(i - 1); }
    } else if i != 0 {
      Pow2Bits(a - 1, i - 1);
    }
  }

  /** Testing one bit with a mask. */
  lemma AndPow2(w: nat, a: nat)
    ensures (And(w, Pow2(a)) != 0) == Bit(w, a)
    decreases a
  {
    if w == 0 {
      ZeroHasNoBits(a);
    } else if a != 0 {
      AndPow2(w / 2, a - 1);
    }
  }

  /** Masking with ones leaves a number that fits alone. */
  lemma AndOnes(x: nat, n: nat)
    requires x < Pow2(n)
    ensures And(x, Pow2(n) - 1) == x
  {
    if x != 0 && n != 0 {
      AndOnes(x / 2, n - 1);
      assert (Pow2(n) - 1) / 2 == Pow2(n - 1) - 1;
    }
  }

  lemma AndEven(x: nat, m: nat)
    ensures And(x, 2 * m) == 2 * And(x / 2, m)
  {
  }

  /** Masking the low k of n bits away rounds down to a multiple of 2^k. */
  lemma {:induction false} AndHighMask(x: nat, n: nat, k: nat)
    requires k <= n && x < Pow2(n)
    ensures Pow2(k) <= Pow2(n)
    ensures And(x, Pow2(n) - Pow2(k)) == x - x % Pow2(k)
    decreases k
  {
    if k == 0 {
      AndOnes(x, n);
    } else {
      AndHighMask(x / 2, n - 1, k - 1);
      AndEven(x, Pow2(n - 1) - Pow2(k - 1));
      HalfMod(x, Pow2(k - 1));
    }
  }

  lemma OrEvenOdd(a: nat, m: nat)
    ensures Or(2 * a, 2 * m + 1) == 2 * Or(a, m) + 1
  {
  }

  /** The largest multiple of m not above x. */
  function Floor(x: nat, m: nat): (r: nat)
    requires m > 0
    ensures r <= x < r + m
  {
    x - x % m
  }

  lemma RoundedHalf(x: nat, m: nat)
    requires m > 0
    ensures Floor(x, 2 * m) == 2 * Floor(x / 2, m)
  {
    HalfMod(x, m);
  }

  /** Filling the low k bits of a multiple of 2^k. */
  lemma {:induction false} OrFill(x: nat, k: nat)
    ensures Or(Floor(x, Pow2(k)), Pow2(k) - 1) == Floor(x, Pow2(k)) + Pow2(k) - 1
    decreases k
  {
    hide Or, Floor;
    if k == 0 {
      OrZero(Floor(x, 1));
    } else {
      OrFill(x / 2, k - 1);
      RoundedHalf(x, Pow2(k - 1));
      OrEvenOdd(Floor(x / 2, Pow2(k - 1)), Pow2(k - 1) - 1);
    }
  }

  lemma OrZero(x: nat)
    ensures Or(x, 0) == x
  {
  }
}
