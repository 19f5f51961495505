/** Machine words, powers of two, bitwise and/or on natural numbers, and the division facts they need. */
module Bits {

  const TWO32: nat := 0x1_0000_0000
  const TWO64: nat := 0x1_0000_0000_0000_0000

  /** A 32-bit unsigned value. */
  function Wrap32(x: int): nat { x % TWO32 }

  function Pow2(n: nat): (r: nat)
    ensures r >= 1
  {
    if n == 0 then 1 else 2 * Pow2(n - 1)
  }

  function Bit(b: bool): nat { if b then 1 else 0 }

  /** a & b, bit by bit. */
  function And(a: nat, b: nat): nat
  {
    if a == 0 || b == 0 then 0 else 2 * And(a / 2, b / 2) + Bit(a % 2 == 1 && b % 2 == 1)
  }

  /** a | b, bit by bit. */
  function Or(a: nat, b: nat): nat
    decreases a + b
  {
    if a == 0 then b else if b == 0 then a
    else 2 * Or(a / 2, b / 2) + Bit(a % 2 == 1 || b % 2 == 1)
  }

  lemma {:induction false} Pow2Add(a: nat, b: nat)
    ensures Pow2(a + b) == Pow2(a) * Pow2(b)
  {
    if a > 0 {
      Pow2Add(a - 1, b);
    }
  }

  lemma {:induction false} Pow2Grows(a: nat, b: nat)
    requires a <= b
    ensures Pow2(a) <= Pow2(b)
  {
    if a < b {
      Pow2Grows(a, b - 1);
    }
  }

  lemma Pow2Values()
    ensures Pow2(22) == 4194304 && Pow2(23) == 8388608
  {
    assert Pow2(5) == 32;
    Pow2Add(5, 5);
    Pow2Add(10, 10);
    Pow2Add(20, 2);
    assert Pow2(2) == 4;
  }

  /** Setting the next bit above a run of k ones. */
  lemma {:induction false} OrNext(k: nat)
    ensures Or(Pow2(k) - 1, Pow2(k)) == Pow2(k + 1) - 1
  {
    if k > 0 {
      OrNext(k - 1);
      assert (Pow2(k) - 1) / 2 == Pow2(k - 1) - 1 && (Pow2(k) - 1) % 2 == 1;
    }
  }

  lemma AndOnes(t: nat, p: nat)
    requires t > 0 && p > 0
    ensures And(t, 2 * p - 1) == 2 * And(t / 2, p - 1) + t % 2
  {
    assert (2 * p - 1) / 2 == p - 1 && (2 * p - 1) % 2 == 1;
  }

  /** The low k bits of t. */
  function Low(t: nat, k: nat): nat { if k == 0 then 0 else 2 * Low(t / 2, k - 1) + t % 2 }

  lemma {:induction false} AndLow(t: nat, k: nat)
    ensures And(t, Pow2(k) - 1) == Low(t, k)
  {
    if k > 0 {
      AndLow(t / 2, k - 1);
      if t > 0 {
        AndOnes(t, Pow2(k - 1));
      } else {
        assert And(t / 2, Pow2(k - 1) - 1) == 0;
      }
    }
  }

  lemma {:induction false} LowMod(t: nat, k: nat, p: nat)
    requires p == Pow2(k)
    ensures Low(t, k) == t % p
  {
    if k > 0 {
      LowMod(t / 2, k - 1, p / 2);
      HalfMod(t, p / 2);
    }
  }

  /** Masking with k ones is the remainder by 2^k. */
  lemma AndMask(t: nat, k: nat)
    ensures And(t, Pow2(k) - 1) == t % Pow2(k)
  {
    AndLow(t, k);
    LowMod(t, k, Pow2(k));
  }

  /** Masking with one bit tells the digit there. */
  lemma {:induction false} AndBit(t: nat, k: nat)
    ensures And(t, Pow2(k)) != 0 <==> (t / Pow2(k)) % 2 == 1
  {
    if k > 0 {
      AndBit(t / 2, k - 1);
      HalveFirst(t, k - 1);
      AndDouble(t, Pow2(k - 1));
    }
  }

  lemma AndDouble(t: nat, p: nat)
    requires p > 0
    ensures And(t, 2 * p) == 2 * And(t / 2, p)
  {
    if t == 0 {
      assert And(t / 2, p) == 0;
    }
  }

  /** Halving before or after a division by a power of two is the same. */
  lemma {:induction false} HalveFirst(x: nat, n: nat)
    ensures (x / 2) / Pow2(n) == x / Pow2(n + 1)
  {
    if n > 0 {
      HalveFirst(x, n - 1);
      HalfDiv(x / 2, n - 1);
      HalfDiv(x, n);
    }
  }

  lemma HalfMod(t: nat, p: nat)
    requires p > 0
    ensures t % (2 * p) == 2 * ((t / 2) % p) + t % 2
  {
    var q, r := t / 2 / p, (t / 2) % p;
    assert t / 2 == q * p + r;
    assert t == q * (2 * p) + (2 * r + t % 2);
    Remainder(t, 2 * p, q, 2 * r + t % 2);
  }

  lemma Scaled(d: int, p: int)
    requires p > 0
    ensures d >= 1 ==> d * p >= p
    ensures d <= -1 ==> d * p <= 0 - p
  {
  }

  lemma Remainder(t: int, p: int, q: int, r: int)
    requires p > 0 && 0 <= r < p && t == q * p + r
    ensures t / p == q && t % p == r
  {
    var d := t / p - q;
    assert d * p == (t / p) * p - q * p == r - t % p;
    Scaled(d, p);
  }

  /** Shifting right by one more place. */
  lemma HalfDiv(x: nat, n: nat)
    ensures x / Pow2(n) / 2 == x / Pow2(n + 1)
  {
    var p := Pow2(n);
    var q, r := x / p, x % p;
    var h := q / 2;
    if q % 2 == 0 {
      assert q * p == (2 * h) * p == h * (2 * p);
      Remainder(x, 2 * p, h, r);
    } else {
      assert q * p == (2 * h + 1) * p == h * (2 * p) + p;
      Remainder(x, 2 * p, h, p + r);
    }
  }

  lemma Divided(x: int, d: int)
    requires d > 0
    ensures (x / d) * d <= x < (x / d) * d + d
  {
  }

  lemma LeqMul(a: int, b: int, c: int)
    requires a <= b && c >= 0
    ensures a * c <= b * c
  {
  }

  lemma LeqDiv(a: int, b: int, c: int)
    requires a * c <= b * c && c > 0
    ensures a <= b
  {
    Scaled(a - b, c);
    assert (a - b) * c == a * c - b * c;
  }

  lemma ExactQuotient(x: int, s: int, k: int)
    requires s > 0 && x == k * s
    ensures x / s == k
  {
    Remainder(x, s, k, 0);
  }

  lemma QuotientGrows(a: int, b: int, s: int)
    requires a <= b && s > 0
    ensures a / s <= b / s
  {
    Divided(a, s);
    Divided(b, s);
    Scaled(a / s - b / s, s);
    assert (a / s - b / s) * s == (a / s) * s - (b / s) * s;
  }

  lemma QuotientAdd(a: int, b: int, s: int)
    requires s > 0
    ensures 0 <= (a + b) / s - a / s - b / s <= 1
  {
    var x, y := a / s, b / s;
    var r := a % s + b % s;
    assert (x + y) * s == x * s + y * s;
    if r < s {
      Remainder(a + b, s, x + y, r);
    } else {
      assert (x + y + 1) * s == (x + y) * s + s;
      Remainder(a + b, s, x + y + 1, r - s);
    }
  }

  lemma NotNegative(x: nat, d: nat)
    requires d > 0
    ensures x / d >= 0
  {
    QuotientGrows(0, x, d);
    ExactQuotient(0, d, 0);
  }

  lemma Pow2Words()
    ensures Pow2(31) == 0x8000_0000 && Pow2(32) == TWO32
  {
    assert Pow2(8) == 256;
    Pow2Add(8, 8);
    Pow2Add(16, 16);
    assert Pow2(32) == 2 * Pow2(31);
  }

  /** The j-th place after a, around a ring of that size. */
  function Around(size: nat, a: nat, j: nat): int { if a + j < size then a + j else a + j - size }
}
