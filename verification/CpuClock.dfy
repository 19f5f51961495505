/**
 fio's conversion of CPU cycles to nanoseconds: a multiplier and a shift found by calibration, and
 a second stage that keeps the products inside 64 bits. Every product below wraps as the source's
 does; the lemmas show which never do.
 */
module CpuClock {
  import opened Bits

  function Wrap(x: int): nat { x % TWO64 }

  // ---- Calibration ----

  datatype Clock = Clock(mult: nat, shift: nat, blockShift: nat, blockMask: nat, blockNsecs: nat)

  function MaxTicks(m: nat): nat { 3600000 * m }

  function MaxMult(m: nat): int
    requires m > 0
  {
    (TWO64 - 1) / MaxTicks(m)
  }

  /** The cycle rates whose hour fits in 64 bits; m is in cycles per millisecond. */
  predicate InRange(m: nat) { 0 < m && MaxTicks(m) < TWO64 }

  /** What calibration is to find, without its loops. */
  predicate Calibrated(c: Clock, m: nat)
    requires InRange(m)
  {
    && Pow2(c.shift) <= MaxMult(m) * m / 1000000 < Pow2(c.shift + 1)
    && c.mult == Pow2(c.shift) * 1000000 / m
    && Pow2(c.blockShift) <= MaxTicks(m) < Pow2(c.blockShift + 1)
    && c.blockMask == Pow2(c.blockShift) - 1
    && c.blockNsecs == Pow2(c.blockShift) * c.mult / Pow2(c.shift)
  }

  /** The shift-and-count loop: the position of the highest set bit. */
  method Log2(x: nat) returns (n: nat)
    ensures x > 0 ==> Pow2(n) <= x < Pow2(n + 1)
    ensures x == 0 ==> n == 0
  {
    n := 0;
    var left := x;
    while left > 1
      invariant left == x / Pow2(n) && (x > 0 ==> left > 0) && (x == 0 ==> n == 0)
      decreases left
    {
      HalfDiv(x, n);
      left := left / 2;
      n := n + 1;
    }
    if x > 0 {
      Leading(x, n);
    }
  }

  lemma Leading(x: nat, n: nat)
    requires x / Pow2(n) == 1
    ensures Pow2(n) <= x < Pow2(n + 1)
  {
    var p := Pow2(n);
    assert x == (x / p) * p + x % p;
  }

  /** The mask loop: that many ones. */
  method Ones(k: nat) returns (mask: nat)
    ensures mask == Pow2(k) - 1
  {
    mask := 0;
    for i := 0 to k
      invariant mask == Pow2(i) - 1
    {
      OrNext(i);
      mask := Or(mask, Pow2(i));
    }
  }

  // ---- What the calibration values satisfy ----

  lemma WrapSmall(x: int)
    requires 0 <= x < TWO64
    ensures Wrap(x) == x
  {
  }

  lemma MaxMultFacts(m: nat)
    requires InRange(m)
    ensures 1 <= MaxMult(m) && MaxMult(m) * MaxTicks(m) < TWO64
    ensures 2562047 <= MaxMult(m) * m / 1000000 <= 5124095
    ensures MaxMult(m) * m < TWO64
  {
    var x, t := MaxMult(m), MaxTicks(m);
    Divided(TWO64 - 1, t);
    if x <= 0 {
      LeqMul(x, 0, t);
    }
    LeqMul(1, x, t);
    assert x * t == x * (3600000 * m) == 3600000 * (x * m);
  }

  /** The multiplier stays within the bound computed for it. */
  lemma MultBound(c: Clock, m: nat)
    requires InRange(m) && Calibrated(c, m)
    ensures c.mult <= MaxMult(m)
    ensures Pow2(c.blockShift) * c.mult < TWO64
    ensures c.mult * m <= Pow2(c.shift) * 1000000 < (c.mult + 1) * m
  {
    MaxMultFacts(m);
    Divided(MaxMult(m) * m, 1000000);
    Divided(Pow2(c.shift) * 1000000, m);
    assert (c.mult + 1) * m == c.mult * m + m;
    LeqDiv(c.mult, MaxMult(m), m);
    LeqMul(Pow2(c.blockShift), MaxTicks(m), c.mult);
    LeqMul(c.mult, MaxMult(m), MaxTicks(m));
  }

  lemma BlockIsWider(c: Clock, m: nat)
    requires InRange(m) && Calibrated(c, m) && m >= 2
    ensures c.shift <= c.blockShift
  {
    MaxMultFacts(m);
    Pow2Values();
    if c.shift >= 23 {
      Pow2Grows(23, c.shift);
    }
    if c.blockShift + 1 <= 22 {
      Pow2Grows(c.blockShift + 1, 22);
    }
  }

  /** The shift divides a whole block's product, so that blocks join without a jump. */
  lemma BlockDivides(c: Clock, m: nat)
    requires InRange(m) && Calibrated(c, m)
    ensures Pow2(c.blockShift) * c.mult == c.blockNsecs * Pow2(c.shift)
  {
    if m == 1 {
      SlowDivides(c);
    } else {
      BlockIsWider(c, m);
      Pow2Add(c.blockShift - c.shift, c.shift);
      RegroupLeft(Pow2(c.blockShift), c.mult, Pow2(c.blockShift - c.shift), Pow2(c.shift), c.blockNsecs);
    }
  }

  lemma SlowDivides(c: Clock)
    requires InRange(1) && Calibrated(c, 1)
    ensures Pow2(c.blockShift) * c.mult == c.blockNsecs * Pow2(c.shift)
  {
    ExactQuotient(Pow2(c.shift) * 1000000, 1, Pow2(c.shift) * 1000000);
    RegroupRight(Pow2(c.blockShift), c.mult, 1000000, Pow2(c.shift), c.blockNsecs);
  }

  lemma RegroupLeft(p: int, mult: int, k: int, s: int, n: int)
    requires s > 0 && p == k * s && n == p * mult / s
    ensures p * mult == n * s
  {
    assert p * mult == (k * mult) * s;
    ExactQuotient(p * mult, s, k * mult);
  }

  lemma RegroupRight(p: int, mult: int, k: int, s: int, n: int)
    requires s > 0 && mult == s * k && n == p * mult / s
    ensures p * mult == n * s
  {
    assert p * mult == (p * k) * s;
    ExactQuotient(p * mult, s, p * k);
  }

  // ---- The conversion ----

  /** The time for t cycles in one stage: one product, one shift. */
  function OneStage(c: Clock, t: nat): int { t * c.mult / Pow2(c.shift) }

  /** The time in two stages: whole blocks, and the masked rest. */
  function TwoStage(c: Clock, t: nat): int
  {
    (t / Pow2(c.blockShift)) * c.blockNsecs + And(t, c.blockMask) * c.mult / Pow2(c.shift)
  }

  lemma Stages(t: int, p: int, s: int, mult: int, n: int)
    requires p > 0 && s > 0 && p * mult == n * s
    ensures t * mult / s == (t / p) * n + (t % p) * mult / s
  {
    WholeAndRest(t, p, t / p, t % p, mult, n, s);
    AddWhole(t * mult, (t / p) * n, (t % p) * mult, s);
  }

  lemma WholeAndRest(t: int, p: int, a: int, b: int, mult: int, n: int, s: int)
    requires t == a * p + b && p * mult == n * s
    ensures t * mult == (a * n) * s + b * mult
  {
    assert t * mult == a * (p * mult) + b * mult;
    assert a * (n * s) == (a * n) * s;
  }

  lemma AddWhole(x: int, k: int, rest: int, s: int)
    requires s > 0 && x == k * s + rest
    ensures x / s == k + rest / s
  {
    Divided(rest, s);
    assert (k + rest / s) * s == k * s + (rest / s) * s;
    Remainder(x, s, k + rest / s, rest - (rest / s) * s);
  }

  /** The two stages give exactly the single floor, for every number of cycles. */
  lemma StagesAgree(c: Clock, m: nat, t: nat)
    requires InRange(m) && Calibrated(c, m)
    ensures TwoStage(c, t) == OneStage(c, t)
  {
    BlockDivides(c, m);
    AndMask(t, c.blockShift);
    Stages(t, Pow2(c.blockShift), Pow2(c.shift), c.mult, c.blockNsecs);
  }

  /** No product with the multiplier leaves 64 bits. */
  lemma ProductsFit(c: Clock, m: nat, t: nat)
    requires InRange(m) && Calibrated(c, m)
    ensures Pow2(c.blockShift) * c.mult < TWO64
    ensures 0 <= And(t, c.blockMask) * c.mult < TWO64
  {
    MultBound(c, m);
    AndMask(t, c.blockShift);
    LeqMul(0, t % Pow2(c.blockShift), c.mult);
    LeqMul(t % Pow2(c.blockShift), Pow2(c.blockShift), c.mult);
  }

  lemma QuotientsGrow(t: nat, u: nat, mult: nat, s: int)
    requires t <= u && s > 0
    ensures t * mult / s <= u * mult / s
  {
    LeqMul(t, u, mult);
    QuotientGrows(t * mult, u * mult, s);
  }

  lemma NextQuotient(t: nat, mult: nat, s: int)
    requires s > 0
    ensures 0 <= (t + 1) * mult / s - t * mult / s - mult / s <= 1
  {
    assert (t + 1) * mult == t * mult + mult;
    QuotientAdd(t * mult, mult, s);
  }

  /** Later cycles never convert to an earlier time, and one cycle moves it by the multiplier over
      the shift, rounded down or up, also across the end of a block. */
  lemma Monotone(c: Clock, m: nat, t: nat, u: nat)
    requires InRange(m) && Calibrated(c, m) && t <= u
    ensures TwoStage(c, t) <= TwoStage(c, u)
    ensures 0 <= TwoStage(c, t + 1) - TwoStage(c, t) - c.mult / Pow2(c.shift) <= 1
  {
    StagesAgree(c, m, t);
    StagesAgree(c, m, u);
    StagesAgree(c, m, t + 1);
    QuotientsGrow(t, u, c.mult, Pow2(c.shift));
    NextQuotient(t, c.mult, Pow2(c.shift));
  }

  /** The result never exceeds the true time t * 10^6 / m, and falls short of it by less than
      t / 2^shift + 1 nanoseconds. Both are multiplied out. */
  lemma Undershoot(c: Clock, m: nat, t: nat)
    requires InRange(m) && Calibrated(c, m)
    ensures TwoStage(c, t) * m <= t * 1000000
    ensures t * 1000000 * Pow2(c.shift) < (TwoStage(c, t) + 1) * m * Pow2(c.shift) + t * m
  {
    StagesAgree(c, m, t);
    MultBound(c, m);
    var s, r := Pow2(c.shift), OneStage(c, t);
    Divided(t * c.mult, s);
    Below(c.mult, m, s, t, r);
    Above(c.mult, m, s, t, r);
  }

  lemma Below(mult: int, m: int, s: int, t: int, r: int)
    requires s > 0 && t >= 0 && m > 0 && r * s <= t * mult && mult * m <= s * 1000000
    ensures r * m <= t * 1000000
  {
    LeqMul(r * s, t * mult, m);
    LeqMul(mult * m, s * 1000000, t);
    assert (r * s) * m == (r * m) * s && (t * mult) * m == (mult * m) * t;
    assert (s * 1000000) * t == (t * 1000000) * s;
    LeqDiv(r * m, t * 1000000, s);
  }

  lemma Above(mult: int, m: int, s: int, t: int, r: int)
    requires s > 0 && t >= 0 && m > 0 && t * mult < r * s + s && s * 1000000 < (mult + 1) * m
    ensures t * 1000000 * s < (r + 1) * m * s + t * m
  {
    LeqMul(s * 1000000, (mult + 1) * m, t);
    assert (s * 1000000) * t == t * 1000000 * s;
    assert ((mult + 1) * m) * t == (t * mult) * m + t * m;
    LeqMul(t * mult + 1, (r + 1) * s, m);
    assert (t * mult + 1) * m == (t * mult) * m + m;
    assert ((r + 1) * s) * m == (r + 1) * m * s;
  }

  // ---- The globals, and the code that sets and uses them ----

  class CpuClockGlobals {
    var mult: nat
    var shift: nat
    var blockShift: nat
    var blockMask: nat
    var blockNsecs: nat

    constructor ()
    {
    }

    ghost function View(): Clock
      reads this
    {
      Clock(mult, shift, blockShift, blockMask, blockNsecs)
    }

    method Calibrate(m: nat)
      requires InRange(m)
      modifies this
      ensures Calibrated(View(), m)
    {
      var maxTicks := Wrap(60 * 60 * m * 1000);
      HourFits(m);
      var maxMult := (TWO64 - 1) / maxTicks;
      MaxMultFacts(m);
      WrapSmall(maxMult * m);
      var sft := Log2(Wrap(maxMult * m) / 1000000);
      ShiftFits(sft, m);
      var scaled := Wrap(Pow2(sft) * 1000000);
      shift, mult := sft, scaled / m;
      var sft2 := Log2(maxTicks);
      BlockFits(sft, sft2, mult, m);
      var whole := Wrap(Pow2(sft2) * mult);
      blockShift, blockNsecs := sft2, whole / Pow2(sft);
      blockMask := Ones(sft2);
    }

    /** The whole blocks and the rest in 64-bit registers: both products and the sum wrap around. */
    static method AddParts(whole: int, part: int, divisor: nat) returns (nsecs: nat)
      requires 0 <= part < TWO64 && divisor > 0
      ensures nsecs == Wrap(whole + part / divisor)
    {
      WrapStages(whole, part, divisor);
      nsecs := Wrap(whole);
      nsecs := Wrap(nsecs + Wrap(part) / divisor);
    }

    /** Cycles since `start`, modulo 2^64, as seconds and nanoseconds, modulo 2^64 nanoseconds. */
    method GetTime(now: nat, start: nat, m: nat) returns (sec: nat, nsec: nat)
      requires InRange(m) && Calibrated(View(), m)
      ensures nsec < 1000000000
      ensures sec * 1000000000 + nsec == Wrap(OneStage(View(), Wrap(now - start)))
    {
      var t := Wrap(now - start);
      var multiples := t / Pow2(blockShift);
      Parts(View(), m, t, multiples * blockNsecs, And(t, blockMask) * mult);
      var nsecs := AddParts(multiples * blockNsecs, And(t, blockMask) * mult, Pow2(shift));
      sec, nsec := nsecs / 1000000000, nsecs % 1000000000;
    }
  }

  lemma Parts(c: Clock, m: nat, t: nat, whole: int, part: int)
    requires InRange(m) && Calibrated(c, m)
    requires whole == (t / Pow2(c.blockShift)) * c.blockNsecs && part == And(t, c.blockMask) * c.mult
    ensures 0 <= part < TWO64 && whole + part / Pow2(c.shift) == OneStage(c, t)
  {
    ProductsFit(c, m, t);
    StagesAgree(c, m, t);
  }

  lemma WrapStages(a: int, b: int, s: int)
    requires 0 <= b < TWO64 && s > 0
    ensures Wrap(Wrap(a) + Wrap(b) / s) == Wrap(a + b / s)
  {
    WrapSmall(b);
    WrapAdd(a, b / s);
  }

  lemma WrapAdd(a: int, b: int)
    ensures Wrap(Wrap(a) + b) == Wrap(a + b)
  {
  }

  lemma HourFits(m: nat)
    requires InRange(m)
    ensures Wrap(60 * 60 * m * 1000) == MaxTicks(m)
  {
    WrapSmall(MaxTicks(m));
  }

  lemma ShiftFits(shift: nat, m: nat)
    requires InRange(m) && Pow2(shift) <= MaxMult(m) * m / 1000000
    ensures Wrap(Pow2(shift) * 1000000) == Pow2(shift) * 1000000
    ensures Pow2(shift) * 1000000 / m >= 0
  {
    MaxMultFacts(m);
    NotNegative(Pow2(shift) * 1000000, m);
    WrapSmall(Pow2(shift) * 1000000);
  }

  lemma BlockFits(shift: nat, blockShift: nat, mult: nat, m: nat)
    requires InRange(m) && Pow2(shift) <= MaxMult(m) * m / 1000000 < Pow2(shift + 1)
    requires Pow2(blockShift) <= MaxTicks(m) < Pow2(blockShift + 1) && mult == Pow2(shift) * 1000000 / m
    ensures Wrap(Pow2(blockShift) * mult) == Pow2(blockShift) * mult
    ensures Pow2(blockShift) * mult / Pow2(shift) >= 0
  {
    LeqMul(0, Pow2(blockShift), mult);
    var whole := Pow2(blockShift) * mult;
    NotNegative(whole, Pow2(shift));
    var c := Clock(mult, shift, blockShift, Pow2(blockShift) - 1, whole / Pow2(shift));
    assert Calibrated(c, m);
    MultBound(c, m);
    WrapSmall(whole);
  }

}
