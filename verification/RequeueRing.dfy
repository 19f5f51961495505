/**
 fio's ring of requeued I/O units: its size is a requested count plus one, rounded up to a power of
 two by or-ing shifted copies, and its fullness test does not reduce the next head.
 */
module RequeueRing {
  import opened Bits

  // ---- Rounding up to a power of two ----

  /** a << s. */
  function Shl(a: nat, s: nat): nat { if s == 0 then a else 2 * Shl(a, s - 1) }

  lemma {:induction false} OrLow(a: nat, low: nat, s: nat)
    requires low < Pow2(s)
    ensures Or(Shl(a, s) + low, Pow2(s) - 1) == Shl(a, s) + Pow2(s) - 1
  {
    if s == 0 {
      assert Or(a, 0) == a;
    } else {
      OrLow(a, low / 2, s - 1);
      OrLowStep(Shl(a, s - 1), low, Pow2(s - 1));
    }
  }

  lemma OrLowStep(y: nat, low: nat, p: nat)
    requires p > 0 && Or(y + low / 2, p - 1) == y + p - 1
    ensures Or(2 * y + low, 2 * p - 1) == 2 * y + 2 * p - 1
  {
    OrStep(y, low, p);
  }

  lemma {:induction false} ShlSplit(h: nat, k: nat)
    ensures Shl(2 * h, k) == Shl(h, k + 1)
    ensures Shl(2 * h + 1, k) == Shl(h, k + 1) + Pow2(k)
  {
    if k == 0 {
      assert Shl(h, 1) == 2 * Shl(h, 0);
    } else {
      ShlSplit(h, k - 1);
    }
  }

  lemma {:induction false} ShlOnes(s: nat, m: nat)
    ensures Shl(Pow2(s) - 1, m) + Pow2(m) == Pow2(s + m)
  {
    if m > 0 {
      ShlOnes(s, m - 1);
    }
  }

  lemma OrStep(y: nat, low: nat, p: nat)
    requires p > 0
    ensures Or(2 * y + low, 2 * p - 1) == 2 * Or(y + low / 2, p - 1) + 1
  {
    assert (2 * y + low) / 2 == y + low / 2 && (2 * p - 1) / 2 == p - 1;
    OrOdd(2 * y + low, 2 * p - 1);
  }

  /** One step of the bitwise or, when the second number is odd. */
  lemma OrOdd(a: nat, b: nat)
    requires b % 2 == 1
    ensures Or(a, b) == 2 * Or(a / 2, b / 2) + 1
  {
    if a == 0 {
      assert Or(0, b / 2) == b / 2;
    }
  }

  /** x >> k. */
  function Shr(x: nat, k: nat): nat { if k == 0 then x else Shr(x, k - 1) / 2 }

  lemma OrHalf(a: nat, b: nat)
    ensures Or(a, b) / 2 == Or(a / 2, b / 2)
  {
    if a == 0 {
      assert Or(0, b / 2) == b / 2;
    } else if b == 0 {
      assert Or(a / 2, 0) == a / 2;
    }
  }

  lemma {:induction false} OrShift(a: nat, b: nat, k: nat)
    ensures Shr(Or(a, b), k) == Or(Shr(a, k), Shr(b, k))
  {
    if k > 0 {
      OrShift(a, b, k - 1);
      OrHalf(Shr(a, k - 1), Shr(b, k - 1));
    }
  }

  lemma {:induction false} ShiftAgain(x: nat, a: nat, b: nat)
    ensures Shr(Shr(x, a), b) == Shr(x, a + b)
  {
    if b > 0 {
      ShiftAgain(x, a, b - 1);
    }
  }

  /** Shifting j places out of s ones leaves s - j ones. */
  lemma {:induction false} OnesShift(s: nat, j: nat)
    requires j <= s
    ensures Shr(Pow2(s) - 1, j) == Pow2(s - j) - 1
  {
    if j > 0 {
      OnesShift(s, j - 1);
    }
  }

  /** What a shift leaves, and what it drops. */
  lemma {:induction false} ShiftParts(x: nat, k: nat) returns (low: nat)
    ensures low < Pow2(k) && x == Shl(Shr(x, k), k) + low
  {
    if k == 0 {
      low := 0;
    } else {
      low := ShiftParts(x, k - 1);
      var q := Shr(x, k - 1);
      ShlSplit(q / 2, k - 1);
      if q % 2 == 1 {
        assert q == 2 * (q / 2) + 1;
        low := low + Pow2(k - 1);
      } else {
        assert q == 2 * (q / 2);
      }
    }
  }

  function Least(a: nat, b: nat): nat { if a <= b then a else b }

  /** The first s of the h + 1 bits of x are ones, and x has no more bits. */
  predicate Ones(x: nat, h: nat, s: nat) { s <= h + 1 && Shr(x, h + 1 - s) == Pow2(s) - 1 }

  /** Or-ing m ones into s ones followed by m bits gives s + m ones. */
  lemma FillOnes(y: nat, s: nat, m: nat)
    requires Shr(y, m) == Pow2(s) - 1
    ensures Or(y, Pow2(m) - 1) == Pow2(s + m) - 1
  {
    var low := ShiftParts(y, m);
    OrLow(Pow2(s) - 1, low, m);
    ShlOnes(s, m);
  }

  lemma ShiftedOnes(x: nat, s: nat, t: nat, m: nat)
    requires m <= s && m <= t && Shr(x, t) == Pow2(s) - 1
    ensures Shr(Shr(x, t - m), m) == Pow2(s) - 1
    ensures Shr(Shr(x, s), t - m) == Pow2(m) - 1
  {
    ShiftAgain(x, t - m, m);
    ShiftAgain(x, s, t - m);
    ShiftAgain(x, t, s - m);
    OnesShift(s, s - m);
    assert t - m + m == t && s + (t - m) == t + (s - m) && s - (s - m) == m;
  }

  /** Or-ing with a copy shifted by the number of leading ones doubles it, up to all the bits. */
  lemma Smear(x: nat, h: nat, s: nat)
    requires Ones(x, h, s)
    ensures Ones(Or(x, Shr(x, s)), h, Least(2 * s, h + 1))
  {
    var t := h + 1 - s;
    var m := Least(s, t);
    ShiftedOnes(x, s, t, m);
    OrShift(x, Shr(x, s), t - m);
    FillOnes(Shr(x, t - m), s, m);
    assert h + 1 - (s + m) == t - m && s + m == Least(2 * s, h + 1);
  }

  /** The same when all the bits are ones already. */
  lemma SmearOn(x: nat, h: nat, n: nat)
    requires Ones(x, h, Least(n, h + 1))
    ensures Ones(Or(x, Shr(x, n)), h, Least(2 * n, h + 1))
  {
    if n <= h + 1 {
      Smear(x, h, n);
    } else {
      assert Shr(x, 0) == x;
      OnesShift(h + 1, h + 1);
      ShiftAgain(x, h + 1, n - h - 1);
      ShiftZero(n - h - 1);
    }
  }

  lemma {:induction false} ShiftZero(k: nat)
    ensures Shr(0, k) == 0
  {
    if k > 0 {
      ShiftZero(k - 1);
    }
  }

  function OrShr(x: nat, k: nat): nat { Or(x, Shr(x, k)) }

  /** Five rounds fill every bit below the highest one. */
  lemma SmearAll(x: nat, h: nat)
    requires Shr(x, h) == 1 && h < 32
    ensures OrShr(OrShr(OrShr(OrShr(OrShr(x, 1), 2), 4), 8), 16) == Pow2(h + 1) - 1
  {
    var x1 := OrShr(x, 1);
    var x2 := OrShr(x1, 2);
    var x3 := OrShr(x2, 4);
    var x4 := OrShr(x3, 8);
    assert Ones(x, h, Least(1, h + 1));
    SmearOn(x, h, 1);
    SmearOn(x1, h, 2);
    SmearOn(x2, h, 4);
    SmearOn(x3, h, 8);
    SmearOn(x4, h, 16);
    assert Shr(OrShr(x4, 16), 0) == OrShr(x4, 16);
  }

  lemma AndBelow(y: nat)
    ensures y > 0 ==> And(2 * y, 2 * y - 1) == 2 * And(y, y - 1)
    ensures And(2 * y + 1, 2 * y) == 2 * And(y, y)
  {
    assert (2 * y + 1) / 2 == y && (2 * y) % 2 == 0;
    if y > 0 {
      assert (2 * y - 1) / 2 == y - 1;
    }
  }

  /** A number without a bit in common with its predecessor is a power of two. */
  lemma {:induction false} SingleBit(x: nat) returns (k: nat)
    requires x > 0 && And(x, x - 1) == 0
    ensures x == Pow2(k)
  {
    k := 0;
    var y := x / 2;
    AndBelow(y);
    if x == 2 * y {
      k := SingleBit(y);
      k := k + 1;
    } else {
      assert x == 2 * y + 1;
      AndSelf(y);
    }
  }

  lemma {:induction false} AndSelf(a: nat)
    ensures And(a, a) == a
  {
    if a > 0 {
      AndSelf(a / 2);
    }
  }

  lemma {:induction false} Highest(x: nat) returns (h: nat)
    requires x > 0
    ensures Shr(x, h) == 1 && Pow2(h) <= x < Pow2(h + 1)
  {
    if x == 1 {
      h := 0;
    } else {
      var g := Highest(x / 2);
      h := g + 1;
      ShiftAgain(x, 1, g);
      assert Shr(x, 1) == Shr(x, 0) / 2;
    }
  }

  /** r is the least power of two that is at least n. */
  ghost predicate LeastPow2(r: nat, n: nat)
  {
    exists k: nat :: r == Pow2(k) && n <= r && (k > 0 ==> Pow2(k - 1) < n)
  }

  /** What the rounding leaves, in 32 bits. */
  lemma Rounded(x: nat, h: nat)
    requires Pow2(h) <= x < Pow2(h + 1) && 0 < x < TWO32 - 1
    ensures h < 32
    ensures x < 0x8000_0000 ==> LeastPow2(Wrap32(Pow2(h + 1)), x + 1)
    ensures x >= 0x8000_0000 ==> Wrap32(Pow2(h + 1)) == 0
  {
    Pow2Words();
    Pow2Grows(Least(h, 32), h);
    if x < 0x8000_0000 {
      Pow2Grows(Least(h, 31), h);
      Pow2Grows(h + 1, 31);
      assert Wrap32(Pow2(h + 1)) == Pow2(h + 1);
    } else {
      Pow2Grows(Least(h + 1, 31), 31);
      Pow2Grows(31, Least(h + 1, 31));
    }
  }

  /** The sizing in io_u_rinit. */
  method RoundUp(nr: nat) returns (max: nat)
    requires nr < TWO32
    ensures nr < 0x8000_0000 ==> LeastPow2(max, nr + 1)
    ensures nr >= 0x8000_0000 ==> max == 0
  {
    max := Wrap32(nr + 1);
    if And(max, Wrap32(max - 1)) != 0 {
      max := Wrap32(max - 1);
      ghost var h := Sizes(nr, max);
      max := OrShr(max, 1);
      max := OrShr(max, 2);
      max := OrShr(max, 4);
      max := OrShr(max, 8);
      max := OrShr(max, 16);
      max := Wrap32(max + 1);
    } else {
      Kept(nr);
    }
  }

  lemma Kept(nr: nat)
    requires nr < TWO32 && And(Wrap32(nr + 1), Wrap32(Wrap32(nr + 1) - 1)) == 0
    ensures nr < 0x8000_0000 ==> LeastPow2(Wrap32(nr + 1), nr + 1)
    ensures nr >= 0x8000_0000 ==> Wrap32(nr + 1) == 0
  {
    if nr + 1 < TWO32 {
      assert Wrap32(nr + 1) == nr + 1 && Wrap32(nr + 1 - 1) == nr;
      KeptSize(nr);
    }
  }

  lemma KeptSize(nr: nat)
    requires nr + 1 < TWO32 && And(nr + 1, nr) == 0
    ensures LeastPow2(nr + 1, nr + 1) && nr < 0x8000_0000
  {
    var k := SingleBit(nr + 1);
    Single(nr + 1, k);
  }

  lemma Sizes(nr: nat, x: nat) returns (h: nat)
    requires nr < TWO32 && And(Wrap32(nr + 1), Wrap32(Wrap32(nr + 1) - 1)) != 0 && x == Wrap32(Wrap32(nr + 1) - 1)
    ensures Wrap32(OrShr(OrShr(OrShr(OrShr(OrShr(x, 1), 2), 4), 8), 16) + 1) == Wrap32(Pow2(h + 1))
    ensures nr < 0x8000_0000 ==> LeastPow2(Wrap32(Pow2(h + 1)), nr + 1)
    ensures nr >= 0x8000_0000 ==> Wrap32(Pow2(h + 1)) == 0
  {
    assert nr < TWO32 - 1;
    assert x == nr;
    h := Highest(x);
    Rounded(x, h);
    SmearAll(x, h);
  }

  lemma Single(x: nat, k: nat)
    requires x == Pow2(k) && x < TWO32
    ensures LeastPow2(x, x) && x <= 0x8000_0000
  {
    Pow2Words();
    if k > 31 {
      Pow2Grows(32, k);
    }
    Pow2Grows(k, 31);
  }

  // ---- The ring as a queue ----

  datatype Ring = Ring(slots: seq<nat>, head: nat, tail: nat)

  predicate Valid(r: Ring, k: nat)
  {
    k <= 31 && |r.slots| == Pow2(k) && r.head < |r.slots| && r.tail < |r.slots|
  }

  function Count(r: Ring): int
  {
    if r.head >= r.tail then r.head - r.tail else r.head + |r.slots| - r.tail
  }

  /** The units in the ring, the next one to pop first. */
  function Contents(r: Ring, k: nat): (q: seq<nat>)
    requires Valid(r, k)
    ensures |q| == Count(r)
    ensures forall j :: 0 <= j < |q| ==> q[j] == r.slots[Around(|r.slots|, r.tail, j)]
  {
    seq(Count(r), j requires 0 <= j < Count(r) => r.slots[Around(|r.slots|, r.tail, j)])
  }

  /** The test of io_u_rpush: when it fails, the push runs into assert(0). */
  predicate Refuses(r: Ring) { r.head + 1 == r.tail }

  function Bump(i: nat, k: nat): (r: nat)
    ensures r < Pow2(k)
  {
    AndMask(i + 1, k);
    And(i + 1, Pow2(k) - 1)
  }

  lemma BumpIs(i: nat, k: nat)
    requires i < Pow2(k)
    ensures Bump(i, k) == if i + 1 == Pow2(k) then 0 else i + 1
  {
    AndMask(i + 1, k);
    if i + 1 == Pow2(k) {
      Remainder(i + 1, Pow2(k), 1, 0);
    } else {
      Remainder(i + 1, Pow2(k), 0, i + 1);
    }
  }

  function Pushed(r: Ring, k: nat, x: nat): Ring
    requires Valid(r, k)
  {
    Ring(r.slots[r.head := x], Bump(r.head, k), r.tail)
  }

  function Popped(r: Ring, k: nat): Ring { Ring(r.slots, r.head, Bump(r.tail, k)) }

  /** A push appends exactly when a slot besides the new one stays free. When none does, the assertion
      fires if the tail is not at the start of the buffer; if it is, the test misses, the head meets the
      tail and the ring looks empty. */
  lemma PushAppends(r: Ring, k: nat, x: nat)
    requires Valid(r, k)
    ensures Valid(Pushed(r, k, x), k)
    ensures (!Refuses(r) && Contents(Pushed(r, k, x), k) == Contents(r, k) + [x]) <==> Count(r) < Pow2(k) - 1
    ensures Count(r) == Pow2(k) - 1 ==> (Refuses(r) <==> r.tail > 0)
    ensures Count(r) == Pow2(k) - 1 && r.tail == 0 ==> Contents(Pushed(r, k, x), k) == []
  {
    BumpIs(r.head, k);
    var r' := Pushed(r, k, x);
    if Count(r) < Pow2(k) - 1 {
      assert Count(r') == Count(r) + 1;
      assert Around(|r.slots|, r.tail, Count(r)) == r.head;
      assert Contents(r', k) == Contents(r, k) + [x];
    } else {
      assert Count(r') == 0 || Refuses(r);
    }
  }

  /** A full ring that loses its one unit to a push that is not refused. */
  lemma FullLooksEmpty(x: nat)
    ensures var r := Ring([5, 0], 1, 0);
            && Valid(r, 1) && Contents(r, 1) == [5] && !Refuses(r)
            && Valid(Pushed(r, 1, x), 1) && Contents(Pushed(r, 1, x), 1) == []
  {
    var r := Ring([5, 0], 1, 0);
    assert Pow2(1) == 2 * Pow2(0);
    assert Valid(r, 1);
    PushAppends(r, 1, x);
  }

  /** A pop removes the first unit. */
  lemma PopRemoves(r: Ring, k: nat)
    requires Valid(r, k) && r.head != r.tail
    ensures Valid(Popped(r, k), k)
    ensures Contents(r, k) != [] && r.slots[r.tail] == Contents(r, k)[0]
    ensures Contents(Popped(r, k), k) == Contents(r, k)[1..]
  {
    BumpIs(r.tail, k);
    assert Around(|r.slots|, r.tail, 0) == r.tail;
    assert Count(Popped(r, k)) == Count(r) - 1;
    forall j | 0 <= j < Count(r) - 1
      ensures Around(|r.slots|, Bump(r.tail, k), j) == Around(|r.slots|, r.tail, j + 1)
    {
    }
  }

  class IoURing {
    var slots: array<nat>
    ghost var k: nat
    var head: nat
    var tail: nat

    ghost function View(): Ring
      reads this, slots
    {
      Ring(slots[..], head, tail)
    }

    ghost predicate Ok()
      reads this, slots
    {
      Valid(View(), k)
    }

    /** A ring for nr units at a time. */
    constructor (nr: nat)
      requires nr < 0x8000_0000
      ensures Ok() && fresh(slots) && Contents(View(), k) == [] && LeastPow2(slots.Length, nr + 1)
    {
      var max := RoundUp(nr);
      slots := new nat[max](_ => 0);
      head, tail := 0, 0;
      ghost var j: nat :| max == Pow2(j) && nr + 1 <= max && (j > 0 ==> Pow2(j - 1) < nr + 1);
      k := j;
      SizeOf(j, nr + 1);
    }

    /** io_u_rpush, for a ring that is not full; otherwise the assertion may fire. */
    method Push(x: nat)
      requires Ok() && |Contents(View(), k)| < slots.Length - 1
      modifies this, slots
      ensures Ok() && k == old(k) && slots == old(slots)
      ensures Contents(View(), k) == old(Contents(View(), k)) + [x]
    {
      ghost var r := View();
      PushAppends(r, k, x);
      if head + 1 != tail {
        slots[head] := x;
        assert And(head + 1, slots.Length - 1) == Bump(head, k);
        head := And(head + 1, slots.Length - 1);
        assert View() == Pushed(r, k, x);
        return;
      }
      assert false;
    }

    /** io_u_rpop. */
    method Pop() returns (found: bool, x: nat)
      requires Ok()
      modifies this
      ensures Ok() && k == old(k) && slots == old(slots)
      ensures found == (old(Contents(View(), k)) != [])
      ensures found ==> old(Contents(View(), k)) == [x] + Contents(View(), k)
      ensures !found ==> Contents(View(), k) == []
    {
      found, x := false, 0;
      if head != tail {
        ghost var r := View();
        PopRemoves(r, k);
        found, x := true, slots[tail];
        assert And(tail + 1, slots.Length - 1) == Bump(tail, k);
        tail := And(tail + 1, slots.Length - 1);
        assert View() == Popped(r, k);
      }
    }
  }

  lemma SizeOf(j: nat, n: nat)
    requires n <= 0x8000_0000 && (j > 0 ==> Pow2(j - 1) < n)
    ensures j <= 31
  {
    Pow2Words();
    if j > 31 {
      Pow2Grows(31, j - 1);
    }
  }

  // ---- Whole sequences of operations ----

  datatype Op = Push(x: nat) | Pop

  /** What each pop returns on a plain queue, in order; 0 with false for an empty one. */
  function QueueRun(q: seq<nat>, ops: seq<Op>): seq<(bool, nat)>
    decreases ops
  {
    if ops == [] then []
    else
      match ops[0]
      case Push(x) => QueueRun(q + [x], ops[1..])
      case Pop => if q == [] then [(false, 0)] + QueueRun(q, ops[1..]) else [(true, q[0])] + QueueRun(q[1..], ops[1..])
  }

  /** The same on the ring, or nothing if a push runs into the assertion. */
  function RingRun(r: Ring, k: nat, ops: seq<Op>): seq<(bool, nat)>
    requires Valid(r, k)
    decreases ops
  {
    if ops == [] then []
    else
      match ops[0]
      case Push(x) => if Refuses(r) then [] else RingRun(Pushed(r, k, x), k, ops[1..])
      case Pop =>
        if r.head == r.tail then [(false, 0)] + RingRun(r, k, ops[1..])
        else assert Valid(Popped(r, k), k); [(true, r.slots[r.tail])] + RingRun(Popped(r, k), k, ops[1..])
  }

  /** No more than nr units are outstanding at any time. */
  predicate AtMost(nr: nat, n: nat, ops: seq<Op>)
    decreases ops
  {
    ops == [] ||
    match ops[0]
    case Push(_) => n + 1 <= nr && AtMost(nr, n + 1, ops[1..])
    case Pop => AtMost(nr, if n == 0 then 0 else n - 1, ops[1..])
  }

  /** With at most nr units outstanding, a ring sized for nr behaves as a queue, for every sequence
      of operations. */
  lemma {:induction false} RingIsQueue(r: Ring, k: nat, nr: nat, ops: seq<Op>)
    requires Valid(r, k) && LeastPow2(|r.slots|, nr + 1) && AtMost(nr, Count(r), ops)
    ensures RingRun(r, k, ops) == QueueRun(Contents(r, k), ops)
    decreases ops
  {
    if ops != [] {
      match ops[0] {
        case Push(x) =>
          PushAppends(r, k, x);
          RingIsQueue(Pushed(r, k, x), k, nr, ops[1..]);
        case Pop =>
          if r.head == r.tail {
            RingIsQueue(r, k, nr, ops[1..]);
          } else {
            PopRemoves(r, k);
            RingIsQueue(Popped(r, k), k, nr, ops[1..]);
          }
      }
    }
  }
}
