/**
 Which trace records count: the action word of a record, read bit by bit as the source does.
 */
module TraceAction {
  import opened Bits
  import opened TraceFile

  /** The categories of an action, and where they are in the word. */
  const TC_READ: nat := Pow2(0)
  const TC_WRITE: nat := Pow2(1)
  const TC_DISCARD: nat := Pow2(13)
  const TC_SHIFT: nat := 16

  const QUEUED: nat := 1

  function Act(category: nat): nat { category * Pow2(TC_SHIFT) }

  datatype Direction = ToRead | ToWrite | ToTrim | Invalid

  /** t_get_ddir. */
  function DirectionOf(action: nat): Direction
  {
    if And(action, Act(TC_READ)) != 0 then ToRead
    else if And(action, Act(TC_WRITE)) != 0 then ToWrite
    else if And(action, Act(TC_DISCARD)) != 0 then ToTrim
    else Invalid
  }

  /** The test of read_trace: a queued action with a direction. */
  predicate Selected(action: nat)
  {
    And(action, 0xFFFF) == QUEUED && DirectionOf(action) != Invalid
  }

  lemma ActBit(action: nat, k: nat)
    ensures And(action, Act(Pow2(k))) != 0 <==> (action / Pow2(k + 16)) % 2 == 1
  {
    Pow2Add(k, 16);
    AndBit(action, k + 16);
  }

  lemma BitPlaces()
    ensures Pow2(16) == 0x1_0000 && Pow2(17) == 0x2_0000 && Pow2(29) == 0x2000_0000
  {
    assert Pow2(4) == 16 && Pow2(8) == 256;
    Pow2Add(8, 8);
    Pow2Add(16, 1);
    Pow2Add(16, 8);
    Pow2Add(24, 5);
    assert Pow2(5) == 32 && Pow2(1) == 2;
  }

  /** A record counts exactly if its action is queued and has the bit of a read, a write or a discard. */
  lemma AcceptedIffSelected(action: nat)
    ensures Accepted(action) <==> Selected(action)
  {
    BitPlaces();
    AndMask(action, 16);
    ActBit(action, 0);
    ActBit(action, 1);
    ActBit(action, 13);
  }

  // ---- The same on a machine word ----

  function Worth(on: bool, value: nat): nat { if on then value else 0 }

  /** The number of the low byte of a word. */
  function LowByte(a: bv32): nat
  {
    Worth(a & 0x01 != 0, 1) + Worth(a & 0x02 != 0, 2) + Worth(a & 0x04 != 0, 4) + Worth(a & 0x08 != 0, 8) +
    Worth(a & 0x10 != 0, 16) + Worth(a & 0x20 != 0, 32) + Worth(a & 0x40 != 0, 64) + Worth(a & 0x80 != 0, 128)
  }

  /** The number of a word. */
  function Number(a: bv32): nat
  {
    LowByte(a) + 0x100 * LowByte(a >> 8) + 0x1_0000 * LowByte(a >> 16) + 0x100_0000 * LowByte(a >> 24)
  }

  /** read_trace's test and t_get_ddir, with the masks of the source. */
  function WordDirection(a: bv32): Direction
  {
    if a & (0x0001 << 16) != 0 then ToRead
    else if a & (0x0002 << 16) != 0 then ToWrite
    else if a & (0x2000 << 16) != 0 then ToTrim
    else Invalid
  }

  predicate WordSelected(a: bv32) { a & 0xFFFF == 1 && WordDirection(a) != Invalid }

  lemma TwoLow(x: nat, b0: nat, b1: nat, rest: nat)
    requires b0 < 2 && b1 < 2 && x == b0 + 2 * b1 + 4 * rest
    ensures x % 2 == b0 && (x / 2) % 2 == b1
  {
  }

  lemma SixthBit(x: nat, low: nat, b5: nat, rest: nat)
    requires low < 32 && b5 < 2 && x == low + 32 * b5 + 64 * rest
    ensures (x / 32) % 2 == b5
  {
    Remainder(x, 32, b5 + 2 * rest, low);
  }

  lemma LowByteBits(a: bv32)
    ensures LowByte(a) < 256
    ensures LowByte(a) % 2 == 1 <==> a & 0x01 != 0
    ensures (LowByte(a) / 2) % 2 == 1 <==> a & 0x02 != 0
    ensures (LowByte(a) / 32) % 2 == 1 <==> a & 0x20 != 0
  {
    var rest := Worth(a & 0x04 != 0, 1) + Worth(a & 0x08 != 0, 2) + Worth(a & 0x10 != 0, 4)
                + Worth(a & 0x20 != 0, 8) + Worth(a & 0x40 != 0, 16) + Worth(a & 0x80 != 0, 32);
    TwoLow(LowByte(a), Worth(a & 0x01 != 0, 1), Worth(a & 0x02 != 0, 1), rest);
    var low := Worth(a & 0x01 != 0, 1) + Worth(a & 0x02 != 0, 2) + Worth(a & 0x04 != 0, 4) + Worth(a & 0x08 != 0, 8)
               + Worth(a & 0x10 != 0, 16);
    SixthBit(LowByte(a), low, Worth(a & 0x20 != 0, 1), Worth(a & 0x40 != 0, 1) + Worth(a & 0x80 != 0, 2));
  }

  lemma LowBytes(a: bv32)
    ensures LowByte(a) == 1 <==> a & 0xFF == 1
    ensures LowByte(a) == 0 <==> a & 0xFF == 0
  {
  }

  lemma Shifts(a: bv32)
    ensures (a >> 16) & 0x01 != 0 <==> a & (0x0001 << 16) != 0
    ensures (a >> 16) & 0x02 != 0 <==> a & (0x0002 << 16) != 0
    ensures (a >> 24) & 0x20 != 0 <==> a & (0x2000 << 16) != 0
    ensures a & 0xFFFF == 1 <==> a & 0xFF == 1 && (a >> 8) & 0xFF == 0
  {
  }

  lemma ByteSum(n: nat, low: nat, b2: nat, b3: nat)
    requires low < 0x1_0000 && b2 < 256 && n == low + 0x1_0000 * b2 + 0x100_0000 * b3
    ensures n % 0x1_0000 == low
    ensures n / 0x1_0000 == b2 + 0x100 * b3
  {
    Remainder(n, 0x1_0000, b2 + 0x100 * b3, low);
  }

  lemma UpperBits(n: nat, b2: nat, b3: nat)
    requires b2 < 256 && n / 0x1_0000 == b2 + 0x100 * b3
    ensures (n / 0x1_0000) % 2 == b2 % 2
    ensures (n / 0x2_0000) % 2 == (b2 / 2) % 2
    ensures (n / 0x2000_0000) % 2 == (b3 / 32) % 2
  {
    Divides(n, 0x1_0000, 2);
    Divides(n, 0x1_0000, 0x2000);
    Upper(n / 0x1_0000, b2, b3);
  }

  lemma Upper(u: nat, b2: nat, b3: nat)
    requires b2 < 256 && u == b2 + 0x100 * b3
    ensures u % 2 == b2 % 2 && (u / 2) % 2 == (b2 / 2) % 2 && u / 0x2000 == b3 / 32
  {
    Remainder(u, 2, b2 / 2 + 0x80 * b3, b2 % 2);
    Remainder(b2 / 2 + 0x80 * b3, 2, b2 / 4 + 0x40 * b3, (b2 / 2) % 2);
    Remainder(u, 0x2000, b3 / 32, 0x100 * (b3 % 32) + b2);
  }

  lemma Divides(n: nat, p: nat, q: nat)
    requires p > 0 && q > 0
    ensures n / (p * q) == (n / p) / q
  {
    var a := n / p;
    assert n == a * p + n % p && a == (a / q) * q + a % q;
    assert n == (a / q) * (p * q) + ((a % q) * p + n % p);
    LeqMul(a % q, q - 1, p);
    Remainder(n, p * q, a / q, (a % q) * p + n % p);
  }

  /** A record counts exactly if read_trace's test accepts its action word, for every 32-bit word. */
  lemma AcceptedIffWordSelected(a: bv32)
    ensures Accepted(Number(a)) <==> WordSelected(a)
  {
    LowByteBits(a);
    LowByteBits(a >> 8);
    LowByteBits(a >> 16);
    LowByteBits(a >> 24);
    LowBytes(a);
    LowBytes(a >> 8);
    Shifts(a);
    var low := LowByte(a) + 0x100 * LowByte(a >> 8);
    ByteSum(Number(a), low, LowByte(a >> 16), LowByte(a >> 24));
    UpperBits(Number(a), LowByte(a >> 16), LowByte(a >> 24));
  }
}
