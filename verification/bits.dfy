/** Bytes and the bitwise operators the driver applies to them.

    Python's `&` and `|` act on unbounded non-negative integers; `And` and
    `Or` below are those operators, defined bit by bit on `nat`. The lemmas
    give their closed forms for the masks the driver uses (`0x7F`, `0x80`,
    `0xF0`, `0x0F`, `0xFF`, `0x03` and the single IRQ bits), so that the rest
    of the model can state its contracts with ordinary arithmetic. Each
    closed form is reached one bit at a time, a mask `2m` or `2m + 1` from
    the mask `m`. */
module Bits {

  type Byte = b: int | 0 <= b < 256

  /** Python's `a & b`. */
  function And(a: nat, b: nat): (r: nat)
    ensures r <= a && r <= b
    decreases a
  {
    if a == 0 || b == 0 then 0
    else 2 * And(a / 2, b / 2) + (if a % 2 == 1 && b % 2 == 1 then 1 else 0)
  }

  /** Python's `a | b`. */
  function Or(a: nat, b: nat): nat
    decreases a + b
  {
    if a == 0 then b
    else if b == 0 then a
    else 2 * Or(a / 2, b / 2) + (if a % 2 == 1 || b % 2 == 1 then 1 else 0)
  }

  /** Python's `n & 0xFF`: the low byte of `n`, which is `n` modulo 256
      (`Low255`). */
  function ByteOf(n: nat): (b: Byte) {
    n % 256
  }

  /** `n` zero bytes, as Python's `[0x00] * n`. */
  function Zeros(n: nat): (z: seq<Byte>)
    ensures |z| == n
    ensures forall i :: 0 <= i < n ==> z[i] == 0
  {
    seq(n, _ => 0)
  }

  // ---------------------------------------------------------------------
  // One bit at a time

  lemma AndEven(a: nat, c: nat)
    ensures And(a, 2 * c) == 2 * And(a / 2, c)
  {
    if a != 0 && c != 0 {
      assert (2 * c) / 2 == c && (2 * c) % 2 == 0;
    }
  }

  lemma AndOdd(a: nat, c: nat)
    ensures And(a, 2 * c + 1) == 2 * And(a / 2, c) + a % 2
  {
    if a != 0 {
      assert (2 * c + 1) / 2 == c && (2 * c + 1) % 2 == 1;
    }
  }

  lemma OrEven(a: nat, c: nat)
    ensures Or(a, 2 * c) == 2 * Or(a / 2, c) + a % 2
  {
    if a != 0 && c != 0 {
      assert (2 * c) / 2 == c && (2 * c) % 2 == 0;
    }
  }

  lemma OrOdd(a: nat, c: nat)
    ensures Or(a, 2 * c + 1) == 2 * Or(a / 2, c) + 1
  {
    if a != 0 {
      assert (2 * c + 1) / 2 == c && (2 * c + 1) % 2 == 1;
    }
  }

  lemma EvenOr(c: nat, a: nat)
    ensures Or(2 * c, a) == 2 * Or(c, a / 2) + a % 2
  {
    if a != 0 && c != 0 {
      assert (2 * c) / 2 == c && (2 * c) % 2 == 0;
    }
  }

  // ---------------------------------------------------------------------
  // Dropping the low bit of a remainder or quotient, one literal at a time
  //
  // The lemmas from here to the closed forms below are deliberately one
  // fact each, one literal divisor each. Stated together, or as one lemma
  // over a general power of two, they put several `/` and `%` terms into a
  // single proof obligation, and the solver's effort then varies widely
  // from one random seed to the next; one fact per lemma keeps every proof
  // that uses them small and stable.

  lemma Mod4(a: nat)
    ensures a % 4 == 2 * ((a / 2) % 2) + a % 2
  {
  }

  lemma Mod8(a: nat)
    ensures a % 8 == 2 * ((a / 2) % 4) + a % 2
  {
  }

  lemma Mod16(a: nat)
    ensures a % 16 == 2 * ((a / 2) % 8) + a % 2
  {
  }

  lemma Mod32(a: nat)
    ensures a % 32 == 2 * ((a / 2) % 16) + a % 2
  {
  }

  lemma Mod64(a: nat)
    ensures a % 64 == 2 * ((a / 2) % 32) + a % 2
  {
  }

  lemma Mod128(a: nat)
    ensures a % 128 == 2 * ((a / 2) % 64) + a % 2
  {
  }

  lemma Mod256(a: nat)
    ensures a % 256 == 2 * ((a / 2) % 128) + a % 2
  {
  }

  lemma Div4(a: nat)
    ensures a / 2 / 2 == a / 4
  {
  }

  lemma Div8(a: nat)
    ensures a / 2 / 4 == a / 8
  {
  }

  lemma Div16(a: nat)
    ensures a / 2 / 8 == a / 16
  {
  }

  lemma Div32(a: nat)
    ensures a / 2 / 16 == a / 32
  {
  }

  lemma Div64(a: nat)
    ensures a / 2 / 32 == a / 64
  {
  }

  lemma Div128(a: nat)
    ensures a / 2 / 64 == a / 128
  {
  }

  // ---------------------------------------------------------------------
  // Low masks: `a & (2^k - 1)` is `a % 2^k`

  lemma Low1(a: nat)
    ensures And(a, 1) == a % 2
  {
    AndOdd(a, 0);
  }

  lemma Low3(a: nat)
    ensures And(a, 3) == a % 4
  {
    var h := a / 2;
    AndOdd(a, 1);
    Low1(h);
    Mod4(a);
    assert And(a, 3) == 2 * And(h, 1) + a % 2;
  }

  lemma Low7(a: nat)
    ensures And(a, 7) == a % 8
  {
    var h := a / 2;
    AndOdd(a, 3);
    Low3(h);
    Mod8(a);
    assert And(a, 7) == 2 * And(h, 3) + a % 2;
  }

  lemma Low15(a: nat)
    ensures And(a, 15) == a % 16
  {
    var h := a / 2;
    AndOdd(a, 7);
    Low7(h);
    Mod16(a);
    assert And(a, 15) == 2 * And(h, 7) + a % 2;
  }

  lemma Low31(a: nat)
    ensures And(a, 31) == a % 32
  {
    var h := a / 2;
    AndOdd(a, 15);
    Low15(h);
    Mod32(a);
    assert And(a, 31) == 2 * And(h, 15) + a % 2;
  }

  lemma Low63(a: nat)
    ensures And(a, 63) == a % 64
  {
    var h := a / 2;
    AndOdd(a, 31);
    Low31(h);
    Mod64(a);
    assert And(a, 63) == 2 * And(h, 31) + a % 2;
  }

  lemma Low127(a: nat)
    ensures And(a, 127) == a % 128
  {
    var h := a / 2;
    AndOdd(a, 63);
    Low63(h);
    Mod128(a);
    assert And(a, 127) == 2 * And(h, 63) + a % 2;
  }

  lemma Low255(a: nat)
    ensures And(a, 255) == a % 256
  {
    var h := a / 2;
    AndOdd(a, 127);
    Low127(h);
    Mod256(a);
    assert And(a, 255) == 2 * And(h, 127) + a % 2;
  }

  // ---------------------------------------------------------------------
  // Single-bit masks: `a & 2^k` is bit `k` of `a`, in place

  lemma Bit1(a: nat)
    ensures And(a, 2) == 2 * ((a / 2) % 2)
  {
    var h := a / 2;
    AndEven(a, 1);
    Low1(h);
    assert And(a, 2) == 2 * And(h, 1);
  }

  lemma Bit2(a: nat)
    ensures And(a, 4) == 4 * ((a / 4) % 2)
  {
    var h := a / 2;
    AndEven(a, 2);
    Bit1(h);
    Div4(a);
    assert And(a, 4) == 2 * And(h, 2);
  }

  lemma Bit3(a: nat)
    ensures And(a, 8) == 8 * ((a / 8) % 2)
  {
    var h := a / 2;
    AndEven(a, 4);
    Bit2(h);
    Div8(a);
    assert And(a, 8) == 2 * And(h, 4);
  }

  lemma Bit4(a: nat)
    ensures And(a, 16) == 16 * ((a / 16) % 2)
  {
    var h := a / 2;
    AndEven(a, 8);
    Bit3(h);
    Div16(a);
    assert And(a, 16) == 2 * And(h, 8);
  }

  lemma Bit5(a: nat)
    ensures And(a, 32) == 32 * ((a / 32) % 2)
  {
    var h := a / 2;
    AndEven(a, 16);
    Bit4(h);
    Div32(a);
    assert And(a, 32) == 2 * And(h, 16);
  }

  lemma Bit6(a: nat)
    ensures And(a, 64) == 64 * ((a / 64) % 2)
  {
    var h := a / 2;
    AndEven(a, 32);
    Bit5(h);
    Div64(a);
    assert And(a, 64) == 2 * And(h, 32);
  }

  lemma Bit7(a: nat)
    ensures And(a, 128) == 128 * ((a / 128) % 2)
  {
    var h := a / 2;
    AndEven(a, 64);
    Bit6(h);
    Div128(a);
    assert And(a, 128) == 2 * And(h, 64);
  }

  // ---------------------------------------------------------------------
  // The high nibble: `a & 0xF0`

  lemma High1E(a: nat)
    ensures And(a, 0x1E) == 2 * ((a / 2) % 16)
  {
    var h := a / 2;
    AndEven(a, 0x0F);
    Low15(h);
    assert And(a, 0x1E) == 2 * And(h, 0x0F);
  }

  lemma High3C(a: nat)
    ensures And(a, 0x3C) == 4 * ((a / 4) % 16)
  {
    var h := a / 2;
    AndEven(a, 0x1E);
    High1E(h);
    Div4(a);
    assert And(a, 0x3C) == 2 * And(h, 0x1E);
  }

  lemma High78(a: nat)
    ensures And(a, 0x78) == 8 * ((a / 8) % 16)
  {
    var h := a / 2;
    AndEven(a, 0x3C);
    High3C(h);
    Div8(a);
    assert And(a, 0x78) == 2 * And(h, 0x3C);
  }

  lemma HighF0(a: nat)
    ensures And(a, 0xF0) == 16 * ((a / 16) % 16)
  {
    var h := a / 2;
    AndEven(a, 0x78);
    High78(h);
    Div16(a);
    assert And(a, 0xF0) == 2 * And(h, 0x78);
  }

  /** A byte is sixteen times its high nibble plus its low nibble. */
  lemma NibbleSplit(b: Byte)
    ensures (b / 16) % 16 == b / 16
    ensures 16 * (b / 16) == b - b % 16
  {
  }

  /** `b & 0xF0` keeps the high nibble of a byte. */
  lemma HighNibble(b: Byte)
    ensures And(b, 0xF0) == b - b % 16
  {
    HighF0(b);
    NibbleSplit(b);
  }

  // ---------------------------------------------------------------------
  // Setting bits with `|`

  lemma OrTop0(x: nat)
    requires x < 2
    ensures Or(x, 1) == 1
  {
  }

  lemma OrTop1(x: nat)
    requires x < 4
    ensures Or(x, 2) == if x < 2 then x + 2 else x
  {
    var h := x / 2;
    OrEven(x, 1);
    OrTop0(h);
    assert Or(x, 2) == 2 * Or(h, 1) + x % 2;
  }

  lemma OrTop2(x: nat)
    requires x < 8
    ensures Or(x, 4) == if x < 4 then x + 4 else x
  {
    var h := x / 2;
    OrEven(x, 2);
    OrTop1(h);
    assert Or(x, 4) == 2 * Or(h, 2) + x % 2;
  }

  lemma OrTop3(x: nat)
    requires x < 16
    ensures Or(x, 8) == if x < 8 then x + 8 else x
  {
    var h := x / 2;
    OrEven(x, 4);
    OrTop2(h);
    assert Or(x, 8) == 2 * Or(h, 4) + x % 2;
  }

  lemma OrTop4(x: nat)
    requires x < 32
    ensures Or(x, 16) == if x < 16 then x + 16 else x
  {
    var h := x / 2;
    OrEven(x, 8);
    OrTop3(h);
    assert Or(x, 16) == 2 * Or(h, 8) + x % 2;
  }

  lemma OrTop5(x: nat)
    requires x < 64
    ensures Or(x, 32) == if x < 32 then x + 32 else x
  {
    var h := x / 2;
    OrEven(x, 16);
    OrTop4(h);
    assert Or(x, 32) == 2 * Or(h, 16) + x % 2;
  }

  lemma OrTop6(x: nat)
    requires x < 128
    ensures Or(x, 64) == if x < 64 then x + 64 else x
  {
    var h := x / 2;
    OrEven(x, 32);
    OrTop5(h);
    assert Or(x, 64) == 2 * Or(h, 32) + x % 2;
  }

  /** A byte modulo 128: bit 7 dropped. */
  lemma Mod128Byte(b: Byte)
    ensures b % 128 == if b < 128 then b else b - 128
  {
  }

  /** `b | 0x80` sets bit 7 of a byte. */
  lemma SetBit7(b: Byte)
    ensures Or(b, 0x80) == if b < 128 then b + 128 else b
  {
    var h := b / 2;
    OrEven(b, 64);
    OrTop6(h);
    assert Or(b, 0x80) == 2 * Or(h, 64) + b % 2;
  }

  /** `b | 0x03` sets the two low bits. */
  lemma SetLowTwo(b: nat)
    ensures Or(b, 0x03) == b - b % 4 + 3
  {
    var h := b / 2;
    OrOdd(b, 1);
    OrOdd(h, 0);
    Mod4(b);
    assert Or(b, 3) == 2 * Or(h, 1) + 1;
    assert Or(h, 1) == 2 * Or(h / 2, 0) + 1;
  }

  lemma Halve(x: nat)
    ensures x == 2 * (x / 2) + x % 2
  {
  }

  lemma OrBelow2(q: nat, y: nat)
    requires y < 2
    ensures Or(2 * q, y) == 2 * q + y
  {
    EvenOr(q, y);
  }

  lemma OrBelow4(q: nat, y: nat)
    requires y < 4
    ensures Or(4 * q, y) == 4 * q + y
  {
    var h := y / 2;
    Halve(y);
    EvenOr(2 * q, y);
    OrBelow2(q, h);
    assert Or(4 * q, y) == 2 * Or(2 * q, h) + y % 2;
  }

  lemma OrBelow8(q: nat, y: nat)
    requires y < 8
    ensures Or(8 * q, y) == 8 * q + y
  {
    var h := y / 2;
    Halve(y);
    EvenOr(4 * q, y);
    OrBelow4(q, h);
    assert Or(8 * q, y) == 2 * Or(4 * q, h) + y % 2;
  }

  /** `(16 * q) | y` for `y` below 16 is the sum. */
  lemma OrBelow16(q: nat, y: nat)
    requires y < 16
    ensures Or(16 * q, y) == 16 * q + y
  {
    var h := y / 2;
    Halve(y);
    EvenOr(8 * q, y);
    OrBelow8(q, h);
    assert Or(16 * q, y) == 2 * Or(8 * q, h) + y % 2;
  }

  /** `(b & 0xF0) | (p & 0x0F)`: high nibble of `b`, low nibble of `p`. */
  lemma MergeNibbles(b: Byte, p: nat)
    ensures Or(And(b, 0xF0), And(p, 0x0F)) == b - b % 16 + p % 16
  {
    HighNibble(b);
    Low15(p);
    OrBelow16(b / 16, p % 16);
    assert And(b, 0xF0) == 16 * (b / 16);
  }

  /** A value conjoined with itself is itself. */
  lemma {:induction false} AndSelf(a: nat)
    ensures And(a, a) == a
  {
    if a != 0 {
      AndSelf(a / 2);
    }
  }

  // ---------------------------------------------------------------------
  // Splitting a word into bytes

  lemma SplitByte(x: nat)
    ensures x == 256 * (x / 256) + x % 256
  {
  }

  lemma ShiftTwice(x: nat)
    ensures x / 256 / 256 == x / 65536
    ensures x / 65536 / 256 == x / 0x100_0000
  {
  }

  lemma SplitWord(x: nat)
    ensures x % 0x100_0000 == x - 0x100_0000 * (x / 0x100_0000)
  {
  }

  /** The three bytes `(n >> 16) & 0xFF`, `(n >> 8) & 0xFF`, `n & 0xFF`
      reassemble, most significant first, into `n` modulo 2^24. */
  lemma ThreeBytes(n: nat)
    ensures ((n / 65536) % 256) * 65536 + ((n / 256) % 256) * 256 + n % 256 == n % 0x100_0000
  {
    SplitByte(n);
    SplitByte(n / 256);
    SplitByte(n / 65536);
    ShiftTwice(n);
    SplitWord(n);
  }
}
