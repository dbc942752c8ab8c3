/** The SX127x as seen from the SPI bus: 128 byte registers (a seven-bit
    address space) and the 256-byte packet FIFO. The FIFO is reached only
    through register 0x00 and its address pointer is register 0x0D, which
    advances by one on every FIFO access. The interrupt-flag register is
    write-one-to-clear. A burst to any other register advances the address
    by one per byte.

    This is the device the driver talks to, not part of the driver: it plays
    the role of `spidev`'s `xfer2` together with the chip behind it, and
    answers every frame with a response of the same length. */
module Chip {
  import opened Bits
  import opened Registers
  import Results

  const RegisterCount: nat := 128
  const FifoSize: nat := 256

  datatype Chip = Chip(regs: seq<Byte>, fifo: seq<Byte>) {

    predicate Valid() {
      |regs| == RegisterCount && |fifo| == FifoSize
    }

    function Reg(a: Byte): Byte
      requires Valid() && a < 0x80
    {
      regs[a]
    }

    /** The FIFO address pointer. */
    function Pointer(): Byte
      requires Valid()
    {
      regs[RegFifoAddrPtr]
    }
  }

  /** All registers outside `except` hold the same value in `c` and `c'`. */
  predicate RegistersKept(c: Chip, c': Chip, except: set<int>)
    requires c.Valid() && c'.Valid()
  {
    forall a :: 0 <= a < RegisterCount && a !in except ==> c'.regs[a] == c.regs[a]
  }

  /** The FIFO address `n` places after `p`, wrapping at 256. */
  function Advance(p: Byte, n: nat): (q: Byte)
    requires n <= FifoSize
  {
    if p + n < 256 then p + n else p + n - 256
  }

  /** How many places after `p` the FIFO address `k` lies, wrapping at 256. */
  function Distance(p: Byte, k: Byte): (d: nat)
    ensures d < FifoSize
  {
    if p <= k then k - p else k + 256 - p
  }

  /** The register a burst moves on to after `a`. */
  function NextAddress(a: Byte): (n: Byte)
    requires a < 0x80
    ensures n < 0x80
  {
    if a == RegFifo then a else (a + 1) % 128
  }

  /** The chip's response to one written byte. */
  function WriteAt(c: Chip, a: Byte, v: Byte): (c': Chip)
    requires c.Valid() && a < 0x80
    ensures c'.Valid()
  {
    if a == RegFifo then
      var p := c.Pointer();
      Chip(c.regs[RegFifoAddrPtr := Advance(p, 1)], c.fifo[p := v])
    else if a == RegIrqFlags then
      var f := c.regs[a];
      Chip(c.regs[a := f - And(f, v)], c.fifo)
    else
      Chip(c.regs[a := v], c.fifo)
  }

  /** The chip's response to one read byte: the value and the new state. */
  function ReadAt(c: Chip, a: Byte): (r: (Chip, Byte))
    requires c.Valid() && a < 0x80
    ensures r.0.Valid()
  {
    if a == RegFifo then
      var p := c.Pointer();
      (Chip(c.regs[RegFifoAddrPtr := Advance(p, 1)], c.fifo), c.fifo[p])
    else
      (c, c.regs[a])
  }

  function WriteSeq(c: Chip, a: Byte, vs: seq<Byte>): (c': Chip)
    requires c.Valid() && a < 0x80
    ensures c'.Valid()
    decreases |vs|
  {
    if vs == [] then c
    else WriteSeq(WriteAt(c, a, vs[0]), NextAddress(a), vs[1..])
  }

  function ReadSeq(c: Chip, a: Byte, n: nat): (r: (Chip, seq<Byte>))
    requires c.Valid() && a < 0x80
    ensures r.0.Valid() && |r.1| == n
    decreases n
  {
    if n == 0 then (c, [])
    else
      var (c1, v) := ReadAt(c, a);
      var (c2, vs) := ReadSeq(c1, NextAddress(a), n - 1);
      (c2, [v] + vs)
  }

  /** What one SPI frame asks of the chip. */
  datatype Access =
    | ReadAccess(addr: Byte, count: nat)
    | WriteAccess(addr: Byte, data: seq<Byte>)

  /** The chip's reading of a frame: bit 7 of the first byte selects write
      (set) or read (clear), its low seven bits the register; the following
      bytes are data (write) or clock filler whose count is the number of
      bytes read. An empty frame asks nothing. */
  function Decode(frame: seq<Byte>): (r: Results.Option<Access>)
    ensures r.Some? <==> frame != []
    ensures r.Some? ==> r.value.addr < 0x80
  {
    if frame == [] then Results.None
    else if frame[0] >= 128 then Results.Some(WriteAccess(frame[0] % 128, frame[1..]))
    else Results.Some(ReadAccess(frame[0], |frame| - 1))
  }

  /** One full-duplex SPI exchange. The response has the frame's length: a
      zero, then the bytes read (zeros for a write). */
  function Transfer(c: Chip, frame: seq<Byte>): (r: (Chip, seq<Byte>))
    requires c.Valid()
    ensures r.0.Valid() && |r.1| == |frame|
  {
    match Decode(frame)
    case None => (c, [])
    case Some(WriteAccess(a, data)) => (WriteSeq(c, a, data), Zeros(|frame|))
    case Some(ReadAccess(a, n)) =>
      var (c', vs) := ReadSeq(c, a, n);
      (c', [0] + vs)
  }

  lemma WriteSeqOne(c: Chip, a: Byte, v: Byte)
    requires c.Valid() && a < 0x80
    ensures WriteSeq(c, a, [v]) == WriteAt(c, a, v)
  {
    assert [v][1..] == [];
  }

  // -----------------------------------------------------------------------
  // FIFO bursts

  /** `Advance` is addition modulo 256. */
  lemma AdvanceIsModular(p: Byte, n: nat)
    requires n <= FifoSize
    ensures Advance(p, n) == (p + n) % 256
  {
  }

  lemma AdvanceStep(p: Byte, n: nat)
    requires 1 <= n <= FifoSize
    ensures Advance(Advance(p, 1), n - 1) == Advance(p, n)
  {
  }

  lemma DistanceStep(p: Byte, k: Byte)
    requires k != p
    ensures Distance(Advance(p, 1), k) == Distance(p, k) - 1
  {
  }

  /** A burst written to the FIFO register lands in the FIFO at the pointer
      and onwards, wrapping at 256, and advances the pointer by its length;
      no other FIFO cell and no other register changes. */
  lemma WriteFifoBurst(c: Chip, vs: seq<Byte>)
    requires c.Valid() && |vs| <= FifoSize
    ensures var c' := WriteSeq(c, RegFifo, vs);
      && c'.Pointer() == Advance(c.Pointer(), |vs|)
      && (forall i :: 0 <= i < |vs| ==> c'.fifo[Advance(c.Pointer(), i)] == vs[i])
      && (forall k: Byte :: Distance(c.Pointer(), k) >= |vs| ==> c'.fifo[k] == c.fifo[k])
      && RegistersKept(c, c', {RegFifoAddrPtr as int})
  {
    WriteFifoBurstPointer(c, vs);
    WriteFifoBurstCells(c, vs);
  }

  lemma {:induction false} WriteFifoBurstPointer(c: Chip, vs: seq<Byte>)
    requires c.Valid() && |vs| <= FifoSize
    ensures var c' := WriteSeq(c, RegFifo, vs);
      && c'.Pointer() == Advance(c.Pointer(), |vs|)
      && RegistersKept(c, c', {RegFifoAddrPtr as int})
    decreases |vs|
  {
    if vs != [] {
      var c1 := WriteAt(c, RegFifo, vs[0]);
      assert WriteSeq(c, RegFifo, vs) == WriteSeq(c1, RegFifo, vs[1..]);
      WriteFifoBurstPointer(c1, vs[1..]);
      AdvanceStep(c.Pointer(), |vs|);
    }
  }

  lemma {:induction false} WriteFifoBurstCells(c: Chip, vs: seq<Byte>)
    requires c.Valid() && |vs| <= FifoSize
    ensures var c' := WriteSeq(c, RegFifo, vs);
      && (forall i :: 0 <= i < |vs| ==> c'.fifo[Advance(c.Pointer(), i)] == vs[i])
      && (forall k: Byte :: Distance(c.Pointer(), k) >= |vs| ==> c'.fifo[k] == c.fifo[k])
    decreases |vs|
  {
    if vs != [] {
      var p := c.Pointer();
      var c1 := WriteAt(c, RegFifo, vs[0]);
      var c' := WriteSeq(c, RegFifo, vs);
      assert c' == WriteSeq(c1, RegFifo, vs[1..]);
      WriteFifoBurstCells(c1, vs[1..]);
      assert c1.Pointer() == Advance(p, 1);
      forall i | 0 <= i < |vs|
        ensures c'.fifo[Advance(p, i)] == vs[i]
      {
        if i == 0 {
          assert Distance(c1.Pointer(), p) == 255;
        } else {
          AdvanceStep(p, i);
          assert vs[1..][i - 1] == vs[i];
        }
      }
      forall k: Byte | Distance(p, k) >= |vs|
        ensures c'.fifo[k] == c.fifo[k]
      {
        DistanceStep(p, k);
      }
    }
  }

  /** A burst read from the FIFO register returns the FIFO contents from the
      pointer onwards, wrapping at 256, advances the pointer by its length and
      changes nothing else. */
  lemma {:induction false} ReadFifoBurst(c: Chip, n: nat)
    requires c.Valid() && n <= FifoSize
    ensures var (c', vs) := ReadSeq(c, RegFifo, n);
      && c'.fifo == c.fifo
      && c'.Pointer() == Advance(c.Pointer(), n)
      && (forall i :: 0 <= i < n ==> vs[i] == c.fifo[Advance(c.Pointer(), i)])
      && RegistersKept(c, c', {RegFifoAddrPtr as int})
    decreases n
  {
    if n > 0 {
      var p := c.Pointer();
      var (c1, v) := ReadAt(c, RegFifo);
      ReadFifoBurst(c1, n - 1);
      AdvanceStep(p, n);
      var (c', vs) := ReadSeq(c, RegFifo, n);
      forall i | 0 <= i < n
        ensures vs[i] == c.fifo[Advance(p, i)]
      {
        if i > 0 {
          AdvanceStep(p, i);
        }
      }
    }
  }
}
