/** The SPI register-access layer: how the driver frames a register or
    burst access as a full-duplex byte exchange, and how it takes the answer
    out of the response. Bit 7 of the address byte is the write flag: clear
    (`addr & 0x7F`) for a read, set (`addr | 0x80`) for a write.

    The frame builders and response slicers are pure; `ReadRegister`,
    `WriteRegister`, `ReadBurst` and `WriteBurst` run one exchange against
    the chip model in place of `spidev`'s `xfer2`. */
module Spi {
  import opened Bits
  import opened Results
  import Chip

  // -----------------------------------------------------------------------
  // Frames

  /** `address & 0x7F`: the address byte of a read, bit 7 clear. It is the
      address modulo 128 (`AddressBytesAreMasks`). */
  function ReadAddressByte(addr: Byte): Byte {
    addr % 128
  }

  /** `address | 0x80`: the address byte of a write, bit 7 set. It is the
      address modulo 128, plus 128 (`AddressBytesAreMasks`). */
  function WriteAddressByte(addr: Byte): Byte {
    addr % 128 + 128
  }

  /** The address bytes are the driver's masks: `address & 0x7F` and
      `address | 0x80`. */
  lemma AddressBytesAreMasks(addr: Byte)
    ensures ReadAddressByte(addr) == And(addr, 0x7F)
    ensures WriteAddressByte(addr) == Or(addr, 0x80)
  {
    Low127(addr);
    SetBit7(addr);
    Mod128Byte(addr);
  }

  /** `[address & 0x7F, 0x00]`: read flag, register, one clock-filler byte. */
  function ReadRegisterFrame(addr: Byte): (f: seq<Byte>)
    ensures |f| == 2 && f[1] == 0
    ensures f[0] < 0x80 && f[0] == addr % 128
  {
    [ReadAddressByte(addr), 0x00]
  }

  /** `[address | 0x80, value]`: write flag, register, the value. */
  function WriteRegisterFrame(addr: Byte, value: Byte): (f: seq<Byte>)
    ensures |f| == 2 && f[1] == value
    ensures f[0] >= 0x80 && f[0] % 128 == addr % 128
  {
    [WriteAddressByte(addr), value]
  }

  /** `[address & 0x7F] + [0x00] * length`. */
  function ReadBurstFrame(addr: Byte, length: nat): (f: seq<Byte>)
    ensures |f| == length + 1
    ensures f[0] < 0x80 && f[0] == addr % 128
    ensures forall i :: 1 <= i < |f| ==> f[i] == 0
  {
    [ReadAddressByte(addr)] + Zeros(length)
  }

  /** `[address | 0x80] + values`. */
  function WriteBurstFrame(addr: Byte, values: seq<Byte>): (f: seq<Byte>)
    ensures |f| == |values| + 1
    ensures f[0] >= 0x80 && f[0] % 128 == addr % 128
    ensures f[1..] == values
  {
    [WriteAddressByte(addr)] + values
  }

  // -----------------------------------------------------------------------
  // Responses

  /** `result[1]`: the byte clocked out while the filler byte went in,
      which is the first of the burst values of the same response. */
  function RegisterValue(resp: seq<Byte>): (v: Byte)
    requires |resp| >= 2
    ensures v == BurstValues(resp)[0]
  {
    resp[1]
  }

  /** `result[1:]`: everything after the byte answered to the address. */
  function BurstValues(resp: seq<Byte>): (vs: seq<Byte>)
    ensures resp == [] ==> vs == []
    ensures resp != [] ==> |vs| == |resp| - 1
    ensures forall i :: 0 <= i < |vs| ==> vs[i] == resp[i + 1]
  {
    if resp == [] then [] else resp[1..]
  }

  // -----------------------------------------------------------------------
  // Exchanges with the chip

  function ReadRegister(c: Chip.Chip, addr: Byte): (r: (Chip.Chip, Byte))
    requires c.Valid()
    ensures r == Chip.ReadAt(c, addr % 128)
  {
    var (c', resp) := Chip.Transfer(c, ReadRegisterFrame(addr));
    (c', RegisterValue(resp))
  }

  function WriteRegister(c: Chip.Chip, addr: Byte, value: Byte): (c': Chip.Chip)
    requires c.Valid()
    ensures c' == Chip.WriteAt(c, addr % 128, value)
  {
    var f := WriteRegisterFrame(addr, value);
    assert f[1..] == [value];
    Chip.WriteSeqOne(c, addr % 128, value);
    Chip.Transfer(c, f).0
  }

  function ReadBurst(c: Chip.Chip, addr: Byte, length: nat): (r: (Chip.Chip, seq<Byte>))
    requires c.Valid()
    ensures r == Chip.ReadSeq(c, addr % 128, length)
    ensures |r.1| == length
  {
    var (c', resp) := Chip.Transfer(c, ReadBurstFrame(addr, length));
    (c', BurstValues(resp))
  }

  function WriteBurst(c: Chip.Chip, addr: Byte, values: seq<Byte>): (c': Chip.Chip)
    requires c.Valid()
    ensures c' == Chip.WriteSeq(c, addr % 128, values)
  {
    Chip.Transfer(c, WriteBurstFrame(addr, values)).0
  }

  /** The full-duplex responses: a zero clocked out against the address
      byte, then the values. A register read returns the second response
      byte, a burst read every response byte after the first. */
  lemma ResponsesCarryValues(c: Chip.Chip, addr: Byte, length: nat)
    requires c.Valid()
    ensures Chip.Transfer(c, ReadRegisterFrame(addr)).1 == [0, ReadRegister(c, addr).1]
    ensures Chip.Transfer(c, ReadBurstFrame(addr, length)).1 == [0] + ReadBurst(c, addr, length).1
  {
    var resp := Chip.Transfer(c, ReadBurstFrame(addr, length)).1;
    assert resp == [0] + resp[1..];
  }

  // -----------------------------------------------------------------------
  // Frames and the chip's reading of them

  /** The chip reads each frame back as the access that built it. */
  lemma FramesDecode(addr: Byte, value: Byte, length: nat, values: seq<Byte>)
    ensures Chip.Decode(ReadRegisterFrame(addr)) == Some(Chip.ReadAccess(addr % 128, 1))
    ensures Chip.Decode(WriteRegisterFrame(addr, value)) == Some(Chip.WriteAccess(addr % 128, [value]))
    ensures Chip.Decode(ReadBurstFrame(addr, length)) == Some(Chip.ReadAccess(addr % 128, length))
    ensures Chip.Decode(WriteBurstFrame(addr, values)) == Some(Chip.WriteAccess(addr % 128, values))
  {
    var w := WriteRegisterFrame(addr, value);
    assert w[1..] == [value];
  }

  /** For a seven-bit address the read and write address bytes differ only
      in bit 7, and `& 0x7F` recovers the address from either. */
  lemma AddressByteFlag(addr: Byte)
    requires addr < 0x80
    ensures ReadAddressByte(addr) == addr
    ensures WriteAddressByte(addr) == addr + 0x80
    ensures And(ReadAddressByte(addr), 0x7F) == addr
    ensures And(WriteAddressByte(addr), 0x7F) == addr
  {
    var w := addr + 0x80;
    Mod128Byte(addr);
    Mod128Byte(w);
    Low127(addr);
    Low127(w);
  }

  /** Different accesses give different frames: the chip can tell any two
      single-register writes apart, and a write from a read. */
  lemma WriteFramesInjective(a1: Byte, v1: Byte, a2: Byte, v2: Byte)
    requires a1 < 0x80 && a2 < 0x80
    ensures WriteRegisterFrame(a1, v1) == WriteRegisterFrame(a2, v2) <==> a1 == a2 && v1 == v2
    ensures WriteRegisterFrame(a1, v1) != ReadRegisterFrame(a2)
  {
  }
}
