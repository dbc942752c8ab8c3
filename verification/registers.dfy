/** The SX1276/SX1278 register map as the driver names it: register
    addresses, operating-mode codes, interrupt masks and the PA_BOOST bit.
    An immutable table; nothing here changes at run time. */
module Registers {
  import opened Bits

  // Common registers
  const RegFifo: Byte := 0x00
  const RegOpMode: Byte := 0x01

  // Carrier frequency, big-endian across three registers
  const RegFrfMsb: Byte := 0x06
  const RegFrfMid: Byte := 0x07
  const RegFrfLsb: Byte := 0x08

  // Power amplifier, over-current protection, low-noise amplifier
  const RegPaConfig: Byte := 0x09
  const RegPaRamp: Byte := 0x0A
  const RegOcp: Byte := 0x0B
  const RegLna: Byte := 0x0C

  // FIFO address pointers
  const RegFifoAddrPtr: Byte := 0x0D
  const RegFifoTxBaseAddr: Byte := 0x0E
  const RegFifoRxBaseAddr: Byte := 0x0F
  const RegFifoRxCurrentAddr: Byte := 0x10

  // Interrupts
  const RegIrqFlagsMask: Byte := 0x11
  const RegIrqFlags: Byte := 0x12

  // Packet status
  const RegRxNbBytes: Byte := 0x13
  const RegPktSnrValue: Byte := 0x19
  const RegPktRssiValue: Byte := 0x1A
  const RegRssiValue: Byte := 0x1B

  // Modem configuration
  const RegModemConfig1: Byte := 0x1D
  const RegModemConfig2: Byte := 0x1E
  const RegSymbTimeoutLsb: Byte := 0x1F
  const RegPreambleMsb: Byte := 0x20
  const RegPreambleLsb: Byte := 0x21
  const RegPayloadLength: Byte := 0x22
  const RegModemConfig3: Byte := 0x26

  // Frequency error
  const RegFreqErrorMsb: Byte := 0x28
  const RegFreqErrorMid: Byte := 0x29
  const RegFreqErrorLsb: Byte := 0x2A

  // LoRa detection
  const RegDetectionOptimize: Byte := 0x31
  const RegInvertIq: Byte := 0x33
  const RegDetectionThreshold: Byte := 0x37
  const RegSyncWord: Byte := 0x39
  const RegInvertIq2: Byte := 0x3B

  // DIO mapping
  const RegDioMapping1: Byte := 0x40
  const RegDioMapping2: Byte := 0x41

  // Silicon version, and the value an SX127x reports there
  const RegVersion: Byte := 0x42
  const ExpectedVersion: Byte := 0x12

  const RegPaDac: Byte := 0x4D

  /** Every register address, in the order the map lists them: the FIFO,
      mode, frequency, amplifier and FIFO-pointer registers; interrupts and
      packet status; modem configuration and frequency error; detection,
      DIO mapping, version and PA DAC. */
  const CoreRegisters: seq<Byte> := [
    RegFifo, RegOpMode,
    RegFrfMsb, RegFrfMid, RegFrfLsb,
    RegPaConfig, RegPaRamp, RegOcp, RegLna,
    RegFifoAddrPtr, RegFifoTxBaseAddr, RegFifoRxBaseAddr, RegFifoRxCurrentAddr
  ]
  const StatusRegisters: seq<Byte> := [
    RegIrqFlagsMask, RegIrqFlags,
    RegRxNbBytes, RegPktSnrValue, RegPktRssiValue, RegRssiValue
  ]
  const ModemRegisters: seq<Byte> := [
    RegModemConfig1, RegModemConfig2, RegSymbTimeoutLsb, RegPreambleMsb,
    RegPreambleLsb, RegPayloadLength, RegModemConfig3,
    RegFreqErrorMsb, RegFreqErrorMid, RegFreqErrorLsb
  ]
  const DetectionRegisters: seq<Byte> := [
    RegDetectionOptimize, RegInvertIq, RegDetectionThreshold, RegSyncWord,
    RegInvertIq2,
    RegDioMapping1, RegDioMapping2,
    RegVersion,
    RegPaDac
  ]
  const Addresses: seq<Byte> := CoreRegisters + StatusRegisters + ModemRegisters + DetectionRegisters

  // Operating modes (low three bits of RegOpMode) and the LoRa mode bit
  const ModeSleep: Byte := 0x00
  const ModeStdby: Byte := 0x01
  const ModeTx: Byte := 0x03
  const ModeRxContinuous: Byte := 0x05
  const ModeRxSingle: Byte := 0x06
  const ModeLongRangeMode: Byte := 0x80

  const Modes: seq<Byte> := [ModeSleep, ModeStdby, ModeTx, ModeRxContinuous, ModeRxSingle]

  // Interrupt flags
  const IrqTxDoneMask: Byte := 0x08
  const IrqRxDoneMask: Byte := 0x40
  const IrqPayloadCrcErrorMask: Byte := 0x20

  // RegPaConfig: select the PA_BOOST output pin
  const PaBoost: Byte := 0x80

  predicate Increasing(s: seq<int>) {
    forall i :: 0 <= i < |s| - 1 ==> s[i] < s[i + 1]
  }

  predicate Distinct(s: seq<int>) {
    forall i, j :: 0 <= i < |s| && 0 <= j < |s| && i != j ==> s[i] != s[j]
  }

  /** In a strictly increasing sequence every earlier element is smaller. */
  lemma {:induction false} IncreasingOrdered(s: seq<int>, i: int, j: int)
    requires Increasing(s)
    requires 0 <= i < j < |s|
    ensures s[i] < s[j]
    decreases j - i
  {
    if i + 1 < j {
      IncreasingOrdered(s, i + 1, j);
    }
  }

  lemma IncreasingDistinct(s: seq<int>)
    requires Increasing(s)
    ensures Distinct(s)
  {
    forall i, j | 0 <= i < |s| && 0 <= j < |s| && i != j
      ensures s[i] != s[j]
    {
      if i < j {
        IncreasingOrdered(s, i, j);
      } else {
        IncreasingOrdered(s, j, i);
      }
    }
  }

  lemma IncreasingAppend(a: seq<int>, b: seq<int>)
    requires Increasing(a) && Increasing(b)
    requires a != [] && b != [] && a[|a| - 1] < b[0]
    ensures Increasing(a + b)
  {
    forall i | 0 <= i < |a + b| - 1
      ensures (a + b)[i] < (a + b)[i + 1]
    {
      if i < |a| - 1 {
      } else if i == |a| - 1 {
      } else {
        assert (a + b)[i] == b[i - |a|] && (a + b)[i + 1] == b[i - |a| + 1];
      }
    }
  }

  lemma AddressesIncreasing()
    ensures |Addresses| == 38
    ensures Increasing(Addresses)
  {
    var a, b, c, d := CoreRegisters, StatusRegisters, ModemRegisters, DetectionRegisters;
    assert Increasing(a);
    assert Increasing(b);
    assert Increasing(c);
    assert Increasing(d);
    IncreasingAppend(a, b);
    assert (a + b)[|a + b| - 1] == b[|b| - 1];
    IncreasingAppend(a + b, c);
    assert (a + b + c)[|a + b + c| - 1] == c[|c| - 1];
    IncreasingAppend(a + b + c, d);
  }

  /** No two registers share an address. */
  lemma AddressesDistinct()
    ensures |Addresses| == 38
    ensures Distinct(Addresses)
  {
    AddressesIncreasing();
    IncreasingDistinct(Addresses);
  }

  /** Every address fits in seven bits, so the SPI read/write flag (bit 7)
      never overlaps an address bit. */
  lemma AddressesBelowWriteBit()
    ensures forall i :: 0 <= i < |Addresses| ==> Addresses[i] < 0x80
  {
    AddressesIncreasing();
    assert Addresses[37] == RegPaDac;
    forall i | 0 <= i < |Addresses|
      ensures Addresses[i] < 0x80
    {
      if i < |Addresses| - 1 {
        IncreasingOrdered(Addresses, i, |Addresses| - 1);
      }
    }
  }

  /** The three frequency registers are consecutive, most significant first. */
  lemma FrequencyRegistersConsecutive()
    ensures RegFrfMid == RegFrfMsb + 1 && RegFrfLsb == RegFrfMid + 1
  {
  }

  /** The value written to RegOpMode for a mode: the mode code with the
      LoRa bit set, `mode | MODE_LONG_RANGE_MODE`; on a seven-bit code that
      adds 0x80 (`OpModeValueRoundTrip`). */
  function OpModeValue(mode: Byte): (v: Byte)
    requires mode < 0x80
    ensures v >= 0x80
  {
    mode + ModeLongRangeMode
  }

  /** `OpModeValue` is `mode | 0x80`, and clearing the LoRa bit with
      `& 0x7F` gives the mode code back. */
  lemma OpModeValueRoundTrip(mode: Byte)
    requires mode < 0x80
    ensures OpModeValue(mode) == Or(mode, ModeLongRangeMode)
    ensures And(OpModeValue(mode), 0x7F) == mode
  {
    var v := mode + 0x80;
    SetBit7(mode);
    Low127(v);
    Mod128Byte(v);
  }

  /** Mode codes are distinct and below 0x80; setting the LoRa bit keeps
      them distinct and clearing it again recovers the mode. */
  lemma ModesWithLoRaBit()
    ensures Distinct(Modes)
    ensures forall i :: 0 <= i < |Modes| ==> Modes[i] < 0x80
    ensures forall i :: 0 <= i < |Modes| ==> And(OpModeValue(Modes[i]), 0x7F) == Modes[i]
    ensures forall i, j :: 0 <= i < |Modes| && 0 <= j < |Modes| && OpModeValue(Modes[i]) == OpModeValue(Modes[j]) ==> i == j
  {
    IncreasingDistinct(Modes);
    forall i | 0 <= i < |Modes|
      ensures And(OpModeValue(Modes[i]), 0x7F) == Modes[i]
    {
      OpModeValueRoundTrip(Modes[i]);
    }
  }

  /** Each interrupt mask picks out one flag bit of RegIrqFlags: TxDone is
      bit 3, PayloadCrcError bit 5 and RxDone bit 6, so `flags & mask` is
      non-zero exactly when that flag is raised. */
  lemma IrqMasksSelectOneBit(f: Byte)
    ensures And(f, IrqTxDoneMask) == 8 * ((f / 8) % 2)
    ensures And(f, IrqPayloadCrcErrorMask) == 32 * ((f / 32) % 2)
    ensures And(f, IrqRxDoneMask) == 64 * ((f / 64) % 2)
  {
    Bit3(f);
    Bit5(f);
    Bit6(f);
  }
}
