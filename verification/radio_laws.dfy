/** What the radio-control operations do to the chip and to the bus, stated
    over every chip state: the exact register traffic of each protocol, the
    FIFO contents after a transmission, the three outcomes of a receive, the
    configuration left by start-up, and a transmit/receive loopback. */
module RadioLaws {
  import opened Bits
  import opened Results
  import opened Registers
  import Chip
  import Spi
  import opened Radio

  // -----------------------------------------------------------------------
  // Modes

  /** The auxiliary-line setting last requested in a trace, if any. */
  function LastLines(trace: seq<Event>): Option<LineMode>
    decreases |trace|
  {
    if trace == [] then None
    else if trace[|trace| - 1].SelectLines? then Some(trace[|trace| - 1].lines)
    else LastLines(trace[..|trace| - 1])
  }

  /** Of two transitions in a row only the second shows: the chip and the
      line setting are as if the first had not happened. */
  lemma TransitionLastWins(b: Bus, l1: LineMode, m1: Byte, l2: LineMode, m2: Byte)
    requires b.chip.Valid() && m1 < 0x80 && m2 < 0x80
    ensures Transition(Transition(b, l1, m1), l2, m2).chip == Transition(b, l2, m2).chip
    ensures LastLines(Transition(Transition(b, l1, m1), l2, m2).trace) == Some(l2)
    ensures LastLines(Transition(b, l2, m2).trace) == Some(l2)
  {
    var once := Transition(b, l2, m2);
    var twice := Transition(Transition(b, l1, m1), l2, m2);
    assert twice.chip.regs == once.chip.regs;
    LastLinesAfterTransition(Transition(b, l1, m1).trace, l2, m2);
    LastLinesAfterTransition(b.trace, l2, m2);
  }

  lemma LastLinesAfterTransition(t: seq<Event>, l: LineMode, m: Byte)
    requires m < 0x80
    ensures LastLines(t + [SelectLines(l), Frame(Spi.WriteRegisterFrame(RegOpMode, m + 0x80))]) == Some(l)
  {
    var u := t + [SelectLines(l), Frame(Spi.WriteRegisterFrame(RegOpMode, m + 0x80))];
    assert u[..|u| - 1] == t + [SelectLines(l)];
  }

  /** Going to standby twice leaves the same registers, FIFO and line
      setting as going once. */
  lemma IdleIdempotent(b: Bus)
    requires b.chip.Valid()
    ensures Idle(Idle(b)).chip == Idle(b).chip
    ensures LastLines(Idle(Idle(b)).trace) == LastLines(Idle(b).trace) == Some(LineIdle)
  {
    TransitionLastWins(b, LineIdle, ModeStdby, LineIdle, ModeStdby);
  }

  // -----------------------------------------------------------------------
  // Frequency

  /** A frequency that is a whole number of synthesizer steps, fewer than
      2^24 of them, is stored exactly: reading the three registers back
      gives the frequency again. */
  lemma FrequencyReadBack(b: Bus, hz: nat)
    requires b.chip.Valid()
    requires (hz * StepDenominator) % StepNumerator == 0
    requires hz * StepDenominator < 0x100_0000 * StepNumerator
    ensures StoredFrequencyWord(SetFrequency(b, hz).chip) * StepNumerator == hz * StepDenominator
  {
    var frf := FrequencyWord(hz);
    assert frf * StepNumerator == hz * StepDenominator;
    assert frf < 0x100_0000;
    assert frf % 0x100_0000 == frf;
  }

  /** The three frequency registers hold `(frf >> 16) & 0xFF`,
      `(frf >> 8) & 0xFF` and `frf & 0xFF` of the word. */
  lemma FrequencyRegisterBytes(b: Bus, hz: nat)
    requires b.chip.Valid()
    ensures var c, frf := SetFrequency(b, hz).chip, FrequencyWord(hz);
      && c.Reg(RegFrfMsb) == And(frf / 0x1_0000, 0xFF)
      && c.Reg(RegFrfMid) == And(frf / 0x100, 0xFF)
      && c.Reg(RegFrfLsb) == And(frf, 0xFF)
  {
    var frf := FrequencyWord(hz);
    Low255(frf / 0x1_0000);
    Low255(frf / 0x100);
    Low255(frf);
  }

  /** At 433, 868 and 915 MHz the frequency is a whole number of synthesizer
      steps, so the word is exact and reading the registers back gives the
      frequency again. */
  lemma FrequencyBandsExact(b: Bus)
    requires b.chip.Valid()
    ensures FrequencyWord(433_000_000) == 0x6C4000
    ensures FrequencyWord(868_000_000) == 0xD90000
    ensures FrequencyWord(915_000_000) == 0xE4C000
    ensures StoredFrequencyWord(SetFrequency(b, 433_000_000).chip) * StepNumerator == 433_000_000 * StepDenominator
    ensures StoredFrequencyWord(SetFrequency(b, 868_000_000).chip) * StepNumerator == 868_000_000 * StepDenominator
    ensures StoredFrequencyWord(SetFrequency(b, 915_000_000).chip) * StepNumerator == 915_000_000 * StepDenominator
  {
    FrequencyReadBack(b, 433_000_000);
    FrequencyReadBack(b, 868_000_000);
    FrequencyReadBack(b, 915_000_000);
  }

  /** The word is truncated, not rounded: 61 Hz is nearer one step
      (61.03515625 Hz) than none, yet gives word 0; just below 433 MHz
      plus one step gives the 433 MHz word. */
  lemma FrequencyTruncates()
    ensures FrequencyWord(61) == 0
    ensures FrequencyWord(433_000_061) == 0x6C4000
  {
  }

  // -----------------------------------------------------------------------
  // Transmit power

  /** A power change keeps the PA_BOOST bit of RegPaConfig. */
  lemma PowerKeepsPaBoost(b: Bus, dbm: int)
    requires b.chip.Valid()
    ensures var r := SetTxPower(b, dbm);
      And(r.bus.chip.Reg(RegPaConfig), PaBoost) == And(b.chip.Reg(RegPaConfig), PaBoost)
  {
    var r := SetTxPower(b, dbm);
    var pa, pa' := b.chip.Reg(RegPaConfig), r.bus.chip.Reg(RegPaConfig);
    Bit7(pa);
    Bit7(pa');
    if r.result.Ok? {
      assert pa' / 128 == (pa' / 16) / 8 && pa / 128 == (pa / 16) / 8;
    }
  }

  /** Levels 16 to 20 dBm wrap through `& 0x0F`: they leave the chip exactly
      as levels 0 to 4 do, so the start-up default of 17 dBm stores 1. */
  lemma PowerWrapsAbove15(b: Bus, dbm: int)
    requires b.chip.Valid() && 16 <= dbm <= 20
    ensures SetTxPower(b, dbm).bus.chip == SetTxPower(b, dbm - 16).bus.chip
    ensures SetTxPower(b, dbm).bus.chip.Reg(RegPaConfig) % 16 == dbm - 16
  {
    var pa := b.chip.Reg(RegPaConfig);
    assert PaConfigWith(pa, dbm) == PaConfigWith(pa, dbm - 16);
  }

  // -----------------------------------------------------------------------
  // Transmit

  /** What staging a payload leaves in the chip: the payload at the start
      of the FIFO, the rest of the FIFO untouched, the length register and
      the pointer at the payload length, standby mode, nothing else. */
  lemma StagePayloadEffect(b: Bus, data: seq<Byte>)
    requires b.chip.Valid() && |data| <= 255
    ensures var c := StagePayload(b, data).chip;
      && (forall i :: 0 <= i < |data| ==> c.fifo[i] == data[i])
      && (forall k :: |data| <= k < Chip.FifoSize ==> c.fifo[k] == b.chip.fifo[k])
      && c.Reg(RegPayloadLength) == |data|
      && c.Pointer() == |data|
      && c.Reg(RegOpMode) == 0x81
      && Chip.RegistersKept(b.chip, c, {RegOpMode as int, RegFifoAddrPtr as int, RegPayloadLength as int})
  {
    var b1 := Idle(b);
    var b2 := WriteReg(b1, RegFifoAddrPtr, 0x00);
    var b3 := WriteBurst(b2, RegFifo, data);
    var c := StagePayload(b, data).chip;
    assert c == Chip.WriteAt(b3.chip, RegPayloadLength, |data|);
    assert b2.chip.Pointer() == 0;
    Chip.WriteFifoBurst(b2.chip, data);
    forall i | 0 <= i < |data|
      ensures c.fifo[i] == data[i]
    {
      assert Chip.Advance(0, i) == i;
    }
    forall k | |data| <= k < Chip.FifoSize
      ensures c.fifo[k] == b.chip.fifo[k]
    {
      assert Chip.Distance(0, k) == k;
    }
  }

  /** After `send`, whatever DIO0 did: the payload is in the FIFO from
      address 0, the rest of the FIFO is as before, the length register
      holds the payload length and the chip is in transmit mode. If DIO0
      rose, the TxDone flag is cleared and every other flag kept; on a
      timeout the flags are untouched. No other register changes. */
  lemma SendEffect(b: Bus, data: seq<Byte>, dio0: bool)
    requires b.chip.Valid() && |data| <= 255
    ensures var c := Send(b, data, dio0).bus.chip;
      var f := b.chip.Reg(RegIrqFlags);
      && (forall i :: 0 <= i < |data| ==> c.fifo[i] == data[i])
      && (forall k :: |data| <= k < Chip.FifoSize ==> c.fifo[k] == b.chip.fifo[k])
      && c.Reg(RegPayloadLength) == |data|
      && c.Pointer() == |data|
      && c.Reg(RegOpMode) == 0x83
      && c.Reg(RegIrqFlags) == (if dio0 then TxDoneCleared(f) else f)
      && Chip.RegistersKept(b.chip, c,
           {RegOpMode as int, RegFifoAddrPtr as int, RegPayloadLength as int, RegIrqFlags as int})
  {
    StagePayloadEffect(b, data);
    var s := StagePayload(b, data).chip;
    var c5 := Chip.WriteAt(s, RegOpMode, OpModeValue(ModeTx));
    var c := Send(b, data, dio0).bus.chip;
    var f := b.chip.Reg(RegIrqFlags);
    assert c5.Reg(RegIrqFlags) == f;
    if dio0 {
      assert c == Chip.WriteAt(c5, RegIrqFlags, IrqTxDoneMask);
      Bit3(f);
    } else {
      assert c == c5;
    }
  }

  // -----------------------------------------------------------------------
  // Receive

  /** Receive on a DIO0 timeout: no packet, and the only register traffic
      is the RxSingle write to RegOpMode. */
  lemma ReceiveTimeout(b: Bus)
    requires b.chip.Valid()
    ensures var r := Receive(b, false);
      && r.result == Ok(None)
      && r.bus.chip == Chip.WriteAt(b.chip, RegOpMode, 0x86)
      && r.bus.trace == b.trace + [Frame(Spi.WriteRegisterFrame(RegOpMode, 0x86)), WaitDio0(RxTimeoutMs, false)]
  {
  }

  /** Receive with the CRC-error flag set: no packet, the observed flags are
      written back (which clears them all) and there is no FIFO read. */
  lemma ReceiveCrcError(b: Bus)
    requires b.chip.Valid()
    requires (b.chip.Reg(RegIrqFlags) / 32) % 2 == 1
    ensures var r := Receive(b, true);
      var f := b.chip.Reg(RegIrqFlags);
      && r.result == Ok(None)
      && r.bus.chip.Reg(RegIrqFlags) == 0
      && r.bus.chip.Reg(RegOpMode) == 0x86
      && r.bus.chip.fifo == b.chip.fifo
      && Chip.RegistersKept(b.chip, r.bus.chip, {RegOpMode as int, RegIrqFlags as int})
      && r.bus.trace == b.trace + [
           Frame(Spi.WriteRegisterFrame(RegOpMode, 0x86)),
           WaitDio0(RxTimeoutMs, true),
           Frame(Spi.ReadRegisterFrame(RegIrqFlags)),
           Frame(Spi.WriteRegisterFrame(RegIrqFlags, f))]
  {
    var f := b.chip.Reg(RegIrqFlags);
    Bit5(f);
    AndSelf(f);
  }

  /** Fetching a packet returns RegRxNbBytes bytes from the FIFO at
      RegFifoRxCurrentAddr onwards, wrapping at 256, leaves the FIFO as it
      was and the pointer after the packet, and changes no other register. */
  lemma FetchPacketEffect(b: Bus)
    requires b.chip.Valid()
    ensures var (b', data) := FetchPacket(b);
      var cur, n := b.chip.Reg(RegFifoRxCurrentAddr), b.chip.Reg(RegRxNbBytes);
      && (forall i :: 0 <= i < n ==> data[i] == b.chip.fifo[Chip.Advance(cur, i)])
      && b'.chip.fifo == b.chip.fifo
      && b'.chip.Pointer() == Chip.Advance(cur, n)
      && Chip.RegistersKept(b.chip, b'.chip, {RegFifoAddrPtr as int})
  {
    var cur, n := b.chip.Reg(RegFifoRxCurrentAddr), b.chip.Reg(RegRxNbBytes);
    var c := Chip.WriteAt(b.chip, RegFifoAddrPtr, cur);
    assert FetchPacket(b).0.chip == Chip.ReadSeq(c, RegFifo, n).0;
    assert FetchPacket(b).1 == Chip.ReadSeq(c, RegFifo, n).1;
    Chip.ReadFifoBurst(c, n);
  }

  /** The bus after `receive` has switched to RxSingle, seen DIO0 rise and
      written the observed flags back. */
  function FlagsTaken(b: Bus): (b': Bus)
    requires b.chip.Valid()
    ensures b'.chip.Valid()
  {
    TakeIrqFlags(Log(WriteReg(b, RegOpMode, OpModeValue(ModeRxSingle)), WaitDio0(RxTimeoutMs, true))).0
  }

  /** Writing the observed flags back clears every one of them; only
      RegOpMode (now RxSingle) and RegIrqFlags change. */
  lemma FlagsTakenEffect(b: Bus)
    requires b.chip.Valid()
    ensures var c := FlagsTaken(b).chip;
      && c.Reg(RegOpMode) == 0x86
      && c.Reg(RegIrqFlags) == 0
      && c.fifo == b.chip.fifo
      && Chip.RegistersKept(b.chip, c, {RegOpMode as int, RegIrqFlags as int})
  {
    var b1 := Log(WriteReg(b, RegOpMode, OpModeValue(ModeRxSingle)), WaitDio0(RxTimeoutMs, true));
    var f := b1.chip.Reg(RegIrqFlags);
    AndSelf(f);
    assert FlagsTaken(b).chip == Chip.WriteAt(b1.chip, RegIrqFlags, f);
  }

  /** With DIO0 high and the CRC-error flag clear, `receive` returns the
      packet that the FIFO fetch finds (a step of the proofs below). */
  lemma ReceiveGoodUnfolds(b: Bus)
    requires b.chip.Valid()
    requires (b.chip.Reg(RegIrqFlags) / 32) % 2 == 0
    ensures Receive(b, true) == Run(FetchPacket(FlagsTaken(b)).0, Ok(Some(FetchPacket(FlagsTaken(b)).1)))
  {
    var b2 := Log(WriteReg(b, RegOpMode, OpModeValue(ModeRxSingle)), WaitDio0(RxTimeoutMs, true));
    assert b2.chip.Reg(RegIrqFlags) == b.chip.Reg(RegIrqFlags);
    Bit5(b.chip.Reg(RegIrqFlags));
  }

  /** With DIO0 high and the CRC-error flag clear, `receive` clocks out
      exactly: the RxSingle write, the wait, the flag read and the write-back
      of the observed flags, the reads of RegFifoRxCurrentAddr and
      RegRxNbBytes, the pointer write and one burst read of that many
      bytes. */
  lemma ReceiveGoodTrace(b: Bus)
    requires b.chip.Valid()
    requires (b.chip.Reg(RegIrqFlags) / 32) % 2 == 0
    ensures var f, cur, n := b.chip.Reg(RegIrqFlags), b.chip.Reg(RegFifoRxCurrentAddr), b.chip.Reg(RegRxNbBytes);
      Receive(b, true).bus.trace == b.trace + [
        Frame([0x81, 0x86]), WaitDio0(RxTimeoutMs, true),
        Frame([0x12, 0x00]), Frame([0x92, f]),
        Frame([0x10, 0x00]), Frame([0x13, 0x00]),
        Frame([0x8D, cur]), Frame([0x00] + Zeros(n))]
  {
    ReceiveGoodUnfolds(b);
    FlagsTakenEffect(b);
    var b3 := FlagsTaken(b);
    var f, cur, n := b.chip.Reg(RegIrqFlags), b.chip.Reg(RegFifoRxCurrentAddr), b.chip.Reg(RegRxNbBytes);
    assert b3.chip.Reg(RegFifoRxCurrentAddr) == cur;
    assert b3.chip.Reg(RegRxNbBytes) == n;
    var b2 := Log(WriteReg(b, RegOpMode, OpModeValue(ModeRxSingle)), WaitDio0(RxTimeoutMs, true));
    assert b2.chip.Reg(RegIrqFlags) == f;
    assert b3.trace == b.trace + [
        Frame([0x81, 0x86]), WaitDio0(RxTimeoutMs, true),
        Frame([0x12, 0x00]), Frame([0x92, f])];
  }

  /** The packet `receive` returns: exactly RegRxNbBytes bytes, taken from
      the FIFO at RegFifoRxCurrentAddr onwards, wrapping at 256. */
  lemma ReceivePacketData(b: Bus)
    requires b.chip.Valid()
    requires (b.chip.Reg(RegIrqFlags) / 32) % 2 == 0
    ensures var r := Receive(b, true);
      var cur, n := b.chip.Reg(RegFifoRxCurrentAddr), b.chip.Reg(RegRxNbBytes);
      && r.result.Ok? && r.result.value.Some?
      && |r.result.value.value| == n
      && (forall i :: 0 <= i < n ==> r.result.value.value[i] == b.chip.fifo[Chip.Advance(cur, i)])
  {
    ReceiveGoodUnfolds(b);
    var b3 := FlagsTaken(b);
    FlagsTakenEffect(b);
    assert b3.chip.Reg(RegFifoRxCurrentAddr) == b.chip.Reg(RegFifoRxCurrentAddr);
    assert b3.chip.Reg(RegRxNbBytes) == b.chip.Reg(RegRxNbBytes);
    FetchPacketEffect(b3);
  }

  /** The chip after `receive` of a good packet: FIFO unchanged, flags
      cleared, RxSingle mode, pointer after the packet, nothing else
      changed. */
  lemma ReceivePacketChip(b: Bus)
    requires b.chip.Valid()
    requires (b.chip.Reg(RegIrqFlags) / 32) % 2 == 0
    ensures var c := Receive(b, true).bus.chip;
      var cur, n := b.chip.Reg(RegFifoRxCurrentAddr), b.chip.Reg(RegRxNbBytes);
      && c.fifo == b.chip.fifo
      && c.Pointer() == Chip.Advance(cur, n)
      && c.Reg(RegIrqFlags) == 0
      && c.Reg(RegOpMode) == 0x86
      && Chip.RegistersKept(b.chip, c, {RegOpMode as int, RegIrqFlags as int, RegFifoAddrPtr as int})
  {
    ReceiveGoodUnfolds(b);
    FlagsTakenEffect(b);
    FetchPacketEffect(FlagsTaken(b));
  }

  /** Receive of a good packet: exactly RegRxNbBytes bytes, taken from the
      FIFO at RegFifoRxCurrentAddr onwards (wrapping at 256); the FIFO itself
      is unchanged, the flags are cleared and the pointer ends after the
      packet. */
  lemma ReceivePacket(b: Bus)
    requires b.chip.Valid()
    requires (b.chip.Reg(RegIrqFlags) / 32) % 2 == 0
    ensures var r := Receive(b, true);
      var cur, n := b.chip.Reg(RegFifoRxCurrentAddr), b.chip.Reg(RegRxNbBytes);
      && r.result.Ok? && r.result.value.Some?
      && |r.result.value.value| == n
      && (forall i :: 0 <= i < n ==> r.result.value.value[i] == b.chip.fifo[Chip.Advance(cur, i)])
      && r.bus.chip.fifo == b.chip.fifo
      && r.bus.chip.Pointer() == Chip.Advance(cur, n)
      && r.bus.chip.Reg(RegIrqFlags) == 0
      && r.bus.chip.Reg(RegOpMode) == 0x86
      && Chip.RegistersKept(b.chip, r.bus.chip, {RegOpMode as int, RegIrqFlags as int, RegFifoAddrPtr as int})
  {
    ReceivePacketData(b);
    ReceivePacketChip(b);
  }

  /** `read` raises exactly when `receive` finds no packet: on a DIO0
      timeout or with the CRC-error flag set. */
  lemma ReadRaisesExactly(b: Bus, dio0: bool)
    requires b.chip.Valid()
    ensures Read(b, dio0).result.Err? <==> !dio0 || (b.chip.Reg(RegIrqFlags) / 32) % 2 == 1
  {
    if !dio0 {
      ReceiveTimeout(b);
    } else if (b.chip.Reg(RegIrqFlags) / 32) % 2 == 1 {
      ReceiveCrcError(b);
    } else {
      ReceivePacket(b);
    }
  }

  // -----------------------------------------------------------------------
  // Loopback

  /** A stand-in for the far end of the link: the chip "receives" the packet
      it just staged for transmission. The received packet starts at FIFO
      address 0, its length is the payload length, and RxDone is raised. */
  function Loopback(c: Chip.Chip): (c': Chip.Chip)
    requires c.Valid()
    ensures c'.Valid()
  {
    var regs := c.regs[RegFifoRxCurrentAddr := 0][RegRxNbBytes := c.regs[RegPayloadLength]];
    Chip.Chip(regs[RegIrqFlags := IrqRxDoneMask], c.fifo)
  }

  /** The looped-back chip: the packet starts at FIFO address 0, has the
      payload length, and only RxDone is raised (so no CRC error). */
  lemma LoopbackEffect(c: Chip.Chip)
    requires c.Valid()
    ensures var e := Loopback(c);
      && e.fifo == c.fifo
      && e.Reg(RegFifoRxCurrentAddr) == 0
      && e.Reg(RegRxNbBytes) == c.Reg(RegPayloadLength)
      && e.Reg(RegIrqFlags) == IrqRxDoneMask
      && (e.Reg(RegIrqFlags) / 32) % 2 == 0
  {
  }

  /** Whatever payload sits at the start of the FIFO with its length in
      RegPayloadLength is what `receive` returns from the looped-back chip. */
  lemma LoopbackReceives(sent: Bus, data: seq<Byte>)
    requires sent.chip.Valid()
    requires sent.chip.Reg(RegPayloadLength) == |data|
    requires forall i :: 0 <= i < |data| ==> sent.chip.fifo[i] == data[i]
    ensures Receive(Bus(Loopback(sent.chip), sent.trace), true).result == Ok(Some(data))
  {
    var echo := Bus(Loopback(sent.chip), sent.trace);
    LoopbackEffect(sent.chip);
    ReceivePacketData(echo);
    var got := Receive(echo, true).result.value.value;
    assert |got| == |data|;
    forall i | 0 <= i < |data|
      ensures got[i] == data[i]
    {
      assert Chip.Advance(0, i) == i;
      assert got[i] == echo.chip.fifo[i];
    }
    assert got == data;
    var r := Receive(echo, true).result;
    assert r.Ok? && r.value.Some?;
    assert r == Ok(Some(got));
  }

  /** A payload of up to 255 bytes sent with `send` comes back unchanged
      from `receive` on a chip that loops the transmission back, whether or
      not DIO0 confirmed the transmission. */
  lemma SendThenReceive(b: Bus, data: seq<Byte>, txDone: bool)
    requires b.chip.Valid() && |data| <= 255
    ensures var sent := Send(b, data, txDone).bus;
      Receive(Bus(Loopback(sent.chip), sent.trace), true).result == Ok(Some(data))
  {
    SendEffect(b, data, txDone);
    LoopbackReceives(Send(b, data, txDone).bus, data);
  }

  // -----------------------------------------------------------------------
  // Start-up

  /** The frames `set_frequency` clocks out: MSB, MID and LSB of the
      word, each `ByteOf` its shifted word, in that order. */
  lemma SetFrequencyFrames(b: Bus, hz: nat)
    requires b.chip.Valid()
    ensures var r, frf := SetFrequency(b, hz), FrequencyWord(hz);
      && r.chip.Reg(RegFrfMsb) == ByteOf(frf / 0x1_0000)
      && r.chip.Reg(RegFrfMid) == ByteOf(frf / 0x100)
      && r.chip.Reg(RegFrfLsb) == ByteOf(frf)
      && r.trace == b.trace + [
           Frame([0x86, ByteOf(frf / 0x1_0000)]),
           Frame([0x87, ByteOf(frf / 0x100)]),
           Frame([0x88, ByteOf(frf)])]
  {
  }

  /** The register values start-up leaves on an SX127x: standby, the
      requested frequency, both FIFO base addresses 0, LNA boost on, modem
      configuration 3 at 0x04 and a power level of 17 (stored as 1) under
      the PA_BOOST setting it already had; the FIFO is untouched. */
  lemma InitRadioRegisters(b: Bus, hz: nat)
    requires b.chip.Valid()
    requires b.chip.Reg(RegVersion) == ExpectedVersion
    ensures var r := InitRadio(b, hz);
      var c := r.bus.chip;
      && r.result == Ok(())
      && c.Reg(RegOpMode) == 0x81
      && StoredFrequencyWord(c) == FrequencyWord(hz) % 0x100_0000
      && c.Reg(RegFifoTxBaseAddr) == 0 && c.Reg(RegFifoRxBaseAddr) == 0
      && c.Reg(RegLna) / 4 == b.chip.Reg(RegLna) / 4 && c.Reg(RegLna) % 4 == 3
      && c.Reg(RegModemConfig3) == 0x04
      && c.Reg(RegPaConfig) / 16 == b.chip.Reg(RegPaConfig) / 16 && c.Reg(RegPaConfig) % 16 == 1
      && c.fifo == b.chip.fifo
  {
    InitRadioUnfolds(b, hz);
    StagesConfigure(b, hz);
  }

  /** `InitRadioRegisters`, stated over the three stages. */
  lemma StagesConfigure(b: Bus, hz: nat)
    requires b.chip.Valid()
    ensures var c := PoweredIdleBus(ConfiguredBus(TunedBus(b, hz))).chip;
      && c.Reg(RegOpMode) == 0x81
      && StoredFrequencyWord(c) == FrequencyWord(hz) % 0x100_0000
      && c.Reg(RegFifoTxBaseAddr) == 0 && c.Reg(RegFifoRxBaseAddr) == 0
      && c.Reg(RegLna) / 4 == b.chip.Reg(RegLna) / 4 && c.Reg(RegLna) % 4 == 3
      && c.Reg(RegModemConfig3) == 0x04
      && c.Reg(RegPaConfig) / 16 == b.chip.Reg(RegPaConfig) / 16 && c.Reg(RegPaConfig) % 16 == 1
      && c.fifo == b.chip.fifo
  {
    var b4 := TunedBus(b, hz);
    var b9 := ConfiguredBus(b4);
    TunedEffect(b, hz);
    ConfiguredEffect(b4);
    PoweredIdleEffect(b9);
    StagesCompose(b.chip, b4.chip, b9.chip, PoweredIdleBus(b9).chip, FrequencyWord(hz) % 0x100_0000);
  }

  /** The three stages' effects, put together on the chips alone. */
  lemma StagesCompose(c0: Chip.Chip, c4: Chip.Chip, c9: Chip.Chip, c: Chip.Chip, w: nat)
    requires c0.Valid() && c4.Valid() && c9.Valid() && c.Valid()
    requires c4.Reg(RegOpMode) == 0x80 && StoredFrequencyWord(c4) == w && c4.fifo == c0.fifo
    requires Chip.RegistersKept(c0, c4, {RegOpMode as int, RegFrfMsb as int, RegFrfMid as int, RegFrfLsb as int})
    requires c9.Reg(RegFifoTxBaseAddr) == 0 && c9.Reg(RegFifoRxBaseAddr) == 0
    requires c9.Reg(RegLna) == LnaBoosted(c4.Reg(RegLna))
    requires c9.Reg(RegModemConfig3) == 0x04 && c9.fifo == c4.fifo
    requires Chip.RegistersKept(c4, c9,
               {RegFifoTxBaseAddr as int, RegFifoRxBaseAddr as int, RegLna as int, RegModemConfig3 as int})
    requires c.Reg(RegOpMode) == 0x81
    requires c.Reg(RegPaConfig) / 16 == c9.Reg(RegPaConfig) / 16 && c.Reg(RegPaConfig) % 16 == 1
    requires c.fifo == c9.fifo
    requires Chip.RegistersKept(c9, c, {RegPaConfig as int, RegOpMode as int})
    ensures c.Reg(RegOpMode) == 0x81
    ensures StoredFrequencyWord(c) == w
    ensures c.Reg(RegFifoTxBaseAddr) == 0 && c.Reg(RegFifoRxBaseAddr) == 0
    ensures c.Reg(RegLna) / 4 == c0.Reg(RegLna) / 4 && c.Reg(RegLna) % 4 == 3
    ensures c.Reg(RegModemConfig3) == 0x04
    ensures c.Reg(RegPaConfig) / 16 == c0.Reg(RegPaConfig) / 16 && c.Reg(RegPaConfig) % 16 == 1
    ensures c.fifo == c0.fifo
  {
    assert c.Reg(RegFrfMsb) == c9.Reg(RegFrfMsb) == c4.Reg(RegFrfMsb);
    assert c.Reg(RegFrfMid) == c9.Reg(RegFrfMid) == c4.Reg(RegFrfMid);
    assert c.Reg(RegFrfLsb) == c9.Reg(RegFrfLsb) == c4.Reg(RegFrfLsb);
    assert c.Reg(RegLna) == c9.Reg(RegLna) && c4.Reg(RegLna) == c0.Reg(RegLna);
    assert c.Reg(RegFifoTxBaseAddr) == c9.Reg(RegFifoTxBaseAddr);
    assert c.Reg(RegFifoRxBaseAddr) == c9.Reg(RegFifoRxBaseAddr);
    assert c.Reg(RegModemConfig3) == c9.Reg(RegModemConfig3);
    assert c9.Reg(RegPaConfig) == c4.Reg(RegPaConfig) == c0.Reg(RegPaConfig);
  }

  /** The registers start-up configures are the only ones it changes. */
  lemma InitRadioKeepsOthers(b: Bus, hz: nat)
    requires b.chip.Valid()
    requires b.chip.Reg(RegVersion) == ExpectedVersion
    ensures Chip.RegistersKept(b.chip, InitRadio(b, hz).bus.chip, InitRadioWrites)
  {
    InitRadioUnfolds(b, hz);
    var b4 := TunedBus(b, hz);
    var b9 := ConfiguredBus(b4);
    TunedEffect(b, hz);
    ConfiguredEffect(b4);
    PoweredIdleEffect(b9);
  }

  /** Reset, version read, sleep and frequency: sleep mode, the frequency
      word, nothing else changed. */
  lemma TunedEffect(b: Bus, hz: nat)
    requires b.chip.Valid()
    ensures var c := TunedBus(b, hz).chip;
      && c.Reg(RegOpMode) == 0x80
      && StoredFrequencyWord(c) == FrequencyWord(hz) % 0x100_0000
      && c.fifo == b.chip.fifo
      && Chip.RegistersKept(b.chip, c, {RegOpMode as int, RegFrfMsb as int, RegFrfMid as int, RegFrfLsb as int})
  {
    var b3 := Sleep(ReadReg(Log(b, ResetPulse), RegVersion).0);
    assert TunedBus(b, hz) == SetFrequency(b3, hz);
  }

  /** FIFO bases, LNA and modem configuration 3: exactly those four
      registers change. */
  lemma ConfiguredEffect(b4: Bus)
    requires b4.chip.Valid()
    ensures var c := ConfiguredBus(b4).chip;
      && c.Reg(RegFifoTxBaseAddr) == 0 && c.Reg(RegFifoRxBaseAddr) == 0
      && c.Reg(RegLna) == LnaBoosted(b4.chip.Reg(RegLna))
      && c.Reg(RegModemConfig3) == 0x04
      && c.fifo == b4.chip.fifo
      && Chip.RegistersKept(b4.chip, c,
           {RegFifoTxBaseAddr as int, RegFifoRxBaseAddr as int, RegLna as int, RegModemConfig3 as int})
  {
  }

  /** Power 17 and standby: only RegPaConfig and RegOpMode change. */
  lemma PoweredIdleEffect(b9: Bus)
    requires b9.chip.Valid()
    ensures var c := PoweredIdleBus(b9).chip;
      && c.Reg(RegOpMode) == 0x81
      && c.Reg(RegPaConfig) / 16 == b9.chip.Reg(RegPaConfig) / 16 && c.Reg(RegPaConfig) % 16 == 1
      && c.fifo == b9.chip.fifo
      && Chip.RegistersKept(b9.chip, c, {RegPaConfig as int, RegOpMode as int})
  {
  }

  /** Every register start-up may write. */
  const InitRadioWrites: set<int> := {
    RegOpMode as int, RegFrfMsb as int, RegFrfMid as int, RegFrfLsb as int,
    RegFifoTxBaseAddr as int, RegFifoRxBaseAddr as int, RegLna as int,
    RegModemConfig3 as int, RegPaConfig as int}

  /** Start-up's traffic up to the frequency: reset, the version read,
      sleep and the three frequency bytes. */
  function TuneTraffic(hz: nat): seq<Event> {
    var frf := FrequencyWord(hz);
    [ResetPulse, Frame([0x42, 0x00]),
     SelectLines(LineSleep), Frame([0x81, 0x80]),
     Frame([0x86, ByteOf(frf / 0x1_0000)]),
     Frame([0x87, ByteOf(frf / 0x100)]),
     Frame([0x88, ByteOf(frf)])]
  }

  /** Start-up's FIFO base, LNA and modem-configuration traffic, for the
      LNA register value `lna`. */
  function ConfigureTraffic(lna: Byte): seq<Event> {
    [Frame([0x8E, 0x00]), Frame([0x8F, 0x00]),
     Frame([0x0C, 0x00]), Frame([0x8C, LnaBoosted(lna)]),
     Frame([0xA6, 0x04])]
  }

  /** Start-up's power read-modify-write, writing `pa`, then standby. */
  function PowerIdleTraffic(pa: Byte): seq<Event> {
    [Frame([0x09, 0x00]), Frame([0x89, pa]),
     SelectLines(LineIdle), Frame([0x81, 0x81])]
  }

  /** The bus after start-up's reset, version read, sleep and frequency. */
  function TunedBus(b: Bus, hz: nat): (r: Bus)
    requires b.chip.Valid()
    ensures r.chip.Valid()
    ensures r.chip.Reg(RegLna) == b.chip.Reg(RegLna)
    ensures r.trace == b.trace + TuneTraffic(hz)
  {
    var b3 := Sleep(ReadReg(Log(b, ResetPulse), RegVersion).0);
    SetFrequencyFrames(b3, hz);
    SetFrequency(b3, hz)
  }

  /** The bus after start-up's FIFO base, LNA and modem-configuration
      writes, from the tuned bus. */
  function ConfiguredBus(b4: Bus): (r: Bus)
    requires b4.chip.Valid()
    ensures r.chip.Valid()
    ensures r.trace == b4.trace + ConfigureTraffic(b4.chip.Reg(RegLna))
  {
    var b6 := WriteReg(WriteReg(b4, RegFifoTxBaseAddr, 0x00), RegFifoRxBaseAddr, 0x00);
    var (b7, lna) := ReadReg(b6, RegLna);
    WriteReg(WriteReg(b7, RegLna, LnaBoosted(lna)), RegModemConfig3, 0x04)
  }

  /** The bus after start-up's power setting and standby, from the
      configured bus. */
  function PoweredIdleBus(b9: Bus): (r: Bus)
    requires b9.chip.Valid()
    ensures r.chip.Valid()
    ensures r.trace == b9.trace + PowerIdleTraffic(r.chip.Reg(RegPaConfig))
  {
    var b10 := SetTxPower(b9, DefaultTxPower).bus;
    var pa := b10.chip.Reg(RegPaConfig);
    assert Spi.ReadRegisterFrame(RegPaConfig) == [0x09, 0x00];
    assert Spi.WriteRegisterFrame(RegPaConfig, pa) == [0x89, pa];
    assert b10.trace == b9.trace + [Frame([0x09, 0x00]), Frame([0x89, pa])];
    var r := Idle(b10);
    assert r.chip.Reg(RegPaConfig) == pa;
    r
  }

  /** Start-up on an SX127x is the tuned bus, configured, then the power
      setting and standby. */
  lemma InitRadioUnfolds(b: Bus, hz: nat)
    requires b.chip.Valid()
    requires b.chip.Reg(RegVersion) == ExpectedVersion
    ensures InitRadio(b, hz) == Run(PoweredIdleBus(ConfiguredBus(TunedBus(b, hz))), Ok(()))
  {
  }

  /** Start-up's traffic on an SX127x, in order: reset, the version read,
      sleep, the three frequency bytes, both FIFO base addresses, the LNA
      read-modify-write, modem configuration 3, the power read-modify-write
      and standby. */
  lemma InitRadioTrace(b: Bus, hz: nat)
    requires b.chip.Valid()
    requires b.chip.Reg(RegVersion) == ExpectedVersion
    ensures var c := InitRadio(b, hz).bus.chip;
      InitRadio(b, hz).bus.trace ==
        b.trace + TuneTraffic(hz) + ConfigureTraffic(b.chip.Reg(RegLna)) + PowerIdleTraffic(c.Reg(RegPaConfig))
  {
    InitRadioUnfolds(b, hz);
  }

  /** Start-up on a chip that identifies as an SX127x: the configured
      register values, no other register changed, and the exact traffic. */
  lemma InitRadioConfigures(b: Bus, hz: nat)
    requires b.chip.Valid()
    requires b.chip.Reg(RegVersion) == ExpectedVersion
    ensures var r := InitRadio(b, hz);
      var c, frf := r.bus.chip, FrequencyWord(hz);
      && r.result == Ok(())
      && c.Reg(RegOpMode) == 0x81
      && StoredFrequencyWord(c) == frf % 0x100_0000
      && c.Reg(RegFifoTxBaseAddr) == 0 && c.Reg(RegFifoRxBaseAddr) == 0
      && c.Reg(RegLna) / 4 == b.chip.Reg(RegLna) / 4 && c.Reg(RegLna) % 4 == 3
      && c.Reg(RegModemConfig3) == 0x04
      && c.Reg(RegPaConfig) / 16 == b.chip.Reg(RegPaConfig) / 16 && c.Reg(RegPaConfig) % 16 == 1
      && c.fifo == b.chip.fifo
      && Chip.RegistersKept(b.chip, c, InitRadioWrites)
      && r.bus.trace ==
           b.trace + TuneTraffic(hz) + ConfigureTraffic(b.chip.Reg(RegLna)) + PowerIdleTraffic(c.Reg(RegPaConfig))
  {
    InitRadioRegisters(b, hz);
    InitRadioKeepsOthers(b, hz);
    InitRadioTrace(b, hz);
  }

  /** The constructor's default: start-up at 433 MHz stores the word
      0x6C4000. */
  lemma DefaultFrequencyStored(b: Bus)
    requires b.chip.Valid()
    requires b.chip.Reg(RegVersion) == ExpectedVersion
    ensures StoredFrequencyWord(InitRadio(b, DefaultFrequencyHz).bus.chip) == 0x6C4000
  {
    var w := FrequencyWord(DefaultFrequencyHz);
    assert w == 0x6C4000;
    assert w % 0x100_0000 == w;
    InitRadioRegisters(b, DefaultFrequencyHz);
  }
}
