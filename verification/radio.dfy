/** The radio-control core of the SX127x LoRa driver: operating-mode
    transitions, carrier-frequency and transmit-power encoding, chip
    identification at start-up, and the single-packet transmit and receive
    protocols.

    Every operation is a function from the bus (chip state plus the log of
    everything sent so far) to a new bus. The log records each SPI frame the
    driver clocks out, each request to the GPIO adapter to set the auxiliary
    lines for a mode, the reset pulse, and each wait on the DIO0 completion
    line. The wait is an oracle: the caller supplies whether DIO0 went high
    before the timeout. */
module Radio {
  import opened Bits
  import opened Results
  import opened Registers
  import Chip
  import Spi

  /** The auxiliary-line setting requested from the GPIO adapter. */
  datatype LineMode = LineIdle | LineSleep | LineRx | LineTx

  datatype Event =
    | Frame(mosi: seq<Byte>)
    | SelectLines(lines: LineMode)
    | ResetPulse
    | WaitDio0(timeoutMs: nat, high: bool)

  datatype Bus = Bus(chip: Chip.Chip, trace: seq<Event>)

  /** The driver's exceptions: a power level out of range (`ValueError`),
      a chip that does not identify as an SX127x and a read that found no
      packet (`RuntimeError`), a transmission DIO0 never confirmed
      (`TimeoutError`), and a call to a method the GPIO adapter does not
      define (`AttributeError`). */
  datatype Fault =
    | InvalidPower(dbm: int)
    | UnknownVersion(version: Byte)
    | TxTimeout
    | NoData
    | MissingMethod(name: string)

  /** The bus after a call, and what the call returned or raised. */
  datatype Run<+T> = Run(bus: Bus, result: Result<T, Fault>)

  const TxTimeoutMs: nat := 2000
  const RxTimeoutMs: nat := 5000
  const DefaultFrequencyHz: nat := 433_000_000
  const DefaultTxPower: int := 17

  /** Synthesizer step: 32 MHz / 2^19 = 61.03515625 Hz = 15625 / 256 Hz. */
  const StepNumerator: nat := 15625
  const StepDenominator: nat := 256

  // -----------------------------------------------------------------------
  // Bus accesses: one SPI exchange each, logged

  function ReadReg(b: Bus, addr: Byte): (r: (Bus, Byte))
    requires b.chip.Valid() && addr < 0x80
    ensures r.0.chip.Valid()
    ensures r.0.trace == b.trace + [Frame(Spi.ReadRegisterFrame(addr))]
    ensures addr != RegFifo ==> r.0.chip == b.chip && r.1 == b.chip.Reg(addr)
  {
    var (c', v) := Spi.ReadRegister(b.chip, addr);
    (Bus(c', b.trace + [Frame(Spi.ReadRegisterFrame(addr))]), v)
  }

  function WriteReg(b: Bus, addr: Byte, value: Byte): (r: Bus)
    requires b.chip.Valid() && addr < 0x80
    ensures r.chip.Valid()
    ensures r.trace == b.trace + [Frame(Spi.WriteRegisterFrame(addr, value))]
    ensures r.chip == Chip.WriteAt(b.chip, addr, value)
  {
    Bus(Spi.WriteRegister(b.chip, addr, value), b.trace + [Frame(Spi.WriteRegisterFrame(addr, value))])
  }

  function ReadBurst(b: Bus, addr: Byte, length: nat): (r: (Bus, seq<Byte>))
    requires b.chip.Valid() && addr < 0x80
    ensures r.0.chip.Valid() && |r.1| == length
    ensures r.0.trace == b.trace + [Frame(Spi.ReadBurstFrame(addr, length))]
    ensures (r.0.chip, r.1) == Chip.ReadSeq(b.chip, addr, length)
  {
    assert addr % 128 == addr;
    var r := Spi.ReadBurst(b.chip, addr, length);
    assert r == Chip.ReadSeq(b.chip, addr, length);
    var frame := Spi.ReadBurstFrame(addr, length);
    (Bus(r.0, b.trace + [Frame(frame)]), r.1)
  }

  function WriteBurst(b: Bus, addr: Byte, values: seq<Byte>): (r: Bus)
    requires b.chip.Valid() && addr < 0x80
    ensures r.chip.Valid()
    ensures r.trace == b.trace + [Frame(Spi.WriteBurstFrame(addr, values))]
    ensures r.chip == Chip.WriteSeq(b.chip, addr, values)
  {
    Bus(Spi.WriteBurst(b.chip, addr, values), b.trace + [Frame(Spi.WriteBurstFrame(addr, values))])
  }

  function Log(b: Bus, e: Event): (r: Bus)
    ensures r.chip == b.chip && r.trace == b.trace + [e]
  {
    Bus(b.chip, b.trace + [e])
  }

  // -----------------------------------------------------------------------
  // Operating modes

  /** Ask the GPIO adapter for the line setting, then write the mode with
      the LoRa bit set to RegOpMode. Only RegOpMode changes. */
  function Transition(b: Bus, lines: LineMode, mode: Byte): (r: Bus)
    requires b.chip.Valid() && mode < 0x80
    ensures r.chip.Valid()
    ensures r.chip.Reg(RegOpMode) == mode + 0x80
    ensures r.chip.fifo == b.chip.fifo
    ensures Chip.RegistersKept(b.chip, r.chip, {RegOpMode as int})
    ensures r.trace == b.trace + [SelectLines(lines), Frame(Spi.WriteRegisterFrame(RegOpMode, mode + 0x80))]
  {
    WriteReg(Log(b, SelectLines(lines)), RegOpMode, OpModeValue(mode))
  }

  /** Standby (`idle`, and `set_mode_idle`, which is the same code). */
  function Idle(b: Bus): (r: Bus)
    requires b.chip.Valid()
    ensures r.chip.Valid()
    ensures r.chip.Reg(RegOpMode) == 0x81
    ensures r.chip.fifo == b.chip.fifo
    ensures Chip.RegistersKept(b.chip, r.chip, {RegOpMode as int})
    ensures r.trace == b.trace + [SelectLines(LineIdle), Frame([0x81, 0x81])]
  {
    Transition(b, LineIdle, ModeStdby)
  }

  /** Sleep (`sleep`, and `set_mode_sleep`, which is the same code). */
  function Sleep(b: Bus): (r: Bus)
    requires b.chip.Valid()
    ensures r.chip.Valid()
    ensures r.chip.Reg(RegOpMode) == 0x80
    ensures r.chip.fifo == b.chip.fifo
    ensures Chip.RegistersKept(b.chip, r.chip, {RegOpMode as int})
    ensures r.trace == b.trace + [SelectLines(LineSleep), Frame([0x81, 0x80])]
  {
    Transition(b, LineSleep, ModeSleep)
  }

  /** Continuous receive. */
  function SetModeRx(b: Bus): (r: Bus)
    requires b.chip.Valid()
    ensures r.chip.Valid()
    ensures r.chip.Reg(RegOpMode) == 0x85
    ensures r.chip.fifo == b.chip.fifo
    ensures Chip.RegistersKept(b.chip, r.chip, {RegOpMode as int})
    ensures r.trace == b.trace + [SelectLines(LineRx), Frame([0x81, 0x85])]
  {
    Transition(b, LineRx, ModeRxContinuous)
  }

  /** Transmit. */
  function SetModeTx(b: Bus): (r: Bus)
    requires b.chip.Valid()
    ensures r.chip.Valid()
    ensures r.chip.Reg(RegOpMode) == 0x83
    ensures r.chip.fifo == b.chip.fifo
    ensures Chip.RegistersKept(b.chip, r.chip, {RegOpMode as int})
    ensures r.trace == b.trace + [SelectLines(LineTx), Frame([0x81, 0x83])]
  {
    Transition(b, LineTx, ModeTx)
  }

  // -----------------------------------------------------------------------
  // Carrier frequency

  /** `int((freq_mhz * 1e6) / 61.03515625)` for `hz == freq_mhz * 1e6`
      in whole hertz: the synthesizer word, truncated, i.e. the largest word
      whose frequency does not exceed `hz`. */
  function FrequencyWord(hz: nat): (frf: nat)
    ensures frf * StepNumerator <= hz * StepDenominator < (frf + 1) * StepNumerator
  {
    hz * StepDenominator / StepNumerator
  }

  /** The word held by the three frequency registers, MSB first. */
  function StoredFrequencyWord(c: Chip.Chip): (w: nat)
    requires c.Valid()
    ensures w < 0x100_0000
  {
    c.Reg(RegFrfMsb) * 65536 + c.Reg(RegFrfMid) * 256 + c.Reg(RegFrfLsb)
  }

  /** Write `(frf >> 16) & 0xFF`, `(frf >> 8) & 0xFF`, `frf & 0xFF` to the
      MSB, MID and LSB registers, in that order. Reading them back gives the
      word modulo 2^24; nothing else changes. */
  function SetFrequency(b: Bus, hz: nat): (r: Bus)
    requires b.chip.Valid()
    ensures r.chip.Valid()
    ensures StoredFrequencyWord(r.chip) == FrequencyWord(hz) % 0x100_0000
    ensures r.chip.fifo == b.chip.fifo
    ensures Chip.RegistersKept(b.chip, r.chip, {RegFrfMsb as int, RegFrfMid as int, RegFrfLsb as int})
    ensures r.trace == b.trace + [
      Frame(Spi.WriteRegisterFrame(RegFrfMsb, r.chip.Reg(RegFrfMsb))),
      Frame(Spi.WriteRegisterFrame(RegFrfMid, r.chip.Reg(RegFrfMid))),
      Frame(Spi.WriteRegisterFrame(RegFrfLsb, r.chip.Reg(RegFrfLsb)))]
  {
    var frf := FrequencyWord(hz);
    ThreeBytes(frf);
    var b1 := WriteReg(b, RegFrfMsb, ByteOf(frf / 0x1_0000));
    var b2 := WriteReg(b1, RegFrfMid, ByteOf(frf / 0x100));
    WriteReg(b2, RegFrfLsb, ByteOf(frf))
  }

  // -----------------------------------------------------------------------
  // Transmit power

  /** `(pa_config & 0xF0) | (power_dbm & 0x0F)`: the high nibble of the
      register with the low nibble of the level (`PaConfigWithIsMask`). */
  function PaConfigWith(pa: Byte, dbm: nat): (v: Byte)
    ensures v / 16 == pa / 16
    ensures v % 16 == dbm % 16
  {
    pa - pa % 16 + dbm % 16
  }

  lemma PaConfigWithIsMask(pa: Byte, dbm: nat)
    ensures PaConfigWith(pa, dbm) == Or(And(pa, 0xF0), And(dbm, 0x0F))
  {
    MergeNibbles(pa, dbm);
  }

  /** Refuse a level outside 0..20 dBm before any bus traffic; otherwise
      read RegPaConfig and write it back with its low nibble replaced by
      `power_dbm & 0x0F`. */
  function SetTxPower(b: Bus, dbm: int): (r: Run<()>)
    requires b.chip.Valid()
    ensures r.bus.chip.Valid()
    ensures r.result.Ok? <==> 0 <= dbm <= 20
    ensures r.result.Err? ==> r.result.error == InvalidPower(dbm) && r.bus == b
    ensures r.result.Ok? ==>
      var pa, pa' := b.chip.Reg(RegPaConfig), r.bus.chip.Reg(RegPaConfig);
      && pa' / 16 == pa / 16
      && pa' % 16 == dbm % 16
      && r.bus.chip.fifo == b.chip.fifo
      && Chip.RegistersKept(b.chip, r.bus.chip, {RegPaConfig as int})
      && r.bus.trace == b.trace + [
           Frame(Spi.ReadRegisterFrame(RegPaConfig)),
           Frame(Spi.WriteRegisterFrame(RegPaConfig, pa'))]
  {
    if dbm < 0 || dbm > 20 then
      Run(b, Err(InvalidPower(dbm)))
    else
      var (b1, pa) := ReadReg(b, RegPaConfig);
      Run(WriteReg(b1, RegPaConfig, PaConfigWith(pa, dbm)), Ok(()))
  }

  // -----------------------------------------------------------------------
  // Transmit

  /** The IRQ-flag byte `f` with the TxDone flag (bit 3) cleared and every
      other flag kept. */
  function TxDoneCleared(f: Byte): (r: Byte)
    ensures r == f || r == f - IrqTxDoneMask
  {
    if (f / 8) % 2 == 1 then f - 8 else f
  }

  /** The first half of `send`: standby, FIFO pointer to 0, the payload
      burst into the FIFO, the payload length. */
  function StagePayload(b: Bus, data: seq<Byte>): (r: Bus)
    requires b.chip.Valid() && |data| <= 255
    ensures r.chip.Valid()
    ensures r.trace == b.trace + [
      SelectLines(LineIdle),
      Frame(Spi.WriteRegisterFrame(RegOpMode, 0x81)),
      Frame(Spi.WriteRegisterFrame(RegFifoAddrPtr, 0)),
      Frame(Spi.WriteBurstFrame(RegFifo, data)),
      Frame(Spi.WriteRegisterFrame(RegPayloadLength, |data|))]
  {
    var b1 := Idle(b);
    var b2 := WriteReg(b1, RegFifoAddrPtr, 0x00);
    var b3 := WriteBurst(b2, RegFifo, data);
    WriteReg(b3, RegPayloadLength, |data|)
  }

  /** Stage the payload; transmit mode; wait up to 2 s for DIO0. When DIO0
      rises, write the TxDone mask to RegIrqFlags; otherwise raise, leaving
      FIFO and length as written. */
  function Send(b: Bus, data: seq<Byte>, dio0: bool): (r: Run<()>)
    requires b.chip.Valid() && |data| <= 255
    ensures r.bus.chip.Valid()
    ensures r.result.Ok? <==> dio0
    ensures !dio0 ==> r.result.error == TxTimeout
    ensures r.bus.trace == StagePayload(b, data).trace + [
      Frame(Spi.WriteRegisterFrame(RegOpMode, 0x83)),
      WaitDio0(TxTimeoutMs, dio0)] +
      (if dio0 then [Frame(Spi.WriteRegisterFrame(RegIrqFlags, IrqTxDoneMask))] else [])
  {
    var b4 := StagePayload(b, data);
    var b5 := WriteReg(b4, RegOpMode, OpModeValue(ModeTx));
    var b6 := Log(b5, WaitDio0(TxTimeoutMs, dio0));
    if dio0 then
      Run(WriteReg(b6, RegIrqFlags, IrqTxDoneMask), Ok(()))
    else
      Run(b6, Err(TxTimeout))
  }

  // -----------------------------------------------------------------------
  // Receive

  /** The last part of `receive`: read RegFifoRxCurrentAddr and
      RegRxNbBytes, point the FIFO at the former and burst-read as many
      bytes as the latter says. */
  function FetchPacket(b: Bus): (r: (Bus, seq<Byte>))
    requires b.chip.Valid()
    ensures r.0.chip.Valid()
    ensures |r.1| == b.chip.Reg(RegRxNbBytes)
    ensures r.0.trace == b.trace + [
      Frame(Spi.ReadRegisterFrame(RegFifoRxCurrentAddr)),
      Frame(Spi.ReadRegisterFrame(RegRxNbBytes)),
      Frame(Spi.WriteRegisterFrame(RegFifoAddrPtr, b.chip.Reg(RegFifoRxCurrentAddr))),
      Frame(Spi.ReadBurstFrame(RegFifo, b.chip.Reg(RegRxNbBytes)))]
  {
    var (b1, current) := ReadReg(b, RegFifoRxCurrentAddr);
    var (b2, count) := ReadReg(b1, RegRxNbBytes);
    var b3 := WriteReg(b2, RegFifoAddrPtr, current);
    ReadBurst(b3, RegFifo, count)
  }

  /** Read RegIrqFlags and write the observed byte straight back. */
  function TakeIrqFlags(b: Bus): (r: (Bus, Byte))
    requires b.chip.Valid()
    ensures r.0.chip.Valid()
    ensures r.1 == b.chip.Reg(RegIrqFlags)
    ensures r.0.trace == b.trace + [
      Frame(Spi.ReadRegisterFrame(RegIrqFlags)),
      Frame(Spi.WriteRegisterFrame(RegIrqFlags, r.1))]
  {
    var (b1, flags) := ReadReg(b, RegIrqFlags);
    (WriteReg(b1, RegIrqFlags, flags), flags)
  }

  /** Single receive: write RxSingle to RegOpMode and wait up to 5 s for
      DIO0; on timeout, no packet. Otherwise read RegIrqFlags and write the
      observed byte back; with the CRC-error flag set, no packet. Otherwise
      fetch the packet from the FIFO. Never raises. */
  function Receive(b: Bus, dio0: bool): (r: Run<Option<seq<Byte>>>)
    requires b.chip.Valid()
    ensures r.bus.chip.Valid()
    ensures r.result.Ok?
    ensures !dio0 ==> r.result.value == None
  {
    var b1 := WriteReg(b, RegOpMode, OpModeValue(ModeRxSingle));
    var b2 := Log(b1, WaitDio0(RxTimeoutMs, dio0));
    if !dio0 then
      Run(b2, Ok(None))
    else
      var (b3, flags) := TakeIrqFlags(b2);
      if And(flags, IrqPayloadCrcErrorMask) != 0 then
        Run(b3, Ok(None))
      else
        var (b4, data) := FetchPacket(b3);
        Run(b4, Ok(Some(data)))
  }

  /** `receive`, with "no packet" raised as an error. */
  function Read(b: Bus, dio0: bool): (r: Run<seq<Byte>>)
    requires b.chip.Valid()
    ensures r.bus == Receive(b, dio0).bus
    ensures r.result.Err? <==> Receive(b, dio0).result.value.None?
    ensures r.result.Err? ==> r.result.error == NoData
    ensures r.result.Ok? ==> Receive(b, dio0).result.value == Some(r.result.value)
  {
    var rx := Receive(b, dio0);
    match rx.result.value
    case None => Run(rx.bus, Err(NoData))
    case Some(data) => Run(rx.bus, Ok(data))
  }

  // -----------------------------------------------------------------------
  // Start-up

  /** `lna | 0x03`: LNA boost on, the two low bits set and the rest kept
      (`LnaBoostedIsMask`). */
  function LnaBoosted(lna: Byte): (v: Byte)
    ensures v / 4 == lna / 4 && v % 4 == 3
  {
    lna - lna % 4 + 3
  }

  lemma LnaBoostedIsMask(lna: Byte)
    ensures LnaBoosted(lna) == Or(lna, 0x03)
  {
    SetLowTwo(lna);
  }

  /** Pulse reset and read RegVersion; anything but 0x12 is refused before
      any register is written. Then sleep, set the frequency, both FIFO base
      addresses to 0, LNA boost, RegModemConfig3 to 0x04, 17 dBm, standby. */
  function InitRadio(b: Bus, hz: nat): (r: Run<()>)
    requires b.chip.Valid()
    ensures r.bus.chip.Valid()
    ensures r.result.Ok? <==> b.chip.Reg(RegVersion) == ExpectedVersion
    ensures r.result.Err? ==>
      && r.result.error == UnknownVersion(b.chip.Reg(RegVersion))
      && r.bus.chip == b.chip
      && r.bus.trace == b.trace + [ResetPulse, Frame(Spi.ReadRegisterFrame(RegVersion))]
  {
    var b1 := Log(b, ResetPulse);
    var (b2, version) := ReadReg(b1, RegVersion);
    if version != ExpectedVersion then
      Run(b2, Err(UnknownVersion(version)))
    else
      var b3 := Sleep(b2);
      var b4 := SetFrequency(b3, hz);
      var b5 := WriteReg(b4, RegFifoTxBaseAddr, 0x00);
      var b6 := WriteReg(b5, RegFifoRxBaseAddr, 0x00);
      var (b7, lna) := ReadReg(b6, RegLna);
      var b8 := WriteReg(b7, RegLna, LnaBoosted(lna));
      var b9 := WriteReg(b8, RegModemConfig3, 0x04);
      var b10 := SetTxPower(b9, DefaultTxPower).bus;
      Run(Idle(b10), Ok(()))
  }
}
