/** The mode changes as the driver is written against its GPIO adapter.

    Every mode change first asks the adapter to set the auxiliary lines
    (`set_to_idle`, `set_to_sleep`, `set_to_rx`, `set_to_tx`), but the
    adapter class defines none of these methods, so Python raises
    `AttributeError` before the op-mode register is written. This module
    models that call as written; `Radio.Transition` is the evident intent,
    in which the line request succeeds and the op-mode write follows. */
module Adapter {
  import opened Bits
  import opened Results
  import opened Registers
  import opened Radio

  /** The methods the GPIO adapter class defines. */
  const HandlerMethods: set<string> := {"reset", "wait_for_dio0", "attach_interrupt", "cleanup"}

  /** The adapter method a mode change calls for each line setting. */
  function LineMethod(lines: LineMode): (name: string)
    ensures |name| > 7 && name[..7] == "set_to_"
  {
    match lines
    case LineIdle => "set_to_idle"
    case LineSleep => "set_to_sleep"
    case LineRx => "set_to_rx"
    case LineTx => "set_to_tx"
  }

  /** A mode change as written, against an adapter that defines the
      methods `methods`: the line request raises `AttributeError` when the
      adapter lacks the method, and otherwise the transition runs. */
  function TransitionAsWritten(b: Bus, methods: set<string>, lines: LineMode, mode: Byte): (r: Run<()>)
    requires b.chip.Valid() && mode < 0x80
    ensures r.result.Ok? <==> LineMethod(lines) in methods
    ensures r.result.Ok? ==> r.bus == Transition(b, lines, mode)
    ensures r.result.Err? ==> r.bus == b && r.result.error == MissingMethod(LineMethod(lines))
  {
    if LineMethod(lines) in methods then Run(Transition(b, lines, mode), Ok(()))
    else Run(b, Err(MissingMethod(LineMethod(lines))))
  }

  /** As written, every mode change raises before any register traffic:
      the op-mode register keeps its value and nothing is logged. The same
      call in `Radio.Transition` always leaves `mode | 0x80` in RegOpMode. */
  lemma ModeChangeAsWrittenRaises(b: Bus, lines: LineMode, mode: Byte)
    requires b.chip.Valid() && mode < 0x80
    ensures TransitionAsWritten(b, HandlerMethods, lines, mode) == Run(b, Err(MissingMethod(LineMethod(lines))))
    ensures Transition(b, lines, mode).chip.Reg(RegOpMode) == OpModeValue(mode)
  {
  }

  /** Start-up as written: on an SX127x it raises at its first mode change
      (`self.sleep()`), after the reset pulse and the version read, and so
      never configures the radio. */
  function InitRadioAsWritten(b: Bus, methods: set<string>, hz: nat): (r: Run<()>)
    requires b.chip.Valid()
    ensures b.chip.Reg(RegVersion) != ExpectedVersion ==> r == InitRadio(b, hz)
    ensures LineMethod(LineSleep) in methods && LineMethod(LineIdle) in methods ==> r == InitRadio(b, hz)
  {
    var b1 := Log(b, ResetPulse);
    var (b2, version) := ReadReg(b1, RegVersion);
    if version != ExpectedVersion then
      Run(b2, Err(UnknownVersion(version)))
    else
      var s3 := TransitionAsWritten(b2, methods, LineSleep, ModeSleep);
      if s3.result.Err? then s3
      else
        var b4 := SetFrequency(s3.bus, hz);
        var b5 := WriteReg(b4, RegFifoTxBaseAddr, 0x00);
        var b6 := WriteReg(b5, RegFifoRxBaseAddr, 0x00);
        var (b7, lna) := ReadReg(b6, RegLna);
        var b8 := WriteReg(b7, RegLna, LnaBoosted(lna));
        var b9 := WriteReg(b8, RegModemConfig3, 0x04);
        var b10 := SetTxPower(b9, DefaultTxPower).bus;
        TransitionAsWritten(b10, methods, LineIdle, ModeStdby)
  }

  /** On an SX127x, start-up as written raises `AttributeError` for
      `set_to_sleep` with only the reset pulse and the version read on the
      bus, where the corrected `Radio.InitRadio` succeeds. */
  lemma InitRadioAsWrittenRaises(b: Bus, hz: nat)
    requires b.chip.Valid() && b.chip.Reg(RegVersion) == ExpectedVersion
    ensures InitRadioAsWritten(b, HandlerMethods, hz).result == Err(MissingMethod("set_to_sleep"))
    ensures InitRadioAsWritten(b, HandlerMethods, hz).bus.chip == b.chip
    ensures InitRadioAsWritten(b, HandlerMethods, hz).bus.trace
      == b.trace + [ResetPulse, Frame(Spi.ReadRegisterFrame(RegVersion))]
    ensures InitRadio(b, hz).result == Ok(())
  {
    var b2 := ReadReg(Log(b, ResetPulse), RegVersion).0;
    ModeChangeAsWrittenRaises(b2, LineSleep, ModeSleep);
  }
}
