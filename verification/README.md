# SX127x LoRa radio control, modelled in Dafny

This project models the radio-control core of a small Python driver for the
Semtech SX1276/SX1278 LoRa transceiver. It covers four parts:

- the register map;
- the SPI register-access layer, which frames reads and writes and slices
  responses;
- the pin map;
- the driver operations: mode changes, carrier frequency, transmit power,
  start-up identification, single-packet transmit and single-shot receive.

The model works at the level of register traffic. The chip is a value with
128 byte registers and a 256-byte FIFO. The FIFO pointer is register 0x0D,
and each FIFO access advances it by one, wrapping at 256. Every driver
operation is a pure function from a `Bus` to a new `Bus`. A `Bus` holds the
chip and the log of everything the driver did: SPI frames, requests for an
auxiliary-line setting, the reset pulse, and DIO0 waits. An operation that
can fail returns a `Run`, which pairs the bus with `Ok` or one of the
driver's exceptions.

Modules:

- `Results` (results.dfy): `Option` and `Result`.
- `Bits` (bits.dfy): bytes as integers 0..255, and Python's `&` and `|`
  defined bit by bit on naturals. It also holds the facts that connect
  these operators to arithmetic, for example `a & 0x7F == a % 128`.
- `Registers` (registers.dfy): the register map, mode codes, IRQ masks and
  `PA_BOOST`, with their distinctness and range facts.
- `Chip` (chip.dfy): the device the driver talks to. It decodes each SPI
  frame and answers with a response of the same length. Its
  FIFO-pointer arithmetic is `Advance` and `Distance` modulo 256.
- `Spi` (spi.dfy): the frame builders, the response slicers, and one
  exchange with the chip in place of `xfer2`.
- `Radio` (radio.dfy): the driver operations.
- `RadioLaws` (radio_laws.dfy): properties of those operations over every
  chip state.
- `Pinout` (pinout.dfy): the pin map and its validated update.

The driver's bit expressions (`mode | 0x80`, `address & 0x7F`,
`(pa & 0xF0) | (p & 0x0F)`, `lna | 0x03`, `x & 0xFF`) are defined
arithmetically. A separate lemma proves each one equal to the bitwise
expression built from `Bits.And` and `Bits.Or`. Examples are
`Spi.AddressBytesAreMasks`, `Registers.OpModeValueRoundTrip`,
`Radio.PaConfigWithIsMask`, `Radio.LnaBoostedIsMask` and
`RadioLaws.FrequencyRegisterBytes`.

Frequencies are whole, non-negative hertz. The driver computes
`int((freq_mhz * 1e6) / 61.03515625)` (lora_module.py:58); with
`hz = freq_mhz * 1e6` given directly, and the synthesizer step exactly
15625/256 Hz = 61.03515625 Hz, that is `hz * 256 / 15625`, rounded down.

The completion wait on DIO0 is an oracle: the caller passes whether DIO0
went high before the timeout. The wait is logged with its timeout: 2000 ms
for transmit, 5000 ms for receive.

Facts about the code that shape the model:

- `set_frequency` truncates the frequency word with `int(...)`
  (lora_module.py:58); it does not round.
- The step 61.03515625 Hz is 32 MHz / 2^19.
- After a confirmed transmission, `send` clears TxDone by writing the
  constant 0x08 to RegIrqFlags (lora_module.py:104). Only `receive` writes
  back the flag byte it observed (lora_module.py:115-116).
- The RxSingle write at the start of `receive` (lora_module.py:110) and the
  Tx write in `send` (lora_module.py:100) go straight to the register. They
  do not go through a mode function, so no auxiliary-line request is logged
  for them.
- The mode functions call `set_to_idle`, `set_to_sleep`, `set_to_rx` and
  `set_to_tx` on the GPIO adapter, which defines none of them
  (lora_handler.py:7-48). The module `Adapter` (adapter.dfy) models those
  calls as written; the rest of the model assumes the calls succeed (see
  "## Findings").

## Model

| member | source | states |
|---|---|---|
| Registers.AddressesIncreasing | registers.py:5-68 | The map has 38 register addresses, listed in strictly increasing order. |
| Registers.AddressesDistinct | registers.py:5-68 | No two registers share an address. |
| Registers.AddressesBelowWriteBit | registers.py:5-68 | Every address is below 0x80, so the SPI write flag (bit 7) never overlaps an address bit. |
| Registers.FrequencyRegistersConsecutive | registers.py:9-11 | The frequency registers are consecutive: MSB, MID, then LSB. |
| Registers.OpModeValueRoundTrip | registers.py:73-78 | The op-mode value of a seven-bit mode code is `mode \| 0x80`. Clearing bit 7 with `& 0x7F` gives the code back. |
| Registers.ModesWithLoRaBit | registers.py:73-78 | The five mode codes are distinct and below 0x80. With the LoRa bit set they stay distinct, and `& 0x7F` recovers each one. |
| Registers.IrqMasksSelectOneBit | registers.py:81-83 | Each IRQ mask selects a single flag bit: TxDone is bit 3, PayloadCrcError bit 5, RxDone bit 6. So `flags & mask` is non-zero exactly when that flag is raised. |
| Spi.AddressBytesAreMasks | spi_driver.py:16-21 | The read address byte is `address & 0x7F` and the write address byte is `address \| 0x80`. |
| Spi.AddressByteFlag | spi_driver.py:16-21 | For a seven-bit address, the read and write address bytes differ only in bit 7, and `& 0x7F` recovers the address from either. |
| Spi.ReadRegisterFrame | spi_driver.py:16 | The register-read frame has two bytes: the address with bit 7 clear, then a zero filler. |
| Spi.WriteRegisterFrame | spi_driver.py:21 | The register-write frame has two bytes: the address with bit 7 set, then the value. |
| Spi.ReadBurstFrame | spi_driver.py:25 | The burst-read frame has length + 1 bytes: the address with bit 7 clear, then only zeros. |
| Spi.WriteBurstFrame | spi_driver.py:30 | The burst-write frame has one more byte than the values: the address with bit 7 set, then the values unchanged and in order. |
| Spi.RegisterValue | spi_driver.py:17 | The value `result[1]` is the first of the burst values `result[1:]` of the same response. |
| Spi.BurstValues | spi_driver.py:26 | Dropping the first response byte leaves one byte fewer, in the same order. |
| Spi.ReadRegister | spi_driver.py:14-17 | A register read returns the byte the chip clocks out for the seven-bit register. It has the same effect as that one read access. |
| Spi.WriteRegister | spi_driver.py:19-21 | A register write has the same effect as writing the value to the seven-bit register. |
| Spi.ReadBurst | spi_driver.py:23-26 | A burst read returns exactly `length` bytes, those the chip gives for `length` reads from the register. |
| Spi.WriteBurst | spi_driver.py:28-30 | A burst write has the same effect as writing the values one after another from the register. |
| Spi.ResponsesCarryValues | spi_driver.py:14-26 | The response has the frame's length and starts with a zero. A register read returns its second byte, and a burst read returns every byte after the first. |
| Spi.FramesDecode | spi_driver.py:14-30 | The chip decodes each of the four frames back into the access that built it. |
| Spi.WriteFramesInjective | spi_driver.py:16-21 | Two register writes give the same frame only when both address and value match. No write frame equals a read frame. |
| Chip.Decode | spi_driver.py:16-30 | Only an empty frame has no access. Every decoded access names a seven-bit register. |
| Chip.AdvanceIsModular | lora_module.py:124-125 | The FIFO pointer after a burst of n bytes is the start plus n, modulo 256. |
| Chip.WriteFifoBurst | lora_module.py:96-97 | A burst written to the FIFO register lands at the pointer and after it, wrapping at 256. The pointer advances by the burst length. No other FIFO cell or register changes. |
| Chip.ReadFifoBurst | lora_module.py:124-125 | A burst read from the FIFO register returns the FIFO from the pointer onward, wrapping at 256. The pointer advances by the burst length. Nothing else changes. |
| Radio.ReadReg | spi_driver.py:14-17 | Reading a register other than the FIFO returns its value, leaves the chip unchanged, and logs one read frame. |
| Radio.WriteReg | spi_driver.py:19-21 | Writing a register logs exactly one write frame for that address and value. |
| Radio.ReadBurst | spi_driver.py:23-26 | A burst read returns `length` bytes and logs one burst-read frame. |
| Radio.WriteBurst | spi_driver.py:28-30 | A burst write logs one burst-write frame holding the values. |
| Radio.Transition | lora_module.py:46-90 | A mode change leaves `mode \| 0x80` in RegOpMode. No other register or FIFO cell changes. The log gains the line request and one op-mode write frame. |
| Radio.Idle | lora_module.py:46-49 | `idle` and `set_mode_idle` leave 0x81 in RegOpMode and change nothing else. They log the frame `[0x81, 0x81]`. |
| Radio.Sleep | lora_module.py:51-54 | `sleep` and `set_mode_sleep` leave 0x80 in RegOpMode and change nothing else. They log the frame `[0x81, 0x80]`. |
| Radio.SetModeRx | lora_module.py:72-75 | Continuous receive leaves 0x85 in RegOpMode and changes nothing else. |
| Radio.SetModeTx | lora_module.py:77-80 | Transmit mode leaves 0x83 in RegOpMode and changes nothing else. |
| RadioLaws.TransitionLastWins | lora_module.py:46-90 | Of two mode changes in a row only the second shows. The chip and the last line request are as if the first had not happened. |
| RadioLaws.IdleIdempotent | lora_module.py:46-49 | Going to standby twice leaves the same chip and line setting as going once. |
| Radio.FrequencyWord | lora_module.py:58 | The frequency word is the largest word whose frequency does not exceed the requested one (truncation). |
| Radio.SetFrequency | lora_module.py:56-61 | Reassembling the three frequency registers gives the word modulo 2^24. The MSB, MID and LSB write frames are logged in that order, and nothing else changes. |
| RadioLaws.FrequencyRegisterBytes | lora_module.py:59-61 | The registers hold `(frf >> 16) & 0xFF`, `(frf >> 8) & 0xFF` and `frf & 0xFF`. |
| RadioLaws.FrequencyReadBack | lora_module.py:56-61 | A frequency that is a whole number of steps, fewer than 2^24 of them, reads back exactly from the registers. |
| RadioLaws.FrequencyBandsExact | lora_module.py:57-58 | The 433, 868 and 915 MHz words are 0x6C4000, 0xD90000 and 0xE4C000, and each reads back exactly. |
| RadioLaws.FrequencyTruncates | lora_module.py:58 | The word rounds down: 61 Hz gives 0, and 433 MHz + 61 Hz gives the 433 MHz word. |
| Radio.PaConfigWith | lora_module.py:69 | The new PA config keeps the high nibble of the old one and takes the level's low nibble. |
| Radio.PaConfigWithIsMask | lora_module.py:69 | The new PA config equals `(pa_config & 0xF0) \| (power_dbm & 0x0F)`. |
| Radio.SetTxPower | lora_module.py:63-70 | A level outside 0..20 is refused with no bus traffic. Otherwise one read and one write of RegPaConfig change only its low nibble, to `dbm & 0x0F`. |
| RadioLaws.PowerKeepsPaBoost | lora_module.py:68-70 | A power change, accepted or refused, keeps the PA_BOOST bit (0x80) of RegPaConfig. |
| RadioLaws.PowerWrapsAbove15 | lora_module.py:63-70 | Levels 16..20 leave the chip exactly as levels 0..4 do. The start-up level 17 stores 1. |
| Radio.StagePayload | lora_module.py:94-98 | Staging logs the idle request and op-mode write, the pointer reset, the payload burst and the length write, in that order. |
| RadioLaws.StagePayloadEffect | lora_module.py:94-98 | After staging, the FIFO holds the payload from address 0 and the rest of the FIFO is untouched. The length register and the pointer hold the payload length, and the mode is standby. |
| Radio.Send | lora_module.py:92-106 | `send` succeeds exactly when DIO0 rises, and otherwise raises TxTimeout. The TxDone-mask write is logged only after DIO0 rises. |
| RadioLaws.SendEffect | lora_module.py:92-106 | After `send`, the FIFO holds the payload, the length register holds its length, and the mode is Tx. If DIO0 rose, only TxDone is cleared; on a timeout the flags are untouched. No other register changes. |
| Radio.TakeIrqFlags | lora_module.py:115-116 | The observed flag byte is read and written back verbatim. |
| Radio.FetchPacket | lora_module.py:121-125 | The fetch reads the current-address and byte-count registers, points the FIFO at the address and burst-reads that many bytes. The result has exactly RegRxNbBytes bytes. |
| RadioLaws.FetchPacketEffect | lora_module.py:121-125 | The fetched bytes are the FIFO from RegFifoRxCurrentAddr onward, wrapping at 256. The FIFO is unchanged and only the pointer register moves. |
| Radio.Receive | lora_module.py:108-127 | `receive` never raises. On a DIO0 timeout it returns no packet. |
| RadioLaws.ReceiveTimeout | lora_module.py:110-113 | On a DIO0 timeout the only register traffic is the RxSingle write (0x86). No packet is returned. |
| RadioLaws.ReceiveCrcError | lora_module.py:115-119 | With the CRC-error flag set, the observed flags are written back, which clears them all. No packet is returned and no FIFO read happens. |
| RadioLaws.FlagsTakenEffect | lora_module.py:110-116 | Writing back the observed flags clears every one of them. Only RegOpMode and RegIrqFlags change. |
| RadioLaws.ReceiveGoodTrace | lora_module.py:108-127 | With DIO0 high and the CRC-error flag clear, the traffic is exactly: the RxSingle write `[0x81, 0x86]`, the 5000 ms DIO0 wait, the flags read `[0x12, 0]`, the write-back `[0x92, flags]`, the reads of RegFifoRxCurrentAddr `[0x10, 0]` and RegRxNbBytes `[0x13, 0]`, the pointer write `[0x8D, addr]`, and the FIFO burst read `[0x00]` followed by RegRxNbBytes zeros. |
| RadioLaws.ReceivePacketData | lora_module.py:121-127 | A good packet has exactly RegRxNbBytes bytes, taken from the FIFO at RegFifoRxCurrentAddr onward. |
| RadioLaws.ReceivePacketChip | lora_module.py:110-125 | After a good packet, the FIFO is unchanged, the flags are cleared, the mode is RxSingle and the pointer is after the packet. Nothing else changes. |
| RadioLaws.ReceivePacket | lora_module.py:108-127 | The data and chip statements above, together. |
| Radio.Read | lora_module.py:19-24 | `read` raises NoData exactly when `receive` returns no packet, and otherwise returns that packet. |
| RadioLaws.ReadRaisesExactly | lora_module.py:19-24 | `read` raises exactly on a DIO0 timeout or a CRC error. |
| RadioLaws.LoopbackReceives | lora_module.py:108-127 | A payload at FIFO address 0, with its length in RegPayloadLength, is what `receive` returns from a chip that loops the transmission back. |
| RadioLaws.SendThenReceive | lora_module.py:92-127 | A payload of up to 255 bytes sent with `send` comes back unchanged from `receive` on a looped-back chip. |
| Radio.LnaBoosted | lora_module.py:40 | LNA boost sets the two low bits and keeps the rest. |
| Radio.LnaBoostedIsMask | lora_module.py:40 | The boosted LNA value is `lna \| 0x03`. |
| Radio.InitRadio | lora_module.py:26-44 | Start-up succeeds exactly when RegVersion reads 0x12. Any other version is refused after the reset pulse and one read, with no register written. |
| RadioLaws.InitRadioConfigures | lora_module.py:26-44 | On an SX127x, start-up succeeds and leaves standby, the requested frequency, both FIFO bases 0, LNA boost, ModemConfig3 0x04, and power nibble 1 under the old high nibble. The FIFO is untouched, no register outside those nine changes, and the traffic is exactly the one `InitRadioTrace` states. |
| RadioLaws.InitRadioRegisters | lora_module.py:26-44 | The register values and FIFO of `InitRadioConfigures`, on their own. |
| RadioLaws.InitRadioKeepsOthers | lora_module.py:26-44 | Start-up writes only RegOpMode, the three frequency registers, both FIFO bases, RegLna, RegModemConfig3 and RegPaConfig. Every other register keeps its value. |
| RadioLaws.InitRadioTrace | lora_module.py:26-44 | On an SX127x, the traffic is exactly: reset pulse, version read `[0x42, 0]`, the sleep request and `[0x81, 0x80]`, the frequency writes `[0x86, msb]`, `[0x87, mid]`, `[0x88, lsb]`, `[0x8E, 0]`, `[0x8F, 0]`, the LNA read `[0x0C, 0]` and write `[0x8C, lna \| 3]`, `[0xA6, 0x04]`, the PA read `[0x09, 0]` and the write `[0x89, pa]` of the final PA config, then the standby request and `[0x81, 0x81]`. |
| RadioLaws.SetFrequencyFrames | lora_module.py:56-61 | The three frequency registers hold the word's bytes from the top, and the frames `[0x86, msb]`, `[0x87, mid]`, `[0x88, lsb]` are logged in that order. |
| RadioLaws.DefaultFrequencyStored | lora_module.py:11-35 | With the constructor's default 433 MHz, start-up stores the frequency word 0x6C4000. |
| Adapter.TransitionAsWritten | lora_module.py:46-90 | A mode change against an adapter with a given method set raises `AttributeError` naming the `set_to_*` method, with no traffic, exactly when the adapter lacks it. Otherwise it is `Radio.Transition`. |
| Adapter.ModeChangeAsWrittenRaises | lora_handler.py:7-48 | Against the adapter as defined, every mode change raises with the bus unchanged, while the corrected `Radio.Transition` leaves `mode \| 0x80` in RegOpMode. |
| Adapter.InitRadioAsWritten | lora_module.py:26-44 | Start-up against an adapter with a given method set: a wrong version is refused as in `Radio.InitRadio`, and with `set_to_sleep` and `set_to_idle` present it is exactly `Radio.InitRadio`. |
| Adapter.InitRadioAsWrittenRaises | lora_module.py:26-34 | On an SX127x, start-up as written raises `AttributeError` for `set_to_sleep` after the reset pulse and the version read, with the chip unchanged, where the corrected start-up succeeds. |
| Pinout.New | pinout.py:7-14 | A new map has exactly the names CS, RST, DIO0 and DIO1, with the given numbers. |
| Pinout.Default | pinout.py:7-14 | The default map is CS 8, RST 22, DIO0 4, DIO1 17. |
| Pinout.SetPinout | pinout.py:23-28 | A known name is re-numbered and every other entry is kept. An unknown name is refused and the map is left unchanged. The names never change. |
| Pinout.ListPinsAfterSet | pinout.py:19-28 | After an accepted change, the listing is the old listing with that one entry updated. |
| Pinout.SetAllKeepsNames | pinout.py:23-28 | No series of changes adds or removes a pin name. |
| Pinout.DefaultNamesForever | pinout.py:7-28 | Starting from the default map, changes made through `__setpinout__` alone can never list any name but the four board pins. |
| Pinout.ListPins | pinout.py:19-21 | The listing has exactly the map's names, and re-assigning any listed pin its listed number leaves the map unchanged. |

## Left out

- SPI device handling is left out: `spidev` open, close, clock speed and SPI mode (spi_driver.py:7-12, 32-34). These are foreign library calls. One `xfer2` exchange is the chip model's `Transfer`.
- The GPIO adapter (lora_handler.py) is left out. `wait_for_dio0` is wall-clock polling and becomes a boolean oracle. `reset` is timed pin toggling and becomes a logged `ResetPulse`. `attach_interrupt` is callback concurrency.
- The `set_to_idle`, `set_to_sleep`, `set_to_rx` and `set_to_tx` calls of the mode operations are logged in `Radio` only as `SelectLines` events, with no behaviour of their own. lora_handler.py defines no such methods; `Adapter` models the `AttributeError` they raise.
- `reset` and `close` (lora_module.py:129-137) are left out. They are sleeps and resource release.
- configure.py, RX.py and TX.py are left out. They are an environment preflight and command-line entry points that print.
- The constructor's default frequency is not modelled as a float. `InitRadio` takes the frequency in whole hertz; `DefaultFrequencyHz` is the default 433 MHz, used by `RadioLaws.DefaultFrequencyStored`.
- Payloads over 255 bytes are left out. `Send` requires at most 255 bytes, because the driver writes `len(data)` into a one-byte register.
- Register reset values are left out. The chip's own activity, which sets IRQ flags, RxNbBytes and the current RX address, is a parameter: any chip state, or the `Loopback` stand-in.
- `Pinout.__getstate__` (pinout.py:16-17) is left out. It is pickling support.
- Radio.Receive: its own contract states only "never raises" and the timeout case. The CRC-error and good-packet outcomes are stated by `RadioLaws.ReceiveCrcError` and `RadioLaws.ReceivePacket`.
- Chip.Transfer: never fails, so failures of `xfer2` are left out. In the driver, an exception from the SPI library propagates out of whichever operation made the exchange, after the earlier exchanges of that operation have already reached the chip (for example `init_radio` failing after the reset and the sleep write). `Chip.Transfer` always completes, so no `Run` describes such a partial operation.
- Radio.SetTxPower: takes an integer level. In the driver a non-integer level inside 0..20, such as `17.0`, passes the range check (lora_module.py:65), reads RegPaConfig (line 68) and only then raises `TypeError` at `power_dbm & 0x0F` (line 69). So the driver can raise after bus traffic, while the model's "an error leaves the bus unchanged" covers only the out-of-range integer levels.
- Radio.SetFrequency: takes `hz` as a natural number, so negative frequencies are left out. In the driver, `int()` truncates a negative quotient toward zero and `>> 16`, `>> 8` and `& 0xFF` then give the two's-complement bytes of the negative word (lora_module.py:58-61).
- Pinout.ListPins: returns the map as a value. pinout.py:21 returns the live dict, so a Python caller can add a name through the listing, which a later `__setpinout__` then accepts. The model has no aliasing, so it does not capture that.
- Adapter.InitRadioAsWritten: models the `AttributeError` only at the `sleep` and `idle` calls of start-up; `send`, `set_mode_rx`, `set_mode_tx` and the other mode functions raise the same way through `Adapter.TransitionAsWritten`, without a separate as-written member each.

## Findings

| source | as written | input that shows it | evidently intended | confidence | as-written member | corrected member |
|---|---|---|---|---|---|---|
| lora_module.py:46-90 | every mode function calls `self.gpio.set_to_*()`, which `LoRaGPIOHandler` (lora_handler.py:7-48) does not define, so `AttributeError` is raised before the op-mode write | `LoRa()` on a chip whose RegVersion reads 0x12: `init_radio` raises at `self.sleep()` (line 34); `idle`, `send` and `set_mode_*` raise the same way | the adapter sets the auxiliary lines for the mode and the op-mode write follows | not executed | Adapter.InitRadioAsWrittenRaises | Radio.Transition |
