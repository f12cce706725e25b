# VEML6075 UV light sensor driver, modelled in Dafny

A model of the register-level driver for the VEML6075 UVA/UVB sensor
(`veml6075-rs`). The driver owns an I2C bus handle and an 8-bit *shadow* of
the sensor's write-only configuration register. Its setters (`enable`,
`disable`, `set_mode`, `set_integration_time`, `set_dynamic_setting`)
compute a new byte from the shadow and go through `write_config`. That
sends the frame `[0x00, value, 0x00]` to address `0x10` and commits the
byte to the shadow only if the bus write succeeds. `trigger_measurement`
sends the shadow with the trigger bit set and never stores it. The reads
fetch a 16-bit data register with one write-read and decode it little-endian.
`read_all` reads UVA, UVB, UVCOMP1 and UVCOMP2 in that order and stops at
the first error.

The two source files are two revisions of the same driver. `src/device_impl.rs`
is the superset, and its `new`, `enable`, `disable`, `write_config` and read
path are the same as in `src/lib.rs`. The model is one driver class covering
the `src/device_impl.rs` surface.

Files:

- `bus.dfy` (module `I2c`): the bus as an object with a transaction log
  (`Write(address, bytes)` / `WriteRead(address, request)`). What it answers
  comes from an oracle: the k-th transaction gets `oracle(k)`, which is a
  success (with the bytes clocked back for a read) or a bus error.
- `results.dfy` (module `Results`): `Error::I2C` and a `Result` that supports
  `:-`, which plays the role of the source's `?`.
- `protocol.dfy` (module `Protocol`): the device address, the register
  addresses, the frames, the little-endian decoding, and what
  `read_register` and `read_all` return for given bus replies.
- `config_register.dfy` (module `ConfigRegister`): the bit flags, the enums
  `Mode`, `IntegrationTime` and `DynamicSetting`, each setter's bit
  arithmetic, getters that read each field back, and the algebra of the
  setters.
- `traces.dfy` (module `Traces`): the shadow as a function of the history of
  configuration commands and whether each write succeeded. It also holds the
  reachable-state invariant and the "shadow is the last successful write"
  property.
- `driver.dfy` (module `Driver`): class `Veml6075`, with the source's
  operations as methods over the `config` field and the bus. A ghost history
  ties every driver to the trace model, and the driver invariant ties that
  history to the configuration writes the bus acknowledged.
- `scenarios.dfy` (module `Scenarios`): complete sessions on a scripted bus.
  They take the frames and values of `tests/tests.rs` and a few further
  sessions.

The configuration register layout follows the code's constants
(src/device_impl.rs:17-20) and the setters: bit 0 is shutdown (`SHUTDOWN`),
bit 1 active-force mode (`UV_AF`), bit 2 the trigger (`UV_TRIG`), bit 3 the
high dynamic setting (`HD`), bits 4-6 the integration time code, and bit 7 is
reserved. So `set_mode` works on bit 1 and `trigger_measurement` writes
`shadow OR 0x04`.

## Model

| member | source | states |
|---|---|---|
| Driver.Veml6075.constructor | src/device_impl.rs:30-35 | `new` stores shadow `0x01` (shut down), issues no bus transaction (the bus log is unchanged) and starts with an empty command history |
| Driver.Veml6075.WriteConfig | src/device_impl.rs:99-105 | exactly one write `[0x00, value, 0x00]` to `0x10`; the result is `Ok` iff the bus acknowledged, else the bus error wrapped in `I2C`; the shadow becomes `value` only on success and is unchanged on failure; called with the byte a setter computed from the shadow, it records that setter in the history and keeps the driver invariant |
| Driver.Veml6075.Enable | src/device_impl.rs:43-46 | one write of `config & !0x01`; shadow updated to it only on success; the driver invariant (the shadow is the history's shadow and well formed, and the bytes the history wrote are the configuration writes the bus acknowledged since `new`) is kept |
| Driver.Veml6075.Disable | src/device_impl.rs:49-52 | one write of `config OR 0x01`; shadow updated only on success; invariant kept |
| Driver.Veml6075.SetMode | src/device_impl.rs:55-66 | one write of the shadow with bit 1 cleared (Continuous) or set (ActiveForce); committed only on success; invariant kept |
| Driver.Veml6075.TriggerMeasurement | src/device_impl.rs:69-75 | one write of `config OR 0x04`; the shadow is unchanged whether the write succeeds or fails; the bus error is passed through; invariant kept |
| Driver.Veml6075.SetIntegrationTime | src/device_impl.rs:78-88 | one write of the shadow with bits 4-6 replaced by the time's code; committed only on success; invariant kept |
| Driver.Veml6075.SetDynamicSetting | src/device_impl.rs:91-97 | one write of the shadow with bit 3 cleared (Normal) or set (High); committed only on success; invariant kept |
| Driver.Veml6075.ReadRegister | src/device_impl.rs:147-153 | exactly one write-read to `0x10` with request `[register]`; the result is the bus error, or the little-endian decoding of the zero-initialised two-byte buffer the reply filled; invariant kept |
| Driver.Veml6075.ReadUva | src/device_impl.rs:123-125 | one write-read of register `0x07`; the result is that register's decoding; the driver (shadow and history) is unchanged and its invariant kept |
| Driver.Veml6075.ReadUvb | src/device_impl.rs:128-130 | one write-read of register `0x09`; driver unchanged |
| Driver.Veml6075.ReadUvcomp1 | src/device_impl.rs:133-135 | one write-read of register `0x0A`; driver unchanged |
| Driver.Veml6075.ReadUvcomp2 | src/device_impl.rs:138-140 | one write-read of register `0x0B`; driver unchanged |
| Driver.Veml6075.ReadDeviceId | src/device_impl.rs:143-145 | one write-read of register `0x0C`; driver unchanged |
| Driver.Veml6075.ReadAll | src/device_impl.rs:113-120 | the write-reads issued are UVA, UVB, UVCOMP1, UVCOMP2 in that order, cut off after the first failing one; the result is `ReadAllResult` of the bus's replies; the driver is unchanged |
| Protocol.Decode | src/lib.rs:192 | the decoded value's upper byte is `data[1]` and its lower byte is `data[0]`, i.e. it equals `data[1] * 256 + data[0]` |
| Protocol.DecodeEncode | src/lib.rs:192 | every 16-bit value is the decoding of its own two little-endian bytes (decoding is onto) |
| Protocol.EncodeDecode | src/lib.rs:192 | the two bytes are recovered from their decoding (decoding is one-to-one) |
| Protocol.RegisterResult | src/lib.rs:187-193 | a read fails iff the bus reply is a failure, and then carries that bus error; with two response bytes the value is `response[1] * 256 + response[0]`; with no response bytes the zeroed buffer decodes to 0 |
| Protocol.WriteResult | src/lib.rs:139-145 | a configuration write succeeds iff the bus acknowledged; otherwise its error is the bus error wrapped in `I2C` |
| Protocol.ReadAllSucceeds | src/lib.rs:153-160 | `read_all` returns a measurement iff all four reads succeed; it has then issued four reads, and each field is the decoding of its own channel's reply |
| Protocol.ReadAllStopsAtFirstFailure | src/lib.rs:153-160 | when read i is the first to fail, `read_all` returns exactly that error, no measurement, and has issued i + 1 reads |
| ConfigRegister.Code | src/device_impl.rs:80-86 | the integration time code is at most 4 |
| ConfigRegister.CodeRoundTrip | src/device_impl.rs:80-86 | each integration time has its own code (code then decode gives it back); exactly the codes 0..4 decode to a time, and they decode to the time that encodes to them |
| ConfigRegister.Enabled | src/device_impl.rs:45 | the result is not shut down and agrees with the shadow on every bit but bit 0 |
| ConfigRegister.Disabled | src/device_impl.rs:51 | the result is shut down and agrees with the shadow on every bit but bit 0 |
| ConfigRegister.WithMode | src/device_impl.rs:61-64 | the result's mode (bit 1) is the requested one and every other bit is the shadow's |
| ConfigRegister.WithIntegrationTime | src/device_impl.rs:79-86 | bits 4-6 of the result hold the time's code and read back as that time; bits 0-3 and 7 are the shadow's |
| ConfigRegister.WithDynamicSetting | src/device_impl.rs:92-95 | the result's dynamic setting (bit 3) is the requested one and every other bit is the shadow's |
| ConfigRegister.Triggered | src/device_impl.rs:71 | the trigger bit (bit 2) is set and every other bit is the shadow's |
| ConfigRegister.PowerOnState | src/device_impl.rs:33 | the initial shadow is well formed, shut down, continuous, 50 ms and normal dynamic setting |
| ConfigRegister.SettersKeepWellFormed | src/device_impl.rs:43-97 | every setter maps a well-formed shadow (bit 7 and bit 2 clear, integration code at most 4) to a well-formed one |
| ConfigRegister.TriggerSelfClears | src/device_impl.rs:69-75 | for a well-formed shadow the trigger byte differs from it, and clearing the trigger bit gives the shadow back |
| ConfigRegister.SetCurrentValueIsNoOp | src/device_impl.rs:43-97 | setting any field to the value it already holds leaves the byte unchanged |
| ConfigRegister.PowerLastWriteWins | src/device_impl.rs:43-52 | `enable` and `disable` are idempotent, and of the two the last one decides the byte |
| ConfigRegister.ModeLastWriteWins | src/device_impl.rs:55-66 | of two `set_mode` calls the second alone decides the byte, so `set_mode` is idempotent |
| ConfigRegister.IntegrationTimeLastWriteWins | src/device_impl.rs:78-88 | of two `set_integration_time` calls the second alone decides the byte |
| ConfigRegister.DynamicSettingLastWriteWins | src/device_impl.rs:91-97 | of two `set_dynamic_setting` calls the second alone decides the byte |
| ConfigRegister.ModeCommutesWithDynamicSetting | src/device_impl.rs:55-97 | `set_mode` and `set_dynamic_setting` in either order give the same byte |
| ConfigRegister.ModeCommutesWithIntegrationTime | src/device_impl.rs:55-88 | `set_mode` and `set_integration_time` in either order give the same byte |
| ConfigRegister.DynamicSettingCommutesWithIntegrationTime | src/device_impl.rs:78-97 | `set_dynamic_setting` and `set_integration_time` in either order give the same byte |
| ConfigRegister.EnableCommutesWithSettings | src/device_impl.rs:43-97 | `enable` commutes with each of the three other setters |
| ConfigRegister.DisableCommutesWithSettings | src/device_impl.rs:49-97 | `disable` commutes with each of the three other setters |
| Traces.ShadowWellFormed | src/device_impl.rs:30-105 | after any history of commands from a new driver, successful or not, bit 7 and the trigger bit of the shadow are 0 and its integration code is at most 4 |
| Traces.ShadowIsLastGoodWrite | src/device_impl.rs:99-105 | after any history, the shadow is `0x01` if no configuration write has succeeded, and otherwise the last byte successfully written, with the trigger bit cleared |
| Driver.ShadowIsLastAcknowledgedWrite | src/device_impl.rs:99-105 | for a driver in a valid state, the shadow is `0x01` if the sensor has acknowledged no configuration write since `new`, and otherwise the last byte it acknowledged in such a write, with the trigger bit cleared |
| Protocol.AcknowledgedConfigBytesAppend | src/device_impl.rs:99-105 | a further transaction adds its byte to the acknowledged configuration bytes iff it is a configuration write the bus acknowledged; a read or a failed write adds nothing |
| Scenarios.CanEnable | tests/tests.rs:25-34 | `enable` on a new driver sends exactly `[0x00, 0x00, 0x00]` to `0x10` and succeeds |
| Scenarios.CanDisable | tests/tests.rs:36-45 | `disable` on a new driver sends exactly `[0x00, 0x01, 0x00]` to `0x10` and succeeds |
| Scenarios.EnableThenDisable | src/lib.rs:127-137 | `enable` then `disable` on a new driver write `0x00` then `0x01`, in that order, and leave the shadow at `0x01` |
| Scenarios.FailedWriteIsNotCommitted | src/device_impl.rs:99-105 | a failed `enable` returns the bus error and leaves the shadow at `0x01`, so a following `set_dynamic_setting(High)` writes and stores `0x09` |
| Scenarios.TriggerIsNotCommitted | src/device_impl.rs:69-75 | after `enable`, a trigger writes `0x04`, and a following `set_mode(ActiveForce)` starts from the pre-trigger shadow and writes `0x02` |
| Scenarios.LongestIntegrationTime | src/device_impl.rs:78-88 | `set_integration_time(Ms800)` on a new driver writes `0x41` |
| Scenarios.CanRead | tests/tests.rs:47-68 | each of the five reads sends its own register address and decodes the response `[0xCD, 0xAB]` as `0xABCD` |
| Scenarios.CanReadAll | src/device_impl.rs:113-120 | with responses `[0x34,0x12]`, `[0x78,0x56]`, `[0xBC,0x9A]`, `[0xF0,0xDE]`, `read_all` reads the four channels in order and returns `{0x1234, 0x5678, 0x9ABC, 0xDEF0}` |
| Scenarios.ReadAllStopsAtFailure | src/device_impl.rs:113-120 | when the UVB read fails, `read_all` returns that error and issues no UVCOMP1 or UVCOMP2 read |

## Left out

- The real I2C transport and the `embedded-hal` `Write` / `WriteRead` implementations. They are foreign code. The bus is an object whose replies come from an oracle fixed at its creation, and the model does not capture timing, blocking or concurrency on the bus.
- The generic error type `E`: the abstract type `BusError` stands for it, and the driver only carries it inside `Error::I2C`.
- `destroy`: it only hands the bus back and has no behaviour to verify.
- The calibrated measurement (`Calibration`, `read()`, the UV index). It is floating point and does not appear in the two driver files.
- `examples/linux.rs`: device-file I/O and printing. It also names a type `VEML6075` that the crate does not define.
- Driver.Veml6075 methods: they require the invariant `Valid()`, which the constructor establishes and every method keeps. The source states no such precondition. `write_config` is private there (src/device_impl.rs:99), and the model's `WriteConfig` keeps the invariant by taking, as a ghost argument, the setter whose byte it writes.
- `#[derive(Default)]` on the driver (src/lib.rs:102): it builds a driver with shadow `0x00` and a default bus, without any bus transaction. The model has no such constructor; such a driver would not start from the history's power-on shadow `0x01`.
- Driver.Veml6075 history: it records the configuration commands only. Reads are left out of it because they never change the shadow.
