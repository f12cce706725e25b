/** Complete sessions of a new driver on a scripted bus: the frames the
    driver sends and what it returns. */
module Scenarios {
  import opened I2c
  import opened Results
  import opened Protocol
  import opened ConfigRegister
  import opened Driver

  /** `enable` on a new driver writes [CONFIG, 0, 0]. */
  method CanEnable() returns (r: Result<()>, log: seq<Transaction>)
    ensures r == Ok(()) && log == [Transaction.Write(0x10, [0x00, 0x00, 0x00])]
  {
    var bus := new Bus(_ => Ack([]));
    var dev := new Veml6075(bus);
    r := dev.Enable();
    log := bus.log;
  }

  /** `disable` on a new driver writes [CONFIG, 1, 0]. */
  method CanDisable() returns (r: Result<()>, log: seq<Transaction>)
    ensures r == Ok(()) && log == [Transaction.Write(0x10, [0x00, 0x01, 0x00])]
  {
    var bus := new Bus(_ => Ack([]));
    var dev := new Veml6075(bus);
    r := dev.Disable();
    log := bus.log;
  }

  /** `enable` then `disable` on a new driver write 0x00 and then 0x01. */
  method EnableThenDisable() returns (log: seq<Transaction>, config: bv8)
    ensures log == [ConfigFrame(0x00), ConfigFrame(0x01)] && config == 0x01
  {
    var bus := new Bus(_ => Ack([]));
    var dev := new Veml6075(bus);
    var _ := dev.Enable();
    var _ := dev.Disable();
    log, config := bus.log, dev.config;
  }

  /** A failed `enable` leaves the driver shut down: the next setter starts
      from 0x01 again. */
  method FailedWriteIsNotCommitted(e: BusError) returns (r: Result<()>, log: seq<Transaction>, config: bv8)
    ensures r == Err(I2C(e))
    ensures log == [ConfigFrame(0x00), ConfigFrame(0x09)] && config == 0x09
  {
    var bus := new Bus(k => if k == 0 then Nack(e) else Ack([]));
    var dev := new Veml6075(bus);
    r := dev.Enable();
    var _ := dev.SetDynamicSetting(High);
    log, config := bus.log, dev.config;
  }

  /** A trigger writes the shadow with bit 2 set but does not keep it: the
      following `set_mode` starts from the shadow before the trigger. */
  method TriggerIsNotCommitted() returns (log: seq<Transaction>, config: bv8)
    ensures log == [ConfigFrame(0x00), ConfigFrame(0x04), ConfigFrame(0x02)] && config == 0x02
  {
    var bus := new Bus(_ => Ack([]));
    var dev := new Veml6075(bus);
    var _ := dev.Enable();
    var _ := dev.TriggerMeasurement();
    var _ := dev.SetMode(ActiveForce);
    log, config := bus.log, dev.config;
  }

  /** `set_integration_time(Ms800)` on a new driver writes 0x41. */
  method LongestIntegrationTime() returns (log: seq<Transaction>)
    ensures log == [ConfigFrame(0x41)]
  {
    var bus := new Bus(_ => Ack([]));
    var dev := new Veml6075(bus);
    var _ := dev.SetIntegrationTime(Ms800);
    log := bus.log;
  }

  /** Which of the five read operations to call. */
  datatype DataRegister = Uva | Uvb | Uvcomp1 | Uvcomp2 | DeviceId

  function Address(reg: DataRegister): bv8
  {
    match reg
    case Uva => UVA
    case Uvb => UVB
    case Uvcomp1 => UVCOMP1
    case Uvcomp2 => UVCOMP2
    case DeviceId => DEVICE_ID
  }

  /** Each read sends its own register address and decodes the response
      bytes [0xCD, 0xAB] as 0xABCD. */
  method CanRead(reg: DataRegister) returns (reading: Result<bv16>, log: seq<Transaction>)
    ensures reading == Ok(0xABCD)
    ensures log == [Transaction.WriteRead(0x10, [Address(reg)])]
  {
    var bus := new Bus(_ => Ack([0xCD, 0xAB]));
    var dev := new Veml6075(bus);
    match reg {
      case Uva => reading := dev.ReadUva();
      case Uvb => reading := dev.ReadUvb();
      case Uvcomp1 => reading := dev.ReadUvcomp1();
      case Uvcomp2 => reading := dev.ReadUvcomp2();
      case DeviceId => reading := dev.ReadDeviceId();
    }
    log := bus.log;
  }

  /** `read_all` reads UVA, UVB, UVCOMP1, UVCOMP2 in this order and puts each
      decoded value in its own field. */
  method CanReadAll() returns (m: Result<Measurement>, log: seq<Transaction>)
    ensures m == Ok(Measurement(0x1234, 0x5678, 0x9ABC, 0xDEF0))
    ensures log == [ReadFrame(0x07), ReadFrame(0x09), ReadFrame(0x0A), ReadFrame(0x0B)]
  {
    var bus := new Bus(k => if k == 0 then Ack([0x34, 0x12])
                            else if k == 1 then Ack([0x78, 0x56])
                            else if k == 2 then Ack([0xBC, 0x9A])
                            else Ack([0xF0, 0xDE]));
    var dev := new Veml6075(bus);
    m := dev.ReadAll();
    log := bus.log;
  }

  /** When the UVB read fails, `read_all` returns its error and reads no
      further channel. */
  method ReadAllStopsAtFailure(e: BusError) returns (m: Result<Measurement>, log: seq<Transaction>)
    ensures m == Err(I2C(e))
    ensures log == [ReadFrame(0x07), ReadFrame(0x09)]
  {
    var bus := new Bus(k => if k == 1 then Nack(e) else Ack([0x00, 0x01]));
    var dev := new Veml6075(bus);
    m := dev.ReadAll();
    log := bus.log;
  }
}
