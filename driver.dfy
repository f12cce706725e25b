/** The VEML6075 driver: a handle on the bus plus a shadow copy of the
    write-only configuration register. Every setter computes the new byte
    from the shadow and goes through `WriteConfig`, which sends it and
    commits it to the shadow only if the bus write succeeds; the trigger
    sends the shadow with the trigger bit set and commits nothing; the reads
    fetch 16-bit data registers and never touch the shadow. */
module Driver {
  import opened I2c
  import opened Results
  import opened Protocol
  import opened ConfigRegister
  import opened Traces

  class Veml6075 {
    const i2c: Bus
    /** Shadow of the configuration register. */
    var config: bv8
    /** The configuration commands issued so far and whether their writes
        succeeded. */
    ghost var history: seq<Step>
    /** Number of bus transactions made before the driver was created. */
    ghost const start: nat

    /** The shadow is what the history of commands makes it, and so is
        well formed; and the bytes the history says were written are the
        ones the sensor acknowledged on the bus since the driver was made. */
    ghost predicate Valid()
      reads this, i2c
    {
      && config == Shadow(history)
      && WellFormed(config)
      && start <= |i2c.log|
      && AcknowledgedConfigBytes(i2c.log, i2c.oracle, start) == ConfigWrites(history)
    }

    /** `new`: shut down, without any bus transaction. */
    constructor (i2c: Bus)
      ensures this.i2c == i2c && config == POWER_ON && history == []
      ensures i2c.log == old(i2c.log)
      ensures Valid()
    {
      this.i2c := i2c;
      config := 0x01;
      history := [];
      start := |i2c.log|;
      PowerOnState();
    }

    /** `write_config`: one write of [CONFIG, value, 0]; the shadow takes
        `value` only if it succeeds. `value` is what the setter `cmd` makes
        of the shadow, and the command joins the history. */
    method WriteConfig(value: bv8, ghost cmd: Command) returns (r: Result<()>)
      requires Valid()
      requires !cmd.TriggerMeasurement? && value == SentByte(config, cmd)
      modifies this, i2c
      ensures Valid()
      ensures i2c.log == old(i2c.log) + [ConfigFrame(value)]
      ensures r == WriteResult(i2c.oracle(|old(i2c.log)|))
      ensures config == if r.Ok? then value else old(config)
      ensures history == old(history) + [Step(cmd, r.Ok?)]
    {
      AcknowledgedConfigBytesAppend(i2c.log, ConfigFrame(value), i2c.oracle, start);
      ExtendHistory(history, Step(cmd, i2c.oracle(|i2c.log|).Ack?));
      var w := i2c.Write(DEVICE_ADDRESS, [CONFIG, value, 0]);
      if w.Failed? {
        r := Err(I2C(w.error));
      } else {
        config := value;
        r := Ok(());
      }
      history := history + [Step(cmd, r.Ok?)];
      ShadowWellFormed(history);
    }

    method Enable() returns (r: Result<()>)
      requires Valid()
      modifies this, i2c
      ensures Valid()
      ensures i2c.log == old(i2c.log) + [ConfigFrame(Enabled(old(config)))]
      ensures r == WriteResult(i2c.oracle(|old(i2c.log)|))
      ensures config == if r.Ok? then Enabled(old(config)) else old(config)
      ensures history == old(history) + [Step(Command.Enable, r.Ok?)]
    {
      r := WriteConfig(Enabled(config), Command.Enable);
    }

    method Disable() returns (r: Result<()>)
      requires Valid()
      modifies this, i2c
      ensures Valid()
      ensures i2c.log == old(i2c.log) + [ConfigFrame(Disabled(old(config)))]
      ensures r == WriteResult(i2c.oracle(|old(i2c.log)|))
      ensures config == if r.Ok? then Disabled(old(config)) else old(config)
      ensures history == old(history) + [Step(Command.Disable, r.Ok?)]
    {
      r := WriteConfig(Disabled(config), Command.Disable);
    }

    method SetMode(mode: Mode) returns (r: Result<()>)
      requires Valid()
      modifies this, i2c
      ensures Valid()
      ensures i2c.log == old(i2c.log) + [ConfigFrame(WithMode(old(config), mode))]
      ensures r == WriteResult(i2c.oracle(|old(i2c.log)|))
      ensures config == if r.Ok? then WithMode(old(config), mode) else old(config)
      ensures history == old(history) + [Step(Command.SetMode(mode), r.Ok?)]
    {
      r := WriteConfig(WithMode(config, mode), Command.SetMode(mode));
    }

    /** `trigger_measurement`: one write of the shadow with the trigger bit
        set; the shadow stays as it was whether or not the write succeeds. */
    method TriggerMeasurement() returns (r: Result<()>)
      requires Valid()
      modifies this`history, i2c
      ensures Valid()
      ensures i2c.log == old(i2c.log) + [ConfigFrame(Triggered(old(config)))]
      ensures r == WriteResult(i2c.oracle(|old(i2c.log)|))
      ensures config == old(config)
      ensures history == old(history) + [Step(Command.TriggerMeasurement, r.Ok?)]
    {
      AcknowledgedConfigBytesAppend(i2c.log, ConfigFrame(Triggered(config)), i2c.oracle, start);
      ExtendHistory(history, Step(Command.TriggerMeasurement, i2c.oracle(|i2c.log|).Ack?));
      var w := i2c.Write(DEVICE_ADDRESS, [CONFIG, Triggered(config), 0]);
      r := if w.Failed? then Err(I2C(w.error)) else Ok(());
      history := history + [Step(Command.TriggerMeasurement, r.Ok?)];
    }

    method SetIntegrationTime(it: IntegrationTime) returns (r: Result<()>)
      requires Valid()
      modifies this, i2c
      ensures Valid()
      ensures i2c.log == old(i2c.log) + [ConfigFrame(WithIntegrationTime(old(config), it))]
      ensures r == WriteResult(i2c.oracle(|old(i2c.log)|))
      ensures config == if r.Ok? then WithIntegrationTime(old(config), it) else old(config)
      ensures history == old(history) + [Step(Command.SetIntegrationTime(it), r.Ok?)]
    {
      r := WriteConfig(WithIntegrationTime(config, it), Command.SetIntegrationTime(it));
    }

    method SetDynamicSetting(ds: DynamicSetting) returns (r: Result<()>)
      requires Valid()
      modifies this, i2c
      ensures Valid()
      ensures i2c.log == old(i2c.log) + [ConfigFrame(WithDynamicSetting(old(config), ds))]
      ensures r == WriteResult(i2c.oracle(|old(i2c.log)|))
      ensures config == if r.Ok? then WithDynamicSetting(old(config), ds) else old(config)
      ensures history == old(history) + [Step(Command.SetDynamicSetting(ds), r.Ok?)]
    {
      r := WriteConfig(WithDynamicSetting(config, ds), Command.SetDynamicSetting(ds));
    }

    /** `read_register`: one write-read of [register] into a zeroed two-byte
        buffer, decoded low byte first. */
    method ReadRegister(register: bv8) returns (r: Result<bv16>)
      requires Valid()
      modifies i2c
      ensures Valid()
      ensures i2c.log == old(i2c.log) + [ReadFrame(register)]
      ensures r == RegisterResult(i2c.oracle(|old(i2c.log)|))
    {
      AcknowledgedConfigBytesAppend(i2c.log, ReadFrame(register), i2c.oracle, start);
      var data := new bv8[2](_ => 0);
      assert data[..] == [0, 0];
      var w := i2c.WriteRead(DEVICE_ADDRESS, [register], data);
      if w.Failed? {
        return Err(I2C(w.error));
      }
      return Ok(Decode(data[0], data[1]));
    }

    method ReadUva() returns (r: Result<bv16>)
      requires Valid()
      modifies i2c
      ensures Valid() && unchanged(this)
      ensures i2c.log == old(i2c.log) + [ReadFrame(UVA)]
      ensures r == RegisterResult(i2c.oracle(|old(i2c.log)|))
    {
      r := ReadRegister(UVA);
    }

    method ReadUvb() returns (r: Result<bv16>)
      requires Valid()
      modifies i2c
      ensures Valid() && unchanged(this)
      ensures i2c.log == old(i2c.log) + [ReadFrame(UVB)]
      ensures r == RegisterResult(i2c.oracle(|old(i2c.log)|))
    {
      r := ReadRegister(UVB);
    }

    method ReadUvcomp1() returns (r: Result<bv16>)
      requires Valid()
      modifies i2c
      ensures Valid() && unchanged(this)
      ensures i2c.log == old(i2c.log) + [ReadFrame(UVCOMP1)]
      ensures r == RegisterResult(i2c.oracle(|old(i2c.log)|))
    {
      r := ReadRegister(UVCOMP1);
    }

    method ReadUvcomp2() returns (r: Result<bv16>)
      requires Valid()
      modifies i2c
      ensures Valid() && unchanged(this)
      ensures i2c.log == old(i2c.log) + [ReadFrame(UVCOMP2)]
      ensures r == RegisterResult(i2c.oracle(|old(i2c.log)|))
    {
      r := ReadRegister(UVCOMP2);
    }

    method ReadDeviceId() returns (r: Result<bv16>)
      requires Valid()
      modifies i2c
      ensures Valid() && unchanged(this)
      ensures i2c.log == old(i2c.log) + [ReadFrame(DEVICE_ID)]
      ensures r == RegisterResult(i2c.oracle(|old(i2c.log)|))
    {
      r := ReadRegister(DEVICE_ID);
    }

    /** `read_all`: the four channel reads in order, the first failure
        ending it with that failure's error and nothing read after it. */
    method ReadAll() returns (r: Result<Measurement>)
      requires Valid()
      modifies i2c
      ensures Valid() && unchanged(this)
      ensures var replies := Replies(i2c.oracle, |old(i2c.log)|, 4);
              && r == ReadAllResult(replies)
              && i2c.log == old(i2c.log) + CHANNEL_FRAMES[..ReadAllIssued(replies)]
    {
      ghost var log0, replies := i2c.log, Replies(i2c.oracle, |i2c.log|, 4);
      var uva :- ReadUva();
      assert i2c.log == log0 + CHANNEL_FRAMES[..1] && replies[0].Ack?;
      var uvb :- ReadUvb();
      assert i2c.log == log0 + CHANNEL_FRAMES[..2] && replies[1].Ack?;
      var uvcomp1 :- ReadUvcomp1();
      assert i2c.log == log0 + CHANNEL_FRAMES[..3] && replies[2].Ack?;
      var uvcomp2 :- ReadUvcomp2();
      return Ok(Measurement(uva, uvb, uvcomp1, uvcomp2));
    }
  }

  /** For a driver in a valid state, the shadow is 0x01 until the sensor
      acknowledges a configuration write made through the driver, and after
      that the last byte it acknowledged, with the trigger bit cleared. */
  lemma ShadowIsLastAcknowledgedWrite(d: Veml6075)
    requires d.Valid()
    ensures var acked := AcknowledgedConfigBytes(d.i2c.log, d.i2c.oracle, d.start);
            && (acked == [] ==> d.config == POWER_ON)
            && (acked != [] ==> d.config == acked[|acked| - 1] & !UV_TRIG)
  {
    ShadowIsLastGoodWrite(d.history);
  }
}
