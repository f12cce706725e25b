/** The sensor's 8-bit configuration register and the driver's pure
    arithmetic on it. Layout, as the driver's constants fix it:
    bit 0 shutdown, bit 1 active-force (one-shot) mode, bit 2 trigger
    (cleared by the device itself), bit 3 high dynamic setting,
    bits 4-6 integration time code, bit 7 reserved. Every setter sets its
    own field and keeps every other bit. */
module ConfigRegister {
  import opened Results

  const SHUTDOWN: bv8 := 0x01  // 0b0000_0001
  const UV_AF: bv8 := 0x02     // 0b0000_0010
  const UV_TRIG: bv8 := 0x04   // 0b0000_0100
  const HD: bv8 := 0x08        // 0b0000_1000
  /** The bits `set_integration_time` keeps: all but the field at bits 4-6. */
  const IT_KEEP: bv8 := 0x8F   // 0b1000_1111
  const RESERVED: bv8 := 0x80  // 0b1000_0000

  /** The shadow a new driver starts from: shut down, every other bit 0. */
  const POWER_ON: bv8 := 0x01

  datatype Mode = Continuous | ActiveForce
  datatype IntegrationTime = Ms50 | Ms100 | Ms200 | Ms400 | Ms800
  datatype DynamicSetting = Normal | High

  /** a and b agree on every bit outside `field`. */
  predicate SameExcept(a: bv8, b: bv8, field: bv8)
  {
    a & !field == b & !field
  }

  // Reading the fields back.

  predicate IsShutDown(c: bv8)
  {
    c & SHUTDOWN != 0
  }

  function ModeOf(c: bv8): Mode
  {
    if c & UV_AF == 0 then Continuous else ActiveForce
  }

  function DynamicSettingOf(c: bv8): DynamicSetting
  {
    if c & HD == 0 then Normal else High
  }

  /** The 3-bit code at bits 4-6. */
  function IntegrationTimeCode(c: bv8): bv8
  {
    (c >> 4) & 0x07
  }

  /** The code the driver writes for each integration time. */
  function Code(it: IntegrationTime): (k: bv8)
    ensures k <= 4
  {
    match it
    case Ms50 => 0
    case Ms100 => 1
    case Ms200 => 2
    case Ms400 => 3
    case Ms800 => 4
  }

  /** The integration time a code stands for; codes 5 to 7 stand for none. */
  function FromCode(k: bv8): Option<IntegrationTime>
  {
    if k == 0 then Some(Ms50)
    else if k == 1 then Some(Ms100)
    else if k == 2 then Some(Ms200)
    else if k == 3 then Some(Ms400)
    else if k == 4 then Some(Ms800)
    else None
  }

  function IntegrationTimeOf(c: bv8): Option<IntegrationTime>
  {
    FromCode(IntegrationTimeCode(c))
  }

  /** Code and FromCode are inverse: every integration time has its own
      code, and exactly the codes 0 to 4 are in use. */
  lemma CodeRoundTrip(it: IntegrationTime, k: bv8)
    ensures FromCode(Code(it)) == Some(it)
    ensures FromCode(k).Some? <==> k <= 4
    ensures FromCode(k).Some? ==> Code(FromCode(k).value) == k
  {
  }

  // The setters' arithmetic.

  /** `enable`: clear the shutdown bit. */
  function Enabled(c: bv8): (r: bv8)
    ensures !IsShutDown(r) && SameExcept(c, r, SHUTDOWN)
  {
    c & !SHUTDOWN
  }

  /** `disable`: set the shutdown bit. */
  function Disabled(c: bv8): (r: bv8)
    ensures IsShutDown(r) && SameExcept(c, r, SHUTDOWN)
  {
    c | SHUTDOWN
  }

  /** `set_mode`: clear or set the active-force bit. */
  function WithMode(c: bv8, mode: Mode): (r: bv8)
    ensures ModeOf(r) == mode && SameExcept(c, r, UV_AF)
  {
    match mode
    case Continuous => c & !UV_AF
    case ActiveForce => c | UV_AF
  }

  /** `set_integration_time`: clear bits 4-6, then put the time's code there. */
  function WithIntegrationTime(c: bv8, it: IntegrationTime): (r: bv8)
    ensures IntegrationTimeCode(r) == Code(it) && IntegrationTimeOf(r) == Some(it)
    ensures SameExcept(c, r, !IT_KEEP)
  {
    var kept := c & IT_KEEP;
    match it
    case Ms50 => kept
    case Ms100 => kept | (1 << 4)
    case Ms200 => kept | (2 << 4)
    case Ms400 => kept | (3 << 4)
    case Ms800 => kept | (4 << 4)
  }

  /** `set_dynamic_setting`: clear or set the high dynamic bit. */
  function WithDynamicSetting(c: bv8, ds: DynamicSetting): (r: bv8)
    ensures DynamicSettingOf(r) == ds && SameExcept(c, r, HD)
  {
    match ds
    case Normal => c & !HD
    case High => c | HD
  }

  /** `trigger_measurement`: the shadow with the trigger bit set. */
  function Triggered(c: bv8): (r: bv8)
    ensures r & UV_TRIG == UV_TRIG && SameExcept(c, r, UV_TRIG)
  {
    c | UV_TRIG
  }

  /** What every shadow reachable from POWER_ON satisfies: the reserved bit
      and the trigger bit are 0, and bits 4-6 hold the code of an
      integration time. */
  predicate WellFormed(c: bv8)
  {
    c & RESERVED == 0 && c & UV_TRIG == 0 && IntegrationTimeOf(c).Some?
  }

  /** A new driver is shut down, in continuous mode, at 50 ms and normal
      dynamic setting. */
  lemma PowerOnState()
    ensures WellFormed(POWER_ON)
    ensures IsShutDown(POWER_ON) && ModeOf(POWER_ON) == Continuous
    ensures IntegrationTimeOf(POWER_ON) == Some(Ms50) && DynamicSettingOf(POWER_ON) == Normal
  {
  }

  /** Every value a setter stores is well formed if the shadow was. */
  lemma SettersKeepWellFormed(c: bv8, mode: Mode, it: IntegrationTime, ds: DynamicSetting)
    requires WellFormed(c)
    ensures WellFormed(Enabled(c)) && WellFormed(Disabled(c))
    ensures WellFormed(WithMode(c, mode))
    ensures WellFormed(WithIntegrationTime(c, it))
    ensures WellFormed(WithDynamicSetting(c, ds))
  {
  }

  /** Triggering never leaves a trace: once the device clears the trigger
      bit again, the register holds the shadow it started from. */
  lemma TriggerSelfClears(c: bv8)
    requires WellFormed(c)
    ensures Triggered(c) != c && Triggered(c) & !UV_TRIG == c
  {
  }

  /** Setting a field to the value it already has changes nothing. */
  lemma SetCurrentValueIsNoOp(c: bv8)
    ensures IsShutDown(c) ==> Disabled(c) == c
    ensures !IsShutDown(c) ==> Enabled(c) == c
    ensures WithMode(c, ModeOf(c)) == c
    ensures WithDynamicSetting(c, DynamicSettingOf(c)) == c
    ensures IntegrationTimeOf(c).Some? ==> WithIntegrationTime(c, IntegrationTimeOf(c).value) == c
  {
  }

  /** `enable` and `disable` are idempotent, and of the two the last one
      issued decides the shutdown bit. */
  lemma PowerLastWriteWins(c: bv8)
    ensures Enabled(Enabled(c)) == Enabled(c) && Disabled(Disabled(c)) == Disabled(c)
    ensures Enabled(Disabled(c)) == Enabled(c) && Disabled(Enabled(c)) == Disabled(c)
  {
  }

  /** Of two `set_mode` calls the last decides the mode; so `set_mode` is
      idempotent. */
  lemma ModeLastWriteWins(c: bv8, first: Mode, second: Mode)
    ensures WithMode(WithMode(c, first), second) == WithMode(c, second)
  {
  }

  /** Of two `set_integration_time` calls the last decides the time; so
      `set_integration_time` is idempotent. */
  lemma IntegrationTimeLastWriteWins(c: bv8, first: IntegrationTime, second: IntegrationTime)
    ensures WithIntegrationTime(WithIntegrationTime(c, first), second) == WithIntegrationTime(c, second)
  {
  }

  /** Of two `set_dynamic_setting` calls the last decides the setting; so
      `set_dynamic_setting` is idempotent. */
  lemma DynamicSettingLastWriteWins(c: bv8, first: DynamicSetting, second: DynamicSetting)
    ensures WithDynamicSetting(WithDynamicSetting(c, first), second) == WithDynamicSetting(c, second)
  {
  }

  /** `set_mode` and `set_dynamic_setting` commute. */
  lemma ModeCommutesWithDynamicSetting(c: bv8, mode: Mode, ds: DynamicSetting)
    ensures WithMode(WithDynamicSetting(c, ds), mode) == WithDynamicSetting(WithMode(c, mode), ds)
  {
  }

  /** `set_mode` and `set_integration_time` commute. */
  lemma ModeCommutesWithIntegrationTime(c: bv8, mode: Mode, it: IntegrationTime)
    ensures WithMode(WithIntegrationTime(c, it), mode) == WithIntegrationTime(WithMode(c, mode), it)
  {
  }

  /** `set_dynamic_setting` and `set_integration_time` commute. */
  lemma DynamicSettingCommutesWithIntegrationTime(c: bv8, ds: DynamicSetting, it: IntegrationTime)
    ensures WithDynamicSetting(WithIntegrationTime(c, it), ds) == WithIntegrationTime(WithDynamicSetting(c, ds), it)
  {
  }

  /** `enable` commutes with every other setter. */
  lemma EnableCommutesWithSettings(c: bv8, mode: Mode, it: IntegrationTime, ds: DynamicSetting)
    ensures Enabled(WithMode(c, mode)) == WithMode(Enabled(c), mode)
    ensures Enabled(WithIntegrationTime(c, it)) == WithIntegrationTime(Enabled(c), it)
    ensures Enabled(WithDynamicSetting(c, ds)) == WithDynamicSetting(Enabled(c), ds)
  {
  }

  /** `disable` commutes with every other setter. */
  lemma DisableCommutesWithSettings(c: bv8, mode: Mode, it: IntegrationTime, ds: DynamicSetting)
    ensures Disabled(WithMode(c, mode)) == WithMode(Disabled(c), mode)
    ensures Disabled(WithIntegrationTime(c, it)) == WithIntegrationTime(Disabled(c), it)
    ensures Disabled(WithDynamicSetting(c, ds)) == WithDynamicSetting(Disabled(c), ds)
  {
  }
}
