/** The configuration state machine as a function of the commands issued:
    what each command sends, what the shadow becomes, and what holds of the
    shadow after any history of commands starting from a new driver. */
module Traces {
  import opened ConfigRegister

  /** The driver operations that write the configuration register. */
  datatype Command =
    | Enable
    | Disable
    | SetMode(mode: Mode)
    | SetIntegrationTime(it: IntegrationTime)
    | SetDynamicSetting(ds: DynamicSetting)
    | TriggerMeasurement

  /** The byte a command writes to the configuration register when the
      shadow is `c`. */
  function SentByte(c: bv8, cmd: Command): bv8
  {
    match cmd
    case Enable => Enabled(c)
    case Disable => Disabled(c)
    case SetMode(mode) => WithMode(c, mode)
    case SetIntegrationTime(it) => WithIntegrationTime(c, it)
    case SetDynamicSetting(ds) => WithDynamicSetting(c, ds)
    case TriggerMeasurement => Triggered(c)
  }

  /** The shadow after `cmd`, whose bus write succeeded exactly when `ok`:
      only a setter's successful write is committed. */
  function Next(c: bv8, cmd: Command, ok: bool): bv8
  {
    if ok && !cmd.TriggerMeasurement? then SentByte(c, cmd) else c
  }

  /** One command of a driver's history and whether its bus write succeeded. */
  datatype Step = Step(cmd: Command, ok: bool)

  /** The shadow of a new driver after `steps`. */
  function Shadow(steps: seq<Step>): bv8
  {
    if steps == [] then POWER_ON
    else
      var last := steps[|steps| - 1];
      Next(Shadow(steps[..|steps| - 1]), last.cmd, last.ok)
  }

  /** The bytes successfully written to the configuration register during
      `steps`, in order. */
  function ConfigWrites(steps: seq<Step>): seq<bv8>
  {
    if steps == [] then []
    else
      var prefix, last := steps[..|steps| - 1], steps[|steps| - 1];
      ConfigWrites(prefix) + if last.ok then [SentByte(Shadow(prefix), last.cmd)] else []
  }

  /** One more step: the shadow moves by `Next`, and the step's byte is
      appended to the writes if, and only if, the step's write succeeded. */
  lemma ExtendHistory(steps: seq<Step>, step: Step)
    ensures Shadow(steps + [step]) == Next(Shadow(steps), step.cmd, step.ok)
    ensures ConfigWrites(steps + [step])
            == ConfigWrites(steps) + if step.ok then [SentByte(Shadow(steps), step.cmd)] else []
  {
    assert (steps + [step])[..|steps|] == steps;
  }

  /** The reachable-state invariant: whatever the history, the reserved and
      trigger bits of the shadow are 0 and its integration time code is one
      of the five in use. */
  lemma {:induction false} ShadowWellFormed(steps: seq<Step>)
    ensures WellFormed(Shadow(steps))
  {
    if steps == [] {
      PowerOnState();
    } else {
      var prefix, last := steps[..|steps| - 1], steps[|steps| - 1];
      ShadowWellFormed(prefix);
      var c := Shadow(prefix);
      match last.cmd
      case SetMode(mode) => SettersKeepWellFormed(c, mode, Ms50, Normal);
      case SetIntegrationTime(it) => SettersKeepWellFormed(c, Continuous, it, Normal);
      case SetDynamicSetting(ds) => SettersKeepWellFormed(c, Continuous, Ms50, ds);
      case _ => SettersKeepWellFormed(c, Continuous, Ms50, Normal);
    }
  }

  /** The shadow is 0x01 until a write succeeds, and after that the last
      byte written, with the trigger bit cleared. (Only from the first
      successful write on does it match the chip: `new` writes nothing, so
      until then the chip holds whatever it held before.) */
  lemma {:induction false} ShadowIsLastGoodWrite(steps: seq<Step>)
    ensures ConfigWrites(steps) == [] ==> Shadow(steps) == POWER_ON
    ensures ConfigWrites(steps) != [] ==>
              Shadow(steps) == ConfigWrites(steps)[|ConfigWrites(steps)| - 1] & !UV_TRIG
  {
    if steps != [] {
      var prefix, last := steps[..|steps| - 1], steps[|steps| - 1];
      var c := Shadow(prefix);
      ShadowIsLastGoodWrite(prefix);
      if last.ok {
        assert ConfigWrites(steps) == ConfigWrites(prefix) + [SentByte(c, last.cmd)];
        ShadowWellFormed(prefix);
        if last.cmd.TriggerMeasurement? {
          TriggerSelfClears(c);
        } else {
          ShadowWellFormed(steps);
          assert Shadow(steps) == SentByte(c, last.cmd);
        }
      } else {
        assert ConfigWrites(steps) == ConfigWrites(prefix);
      }
    }
  }
}
