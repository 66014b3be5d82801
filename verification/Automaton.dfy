/** The laser automaton: track counting, reference measurement and the PID power law. */
module Automaton {
  import opened RealMath
  import opened Registers
  import opened ShutterNap
  import opened TrackTime

  datatype Estado = Manual | Idle | Preheating | Midiendo | Controlling

  /** power is the output at the end of the previous tick; until the limits are applied within a
      tick it is the power computed so far. */
  datatype Control = Control(
    estado: Estado, mode: int, laser: int, lastLaser: int,
    framesMeasured: nat, framesStop: int, trackCount: nat, track: nat, trackLength: nat,
    delay: int, preheat: int, widthAux: real, widthRef: real,
    errorT0: real, errorT1: real, integral: real, power: real)

  const DT := 0.001

  /** A change of the mode register restarts the automaton. */
  function ModeStep(c: Control, mode: int): Control {
    if c.mode == mode then c
    else c.(mode := mode, estado := if mode == 2 then Manual else Idle)
  }

  predicate External(i: Inputs) {
    i.v.laserExternal % 0x1_0000 != 0
  }

  /** The laser status comes from a digital input or from the intensity, with hysteresis. */
  function LaserStatus(laser: int, i: Inputs): int {
    if External(i) then i.mb.digitalIn0
    else if laser != 0 then if i.meta.m00 < i.mb.endOfTrack then 0 else laser
    else if i.meta.m00 >= i.mb.startTrack then 1 else laser
  }

  /** Track counting: by time in mode 0, by laser edges in mode 1. */
  function TrackTick(c: Control, i: Inputs, napping: int): Control {
    if c.mode == 0 then
      if c.trackCount >= c.trackLength then c.(trackCount := 0, track := c.track + 1)
      else c.(trackCount := c.trackCount + 1)
    else if c.mode == 1 && c.laser > 0 && c.laser != c.lastLaser && (External(i) || napping == 0) then
      c.(track := c.track + 1, delay := i.v.delayLaserOn)
    else c
  }

  function ManualTick(c: Control, i: Inputs): Control {
    c.(power := i.v.powerMan as real, estado := if c.mode != 2 then Idle else Manual,
       trackCount := 0, track := 0, delay := 0)
  }

  function IdleTick(c: Control, i: Inputs): Control {
    var d := c.(widthAux := 0.0, framesStop := 0, trackCount := 0, track := 0, delay := 0);
    if c.laser != 0 then
      var e := d.(trackLength := TrackLength(i.mb.timeTrackHigh, i.mb.timeTrackLow));
      if i.v.preheatingEna != 0 then e.(preheat := 0, estado := Preheating)
      else e.(estado := Midiendo, framesMeasured := 0)
    else d.(power := i.v.powerMan as real)
  }

  function PreheatingTick(c: Control, i: Inputs): Control {
    var d := c.(power := i.v.preheatingPower as real, preheat := c.preheat + 1);
    if c.preheat >= i.v.preheatingTime then d.(estado := Midiendo, framesMeasured := 0) else d
  }

  function MeanWidth(total: real, frames: nat): real
    requires frames > 0
  {
    total / frames as real
  }

  /** Entering the closed loop: the reference width is the average measured or the configured one. */
  function EnterControl(c: Control, i: Inputs): Control {
    var frames := if c.framesMeasured == 0 then 1 else c.framesMeasured;
    c.(estado := Controlling,
       widthRef := if i.v.automeasure % 0x1_0000 == 1 then MeanWidth(c.widthAux, frames)
                   else i.v.widthRef as real / 100.0,
       widthAux := 0.0, errorT0 := 0.0, errorT1 := 0.0, integral := 0.0, framesMeasured := 0)
  }

  function MidiendoTick(c: Control, i: Inputs, napping: int, w: real): Control {
    var d := TrackTick(c, i, napping);
    var e :=
      if d.laser % 2 != 0 && d.track >= i.v.trackRefStart then
        d.(widthAux := d.widthAux + w, framesMeasured := d.framesMeasured + 1)
      else d;
    var f := e.(power := i.v.powerMan as real);
    if f.track >= i.mb.referenceTrack then EnterControl(f, i) else f
  }

  /** What a tick in the closed loop does, after the tracks have been counted. */
  datatype Kind = Delayed | Stopped | Computing

  function KindOf(c: Control, napping: int): Kind {
    if c.delay > 0 then Delayed else if c.laser == 0 || napping != 0 then Stopped else Computing
  }

  function IntegralLimit(v: ProcVars): real {
    if v.ki > 0 then v.limitIntegral as real / v.ki as real else 1000.0
  }

  /** The anti-windup clamp. */
  function Saturate(x: real, limit: real): real {
    if Abs(x) >= limit then if x < 0.0 then -limit else limit else x
  }

  function Slew(v: ProcVars): real {
    v.limitSlew as real / 100.0
  }

  function LimitSlew(target: real, previous: real, slew: real): real {
    if Abs(previous - target) > slew then
      if target < previous then previous - slew else previous + slew
    else target
  }

  function PidLaw(v: ProcVars, error: real, integral: real, derivative: real): real {
    v.powerMan as real + v.kp as real * error + v.ki as real * integral + v.kd as real * derivative
  }

  function Compute(c: Control, v: ProcVars, w: real): Control {
    var e := c.widthRef - w;
    var integral := Saturate(c.integral + e * DT, IntegralLimit(v));
    var derivative := e - c.errorT1;
    var target := PidLaw(v, e, integral, derivative);
    c.(framesStop := 0, errorT0 := e, errorT1 := e, integral := integral,
       power := LimitSlew(target, c.power, Slew(v)))
  }

  function StopTick(c: Control, v: ProcVars): Control {
    if c.framesStop > v.endOfProcess then c.(estado := Idle, framesStop := 0)
    else c.(framesStop := c.framesStop + 1)
  }

  function ControlTick(c: Control, i: Inputs, measurementNap: int, controlNap: int, w: real): Control {
    var d := TrackTick(c, i, measurementNap);
    match KindOf(d, controlNap)
    case Delayed => d.(delay := d.delay - 1)
    case Stopped => StopTick(d, i.v)
    case Computing => Compute(d, i.v, w)
  }

  function Clamp(x: real, v: ProcVars): real {
    if x > v.powerLimitMax as real then v.powerLimitMax as real
    else if x < v.powerLimitMin as real then v.powerLimitMin as real
    else x
  }

  /** One pass through the state switch. */
  function Switch(c: Control, i: Inputs, nap: Nap, w: real): Control {
    match c.estado
    case Manual => ManualTick(c, i)
    case Idle => IdleTick(c, i)
    case Preheating => PreheatingTick(c, i)
    case Midiendo => MidiendoTick(c, i, nap.measurement, w)
    case Controlling => ControlTick(c, i, nap.measurement, nap.control, w)
  }

  /** A measuring tick uses up one tick of a pending delay. */
  function PassDelay(c: Control, measuring: bool): Control {
    if measuring && c.delay > 0 then c.(delay := c.delay - 1) else c
  }

  function SetWidth(c: Control, v: ProcVars): Control {
    if v.setRefWidth > 0 then c.(widthRef := v.widthRef as real / 100.0) else c
  }

  /** Everything of a tick that precedes the state switch: mode, laser, pending delay, reference width. */
  function Prepare(c: Control, i: Inputs, measuring: bool): Control {
    var d := ModeStep(c, i.mb.mode);
    SetWidth(PassDelay(d.(laser := LaserStatus(d.laser, i)), measuring), i.v)
  }

  /** The automaton's share of a whole tick. */
  function ControlStep(c: Control, i: Inputs, measuring: bool, nap: Nap, w: real): Control {
    var d := Switch(Prepare(c, i, measuring), i, nap, w);
    d.(power := Clamp(d.power, i.v), lastLaser := d.laser)
  }
}
