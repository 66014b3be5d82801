/** The laser control loop: one iteration is one tick. */
module ControlLoop {
  import opened RealMath
  import opened Registers
  import opened MeltPoolWidth
  import opened WidthWindow
  import opened ShutterNap
  import opened WidthAlarm
  import opened TrackTime
  import opened Automaton
  import opened AutomatonRuns
  import opened AutoShutter

  datatype Option<T> = None | Some(value: T)

  /** The loop's state between two ticks. sqrt is the library square root it is linked with. */
  datatype State = State(sqrt: real -> real, nap: Nap, win: Window, ctl: Control,
                         alarm: Alarm, auto: Auto, pwm: Option<int>)

  ghost predicate ValidState(s: State) {
    s.win.Valid()
  }

  function MomentsOf(meta: Metadata): Moments {
    Moments(meta.m00 as real, meta.m10 as real, meta.m01 as real, meta.m11 as real, meta.m20 as real, meta.m02 as real)
  }

  /** The width in millimetres measured on one frame. */
  function Sample(sqrt: real -> real, i: Inputs): real {
    i.v.pixelMmRatio as real / 1000.0 * Width(sqrt, MomentsOf(i.meta))
  }

  predicate Requested(a: Auto, i: Inputs) {
    a.register != 0 || i.shutterRequest
  }

  /** A tick either measures or is part of a nap. */
  predicate Measuring(nap: Nap, auto: Auto, i: Inputs) {
    nap.measurement == 0 && !Requested(auto, i)
  }

  predicate Bad(i: Inputs, laser: int, w: real) {
    && i.v.enableAlarm == 1 && laser != 0
    && (w > i.v.alarmMax as real / 100.0 || w < i.v.alarmMin as real / 100.0)
  }

  /** The minimum power register holds a signed 16-bit value. */
  function MinPower(v: ProcVars): real {
    if v.minPower > 32767 then v.minPower as real - 65536.0 else v.minPower as real
  }

  function Duty(x: real, range: real): real
    requires range != 0.0
  {
    x * (16383.0 / range)
  }

  /** The duty word of the PWM. None where C++ leaves the division or the conversion undefined. */
  function PwmWord(power: real, v: ProcVars): Option<int> {
    var range := v.maxPower as real - MinPower(v);
    if range == 0.0 then None
    else
      var word := Trunc(Duty(power - MinPower(v), range));
      if 0 <= word < 0x1_0000_0000 then Some(word) else None
  }

  function NextNap(nap: Nap, auto: Auto, i: Inputs): Nap {
    NapStep(nap, Requested(auto, i))
  }

  function NextWindow(sqrt: real -> real, win: Window, measuring: bool, i: Inputs): (r: Window)
    requires win.Valid()
    ensures r.Valid()
  {
    if measuring then Measure(win, WindowSize(i.v.buffSize), Sample(sqrt, i)) else win
  }

  /** The automatic shutter once a pending request has been served. */
  function Served(auto: Auto, nap: Nap, i: Inputs): Auto {
    Acknowledge(auto, Requested(auto, i), Requested(auto, i) && nap.measurement == 0)
  }

  /** What the tick feeds the automaton. */
  function FeedOf(s: State, i: Inputs): Feed
    requires ValidState(s)
  {
    var measuring := Measuring(s.nap, s.auto, i);
    Feed(i, measuring, NextNap(s.nap, s.auto, i), NextWindow(s.sqrt, s.win, measuring, i).w)
  }

  function BadTick(s: State, i: Inputs): bool
    requires ValidState(s)
  {
    Bad(i, Next(s.ctl, FeedOf(s, i)).laser, FeedOf(s, i).w)
  }

  function Step(s: State, i: Inputs): (r: State)
    requires ValidState(s)
    ensures ValidState(r)
  {
    var ctl := Next(s.ctl, FeedOf(s, i));
    State(s.sqrt, FeedOf(s, i).nap, NextWindow(s.sqrt, s.win, FeedOf(s, i).measuring, i), ctl,
          AlarmStep(s.alarm, BadTick(s, i), i.v.alarmTime),
          Raise(Drift(Served(s.auto, s.nap, i), i), ctl.estado, i),
          PwmWord(ctl.power, i.v))
  }

  /** The state when the loop starts. */
  function Initial(sqrt: real -> real, alarmTime: int, temperature: int, shutter: int): (s: State)
    ensures ValidState(s)
  {
    State(sqrt, Nap(0, 0, 0, shutter, false), Window(seq(CAPACITY, _ => 0.0), 0, 0.0),
          Control(Manual, 0, 0, 0, 0, 0, 0, 0, 2000, 0, 0, 0.0, 1.0, 0.0, 0.0, 0.0, 0.0),
          Alarm(Word16(alarmTime), 0), Auto(0, temperature as real / 10.0, 0, false, 0.0), None)
  }

  /** The state after k ticks. */
  function At(s: State, ins: seq<Inputs>, k: nat): (r: State)
    requires ValidState(s)
    requires k <= |ins|
    ensures ValidState(r)
  {
    if k == 0 then s else Step(At(s, ins, k - 1), ins[k - 1])
  }

  /** The loop's variables. Those of the automaton form one record. */
  class Loop {
    const sqrt: real -> real
    const wCircBuffer: array<real>

    var ctl: Control
    var measurementNap: int
    var controlNap: int
    var contCalibration: int
    var shutter: int
    var offsetUpdate: bool
    var z: int
    var w: real
    var cntAuxAlarm: int
    var alarm: int
    var autoShutter: int
    var temperatureLastAutoshutter: real
    var cntLastAutoshutter: int
    var pendingAutoshutter: bool
    var currentTemperature: real
    var pwm: Option<int>

    ghost function NapOf(): Nap
      reads this
    {
      Nap(measurementNap, controlNap, contCalibration, shutter, offsetUpdate)
    }

    ghost function Win(): Window
      reads this, wCircBuffer
    {
      Window(wCircBuffer[..], z, w)
    }

    ghost function AutoOf(): Auto
      reads this
    {
      Auto(autoShutter, temperatureLastAutoshutter, cntLastAutoshutter, pendingAutoshutter, currentTemperature)
    }

    ghost function View(): State
      reads this, wCircBuffer
    {
      State(sqrt, NapOf(), Win(), ctl, Alarm(cntAuxAlarm, alarm), AutoOf(), pwm)
    }

    ghost predicate Valid()
      reads this
    {
      wCircBuffer.Length == CAPACITY && 0 <= z < CAPACITY
    }

    constructor (sqrt: real -> real, alarmTime: int, temperature: int, shutter: int)
      ensures Valid() && fresh(wCircBuffer)
      ensures View() == Initial(sqrt, alarmTime, temperature, shutter)
    {
      this.sqrt := sqrt;
      ctl := Control(Manual, 0, 0, 0, 0, 0, 0, 0, 2000, 0, 0, 0.0, 1.0, 0.0, 0.0, 0.0, 0.0);
      measurementNap, controlNap, contCalibration := 0, 0, 0;
      this.shutter, offsetUpdate := shutter, false;
      z, w := 0, 0.0;
      wCircBuffer := new real[CAPACITY](_ => 0.0);
      cntAuxAlarm, alarm := Word16(alarmTime), 0;
      autoShutter, pendingAutoshutter, cntLastAutoshutter := 0, false, 0;
      temperatureLastAutoshutter, currentTemperature := temperature as real / 10.0, 0.0;
      pwm := None;
      new;
      assert wCircBuffer[..] == seq(CAPACITY, _ => 0.0);
    }

    method SampleMode(register: int)
      modifies this`ctl
      ensures ctl == ModeStep(old(ctl), register)
    {
      if ctl.mode != register {
        ctl := ctl.(mode := register);
        if ctl.mode == 2 {
          ctl := ctl.(estado := Manual);
        } else {
          ctl := ctl.(estado := Idle);
        }
      }
    }

    method SampleLaser(i: Inputs)
      modifies this`ctl
      ensures ctl == old(ctl).(laser := LaserStatus(old(ctl).laser, i))
    {
      if External(i) {
        ctl := ctl.(laser := i.mb.digitalIn0);
      } else if ctl.laser != 0 {
        if i.meta.m00 < i.mb.endOfTrack {
          ctl := ctl.(laser := 0);
        }
      } else if i.meta.m00 >= i.mb.startTrack {
        ctl := ctl.(laser := 1);
      }
    }

    /** Take a request from the register, whoever put it there. */
    method ServeRequest(i: Inputs)
      modifies this`autoShutter, this`measurementNap, this`controlNap, this`contCalibration, this`shutter,
        this`cntLastAutoshutter, this`temperatureLastAutoshutter
      ensures NapOf() == Request(old(NapOf()), old(Requested(AutoOf(), i)))
      ensures AutoOf() == Served(old(AutoOf()), old(NapOf()), i)
    {
      if i.shutterRequest || autoShutter != 0 {
        autoShutter := 0;
        if measurementNap == 0 {
          measurementNap := NAP_DURATION;
          controlNap := NAP_DURATION;
          contCalibration := WAIT_START_CALIBRATION + 1 + WAIT_STOP_CALIBRATION + WAIT_SECOND_APERTURE;
          shutter := 1;
          cntLastAutoshutter := 0;
          temperatureLastAutoshutter := currentTemperature;
        }
      }
    }

    /** Store one sample in the circular buffer and average the slots in use. */
    method MeasureWidth(size: int, sample: real)
      requires Valid() && 1 <= size <= CAPACITY
      modifies this`z, this`w, wCircBuffer
      ensures Valid()
      ensures Win() == Measure(old(Win()), size, sample)
    {
      z := z + 1;
      if z >= size {
        z := 0;
      }
      wCircBuffer[z] := sample;
      var sum := 0.0;
      var y := 0;
      while y < size
        invariant 0 <= y <= size
        invariant sum == Sum(wCircBuffer[..y])
      {
        assert wCircBuffer[..y + 1][..y] == wCircBuffer[..y];
        sum := sum + wCircBuffer[y];
        y := y + 1;
      }
      w := sum / size as real;
      assert wCircBuffer[..][..size] == wCircBuffer[..size];
    }

    method NapTick()
      modifies this`measurementNap, this`controlNap, this`contCalibration, this`shutter, this`offsetUpdate
      requires measurementNap != 0
      ensures NapOf() == Elapse(old(NapOf()))
    {
      offsetUpdate := false;
      if contCalibration <= 0 && shutter != 0 {
        shutter := 0;
      } else {
        if contCalibration == 1 + WAIT_STOP_CALIBRATION + WAIT_SECOND_APERTURE {
          offsetUpdate := true;
        }
      }
      contCalibration := contCalibration - 1;
      measurementNap := measurementNap - 1;
      controlNap := controlNap - 1;
    }

    /** Measure the width, or let the nap elapse. */
    method MeasureOrNap(i: Inputs)
      requires Valid()
      modifies this`measurementNap, this`controlNap, this`contCalibration, this`shutter, this`offsetUpdate,
        this`ctl, this`z, this`w, wCircBuffer
      ensures Valid()
      ensures NapOf() == Elapse(old(NapOf()))
      ensures Win() == NextWindow(sqrt, old(Win()), old(measurementNap) == 0, i)
      ensures ctl == PassDelay(old(ctl), old(measurementNap) == 0)
    {
      hide Measure, WindowSize, Sample;
      if measurementNap == 0 {
        offsetUpdate := false;
        if ctl.delay > 0 {
          ctl := ctl.(delay := ctl.delay - 1);
        }
        MeasureWidth(WindowSize(i.v.buffSize), Sample(sqrt, i));
      } else {
        NapTick();
      }
    }

    method CountTrack(i: Inputs)
      modifies this`ctl
      ensures ctl == TrackTick(old(ctl), i, measurementNap)
    {
      if ctl.mode == 0 {
        if ctl.trackCount >= ctl.trackLength {
          ctl := ctl.(trackCount := 0, track := ctl.track + 1);
        } else {
          ctl := ctl.(trackCount := ctl.trackCount + 1);
        }
      } else if ctl.mode == 1 {
        if ctl.laser > 0 && ctl.laser != ctl.lastLaser {
          if External(i) {
            ctl := ctl.(track := ctl.track + 1, delay := i.v.delayLaserOn);
          } else if measurementNap == 0 {
            ctl := ctl.(track := ctl.track + 1, delay := i.v.delayLaserOn);
          }
        }
      }
    }

    method DoIdle(i: Inputs)
      modifies this`ctl
      ensures ctl == IdleTick(old(ctl), i)
    {
      hide TrackLength;
      ctl := ctl.(widthAux := 0.0, framesStop := 0);
      if ctl.laser != 0 {
        if i.v.preheatingEna != 0 {
          ctl := ctl.(preheat := 0, estado := Preheating);
        } else {
          ctl := ctl.(estado := Midiendo, framesMeasured := 0);
        }
        ctl := ctl.(trackLength := TrackLength(i.mb.timeTrackHigh, i.mb.timeTrackLow));
      } else {
        ctl := ctl.(power := i.v.powerMan as real);
      }
      ctl := ctl.(trackCount := 0, track := 0, delay := 0);
    }

    method DoMidiendo(i: Inputs)
      modifies this`ctl
      ensures ctl == MidiendoTick(old(ctl), i, measurementNap, w)
    {
      hide MeanWidth, TrackTick;
      CountTrack(i);
      if ctl.laser % 2 != 0 && ctl.track >= i.v.trackRefStart {
        ctl := ctl.(widthAux := ctl.widthAux + w, framesMeasured := ctl.framesMeasured + 1);
      }
      ctl := ctl.(power := i.v.powerMan as real);
      if ctl.track >= i.mb.referenceTrack {
        ctl := ctl.(estado := Controlling);
        var frames := ctl.framesMeasured;
        if frames == 0 {
          frames := 1;
        }
        if i.v.automeasure % 0x1_0000 == 1 {
          ctl := ctl.(widthRef := MeanWidth(ctl.widthAux, frames));
        } else {
          ctl := ctl.(widthRef := i.v.widthRef as real / 100.0);
        }
        ctl := ctl.(widthAux := 0.0, errorT0 := 0.0, errorT1 := 0.0, integral := 0.0, framesMeasured := 0);
      }
    }

    method ComputePower(v: ProcVars)
      modifies this`ctl
      ensures ctl == Compute(old(ctl), v, w)
    {
      hide PidLaw;
      var error := ctl.widthRef - w;
      var integral := ctl.integral + error * DT;
      var limit := 1000.0;
      if v.ki > 0 {
        limit := v.limitIntegral as real / v.ki as real;
      }
      if Abs(integral) >= limit {
        if integral < 0.0 {
          integral := 0.0 - limit;
        } else {
          integral := limit;
        }
      }
      var power := PidLaw(v, error, integral, error - ctl.errorT1);
      var delta := ctl.power - power;
      if Abs(delta) > Slew(v) {
        if power < ctl.power {
          power := ctl.power - Slew(v);
        } else {
          power := ctl.power + Slew(v);
        }
      }
      ctl := ctl.(framesStop := 0, errorT0 := error, errorT1 := error, integral := integral, power := power);
    }

    method DoControl(i: Inputs)
      modifies this`ctl
      ensures ctl == ControlTick(old(ctl), i, measurementNap, controlNap, w)
    {
      CountTrack(i);
      if ctl.delay > 0 {
        ctl := ctl.(delay := ctl.delay - 1);
      } else if ctl.laser == 0 || controlNap != 0 {
        if ctl.framesStop > i.v.endOfProcess {
          ctl := ctl.(estado := Idle, framesStop := 0);
        } else {
          ctl := ctl.(framesStop := ctl.framesStop + 1);
        }
      } else {
        ComputePower(i.v);
      }
    }

    method DoSwitch(i: Inputs)
      modifies this`ctl
      ensures ctl == Switch(old(ctl), i, NapOf(), w)
    {
      match ctl.estado
      case Manual =>
        ctl := ctl.(power := i.v.powerMan as real);
        if ctl.mode != 2 {
          ctl := ctl.(estado := Idle);
        }
        ctl := ctl.(trackCount := 0, track := 0, delay := 0);
      case Idle =>
        DoIdle(i);
      case Preheating =>
        ctl := ctl.(power := i.v.preheatingPower as real);
        var elapsed := ctl.preheat;
        ctl := ctl.(preheat := elapsed + 1);
        if elapsed >= i.v.preheatingTime {
          ctl := ctl.(estado := Midiendo, framesMeasured := 0);
        }
      case Midiendo =>
        DoMidiendo(i);
      case Controlling =>
        DoControl(i);
    }

    method LimitPower(v: ProcVars)
      modifies this`ctl, this`pwm
      ensures ctl == old(ctl).(power := Clamp(old(ctl).power, v))
      ensures pwm == PwmWord(ctl.power, v)
    {
      if ctl.power > v.powerLimitMax as real {
        ctl := ctl.(power := v.powerLimitMax as real);
      } else if ctl.power < v.powerLimitMin as real {
        ctl := ctl.(power := v.powerLimitMin as real);
      }
      pwm := PwmWord(ctl.power, v);
    }

    method UpdateAlarm(i: Inputs)
      modifies this`cntAuxAlarm, this`alarm
      ensures Alarm(cntAuxAlarm, alarm)
        == AlarmStep(old(Alarm(cntAuxAlarm, alarm)), Bad(i, ctl.laser, w), i.v.alarmTime)
    {
      if i.v.enableAlarm == 1 && ctl.laser != 0 {
        if w > i.v.alarmMax as real / 100.0 || w < i.v.alarmMin as real / 100.0 {
          if cntAuxAlarm > 0 {
            cntAuxAlarm := cntAuxAlarm - 1;
            alarm := 0;
          } else {
            alarm := 1;
          }
        } else {
          cntAuxAlarm := Word16(i.v.alarmTime);
          alarm := 0;
        }
      } else {
        cntAuxAlarm := Word16(i.v.alarmTime);
        alarm := 0;
      }
    }

    method UpdateAutoShutter(i: Inputs)
      modifies this`cntLastAutoshutter, this`currentTemperature, this`pendingAutoshutter,
        this`temperatureLastAutoshutter, this`autoShutter
      ensures AutoOf() == Raise(Drift(old(AutoOf()), i), ctl.estado, i)
    {
      cntLastAutoshutter := (cntLastAutoshutter + 1) % WORD32;
      currentTemperature := i.temperature as real / 10.0;
      if ConfigBit(i, 3) {
        if TimeTarget(i) < cntLastAutoshutter {
          pendingAutoshutter := true;
          cntLastAutoshutter := 0;
        }
      } else if i.v.autoshutterTemp as real / 10.0 < Abs(temperatureLastAutoshutter - currentTemperature) {
        pendingAutoshutter := true;
        cntLastAutoshutter := 0;
        temperatureLastAutoshutter := currentTemperature;
      }
      if MayRaise(ctl.estado, i) && pendingAutoshutter {
        autoShutter := 1;
        pendingAutoshutter := false;
      }
    }

    /** Serve a shutter request, then either measure the width or let the nap elapse. */
    method ServeShutter(i: Inputs)
      requires Valid()
      modifies this`autoShutter, this`measurementNap, this`controlNap, this`contCalibration, this`shutter,
        this`offsetUpdate, this`cntLastAutoshutter, this`temperatureLastAutoshutter, this`ctl,
        this`z, this`w, wCircBuffer
      ensures Valid()
      ensures NapOf() == NextNap(old(NapOf()), old(AutoOf()), i)
      ensures Win() == NextWindow(sqrt, old(Win()), old(Measuring(NapOf(), AutoOf(), i)), i)
      ensures ctl == PassDelay(old(ctl), old(Measuring(NapOf(), AutoOf(), i)))
      ensures AutoOf() == Served(old(AutoOf()), old(NapOf()), i)
    {
      hide Elapse, NextWindow, PassDelay, Served;
      ServeRequest(i);
      assert (measurementNap == 0) == old(Measuring(NapOf(), AutoOf(), i));
      hide Request, Measuring, Requested;
      MeasureOrNap(i);
    }

    /** Everything of a tick that precedes the state switch. */
    method Observe(i: Inputs)
      requires Valid()
      modifies this`ctl, this`autoShutter, this`measurementNap, this`controlNap, this`contCalibration, this`shutter,
        this`offsetUpdate, this`cntLastAutoshutter, this`temperatureLastAutoshutter, this`z, this`w, wCircBuffer
      ensures Valid()
      ensures NapOf() == NextNap(old(NapOf()), old(AutoOf()), i)
      ensures Win() == NextWindow(sqrt, old(Win()), old(Measuring(NapOf(), AutoOf(), i)), i)
      ensures ctl == Prepare(old(ctl), i, old(Measuring(NapOf(), AutoOf(), i)))
      ensures AutoOf() == Served(old(AutoOf()), old(NapOf()), i)
    {
      hide ModeStep, LaserStatus, NextNap, NextWindow, Measuring, Served, PassDelay;
      SampleMode(i.mb.mode);
      SampleLaser(i);
      ServeShutter(i);
      if i.v.setRefWidth > 0 {
        ctl := ctl.(widthRef := i.v.widthRef as real / 100.0);
      }
    }

    /** One iteration of the loop. */
    method Tick(i: Inputs)
      requires Valid()
      modifies this, wCircBuffer
      ensures Valid()
      ensures View() == Step(old(View()), i)
    {
      hide Switch, Prepare, NextNap, NextWindow, Measuring, Served, Drift, Raise, Bad, AlarmStep, PwmWord, Clamp;
      Observe(i);
      DoSwitch(i);
      LimitPower(i.v);
      ctl := ctl.(lastLaser := ctl.laser);
      UpdateAlarm(i);
      UpdateAutoShutter(i);
    }

    /** The loop, run on a finite sequence of register samples. */
    method Run(ins: seq<Inputs>)
      requires Valid()
      modifies this, wCircBuffer
      ensures Valid()
      ensures View() == At(old(View()), ins, |ins|)
    {
      hide Step;
      var k := 0;
      while k < |ins|
        invariant 0 <= k <= |ins|
        invariant Valid()
        invariant View() == At(old(View()), ins, k)
      {
        Tick(ins[k]);
        k := k + 1;
      }
    }
  }
}
