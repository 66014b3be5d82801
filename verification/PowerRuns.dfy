/** What the closed loop puts out and when it ends, over whole runs. */
module PowerRuns {
  import opened RealMath
  import opened Registers
  import opened ShutterNap
  import opened TrackTime
  import opened Automaton
  import opened AutomatonRuns
  import opened MeasuringRuns

  // ---------------------------------------------------------------- output of every state

  /** p is x brought inside the configured limits. */
  ghost predicate Limited(p: real, x: real, v: ProcVars) {
    var lo, hi := v.powerLimitMin as real, v.powerLimitMax as real;
    && (lo <= x <= hi ==> p == x)
    && (x > hi ==> p == hi)
    && (x < lo <= hi ==> p == lo)
  }

  /** Outside the closed loop the output is the manual power, the preheating power while preheating, and on the
      tick that leaves IDLE whatever it was. */
  lemma OutputByState(c: Control, f: Feed)
    requires f.i.v.powerLimitMin <= f.i.v.powerLimitMax
    ensures var p, v := Next(c, f).power, f.i.v;
      var changed := f.i.mb.mode != c.mode;
      var idles := if changed then f.i.mb.mode != 2 else c.estado == Idle;
      && (changed && f.i.mb.mode == 2 ==> Limited(p, v.powerMan as real, v))
      && (!changed && c.estado in {Manual, Midiendo} ==> Limited(p, v.powerMan as real, v))
      && (!changed && c.estado == Preheating ==> Limited(p, v.preheatingPower as real, v))
      && (idles ==> Limited(p, if LaserStatus(c.laser, f.i) == 0 then v.powerMan as real else c.power, v))
  {
    hide LaserStatus, TrackLength, MeanWidth, PidLaw, Saturate, LimitSlew, IntegralLimit;
  }

  /** A mode change, MANUAL and IDLE clear the tracks and the delay. */
  lemma RestartClears(c: Control, f: Feed)
    requires f.i.mb.mode != c.mode || c.estado in {Manual, Idle}
    ensures var d := Next(c, f); d.track == 0 && d.trackCount == 0 && d.delay == 0
  {
    hide LaserStatus, TrackLength, Clamp;
  }

  // ---------------------------------------------------------------- one tick of the closed loop

  /** The loop is closed and stays closed at the switch, and no delay is pending or started. */
  predicate Undelayed(c: Control, f: Feed) {
    && c.estado == Controlling && f.i.mb.mode == c.mode
    && c.delay <= 0 && !CountsEdge(c, f)
  }

  predicate On(c: Control, f: Feed) {
    LaserStatus(c.laser, f.i) != 0
  }

  /** With the laser off or during a nap the tick counts as stopped, and ends the process once enough have. */
  lemma StoppedTick(c: Control, f: Feed)
    requires Undelayed(c, f) && (!On(c, f) || f.nap.control != 0)
    ensures var d := Next(c, f);
      && d.mode == c.mode && d.delay == c.delay
      && d.integral == c.integral && d.errorT1 == c.errorT1
      && (if c.framesStop > f.i.v.endOfProcess then d.estado == Idle && d.framesStop == 0
          else d.estado == Controlling && d.framesStop == c.framesStop + 1)
  {
    hide LaserStatus, Clamp, PidLaw, Saturate, LimitSlew, IntegralLimit;
  }

  /** The integral of an error, held between the two limits. */
  function Held(x: real, limit: real): real {
    if x > limit then limit else if x < -limit then -limit else x
  }

  lemma SaturateHolds(x: real, limit: real)
    requires limit >= 0.0
    ensures Saturate(x, limit) == Held(x, limit)
  {
  }

  /** The limit of the integral. */
  predicate IsLimit(limit: real, v: ProcVars) {
    limit == if v.ki > 0 then v.limitIntegral as real / v.ki as real else 1000.0
  }

  /** With the laser on, no delay and no nap the tick computes: it clears the stop count, integrates the error and
      aims at the manual power plus the three parts. */
  lemma ComputingTick(c: Control, f: Feed, e: real, limit: real)
    requires Undelayed(c, f) && On(c, f) && f.nap.control == 0
    requires f.i.v.setRefWidth <= 0
    requires e == c.widthRef - f.w
    requires IsLimit(limit, f.i.v) && limit >= 0.0
    ensures var d := Next(c, f);
      && d.mode == c.mode && d.delay == c.delay && d.estado == Controlling && d.framesStop == 0
      && d.widthRef == c.widthRef && d.errorT0 == d.errorT1 == e
      && d.integral == Held(c.integral + e * 0.001, limit)
      && d.power == Clamp(LimitSlew(PidLaw(f.i.v, e, d.integral, e - c.errorT1), c.power, Slew(f.i.v)), f.i.v)
  {
    SaturateHolds(c.integral + e * 0.001, limit);
    assert IntegralLimit(f.i.v) == limit;
    hide LaserStatus, Clamp, PidLaw, Saturate, LimitSlew, IntegralLimit, Held, Slew;
  }

  lemma Aim(v: ProcVars, e: real, integral: real, d: real)
    ensures PidLaw(v, e, integral, d)
      == v.powerMan as real + v.kp as real * e + v.ki as real * integral + v.kd as real * d
  {
  }

  /** Inside the slew and the limits the output is the value aimed at. */
  lemma Reaches(target: real, previous: real, v: ProcVars)
    requires v.powerLimitMin as real <= target <= v.powerLimitMax as real
    requires Abs(target - previous) <= v.limitSlew as real / 100.0
    ensures Clamp(LimitSlew(target, previous, Slew(v)), v) == target
  {
  }

  // ---------------------------------------------------------------- the end of the process

  /** k ticks of the closed loop without delay, with the registers fixed. */
  ghost predicate Steady(c: Control, feeds: seq<Feed>, k: nat, v: ProcVars)
    requires k <= |feeds|
  {
    && c.estado == Controlling && c.delay <= 0
    && forall j :: 0 <= j < k ==>
         feeds[j].i.mb.mode == c.mode && feeds[j].i.v == v && !CountsEdge(ControlAt(c, feeds, j), feeds[j])
  }

  /** The laser is off, or a nap runs, on each of the first k ticks. */
  ghost predicate Dark(c: Control, feeds: seq<Feed>, k: nat)
    requires k <= |feeds|
  {
    forall j :: 0 <= j < k ==> !On(ControlAt(c, feeds, j), feeds[j]) || feeds[j].nap.control != 0
  }

  /** The laser is on and no nap runs on each of the first k ticks. */
  ghost predicate Lit(c: Control, feeds: seq<Feed>, k: nat)
    requires k <= |feeds|
  {
    forall j :: 0 <= j < k ==> On(ControlAt(c, feeds, j), feeds[j]) && feeds[j].nap.control == 0
  }

  /** Once the laser goes off, CONTROL lasts exactly until the (END_OF_PROCESS + 2)-th such tick, at least one,
      and then is IDLE. */
  lemma {:induction false} DarkEnds(c: Control, feeds: seq<Feed>, k: nat, v: ProcVars)
    requires k <= |feeds|
    requires Steady(c, feeds, k, v) && Dark(c, feeds, k)
    requires c.framesStop == 0
    requires k <= v.endOfProcess + 2 || k <= 1
    ensures var d := ControlAt(c, feeds, k);
      && d.mode == c.mode && d.delay == c.delay
      && (if k == 0 || k < v.endOfProcess + 2 then d.estado == Controlling && d.framesStop == k else d.estado == Idle)
  {
    hide Next, CountsEdge, On;
    if k == 0 {
    } else {
      DarkEnds(c, feeds, k - 1, v);
      StoppedTick(ControlAt(c, feeds, k - 1), feeds[k - 1]);
    }
  }

  // ---------------------------------------------------------------- answer to a constant error

  /** The width is w on each of the first k ticks and the reference is not set. */
  ghost predicate ConstantWidth(feeds: seq<Feed>, k: nat, w: real, v: ProcVars)
    requires k <= |feeds|
  {
    v.setRefWidth <= 0 && forall j :: 0 <= j < k ==> feeds[j].w == w
  }

  lemma HeldRamp(d: real, k: nat, limit: real)
    requires limit >= 0.0
    ensures Held(Held(Ramp(d, k), limit) + d, limit) == Held(Ramp(d, k + 1), limit)
  {
    RampStep(d, k);
    RampSign(d, k);
    hide Ramp;
  }

  /** With a constant error the integral grows by error times dt a tick up to its limit, and stays there. */
  lemma {:induction false} IntegralRamp(c: Control, feeds: seq<Feed>, k: nat, v: ProcVars, e: real, limit: real)
    requires k <= |feeds|
    requires Steady(c, feeds, k, v) && Lit(c, feeds, k) && ConstantWidth(feeds, k, c.widthRef - e, v)
    requires IsLimit(limit, v) && limit >= 0.0
    requires c.integral == 0.0
    ensures var d := ControlAt(c, feeds, k);
      && d.mode == c.mode && d.delay == c.delay && d.estado == Controlling && d.widthRef == c.widthRef
      && d.integral == Held(Ramp(e * 0.001, k), limit)
      && (k > 0 ==> d.errorT1 == e)
  {
    hide Next, CountsEdge, On, Held, Ramp, IsLimit;
    if k == 0 {
      NothingHeld(e * 0.001, limit);
    } else {
      IntegralRamp(c, feeds, k - 1, v, e, limit);
      ComputingTick(ControlAt(c, feeds, k - 1), feeds[k - 1], e, limit);
      HeldRamp(e * 0.001, k - 1, limit);
    }
  }

  lemma NothingHeld(d: real, limit: real)
    requires limit >= 0.0
    ensures Held(Ramp(d, 0), limit) == 0.0
  {
    RampStep(d, 0);
  }

  /** A run under fixed conditions: closed loop, laser on, no nap, no delay, constant error e. */
  ghost predicate Regulated(c: Control, feeds: seq<Feed>, k: nat, v: ProcVars, e: real, limit: real)
    requires k <= |feeds|
  {
    && Steady(c, feeds, k, v) && Lit(c, feeds, k) && ConstantWidth(feeds, k, c.widthRef - e, v)
    && IsLimit(limit, v) && limit >= 0.0
    && c.integral == 0.0
  }

  lemma RegulatedBefore(c: Control, feeds: seq<Feed>, k: nat, v: ProcVars, e: real, limit: real)
    requires 1 <= k <= |feeds|
    requires Regulated(c, feeds, k, v, e, limit)
    ensures Regulated(c, feeds, k - 1, v, e, limit)
  {
    hide CountsEdge, On, ControlAt;
  }

  lemma PowerTick(c: Control, feeds: seq<Feed>, k: nat, v: ProcVars, e: real, limit: real)
    requires 1 <= k <= |feeds|
    requires Regulated(c, feeds, k, v, e, limit)
    ensures var last := if k == 1 then c.errorT1 else e;
      var target := PidLaw(v, e, Held(Ramp(e * 0.001, k), limit), e - last);
      ControlAt(c, feeds, k).power == Clamp(LimitSlew(target, ControlAt(c, feeds, k - 1).power, Slew(v)), v)
  {
    hide Next, CountsEdge, On, Held, Ramp, PidLaw, LimitSlew, Clamp, Slew;
    IntegralRamp(c, feeds, k - 1, v, e, limit);
    HeldRamp(e * 0.001, k - 1, limit);
    ComputingTick(ControlAt(c, feeds, k - 1), feeds[k - 1], e, limit);
  }

  /** The output after k ticks of constant error e: the manual power, the proportional part, the integral part and,
      on the first tick only, the derivative part. */
  function Response(v: ProcVars, e: real, limit: real, k: nat): real {
    v.powerMan as real + v.kp as real * e + v.ki as real * Held(Ramp(e * 0.001, k), limit)
      + if k == 1 then v.kd as real * e else 0.0
  }

  /** What tick k starts from: the output at the start, or the response of the tick before. */
  function Before(power: real, v: ProcVars, e: real, limit: real, k: nat): real {
    if k <= 1 then power else Response(v, e, limit, k - 1)
  }

  /** The response of tick k lies within the limits and within the slew of what it starts from. */
  predicate UnhinderedAt(power: real, v: ProcVars, e: real, limit: real, k: nat) {
    && v.powerLimitMin as real <= Response(v, e, limit, k) <= v.powerLimitMax as real
    && Abs(Response(v, e, limit, k) - Before(power, v, e, limit, k)) <= v.limitSlew as real / 100.0
  }

  ghost predicate Unhindered(power: real, v: ProcVars, e: real, limit: real, k: nat) {
    forall j :: 1 <= j <= k ==> UnhinderedAt(power, v, e, limit, j)
  }

  lemma ReachesResponse(power: real, v: ProcVars, e: real, limit: real, k: nat)
    requires UnhinderedAt(power, v, e, limit, k)
    ensures Clamp(LimitSlew(Response(v, e, limit, k), Before(power, v, e, limit, k), Slew(v)), v)
      == Response(v, e, limit, k)
  {
    hide Response, Before, Clamp, LimitSlew, Slew;
    Reaches(Response(v, e, limit, k), Before(power, v, e, limit, k), v);
  }

  lemma DerivativePart(kd: real, e: real, last: real)
    ensures last == 0.0 ==> kd * (e - last) == kd * e
    ensures last == e ==> kd * (e - last) == 0.0
  {
  }

  lemma AimIsResponse(v: ProcVars, e: real, limit: real, k: nat, last: real)
    requires k >= 1
    requires last == if k == 1 then 0.0 else e
    ensures PidLaw(v, e, Held(Ramp(e * 0.001, k), limit), e - last) == Response(v, e, limit, k)
  {
    hide Held, Ramp, PidLaw;
    Aim(v, e, Held(Ramp(e * 0.001, k), limit), e - last);
    DerivativePart(v.kd as real, e, last);
  }

  /** The step response. From a cleared controller and with a constant error, for every run of computing ticks
      that slew and limits do not hinder, the output is exactly the response, the integral saturating or not. */
  lemma {:induction false} StepResponse(c: Control, feeds: seq<Feed>, k: nat, v: ProcVars, e: real, limit: real)
    requires 1 <= k <= |feeds|
    requires Regulated(c, feeds, k, v, e, limit)
    requires c.errorT1 == 0.0
    requires Unhindered(c.power, v, e, limit, k)
    ensures ControlAt(c, feeds, k).power == Response(v, e, limit, k)
  {
    hide Regulated, ControlAt, Held, Ramp, Response, PidLaw, LimitSlew, Clamp, Slew, UnhinderedAt;
    PowerTick(c, feeds, k, v, e, limit);
    AimIsResponse(v, e, limit, k, if k == 1 then c.errorT1 else e);
    if k == 1 {
      StartOfRun(c, feeds);
    } else {
      RegulatedBefore(c, feeds, k, v, e, limit);
      StepResponse(c, feeds, k - 1, v, e, limit);
    }
    ReachesResponse(c.power, v, e, limit, k);
  }

  lemma StartOfRun(c: Control, feeds: seq<Feed>)
    ensures ControlAt(c, feeds, 0) == c
  {
  }

  // ---------------------------------------------------------------- slew towards a constant value

  lemma Slews(target: real, previous: real, v: ProcVars)
    requires v.limitSlew >= 0
    requires v.powerLimitMin as real <= target <= v.powerLimitMax as real
    requires WithinLimits(previous, v)
    ensures var p := Clamp(LimitSlew(target, previous, Slew(v)), v);
      && WithinLimits(p, v)
      && (previous <= p <= target || target <= p <= previous)
      && Abs(target - p) == Max(0.0, Abs(target - previous) - v.limitSlew as real / 100.0)
  {
  }

  /** With the proportional part alone the output walks straight to the value aimed at: after k ticks exactly
      k * LIMIT_SLEW / 100 of the distance is gone, until it is there, and there it stays. */
  lemma {:induction false} SlewArrives(c: Control, feeds: seq<Feed>, k: nat, v: ProcVars, e: real, limit: real,
                                       target: real)
    requires k <= |feeds|
    requires Regulated(c, feeds, k, v, e, limit)
    requires v.ki == 0 && v.kd == 0 && v.limitSlew >= 0
    requires target == v.powerMan as real + v.kp as real * e
    requires WithinLimits(c.power, v) && WithinLimits(target, v)
    ensures var p := ControlAt(c, feeds, k).power;
      && WithinLimits(p, v)
      && (c.power <= p <= target || target <= p <= c.power)
      && Abs(target - p) == Max(0.0, Abs(target - c.power) - Ramp(v.limitSlew as real / 100.0, k))
  {
    hide Regulated, ControlAt, Held, Ramp, PidLaw, LimitSlew, Clamp, Slew;
    var s := v.limitSlew as real / 100.0;
    if k == 0 {
      StartOfRun(c, feeds);
      RampStep(s, 0);
    } else {
      RegulatedBefore(c, feeds, k, v, e, limit);
      SlewArrives(c, feeds, k - 1, v, e, limit, target);
      PowerTick(c, feeds, k, v, e, limit);
      Aim(v, e, Held(Ramp(e * 0.001, k), limit), e - if k == 1 then c.errorT1 else e);
      Slews(target, ControlAt(c, feeds, k - 1).power, v);
      RampStep(s, k - 1);
      RampSign(s, k - 1);
    }
  }

  // ---------------------------------------------------------------- reference width

  /** The reference after k ticks: the last one set, or the one at the start. */
  function LastReference(reference: real, feeds: seq<Feed>, k: nat): real
    requires k <= |feeds|
  {
    if k == 0 then reference
    else if feeds[k - 1].i.v.setRefWidth > 0 then feeds[k - 1].i.v.widthRef as real / 100.0
    else LastReference(reference, feeds, k - 1)
  }

  lemma ReferenceTick(c: Control, f: Feed)
    requires ControlBranch(c, f)
    ensures Next(c, f).widthRef == if f.i.v.setRefWidth > 0 then f.i.v.widthRef as real / 100.0 else c.widthRef
  {
    hide LaserStatus, Clamp, PidLaw, Saturate, LimitSlew, IntegralLimit;
  }

  /** In the closed loop the reference width changes only when SET_REF_WIDTH asks for it, to WIDTH_REF / 100. */
  lemma {:induction false} ReferenceHeld(c: Control, feeds: seq<Feed>, k: nat)
    requires k <= |feeds|
    requires ControlRun(c, feeds, k)
    ensures ControlAt(c, feeds, k).widthRef == LastReference(c.widthRef, feeds, k)
  {
    hide Next, ControlBranch;
    if k == 0 {
    } else {
      ReferenceHeld(c, feeds, k - 1);
      ReferenceTick(ControlAt(c, feeds, k - 1), feeds[k - 1]);
    }
  }
}
