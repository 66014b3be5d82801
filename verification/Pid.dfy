/** The PID controller and the derivative limiter it can drive. */
module PidCascade {
  import opened RealMath
  import opened DerivativeLimiter

  datatype Bounds = Bounds(max: real, min: real)

  function Clip(x: real, b: Bounds): real {
    var y := if x > b.max then b.max else x;
    if y < b.min then b.min else y
  }

  /** The upper bound of the error is guarded by a comparison with the lower one. */
  function SetErrorMax(b: Bounds, value: real): Bounds {
    if b.min != value && value > 0.0 then b.(max := value) else b
  }

  function SetMax(b: Bounds, value: real): Bounds {
    if b.max != value && value > 0.0 then b.(max := value) else b
  }

  function SetMin(b: Bounds, value: real): Bounds {
    if b.min != value && value < 0.0 then b.(min := value) else b
  }

  datatype Setting = ErrorMax(value: real) | Upper(value: real) | Lower(value: real)

  function Apply(b: Bounds, s: Setting): Bounds {
    match s
    case ErrorMax(v) => SetErrorMax(b, v)
    case Upper(v) => SetMax(b, v)
    case Lower(v) => SetMin(b, v)
  }

  function ApplyAll(b: Bounds, settings: seq<Setting>): Bounds {
    if settings == [] then b else Apply(ApplyAll(b, settings[..|settings| - 1]), settings[|settings| - 1])
  }

  /** Some setting asks for a negative lower bound. */
  predicate AsksNegative(settings: seq<Setting>) {
    exists j :: 0 <= j < |settings| && settings[j].Lower? && settings[j].value < 0.0
  }

  /** The lower bound is negative exactly when it was, or when some setting asked for that. */
  lemma {:induction false} LowerBoundNegative(b: Bounds, settings: seq<Setting>)
    ensures ApplyAll(b, settings).min < 0.0 <==> b.min < 0.0 || AsksNegative(settings)
  {
    if settings == [] {
    } else {
      var n := |settings| - 1;
      LowerBoundNegative(b, settings[..n]);
      assert forall j :: 0 <= j < n ==> settings[..n][j] == settings[j];
    }
  }

  lemma {:induction false} UpperBoundPositive(b: Bounds, settings: seq<Setting>)
    requires b.max > 0.0
    ensures ApplyAll(b, settings).max > 0.0
  {
    if settings == [] {
    } else {
      UpperBoundPositive(b, settings[..|settings| - 1]);
    }
  }

  /** From any positive upper bound, so from what the setup leaves too: the bounds straddle zero exactly when
      the lower one was negative or some setting asked for that, and ordered bounds clip as a projection. */
  lemma BoundsStraddleZero(b: Bounds, settings: seq<Setting>, x: real)
    requires b.max > 0.0
    ensures var c := ApplyAll(b, settings);
      && (c.min < 0.0 < c.max <==> b.min < 0.0 || AsksNegative(settings))
      && (c.min <= c.max ==> c.min <= Clip(x, c) <= c.max && (c.min <= x <= c.max <==> Clip(x, c) == x))
  {
    hide AsksNegative;
    LowerBoundNegative(b, settings);
    UpperBoundPositive(b, settings);
  }

  /** The odd guard of the error's upper bound lets every positive value through exactly when the lower bound
      is not positive or the two bounds agree already. Otherwise it ignores the value of the lower bound. */
  lemma ErrorMaxTakesEffect(b: Bounds)
    ensures (forall v :: v > 0.0 ==> SetErrorMax(b, v).max == v) <==> b.min <= 0.0 || b.max == b.min
    ensures forall v :: v > 0.0 ==> SetMax(b, v).max == v
    ensures forall v :: v < 0.0 ==> SetMin(b, v).min == v
  {
    assert b.min > 0.0 ==> SetErrorMax(b, b.min).max == b.max;
  }

  /** Clipping lands inside the bounds for every input exactly when they are ordered. */
  lemma ClipInside(b: Bounds)
    ensures (forall x :: b.min <= Clip(x, b) <= b.max) <==> b.min <= b.max
  {
    assert b.min > b.max ==> Clip(b.max, b) == b.min;
  }

  /** And then it lands on the value of the range that is nearest to the input. */
  lemma ClipNearest(x: real, y: real, b: Bounds)
    requires b.min <= y <= b.max
    ensures Abs(x - Clip(x, b)) <= Abs(x - y)
  {
  }

  datatype Gains = Gains(kp: real, ki: real, kd: real)

  datatype Limits = Limits(error: Bounds, sum: Bounds, diff: Bounds, control: Bounds)

  /** The derivative part, the control output and the output may be NaN. */
  datatype Pid = Pid(error: real, errorLast: real, errorSum: real, errorDiff: Float,
                     controlOutput: Float, output: Float)

  function Accumulate(sum: real, ki: real, error: real, interval: real): real {
    sum + ki * error * interval
  }

  function Change(kd: real, error: real, last: real): real {
    kd * (error - last)
  }

  /** A quotient clipped to its bounds. A zero interval gives an infinite quotient, which is clipped as well,
      or the NaN of zero divided by zero, which every comparison lets through. */
  function ClipQuotient(change: real, interval: real, b: Bounds): Float {
    if interval != 0.0 then Num(Clip(change / interval, b))
    else if change > 0.0 then Num(Clip(b.max, b))
    else if change < 0.0 then Num(b.min)
    else NaN
  }

  function Command(setPoint: real, error: real, kp: real, sum: real, diff: real): real {
    setPoint + error * kp + sum + diff
  }

  /** One poll: error, integral and derivative are clipped, then their sum. */
  function PollStep(p: Pid, g: Gains, l: Limits, setPoint: real, feedback: real, interval: real): Pid {
    var error := Clip(setPoint - feedback, l.error);
    var sum := Clip(Accumulate(p.errorSum, g.ki, error, interval), l.sum);
    var diff := ClipQuotient(Change(g.kd, error, p.error), interval, l.diff);
    var control := if diff.Num? then Num(Clip(Command(setPoint, error, g.kp, sum, diff.r), l.control)) else NaN;
    Pid(error, p.error, sum, diff, control, control)
  }

  class PidController {
    var gains: Gains
    var limits: Limits
    var setPoint: real
    var feedback: real
    var error: real
    var errorLast: real
    var errorSum: real
    var errorDiff: Float
    var controlOutput: Float
    var output: Float

    ghost function View(): Pid
      reads this
    {
      Pid(error, errorLast, errorSum, errorDiff, controlOutput, output)
    }

    constructor (gains: Gains, limits: Limits, setPoint: real, feedback: real, initial: Pid)
      ensures this.gains == gains && this.limits == limits
      ensures this.setPoint == setPoint && this.feedback == feedback && View() == initial
    {
      this.gains, this.limits, this.setPoint, this.feedback := gains, limits, setPoint, feedback;
      error, errorLast, errorSum := initial.error, initial.errorLast, initial.errorSum;
      errorDiff, controlOutput, output := initial.errorDiff, initial.controlOutput, initial.output;
    }

    /** interval is the time since the previous poll; a coarse clock can make it zero. */
    method Poll(interval: real) returns (emitted: bool)
      modifies this`error, this`errorLast, this`errorSum, this`errorDiff, this`controlOutput, this`output
      ensures View() == PollStep(old(View()), gains, limits, setPoint, feedback, interval)
      ensures emitted <==> !Same(old(output), output)
    {
      hide Clip, Accumulate, Change, Command;
      errorLast := error;
      error := Bounded(setPoint - feedback, limits.error);
      errorSum := Accumulate(errorSum, gains.ki, error, interval);
      errorSum := Bounded(errorSum, limits.sum);
      errorDiff := BoundedQuotient(Change(gains.kd, error, errorLast), interval, limits.diff);
      if errorDiff.Num? {
        var control := Bounded(Command(setPoint, error, gains.kp, errorSum, errorDiff.r), limits.control);
        controlOutput := Num(control);
      } else {
        controlOutput := NaN;
      }
      emitted := !Same(output, controlOutput);
      output := controlOutput;
    }
  }

  /** The clipping that follows every quantity of a poll. */
  method Bounded(x: real, b: Bounds) returns (y: real)
    ensures y == Clip(x, b)
  {
    y := x;
    if y > b.max {
      y := b.max;
    }
    if y < b.min {
      y := b.min;
    }
  }

  method BoundedQuotient(change: real, interval: real, b: Bounds) returns (q: Float)
    ensures q == ClipQuotient(change, interval, b)
  {
    hide Clip;
    if interval == 0.0 && change == 0.0 {
      q := NaN;
    } else {
      var y: real;
      if interval != 0.0 {
        y := Bounded(change / interval, b);
      } else if change > 0.0 {
        y := Bounded(b.max, b);
      } else {
        y := b.min;
      }
      q := Num(y);
    }
  }

  // ---------------------------------------------------------------- answer to a constant error

  predicate Ordered(b: Bounds) {
    b.min <= b.max
  }

  /** Every quantity of a poll is inside its own bounds. */
  lemma PollBounds(p: Pid, g: Gains, l: Limits, setPoint: real, feedback: real, interval: real)
    requires Ordered(l.error) && Ordered(l.sum) && Ordered(l.diff) && Ordered(l.control)
    ensures var q := PollStep(p, g, l, setPoint, feedback, interval);
      && l.error.min <= q.error <= l.error.max && q.errorLast == p.error
      && l.sum.min <= q.errorSum <= l.sum.max
      && (q.errorDiff.Num? ==> l.diff.min <= q.errorDiff.r <= l.diff.max)
      && (q.output.Num? ==> l.control.min <= q.output.r <= l.control.max)
      && q.output == q.controlOutput
  {
    hide Accumulate, Change, Command;
  }

  /** With no time between two polls a change of the error takes the derivative part to the bound on its side. */
  lemma PollInstant(p: Pid, g: Gains, l: Limits, setPoint: real, e: real)
    requires l.error.min <= e <= l.error.max && Ordered(l.diff)
    ensures var q := PollStep(p, g, l, setPoint, setPoint - e, 0.0);
      && (g.kd * (e - p.error) > 0.0 ==> q.errorDiff == Num(l.diff.max))
      && (g.kd * (e - p.error) < 0.0 ==> q.errorDiff == Num(l.diff.min))
      && (g.kd * (e - p.error) == 0.0 ==> q.errorDiff == NaN)
  {
    assert setPoint - (setPoint - e) == e;
    assert Change(g.kd, e, p.error) == g.kd * (e - p.error);
    hide Accumulate, Command, Change;
  }

  /** k polls with the same set point, feedback and interval. */
  function PidAt(p: Pid, g: Gains, l: Limits, setPoint: real, feedback: real, interval: real, k: nat): Pid {
    if k == 0 then p
    else PollStep(PidAt(p, g, l, setPoint, feedback, interval, k - 1), g, l, setPoint, feedback, interval)
  }

  lemma ClipRamp(d: real, k: nat, b: Bounds)
    requires b.min <= 0.0 <= b.max
    ensures Clip(Clip(Ramp(d, k), b) + d, b) == Clip(Ramp(d, k + 1), b)
    ensures Clip(Ramp(d, 0), b) == 0.0
  {
    RampStep(d, k);
    RampSign(d, k);
    hide Ramp;
  }

  /** What a constant error adds to the output: at once, a poll, and on the first poll only. */
  function Proportional(g: Gains, e: real): real {
    g.kp * e
  }

  function Growth(g: Gains, e: real, dt: real): real {
    g.ki * e * dt
  }

  function Jump(g: Gains, e: real, dt: real): real
    requires dt != 0.0
  {
    g.kd * e / dt
  }

  /** The integral part after k polls with constant error e. */
  function Integrated(g: Gains, l: Limits, e: real, dt: real, k: nat): real {
    Clip(Ramp(Growth(g, e, dt), k), l.sum)
  }

  /** The derivative part of poll k. */
  function Kick(g: Gains, l: Limits, e: real, dt: real, k: nat): real
    requires dt != 0.0
  {
    Clip(if k == 1 then Jump(g, e, dt) else 0.0, l.diff)
  }

  lemma PollParts(g: Gains, setPoint: real, e: real, sum: real, diff: real, dt: real, last: real, k: nat)
    requires dt != 0.0
    requires last == if k == 1 then 0.0 else e
    ensures Accumulate(sum, g.ki, e, dt) == sum + Growth(g, e, dt)
    ensures Change(g.kd, e, last) / dt == if k == 1 then Jump(g, e, dt) else 0.0
    ensures Command(setPoint, e, g.kp, sum, diff) == setPoint + Proportional(g, e) + sum + diff
  {
    if k != 1 {
      assert g.kd * (e - last) == 0.0;
      assert 0.0 / dt == 0.0;
    }
  }

  lemma PollAnswer(p: Pid, g: Gains, l: Limits, setPoint: real, e: real, dt: real, k: nat)
    requires dt != 0.0
    requires l.error.min <= e <= l.error.max
    requires p.error == if k == 1 then 0.0 else e
    ensures var q := PollStep(p, g, l, setPoint, setPoint - e, dt);
      var sum := Clip(p.errorSum + Growth(g, e, dt), l.sum);
      && q.error == e && q.errorSum == sum
      && q.output == Num(Clip(setPoint + Proportional(g, e) + sum + Kick(g, l, e, dt, k), l.control))
  {
    assert setPoint - (setPoint - e) == e;
    ClipKeeps(e, l.error);
    var sum := Clip(p.errorSum + Growth(g, e, dt), l.sum);
    PollParts(g, setPoint, e, p.errorSum, 0.0, dt, p.error, k);
    PollParts(g, setPoint, e, sum, Kick(g, l, e, dt, k), dt, p.error, k);
    hide Clip, Change, Accumulate, Command, Growth, Proportional, Jump;
  }

  /** The step response. From rest, with a constant error inside its bounds, for every number of polls: the
      integral part grows by ki * e * dt a poll up to its bound, and the output is the set point plus the
      proportional part, the integral part and, on the first poll only, the derivative part, clipped. */
  lemma {:induction false} PidStepResponse(p: Pid, g: Gains, l: Limits, setPoint: real, e: real, dt: real, k: nat)
    requires dt > 0.0
    requires p.error == 0.0 && p.errorSum == 0.0
    requires l.error.min <= e <= l.error.max
    requires l.sum.min <= 0.0 <= l.sum.max
    ensures var q := PidAt(p, g, l, setPoint, setPoint - e, dt, k);
      && q.error == (if k == 0 then 0.0 else e)
      && q.errorSum == Integrated(g, l, e, dt, k)
      && (k == 0 || q.output == Num(Clip(setPoint + Proportional(g, e) + Integrated(g, l, e, dt, k)
                                         + Kick(g, l, e, dt, k), l.control)))
  {
    hide PollStep, Clip, Ramp, Growth, Proportional, Jump, Kick;
    if k == 0 {
      ClipRamp(Growth(g, e, dt), 0, l.sum);
    } else {
      PidStepResponse(p, g, l, setPoint, e, dt, k - 1);
      PollAnswer(PidAt(p, g, l, setPoint, setPoint - e, dt, k - 1), g, l, setPoint, e, dt, k);
      ClipRamp(Growth(g, e, dt), k - 1, l.sum);
    }
  }

  lemma ClipKeeps(x: real, b: Bounds)
    requires b.min <= x <= b.max
    ensures Clip(x, b) == x
  {
  }

  /** When no bound is reached the output is exactly
      set point + kp * e + k * (ki * e * dt), plus kd * e / dt on the first poll. */
  lemma PidUnbounded(p: Pid, g: Gains, l: Limits, setPoint: real, e: real, dt: real, k: nat, diff: real, r: real)
    requires k > 0 && dt > 0.0
    requires p.error == 0.0 && p.errorSum == 0.0
    requires l.error.min <= e <= l.error.max
    requires l.sum.min <= 0.0 <= l.sum.max && l.sum.min <= k as real * (g.ki * e * dt) <= l.sum.max
    requires diff == (if k == 1 then g.kd * e / dt else 0.0) && l.diff.min <= diff <= l.diff.max
    requires r == setPoint + g.kp * e + k as real * (g.ki * e * dt) + diff
    requires l.control.min <= r <= l.control.max
    ensures PidAt(p, g, l, setPoint, setPoint - e, dt, k).output == Num(r)
  {
    assert Ramp(Growth(g, e, dt), k) == k as real * (g.ki * e * dt);
    assert Proportional(g, e) == g.kp * e;
    assert diff == if k == 1 then Jump(g, e, dt) else 0.0;
    hide PidAt, Clip, Ramp, Growth, Proportional, Jump;
    PidStepResponse(p, g, l, setPoint, e, dt, k);
    ClipKeeps(Ramp(Growth(g, e, dt), k), l.sum);
    ClipKeeps(diff, l.diff);
    ClipKeeps(r, l.control);
  }

  // ---------------------------------------------------------------- the controller feeding the limiter

  /** One poll of the cascade: what the controller sees, and the limiter's own interval. */
  datatype CascadeInput = CascadeInput(gains: Gains, setPoint: real, feedback: real, interval: real,
                                       limiterInterval: real)

  datatype Cascade = Cascade(pid: Pid, limited: Float)

  function Polled(p: Pid, l: Limits, i: CascadeInput): Pid {
    PollStep(p, i.gains, l, i.setPoint, i.feedback, i.interval)
  }

  /** The limiter receives the controller's output only when that output changes. */
  function CascadeStep(c: Cascade, l: Limits, max: real, i: CascadeInput): Cascade {
    var pid := Polled(c.pid, l, i);
    Cascade(pid, if Same(pid.output, c.pid.output) then c.limited
                 else LimitFloat(c.limited, pid.output, max, i.limiterInterval))
  }

  function CascadeAt(c: Cascade, l: Limits, max: real, ins: seq<CascadeInput>, k: nat): Cascade
    requires k <= |ins|
  {
    if k == 0 then c else CascadeStep(CascadeAt(c, l, max, ins, k - 1), l, max, ins[k - 1])
  }

  /** The two objects wired together do one step of the cascade. */
  method PollAndLimit(controller: PidController, limiter: Limiter, interval: real, limiterInterval: real)
    modifies controller, limiter
    ensures Cascade(controller.View(), limiter.output)
      == CascadeStep(old(Cascade(controller.View(), limiter.output)), controller.limits, limiter.derivativeMax,
                     CascadeInput(controller.gains, controller.setPoint, controller.feedback, interval,
                                  limiterInterval))
  {
    hide PollStep, Limit;
    var emitted := controller.Poll(interval);
    if emitted {
      var _ := limiter.InputSet(controller.output, limiterInterval);
    }
  }

  /** A value inside the bounds, if it is a number. */
  predicate Inside(x: Float, b: Bounds) {
    x.Num? ==> b.min <= x.r <= b.max
  }

  /** Fed by the controller, the limited output never leaves the controller's output range, for
      every sequence of set points, feedbacks, gains and intervals. */
  lemma {:induction false} CascadeStaysInRange(c: Cascade, l: Limits, max: real, ins: seq<CascadeInput>, k: nat)
    requires k <= |ins|
    requires max >= 0.0
    requires l.control.min <= l.control.max
    requires Inside(c.limited, l.control)
    ensures Inside(CascadeAt(c, l, max, ins, k).limited, l.control)
    ensures k > 0 ==> Inside(CascadeAt(c, l, max, ins, k).pid.output, l.control)
  {
    hide Polled, Limit;
    if k == 0 {
    } else {
      CascadeStaysInRange(c, l, max, ins, k - 1);
      var d, i := CascadeAt(c, l, max, ins, k - 1), ins[k - 1];
      PollOutput(d.pid, l, i);
      var u := CascadeAt(c, l, max, ins, k).pid.output;
      if d.limited.Num? && u.Num? {
        LimitBetween(d.limited.r, u.r, max, i.limiterInterval);
      }
    }
  }

  lemma PollOutput(p: Pid, l: Limits, i: CascadeInput)
    requires l.control.min <= l.control.max
    ensures Inside(Polled(p, l, i).output, l.control)
  {
    hide Clip;
    ClipInside(l.control);
  }

  /** The poll divides zero by zero: no time has passed and the derivative part has not changed. */
  predicate ZeroOverZero(p: Pid, l: Limits, i: CascadeInput) {
    i.interval == 0.0 && Change(i.gains.kd, Clip(i.setPoint - i.feedback, l.error), p.error) == 0.0
  }

  lemma PollNumber(p: Pid, l: Limits, i: CascadeInput)
    ensures Polled(p, l, i).output.Num? <==> !ZeroOverZero(p, l, i)
  {
    hide Clip, Change, Accumulate, Command;
  }

  /** The limited output is a number exactly as long as no poll has divided zero by zero; a single one makes
      it NaN for ever. */
  lemma {:induction false} CascadeNumber(c: Cascade, l: Limits, max: real, ins: seq<CascadeInput>, k: nat)
    requires k <= |ins|
    requires c.limited.Num?
    ensures CascadeAt(c, l, max, ins, k).limited.Num?
      <==> forall j :: 0 <= j < k ==> !ZeroOverZero(CascadeAt(c, l, max, ins, j).pid, l, ins[j])
  {
    hide Polled, Limit, ZeroOverZero;
    if k == 0 {
    } else {
      CascadeNumber(c, l, max, ins, k - 1);
      PollNumber(CascadeAt(c, l, max, ins, k - 1).pid, l, ins[k - 1]);
    }
  }

  /** Controller and limiter at rest. */
  function Resting(): Cascade {
    Cascade(Pid(0.0, 0.0, 0.0, Num(0.0), Num(0.0), Num(0.0)), Num(0.0))
  }

  /** One poll with the clock standing still and no derivative gain is enough: whatever follows, the limited
      output is NaN. */
  lemma CascadeTurnsNaN(ins: seq<CascadeInput>, l: Limits, max: real, k: nat)
    requires 1 <= k <= |ins|
    requires ins[0] == CascadeInput(Gains(1.0, 1.0, 0.0), 1.0, 0.0, 0.0, 1.0)
    ensures CascadeAt(Resting(), l, max, ins, k).limited == NaN
  {
    var c := Resting();
    assert CascadeAt(c, l, max, ins, 0) == c;
    assert ZeroOverZero(c.pid, l, ins[0]);
    hide CascadeAt, ZeroOverZero;
    CascadeNumber(c, l, max, ins, k);
  }

  /** While the controller's output does not change, a saturated one for instance, the limiter is not
      fed: it stands still wherever it is. */
  lemma {:induction false} CascadeStalls(c: Cascade, l: Limits, max: real, ins: seq<CascadeInput>, k: nat)
    requires k <= |ins|
    requires c.pid.output.Num?
    requires forall j :: 0 <= j <= k ==> CascadeAt(c, l, max, ins, j).pid.output == c.pid.output
    ensures CascadeAt(c, l, max, ins, k).limited == c.limited
  {
    hide Polled, Limit;
    if k == 0 {
    } else {
      CascadeStalls(c, l, max, ins, k - 1);
    }
  }

  /** The controller's output changes to u on the first poll and stays there. However long that lasts, the
      limited output is u exactly when the one allowance of that first poll covers the distance. */
  lemma {:induction false} CascadeArrives(c: Cascade, l: Limits, max: real, ins: seq<CascadeInput>, u: real, k: nat)
    requires 1 <= k <= |ins|
    requires max >= 0.0
    requires c.limited.Num? && c.pid.output != Num(u)
    requires forall j :: 1 <= j <= k ==> CascadeAt(c, l, max, ins, j).pid.output == Num(u)
    ensures CascadeAt(c, l, max, ins, k).limited == Num(u)
      <==> Abs(u - c.limited.r) <= max * Abs(ins[0].limiterInterval)
  {
    hide Polled, Limit;
    if k == 1 {
      assert CascadeAt(c, l, max, ins, 0) == c;
      assert CascadeAt(c, l, max, ins, 1).pid.output == Num(u);
      LimitDistance(c.limited.r, u, max, ins[0].limiterInterval);
    } else {
      CascadeArrives(c, l, max, ins, u, k - 1);
    }
  }

  /** A cascade that falls short: output range -10 to 10, set point 20, no feedback and no gains. */
  function Saturating(): (r: (Cascade, Limits, CascadeInput)) {
    var b := Bounds(10.0, -10.0);
    (Resting(), Limits(b, b, b, b), CascadeInput(Gains(0.0, 0.0, 0.0), 20.0, 0.0, 1.0, 1.0))
  }

  /** There, with a maximum slope of 1 and one second between the polls, the controller asks for 10 after
      every poll and the limited output stays at 1 for ever. */
  lemma {:induction false} CascadeFallsShort(ins: seq<CascadeInput>, k: nat)
    requires 1 <= k <= |ins|
    requires forall j :: 0 <= j < |ins| ==> ins[j] == Saturating().2
    ensures var d := CascadeAt(Saturating().0, Saturating().1, 1.0, ins, k);
      d.pid.output == Num(10.0) && d.limited == Num(1.0)
  {
    var (c, l, i) := Saturating();
    if k == 1 {
      assert CascadeAt(c, l, 1.0, ins, 0) == c;
    } else {
      CascadeFallsShort(ins, k - 1);
    }
  }
}
