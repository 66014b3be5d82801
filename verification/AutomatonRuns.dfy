/** Properties of whole runs of the laser automaton. */
module AutomatonRuns {
  import opened RealMath
  import opened Registers
  import opened ShutterNap
  import opened TrackTime
  import opened Automaton

  /** What one tick feeds the automaton: the registers, whether the width was measured, the nap
      counters and the averaged width. */
  datatype Feed = Feed(i: Inputs, measuring: bool, nap: Nap, w: real)

  function Next(c: Control, f: Feed): Control {
    ControlStep(c, f.i, f.measuring, f.nap, f.w)
  }

  function ControlAt(c: Control, feeds: seq<Feed>, k: nat): Control
    requires k <= |feeds|
  {
    if k == 0 then c else Next(ControlAt(c, feeds, k - 1), feeds[k - 1])
  }

  /** The branch of the state switch that a tick takes. */
  function Branch(c: Control, f: Feed): Estado {
    Prepare(c, f.i, f.measuring).estado
  }

  /** The kind of a tick that takes the closed-loop branch. */
  function TickKind(c: Control, f: Feed): Kind {
    KindOf(TrackTick(Prepare(c, f.i, f.measuring), f.i, f.nap.measurement), f.nap.control)
  }

  // ---------------------------------------------------------------- transitions

  /** MANUAL exactly in mode 2; the closed loop is entered only from the measuring state;
      preheating is entered only from idle or through a mode change. */
  lemma Transitions(c: Control, f: Feed)
    requires c.estado == Manual || c.mode != 2
    ensures var d := Next(c, f);
      && (d.estado == Manual <==> f.i.mb.mode == 2)
      && d.mode == f.i.mb.mode
      && (d.estado == Controlling ==> c.estado in {Midiendo, Controlling} && c.mode == f.i.mb.mode)
      && (d.estado == Preheating ==> Branch(c, f) in {Idle, Preheating})
      && (Branch(c, f) == c.estado || (Branch(c, f) in {Idle, Manual} && c.mode != f.i.mb.mode))
  {
    hide LaserStatus, TrackLength, MeanWidth, Clamp, PidLaw, Saturate, LimitSlew, IntegralLimit;
  }

  /** The tick idles at the switch, sees the laser, and preheating is enabled. */
  predicate EntersPreheating(c: Control, f: Feed) {
    && (if f.i.mb.mode != c.mode then f.i.mb.mode != 2 else c.estado == Idle)
    && LaserStatus(c.laser, f.i) != 0
    && f.i.v.preheatingEna != 0
  }

  /** Exactly when a tick enters preheating.  Without a mode change that needs IDLE; with one it does not. */
  lemma PreheatingEntered(c: Control, f: Feed)
    requires c.estado != Preheating
    ensures Next(c, f).estado == Preheating <==> EntersPreheating(c, f)
  {
    hide LaserStatus, TrackLength, MeanWidth, Clamp, PidLaw, Saturate, LimitSlew, IntegralLimit;
  }

  /** A mode change takes the automaton from the closed loop to preheating in one tick. */
  lemma PreheatingFromControl()
    ensures exists c: Control, f: Feed :: c.estado == Controlling && Next(c, f).estado == Preheating
  {
    var c := Control(Controlling, 1, 1, 1, 0, 0, 0, 0, 2000, 0, 0, 0.0, 1.0, 0.0, 0.0, 0.0, 0.0);
    var v := ProcVars(0, 0, 0, 0, 0, 0, 0, 0, 0, 0, 0, 0, 0, 0, 1, 0, 0, 0, 0, 0, 0, 0, 0, 0, 1, 0, 1, 0, 0);
    var i := Inputs(v, Board(0, 1, 0, 0, 0, 0, 0), Metadata(0, 0, 0, 0, 0, 0), 0, false);
    var f := Feed(i, true, Nap(0, 0, 0, 0, false), 0.0);
    hide Next;
    PreheatingEntered(c, f);
    assert EntersPreheating(c, f);
    assert c.estado == Controlling && Next(c, f).estado == Preheating;
  }

  /** The output never leaves the configured limits. */
  lemma PowerInLimits(c: Control, f: Feed)
    requires f.i.v.powerLimitMin <= f.i.v.powerLimitMax
    ensures f.i.v.powerLimitMin as real <= Next(c, f).power <= f.i.v.powerLimitMax as real
  {
  }

  // ---------------------------------------------------------------- track counting in mode 0

  function Tally(c: Control): nat {
    c.track * (c.trackLength + 1) + c.trackCount
  }

  predicate Counting(e: Estado) {
    e == Midiendo || e == Controlling
  }

  lemma TallyTick(c: Control, i: Inputs, napping: int)
    requires c.mode == 0 && c.trackCount <= c.trackLength
    ensures var d := TrackTick(c, i, napping);
      d.trackLength == c.trackLength && d.trackCount <= d.trackLength && Tally(d) == Tally(c) + 1
  {
    if c.trackCount >= c.trackLength {
      assert (c.track + 1) * (c.trackLength + 1) == c.track * (c.trackLength + 1) + c.trackLength + 1;
    }
  }

  /** Each counting tick of mode 0 adds one to the tally; idling and manual operation reset it. */
  lemma TallyStep(c: Control, f: Feed)
    requires f.i.mb.mode == 0 && c.trackCount <= c.trackLength
    ensures var d := Next(c, f);
      && d.trackCount <= d.trackLength
      && (Counting(Branch(c, f)) ==> d.trackLength == c.trackLength && Tally(d) == Tally(c) + 1)
      && (Branch(c, f) == Preheating ==> d.trackLength == c.trackLength && Tally(d) == Tally(c))
      && (Branch(c, f) in {Idle, Manual} ==> Tally(d) == 0)
  {
    var p := Prepare(c, f.i, f.measuring);
    assert p.trackLength == c.trackLength && p.trackCount == c.trackCount && p.track == c.track && p.mode == 0;
    assert Tally(p) == Tally(c);
    if Counting(p.estado) {
      TallyTick(p, f.i, f.nap.measurement);
      assert Tally(Next(c, f)) == Tally(TrackTick(p, f.i, f.nap.measurement));
    } else if p.estado != Preheating {
      TallyZero(Next(c, f));
    }
    hide Tally, Prepare, TrackTick, TrackLength, MeanWidth;
  }

  lemma TallyZero(c: Control)
    requires c.track == 0 && c.trackCount == 0
    ensures Tally(c) == 0
  {
  }

  /** Ticks spent measuring or controlling since the automaton last idled. */
  function CountedTicks(c: Control, feeds: seq<Feed>, k: nat): nat
    requires k <= |feeds|
  {
    if k == 0 then 0
    else
      var e := Branch(ControlAt(c, feeds, k - 1), feeds[k - 1]);
      if Counting(e) then CountedTicks(c, feeds, k - 1) + 1
      else if e == Preheating then CountedTicks(c, feeds, k - 1)
      else 0
  }

  /** In mode 0 the track counters are quotient and remainder of the ticks counted. */
  lemma {:induction false} TallyIsCountedTicks(c: Control, feeds: seq<Feed>, k: nat)
    requires k <= |feeds|
    requires forall j :: 0 <= j < k ==> feeds[j].i.mb.mode == 0
    requires c.track == 0 && c.trackCount == 0
    ensures var d := ControlAt(c, feeds, k);
      && d.trackCount <= d.trackLength
      && Tally(d) == CountedTicks(c, feeds, k)
  {
    hide Next, Branch, Tally;
    if k == 0 {
      TallyZero(c);
    } else {
      TallyIsCountedTicks(c, feeds, k - 1);
      TallyStep(ControlAt(c, feeds, k - 1), feeds[k - 1]);
    }
  }

  // ---------------------------------------------------------------- time to the closed loop

  /** Counting ticks until the reference track is reached; at least one tick is always spent measuring. */
  function MeasuringTicks(referenceTrack: int, trackLength: nat): (n: nat)
    ensures n >= 1
  {
    if referenceTrack <= 0 then 1
    else
      ReferenceTicksPositive(referenceTrack, trackLength);
      referenceTrack * (trackLength + 1)
  }

  lemma ReferenceTicksPositive(r: nat, l: nat)
    requires r >= 1
    ensures r * (l + 1) >= 1
  {
    ProductOrder(1, r, l + 1);
  }

  /** The track number reaches r exactly when the tally reaches r whole tracks. */
  lemma TrackReached(c: Control, r: int)
    requires c.trackCount <= c.trackLength
    requires Tally(c) >= 1
    ensures c.track >= r <==> Tally(c) >= MeasuringTicks(r, c.trackLength)
  {
    if r >= 1 {
      if c.track >= r {
        ProductOrder(r, c.track, c.trackLength + 1);
      } else {
        ProductOrder(c.track + 1, r, c.trackLength + 1);
        assert (c.track + 1) * (c.trackLength + 1) == c.track * (c.trackLength + 1) + c.trackLength + 1;
      }
    }
  }

  /** Preheating lasts PREHEATING_TIME + 1 ticks, and at least one. */
  function PreheatingSpan(preheatingTime: int): (n: nat)
    ensures n >= 1
  {
    if preheatingTime < 0 then 1 else preheatingTime + 1
  }

  function PreheatingTicks(v: ProcVars): nat {
    if v.preheatingEna == 0 then 0 else PreheatingSpan(v.preheatingTime)
  }

  /** Mode 0 throughout, with the registers that matter for the approach kept constant after the first tick. */
  ghost predicate SteadyApproach(feeds: seq<Feed>) {
    && feeds != []
    && (forall j :: 0 <= j < |feeds| ==> feeds[j].i.mb.mode == 0)
    && (forall j :: 1 <= j < |feeds| ==>
          && feeds[j].i.v.preheatingTime == feeds[0].i.v.preheatingTime
          && feeds[j].i.mb.referenceTrack == feeds[0].i.mb.referenceTrack)
  }

  /** Where the automaton is k ticks into the approach: p preheating ticks, then counting ticks. */
  ghost predicate Approaching(c: Control, k: nat, p: nat, r: int, l: nat)
    requires k >= 1
  {
    && c.mode == 0 && c.trackLength == l && c.trackCount <= l
    && (k <= p ==> c.estado == Preheating && c.preheat == k - 1 && Tally(c) == 0)
    && (k > p ==> Tally(c) == k - 1 - p)
    && (p < k < 1 + p + MeasuringTicks(r, l) ==> c.estado == Midiendo)
    && (k == 1 + p + MeasuringTicks(r, l) ==> c.estado == Controlling)
  }

  lemma ApproachStarts(c: Control, f: Feed)
    requires c.estado == Idle && c.mode == 0 && f.i.mb.mode == 0
    requires LaserStatus(c.laser, f.i) != 0
    ensures Approaching(Next(c, f), 1, PreheatingTicks(f.i.v), f.i.mb.referenceTrack,
                        TrackLength(f.i.mb.timeTrackHigh, f.i.mb.timeTrackLow))
  {
    hide TrackLength, MeasuringTicks;
  }

  lemma ApproachPreheats(c: Control, f: Feed, k: nat, p: nat, r: int, l: nat)
    requires 1 <= k <= p
    requires Approaching(c, k, p, r, l)
    requires f.i.mb.mode == 0
    requires p == PreheatingSpan(f.i.v.preheatingTime)
    ensures Approaching(Next(c, f), k + 1, p, r, l)
  {
    hide MeasuringTicks;
  }

  lemma ApproachCounts(c: Control, f: Feed, k: nat, p: nat, r: int, l: nat)
    requires p < k <= p + MeasuringTicks(r, l)
    requires Approaching(c, k, p, r, l)
    requires f.i.mb.mode == 0 && f.i.mb.referenceTrack == r
    ensures Approaching(Next(c, f), k + 1, p, r, l)
  {
    var q := Prepare(c, f.i, f.measuring);
    var d := TrackTick(q, f.i, f.nap.measurement);
    assert Tally(q) == Tally(c);
    TallyTick(q, f.i, f.nap.measurement);
    TrackReached(d, r);
    assert Tally(Next(c, f)) == Tally(d);
    hide Tally, MeasuringTicks, Prepare, TrackTick;
  }

  /** In mode 0 the closed loop is reached at an exact tick: one tick that sees the laser, the
      preheating ticks, and max(1, REFERENCE_TRACK * (track_length + 1)) counting ticks. What the
      laser, the shutter and the width do meanwhile makes no difference. */
  lemma {:induction false} TimeToControl(c: Control, feeds: seq<Feed>, k: nat, p: nat, r: int, l: nat)
    requires SteadyApproach(feeds)
    requires c.estado == Idle && c.mode == 0
    requires LaserStatus(c.laser, feeds[0].i) != 0
    requires p == PreheatingTicks(feeds[0].i.v)
    requires r == feeds[0].i.mb.referenceTrack
    requires l == TrackLength(feeds[0].i.mb.timeTrackHigh, feeds[0].i.mb.timeTrackLow)
    requires 1 <= k <= |feeds| && k <= 1 + p + MeasuringTicks(r, l)
    ensures Approaching(ControlAt(c, feeds, k), k, p, r, l)
  {
    hide Next, Approaching, LaserStatus, TrackLength, MeasuringTicks, PreheatingSpan;
    if k == 1 {
      assert ControlAt(c, feeds, 0) == c;
      ApproachStarts(c, feeds[0]);
    } else {
      TimeToControl(c, feeds, k - 1, p, r, l);
      var d, f := ControlAt(c, feeds, k - 1), feeds[k - 1];
      assert ControlAt(c, feeds, k) == Next(d, f);
      hide ControlAt;
      if k - 1 <= p {
        assert p == PreheatingSpan(f.i.v.preheatingTime);
        ApproachPreheats(d, f, k - 1, p, r, l);
      } else {
        ApproachCounts(d, f, k - 1, p, r, l);
      }
    }
  }

  // ---------------------------------------------------------------- slew

  /** A tick that takes the closed-loop branch. */
  predicate ControlBranch(c: Control, f: Feed) {
    Branch(c, f) == Controlling
  }

  predicate WithinLimits(power: real, v: ProcVars) {
    v.powerLimitMin as real <= power <= v.powerLimitMax as real
  }

  lemma LimitSlewMoves(target: real, previous: real, slew: real)
    ensures Abs(LimitSlew(target, previous, slew) - previous) <= Abs(slew)
  {
  }

  lemma ClampApproaches(x: real, previous: real, v: ProcVars)
    requires WithinLimits(previous, v)
    ensures Abs(Clamp(x, v) - previous) <= Abs(x - previous)
    ensures WithinLimits(Clamp(x, v), v)
  {
  }

  /** On every closed-loop tick, whatever its kind, the output moves by at most |LIMIT_SLEW / 100|. */
  lemma SlewTick(c: Control, f: Feed)
    requires ControlBranch(c, f)
    requires WithinLimits(c.power, f.i.v)
    ensures Abs(Next(c, f).power - c.power) <= Abs(Slew(f.i.v))
    ensures WithinLimits(Next(c, f).power, f.i.v)
  {
    var p := Prepare(c, f.i, f.measuring);
    var d := TrackTick(p, f.i, f.nap.measurement);
    assert p.power == c.power && d.power == c.power;
    var x := Switch(p, f.i, f.nap, f.w).power;
    assert Abs(x - c.power) <= Abs(Slew(f.i.v)) by {
      hide Prepare, TrackTick, Slew;
      match KindOf(d, f.nap.control)
      case Delayed =>
      case Stopped =>
      case Computing =>
        var e := d.widthRef - f.w;
        var integral := Saturate(d.integral + e * DT, IntegralLimit(f.i.v));
        LimitSlewMoves(PidLaw(f.i.v, e, integral, e - d.errorT1), d.power, Slew(f.i.v));
    }
    ClampApproaches(x, c.power, f.i.v);
  }

  /** The slew allowance of the first k ticks. */
  function SlewBudget(feeds: seq<Feed>, k: nat): real
    requires k <= |feeds|
  {
    if k == 0 then 0.0 else SlewBudget(feeds, k - 1) + Abs(Slew(feeds[k - 1].i.v))
  }

  ghost predicate ControlRun(c: Control, feeds: seq<Feed>, k: nat)
    requires k <= |feeds|
  {
    forall j :: 0 <= j < k ==> ControlBranch(ControlAt(c, feeds, j), feeds[j])
  }

  ghost predicate FixedLimits(feeds: seq<Feed>, lo: int, hi: int) {
    forall j :: 0 <= j < |feeds| ==> feeds[j].i.v.powerLimitMin == lo && feeds[j].i.v.powerLimitMax == hi
  }

  /** Over any stretch of closed-loop ticks the output moves by at most the summed slew allowance. */
  lemma {:induction false} SlewRun(c: Control, feeds: seq<Feed>, k: nat, lo: int, hi: int)
    requires k <= |feeds|
    requires ControlRun(c, feeds, k)
    requires FixedLimits(feeds, lo, hi)
    requires lo as real <= c.power <= hi as real
    ensures lo as real <= ControlAt(c, feeds, k).power <= hi as real
    ensures Abs(ControlAt(c, feeds, k).power - c.power) <= SlewBudget(feeds, k)
  {
    hide Next, Slew, ControlBranch;
    if k == 0 {
    } else {
      SlewRun(c, feeds, k - 1, lo, hi);
      SlewTick(ControlAt(c, feeds, k - 1), feeds[k - 1]);
    }
  }

  // ---------------------------------------------------------------- anti-windup

  lemma SaturateBound(x: real, limit: real)
    ensures Abs(Saturate(x, limit)) <= Abs(limit)
    ensures Abs(x) < limit ==> Saturate(x, limit) == x
  {
  }

  lemma QuotientBound(x: real, q: real, limit: real, k: real)
    requires k > 0.0 && k * q == limit
    requires Abs(x) <= Abs(q)
    ensures Abs(k * x) <= Abs(limit)
  {
    QuotientSize(q, limit, k);
    QuotientSize(x, k * x, k);
    ProductMonotone(Abs(x), Abs(q), k);
  }

  lemma QuotientSize(q: real, limit: real, k: real)
    requires k > 0.0 && k * q == limit
    ensures Abs(q) * k == Abs(limit)
  {
    if q >= 0.0 {
      ProductMonotone(0.0, q, k);
    } else {
      ProductMonotone(q, 0.0, k);
      assert (-q) * k == -(k * q);
    }
  }

  predicate Computes(c: Control, f: Feed) {
    ControlBranch(c, f) && TickKind(c, f) == Computing
  }

  lemma IntegralOfComputing(c: Control, f: Feed)
    requires Computes(c, f)
    ensures var e := Next(c, f).errorT0;
      && e == Next(c, f).widthRef - f.w
      && Next(c, f).integral == Saturate(c.integral + e * DT, IntegralLimit(f.i.v))
  {
    hide IntegralLimit, Saturate, Slew, LimitSlew, PidLaw, Clamp;
  }

  lemma IntegralTerm(integral: real, v: ProcVars)
    requires v.ki > 0
    requires Abs(integral) <= Abs(IntegralLimit(v))
    ensures Abs(v.ki as real * integral) <= Abs(v.limitIntegral as real)
  {
    var k, limit := v.ki as real, v.limitIntegral as real;
    DivideCancels(limit, k);
    QuotientBound(integral, limit / k, limit, k);
  }

  /** After every computing tick with KI > 0 the integral part of the power is within LIMIT_INTEGRAL. */
  lemma AntiWindup(c: Control, f: Feed)
    requires Computes(c, f)
    ensures Abs(Next(c, f).integral) <= Abs(IntegralLimit(f.i.v))
    ensures f.i.v.ki > 0 ==>
      Abs(f.i.v.ki as real * Next(c, f).integral) <= Abs(f.i.v.limitIntegral as real)
  {
    hide Next, IntegralLimit, Saturate, Computes;
    IntegralOfComputing(c, f);
    SaturateBound(c.integral + Next(c, f).errorT0 * DT, IntegralLimit(f.i.v));
    if f.i.v.ki > 0 {
      IntegralTerm(Next(c, f).integral, f.i.v);
    }
  }

  /** The other closed-loop ticks leave the integral alone. */
  lemma IntegralKept(c: Control, f: Feed)
    requires ControlBranch(c, f) && !Computes(c, f)
    ensures Next(c, f).integral == c.integral
  {
  }

  ghost predicate FixedIntegralLimit(feeds: seq<Feed>, limit: real) {
    forall j :: 0 <= j < |feeds| ==> IntegralLimit(feeds[j].i.v) == limit
  }

  /** With fixed gains the integral stays within its limit for as long as the loop is closed. */
  lemma {:induction false} IntegralBoundedRun(c: Control, feeds: seq<Feed>, k: nat, limit: real)
    requires k <= |feeds|
    requires ControlRun(c, feeds, k)
    requires FixedIntegralLimit(feeds, limit)
    requires Abs(c.integral) <= Abs(limit)
    ensures Abs(ControlAt(c, feeds, k).integral) <= Abs(limit)
  {
    hide Next, Computes, IntegralLimit, ControlBranch;
    if k == 0 {
    } else {
      var d := ControlAt(c, feeds, k - 1);
      IntegralBoundedRun(c, feeds, k - 1, limit);
      if Computes(d, feeds[k - 1]) {
        AntiWindup(d, feeds[k - 1]);
      } else {
        IntegralKept(d, feeds[k - 1]);
      }
    }
  }

  /** Sum of the width errors of the computing ticks among the first k. */
  function ErrorSum(c: Control, feeds: seq<Feed>, k: nat): real
    requires k <= |feeds|
  {
    if k == 0 then 0.0
    else
      var d := ControlAt(c, feeds, k - 1);
      ErrorSum(c, feeds, k - 1) + if Computes(d, feeds[k - 1]) then Next(d, feeds[k - 1]).errorT0 else 0.0
  }

  lemma IntegralTick(c: Control, f: Feed)
    requires Computes(c, f)
    requires Abs(c.integral + Next(c, f).errorT0 * DT) < IntegralLimit(f.i.v)
    ensures Next(c, f).integral == c.integral + Next(c, f).errorT0 * DT
    ensures Next(c, f).errorT0 == Next(c, f).widthRef - f.w
  {
    hide *;
    IntegralOfComputing(c, f);
    SaturateBound(c.integral + Next(c, f).errorT0 * DT, IntegralLimit(f.i.v));
  }

  /** While no partial sum reaches the limit the integral is exactly dt times the sum of all errors. */
  lemma {:induction false} IntegralIsErrorSum(c: Control, feeds: seq<Feed>, k: nat, limit: real)
    requires k <= |feeds|
    requires ControlRun(c, feeds, k)
    requires FixedIntegralLimit(feeds, limit)
    requires c.integral == 0.0
    requires forall j :: 0 <= j <= k ==> Abs(ErrorSum(c, feeds, j) * DT) < limit
    ensures ControlAt(c, feeds, k).integral == ErrorSum(c, feeds, k) * DT
  {
    hide Next, Computes, IntegralLimit, ControlBranch;
    if k == 0 {
    } else {
      var d := ControlAt(c, feeds, k - 1);
      IntegralIsErrorSum(c, feeds, k - 1, limit);
      if Computes(d, feeds[k - 1]) {
        assert Abs(ErrorSum(c, feeds, k) * DT) < limit;
        IntegralTick(d, feeds[k - 1]);
      } else {
        IntegralKept(d, feeds[k - 1]);
      }
    }
  }

  // ---------------------------------------------------------------- end of the process

  /** Stopped ticks that end the process, for a fixed END_OF_PROCESS. */
  function EndingStops(endOfProcess: int): (n: nat)
    ensures n >= 1
  {
    if endOfProcess < -1 then 1 else endOfProcess + 2
  }

  /** Stopped ticks among the first k. */
  function Stops(c: Control, feeds: seq<Feed>, k: nat): (n: nat)
    requires k <= |feeds|
    ensures n <= k
  {
    if k == 0 then 0
    else Stops(c, feeds, k - 1) + if TickKind(ControlAt(c, feeds, k - 1), feeds[k - 1]) == Stopped then 1 else 0
  }

  lemma StopCounts(c: Control, f: Feed, n: nat)
    requires ControlBranch(c, f)
    requires c.framesStop == n < EndingStops(f.i.v.endOfProcess)
    requires TickKind(c, f) != Computing
    ensures var d := Next(c, f);
      var m := if TickKind(c, f) == Stopped then n + 1 else n;
      if m < EndingStops(f.i.v.endOfProcess) then d.estado == Controlling && d.framesStop == m
      else d.estado == Idle && d.framesStop == 0
  {
  }

  /** Outside the closed loop the stop counter is clear, except while manual operation has suspended it. */
  ghost predicate StopsCleared(c: Control) {
    c.estado != Controlling && !(c.estado == Manual && c.mode == 2) ==> c.framesStop == 0
  }

  /** A computing tick restarts the count, and so does entering the closed loop. */
  lemma StopCountRestarts(c: Control, f: Feed)
    requires StopsCleared(c)
    ensures var d := Next(c, f);
      && StopsCleared(d)
      && (Computes(c, f) ==> d.framesStop == 0 && d.estado == Controlling)
      && (d.estado == Controlling && c.estado != Controlling ==>
            d.framesStop == 0 && d.integral == 0.0 && d.errorT1 == 0.0)
  {
    hide LaserStatus, TrackLength, MeanWidth, Clamp, PidLaw, Saturate, LimitSlew, IntegralLimit;
  }

  /** No computing tick, no mode change, and a fixed END_OF_PROCESS. */
  ghost predicate Stalled(c: Control, feeds: seq<Feed>, k: nat, endOfProcess: int)
    requires k <= |feeds|
  {
    forall j :: 0 <= j < k ==>
      && feeds[j].i.mb.mode == c.mode
      && feeds[j].i.v.endOfProcess == endOfProcess
      && TickKind(ControlAt(c, feeds, j), feeds[j]) != Computing
  }

  lemma {:induction false} AllStopped(c: Control, feeds: seq<Feed>, k: nat, endOfProcess: int)
    requires k <= |feeds|
    requires forall j :: 0 <= j < k ==>
      && feeds[j].i.mb.mode == c.mode
      && feeds[j].i.v.endOfProcess == endOfProcess
      && TickKind(ControlAt(c, feeds, j), feeds[j]) == Stopped
    ensures Stops(c, feeds, k) == k
    ensures Stalled(c, feeds, k, endOfProcess)
  {
    hide Next, TickKind, ControlAt;
    if k == 0 {
    } else {
      AllStopped(c, feeds, k - 1, endOfProcess);
    }
  }

  lemma BranchWithoutModeChange(c: Control, f: Feed)
    requires f.i.mb.mode == c.mode
    ensures Branch(c, f) == c.estado && Next(c, f).mode == c.mode
  {
  }

  /** Since the last computing tick, the process ends exactly on stopped tick END_OF_PROCESS + 2.
      Delayed ticks neither count nor reset. */
  lemma {:induction false} EndOfProcess(c: Control, feeds: seq<Feed>, k: nat, endOfProcess: int)
    requires k <= |feeds|
    requires c.estado == Controlling && c.framesStop == 0
    requires Stalled(c, feeds, k, endOfProcess)
    requires k > 0 ==> Stops(c, feeds, k - 1) < EndingStops(endOfProcess)
    ensures var d := ControlAt(c, feeds, k);
      && d.mode == c.mode
      && (if Stops(c, feeds, k) < EndingStops(endOfProcess)
          then d.estado == Controlling && d.framesStop == Stops(c, feeds, k)
          else d.estado == Idle && d.framesStop == 0)
  {
    hide Next, TickKind, Branch, EndingStops;
    if k == 0 {
    } else {
      var d := ControlAt(c, feeds, k - 1);
      assert k > 1 ==> Stops(c, feeds, k - 2) <= Stops(c, feeds, k - 1);
      EndOfProcess(c, feeds, k - 1, endOfProcess);
      BranchWithoutModeChange(d, feeds[k - 1]);
      StopCounts(d, feeds[k - 1], Stops(c, feeds, k - 1));
    }
  }
}
