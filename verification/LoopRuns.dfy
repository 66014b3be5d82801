/** Properties of whole runs of the control loop, for every sequence of register samples. */
module LoopRuns {
  import opened RealMath
  import opened Registers
  import opened MeltPoolWidth
  import opened WidthWindow
  import opened ShutterNap
  import opened WidthAlarm
  import opened TrackTime
  import opened Automaton
  import opened AutomatonRuns
  import opened MeasuringRuns
  import opened PowerRuns
  import opened AutoShutter
  import opened ControlLoop

  // ---------------------------------------------------------------- projections

  /** The parts of a tick, one per component. */
  lemma StepParts(s: State, i: Inputs)
    requires ValidState(s)
    ensures var r, f := Step(s, i), FeedOf(s, i);
      && r.sqrt == s.sqrt
      && r.ctl == Next(s.ctl, f)
      && r.nap == f.nap == NapStep(s.nap, Requested(s.auto, i))
      && r.win == NextWindow(s.sqrt, s.win, Measuring(s.nap, s.auto, i), i)
      && r.alarm == AlarmStep(s.alarm, BadTick(s, i), i.v.alarmTime)
      && r.pwm == PwmWord(r.ctl.power, i.v)
      && f.i == i
  {
    hide Next, NapStep, Requested, NextWindow, Measuring, AlarmStep, BadTick, PwmWord;
  }

  /** What the run feeds the automaton, tick by tick. */
  function FeedsOf(s: State, ins: seq<Inputs>): (feeds: seq<Feed>)
    requires ValidState(s)
    ensures |feeds| == |ins|
    ensures forall j :: 0 <= j < |ins| ==> feeds[j] == FeedOf(At(s, ins, j), ins[j])
  {
    seq(|ins|, j requires 0 <= j < |ins| => FeedOf(At(s, ins, j), ins[j]))
  }

  /** Every property of automaton runs is a property of loop runs. */
  lemma {:induction false} AutomatonOfRun(s: State, ins: seq<Inputs>, k: nat)
    requires ValidState(s) && k <= |ins|
    ensures At(s, ins, k).ctl == ControlAt(s.ctl, FeedsOf(s, ins), k)
  {
    hide Next, FeedOf, Step, FeedsOf;
    if k == 0 {
    } else {
      AutomatonOfRun(s, ins, k - 1);
      StepParts(At(s, ins, k - 1), ins[k - 1]);
    }
  }

  function RequestsOf(s: State, ins: seq<Inputs>): (requests: seq<bool>)
    requires ValidState(s)
    ensures |requests| == |ins|
    ensures forall j :: 0 <= j < |ins| ==> requests[j] == Requested(At(s, ins, j).auto, ins[j])
  {
    seq(|ins|, j requires 0 <= j < |ins| => Requested(At(s, ins, j).auto, ins[j]))
  }

  lemma {:induction false} NapOfRun(s: State, ins: seq<Inputs>, k: nat)
    requires ValidState(s) && k <= |ins|
    ensures At(s, ins, k).nap == NapAt(s.nap, RequestsOf(s, ins), k)
  {
    hide NapStep, Next, Requested, Step, RequestsOf, FeedOf;
    if k == 0 {
    } else {
      NapOfRun(s, ins, k - 1);
      StepParts(At(s, ins, k - 1), ins[k - 1]);
    }
  }

  function BadsOf(s: State, ins: seq<Inputs>): (bads: seq<bool>)
    requires ValidState(s)
    ensures |bads| == |ins|
    ensures forall j :: 0 <= j < |ins| ==> bads[j] == BadTick(At(s, ins, j), ins[j])
  {
    seq(|ins|, j requires 0 <= j < |ins| => BadTick(At(s, ins, j), ins[j]))
  }

  lemma {:induction false} AlarmOfRun(s: State, ins: seq<Inputs>, t: int, k: nat)
    requires ValidState(s) && k <= |ins|
    requires forall j :: 0 <= j < k ==> ins[j].v.alarmTime == t
    ensures At(s, ins, k).alarm == AlarmAt(s.alarm, BadsOf(s, ins), t, k)
  {
    hide AlarmStep, BadTick, Next, Step, BadsOf, FeedOf;
    if k == 0 {
    } else {
      AlarmOfRun(s, ins, t, k - 1);
      StepParts(At(s, ins, k - 1), ins[k - 1]);
    }
  }

  /** What the run feeds the automatic shutter. */
  function AutoFeedsOf(s: State, ins: seq<Inputs>): (feeds: seq<AutoFeed>)
    requires ValidState(s)
    ensures |feeds| == |ins|
    ensures forall j :: 0 <= j < |ins| ==> feeds[j] == AutoFeedOf(At(s, ins, j), ins[j])
  {
    seq(|ins|, j requires 0 <= j < |ins| => AutoFeedOf(At(s, ins, j), ins[j]))
  }

  function AutoFeedOf(s: State, i: Inputs): AutoFeed
    requires ValidState(s)
  {
    AutoFeed(Requested(s.auto, i) && s.nap.measurement == 0, Step(s, i).ctl.estado, i)
  }

  /** Requests from outside act on the automatic shutter only by starting a nap. */
  lemma AutoOfStep(s: State, i: Inputs)
    requires ValidState(s)
    ensures Step(s, i).auto
      == AutoStep(s.auto, s.auto.register != 0, AutoFeedOf(s, i).starts, AutoFeedOf(s, i).estado, i)
  {
    hide Drift, Raise, Next, FeedOf, NextWindow, AlarmStep, BadTick, PwmWord;
  }

  lemma {:induction false} AutoOfRun(s: State, ins: seq<Inputs>, k: nat)
    requires ValidState(s) && k <= |ins|
    ensures At(s, ins, k).auto == AutoAt(s.auto, AutoFeedsOf(s, ins), k)
  {
    hide AutoStep, Step, AutoFeedOf, AutoFeedsOf;
    if k == 0 {
    } else {
      AutoOfRun(s, ins, k - 1);
      AutoOfStep(At(s, ins, k - 1), ins[k - 1]);
      assert AutoFeedsOf(s, ins)[k - 1].i == ins[k - 1] by { AutoFeedInput(At(s, ins, k - 1), ins[k - 1]); }
    }
  }

  lemma AutoFeedInput(s: State, i: Inputs)
    requires ValidState(s)
    ensures AutoFeedOf(s, i).i == i
  {
    hide Step, Requested;
  }

  /** Over every loop run from the start, whatever the configuration, the states and the requests from outside: a
      request is raised on the first tick that permits it after it fell due, and is pending until then. */
  lemma RequestsOfRun(sqrt: real -> real, alarmTime: int, temperature: int, shutter: int, ins: seq<Inputs>, k: nat)
    requires 1 <= k <= |ins|
    ensures var s := Initial(sqrt, alarmTime, temperature, shutter);
      var feeds, b := AutoFeedsOf(s, ins), At(s, ins, k).auto;
      var waits := Waits(Dues(s.auto, feeds), feeds, k);
      && (b.register != 0 <==> Permits(feeds[k - 1]) && waits)
      && (b.pending <==> !Permits(feeds[k - 1]) && waits)
  {
    hide AutoStep, Step, AutoFeedsOf, At, Waits, Dues, Permits;
    var s := Initial(sqrt, alarmTime, temperature, shutter);
    AutoOfRun(s, ins, k);
    RequestsRaised(s.auto, AutoFeedsOf(s, ins), k);
  }

  /** Bit 3 of the configuration selects the timer, and stays as it is. */
  ghost predicate TimerSelected(ins: seq<Inputs>, timer: bool) {
    forall j :: 0 <= j < |ins| ==> (ins[j].v.autoshutterConfig / 8 % 2 == 1) == timer
  }

  lemma FeedInputs(s: State, ins: seq<Inputs>)
    requires ValidState(s)
    ensures forall j :: 0 <= j < |ins| ==> AutoFeedsOf(s, ins)[j].i == ins[j]
  {
    hide AutoFeedOf, At, AutoFeedsOf;
    forall j | 0 <= j < |ins| ensures AutoFeedsOf(s, ins)[j].i == ins[j] {
      AutoFeedInput(At(s, ins, j), ins[j]);
    }
  }

  lemma TimerModeOf(ins: seq<Inputs>, feeds: seq<AutoFeed>, t: nat)
    requires |feeds| == |ins| && forall j :: 0 <= j < |ins| ==> feeds[j].i == ins[j]
    requires TimerSelected(ins, true)
    requires 10000 * t < WORD32 && forall j :: 0 <= j < |ins| ==> ins[j].v.autoshutterTimer == t
    ensures TimerMode(feeds, 10000 * t)
  {
  }

  lemma DriftModeOf(ins: seq<Inputs>, feeds: seq<AutoFeed>, tenths: int)
    requires |feeds| == |ins| && forall j :: 0 <= j < |ins| ==> feeds[j].i == ins[j]
    requires TimerSelected(ins, false)
    requires forall j :: 0 <= j < |ins| ==> ins[j].v.autoshutterTemp == tenths
    ensures DriftMode(feeds, tenths as real / 10.0)
  {
  }

  /** In timer mode with AUTOSHUTTER_TIMER t a request falls due 10000 * t + 1 ticks after the timer last ran out or
      a nap was started. */
  lemma TimerOfRun(sqrt: real -> real, alarmTime: int, temperature: int, shutter: int, ins: seq<Inputs>, t: nat, k: nat)
    requires 1 <= k <= |ins|
    requires TimerSelected(ins, true)
    requires 10000 * t < WORD32 - 1 && forall j :: 0 <= j < |ins| ==> ins[j].v.autoshutterTimer == t
    ensures var s := Initial(sqrt, alarmTime, temperature, shutter);
      var feeds, b := AutoFeedsOf(s, ins), At(s, ins, k).auto;
      var waits := Waits(RunOuts(feeds, 10000 * t), feeds, k);
      && (b.register != 0 <==> Permits(feeds[k - 1]) && waits)
      && (b.pending <==> !Permits(feeds[k - 1]) && waits)
  {
    hide AutoStep, Step, TimerMode, AutoFeedsOf, At, Waits, RunOuts, Permits;
    var s := Initial(sqrt, alarmTime, temperature, shutter);
    AutoOfRun(s, ins, k);
    FeedInputs(s, ins);
    TimerModeOf(ins, AutoFeedsOf(s, ins), t);
    TimerRuns(s.auto, AutoFeedsOf(s, ins), 10000 * t, k);
  }

  /** In drift mode with AUTOSHUTTER_TEMP in tenths of a degree a request falls due exactly when the temperature has
      left that band around its reference. */
  lemma DriftOfRun(sqrt: real -> real, alarmTime: int, temperature: int, shutter: int, ins: seq<Inputs>,
                   tenths: int, k: nat)
    requires 1 <= k <= |ins|
    requires TimerSelected(ins, false)
    requires forall j :: 0 <= j < |ins| ==> ins[j].v.autoshutterTemp == tenths
    ensures var s := Initial(sqrt, alarmTime, temperature, shutter);
      var feeds, b := AutoFeedsOf(s, ins), At(s, ins, k).auto;
      var waits := Waits(DriftTicks(s.auto, feeds, tenths as real / 10.0), feeds, k);
      && b.current == ins[k - 1].temperature as real / 10.0
      && (tenths >= 0 ==> Abs(b.current - b.temperatureLast) <= tenths as real / 10.0)
      && (b.register != 0 <==> Permits(feeds[k - 1]) && waits)
      && (b.pending <==> !Permits(feeds[k - 1]) && waits)
  {
    hide AutoStep, Step, DriftMode, AutoFeedsOf, At, Waits, DriftTicks, Permits;
    var s := Initial(sqrt, alarmTime, temperature, shutter);
    AutoOfRun(s, ins, k);
    FeedInputs(s, ins);
    DriftModeOf(ins, AutoFeedsOf(s, ins), tenths);
    DriftRuns(s.auto, AutoFeedsOf(s, ins), tenths as real / 10.0, k);
    CurrentReading(At(s, ins, k - 1), ins[k - 1]);
    LastStep(s, ins, k);
  }

  lemma LastStep(s: State, ins: seq<Inputs>, k: nat)
    requires ValidState(s) && 1 <= k <= |ins|
    ensures At(s, ins, k) == Step(At(s, ins, k - 1), ins[k - 1])
  {
  }

  lemma CurrentReading(s: State, i: Inputs)
    requires ValidState(s)
    ensures Step(s, i).auto.current == i.temperature as real / 10.0
  {
    hide Next, FeedOf, NextWindow, AlarmStep, BadTick, PwmWord;
  }

  // ---------------------------------------------------------------- shutter and alarm

  /** From the tick that accepts a request the next 750 ticks follow one timeline, whatever happens. */
  lemma ShutterTimeline(s: State, ins: seq<Inputs>, k: nat)
    requires ValidState(s)
    requires 1 <= k <= |ins| && k <= NAP_DURATION
    requires s.nap.measurement == 0 && (s.auto.register != 0 || ins[0].shutterRequest)
    ensures At(s, ins, k).nap
      == Nap(NAP_DURATION - k, NAP_DURATION - k, 651 - k, if k <= 651 then 1 else 0, k == 151)
  {
    assert At(s, ins, 0) == s;
    assert Requested(s.auto, ins[0]);
    hide NapStep, Requested, Step, RequestsOf;
    NapOfRun(s, ins, k);
    NapTimeline(s.nap, RequestsOf(s, ins), k);
  }

  /** Outside a nap a tick without a request, from the register or from outside, starts none. */
  lemma NoRequestNoNap(s: State, i: Inputs)
    requires ValidState(s)
    requires s.nap.measurement == 0 && s.auto.register == 0 && !i.shutterRequest
    ensures Step(s, i).nap == s.nap.(offsetUpdate := false)
  {
    hide Next, FeedOf, NextWindow, AlarmStep, BadTick, PwmWord;
    StepParts(s, i);
  }

  /** For every initial shutter register: both nap counters agree and time the calibration counter; the
      shutter is closed exactly while they are at least 99, or while it has been closed from the start and
      no nap has begun; and every nap that has got that far has raised exactly one offset update, behind a
      closed shutter. */
  lemma ShutterAlways(sqrt: real -> real, alarmTime: int, temperature: int, shutter: int, ins: seq<Inputs>, k: nat)
    requires k <= |ins|
    ensures var s := Initial(sqrt, alarmTime, temperature, shutter);
      var now, starts := At(s, ins, k).nap, Starts(s.nap, RequestsOf(s, ins), k);
      && Timed(now, shutter != 0 && starts == 0)
      && (now.shutter != 0 <==> now.measurement >= 99 || (starts == 0 && shutter != 0))
      && starts == Raises(s.nap, RequestsOf(s, ins), k) + (if now.measurement >= 600 then 1 else 0)
      && (now.offsetUpdate ==> now.shutter != 0)
  {
    hide Step, At, RequestsOf;
    var s := Initial(sqrt, alarmTime, temperature, shutter);
    NapOfRun(s, ins, k);
    NapAlwaysTimed(s.nap, RequestsOf(s, ins), k, shutter != 0);
    OneUpdatePerNap(s.nap, RequestsOf(s, ins), k, shutter != 0);
  }

  /** The width after a tick is outside its band, with the alarm enabled and the laser on. The bounds are in
      hundredths of a millimetre. */
  ghost predicate OutOfBand(s: State, i: Inputs) {
    && i.v.enableAlarm == 1 && s.ctl.laser != 0
    && !(i.v.alarmMin as real <= 100.0 * s.win.w <= i.v.alarmMax as real)
  }

  lemma BadTickIsOutOfBand(s: State, i: Inputs)
    requires ValidState(s)
    ensures BadTick(s, i) <==> OutOfBand(Step(s, i), i)
  {
    hide Next, NextWindow, Measuring, NextNap, AlarmStep, PwmWord, Drift, Raise;
    StepParts(s, i);
  }

  /** The ticks after which the width is out of its band. */
  ghost function OutsOf(s: State, ins: seq<Inputs>): (outs: seq<bool>)
    requires ValidState(s)
    ensures |outs| == |ins|
    ensures forall j :: 0 <= j < |ins| ==> outs[j] == OutOfBand(Step(At(s, ins, j), ins[j]), ins[j])
  {
    seq(|ins|, j requires 0 <= j < |ins| => OutOfBand(Step(At(s, ins, j), ins[j]), ins[j]))
  }

  lemma BadsAreOuts(s: State, ins: seq<Inputs>)
    requires ValidState(s)
    ensures BadsOf(s, ins) == OutsOf(s, ins)
  {
    hide Step, BadTick, At, BadsOf, OutsOf, OutOfBand;
    forall j | 0 <= j < |ins| ensures BadsOf(s, ins)[j] == OutsOf(s, ins)[j] {
      BadTickIsOutOfBand(At(s, ins, j), ins[j]);
    }
  }

  /** With a constant alarm time T, the alarm shows after a tick exactly when after that tick and the T ticks before
      it the width was out of its band with the alarm enabled and the laser on. */
  lemma AlarmDebounceRun(sqrt: real -> real, t: int, temperature: int, shutter: int, ins: seq<Inputs>, k: nat)
    requires 1 <= k <= |ins|
    requires 0 <= t < 0x1_0000
    requires forall j :: 0 <= j < k ==> ins[j].v.alarmTime == t
    ensures var s := Initial(sqrt, t, temperature, shutter);
      At(s, ins, k).alarm.alarm == 1 <==> k > t && forall j :: k - 1 - t <= j < k ==> OutsOf(s, ins)[j]
  {
    hide Step, BadTick, At, BadsOf, OutsOf;
    var s := Initial(sqrt, t, temperature, shutter);
    AlarmOfRun(s, ins, t, k);
    BadsAreOuts(s, ins);
    AlarmDebounce(s.alarm, BadsOf(s, ins), t, k);
  }

  // ---------------------------------------------------------------- averaged width

  /** The samples of the measuring ticks among the first k. */
  function SamplesOf(s: State, ins: seq<Inputs>, k: nat): seq<real>
    requires ValidState(s) && k <= |ins|
  {
    if k == 0 then []
    else
      var b := At(s, ins, k - 1);
      SamplesOf(s, ins, k - 1) + if Measuring(b.nap, b.auto, ins[k - 1]) then [Sample(s.sqrt, ins[k - 1])] else []
  }

  ghost predicate FixedSize(ins: seq<Inputs>, size: int) {
    forall j :: 0 <= j < |ins| ==> WindowSize(ins[j].v.buffSize) == size
  }

  lemma {:induction false} SqrtKept(s: State, ins: seq<Inputs>, k: nat)
    requires ValidState(s) && k <= |ins|
    ensures At(s, ins, k).sqrt == s.sqrt
  {
    hide Step, FeedOf, Next;
    if k == 0 {
    } else {
      SqrtKept(s, ins, k - 1);
      StepParts(At(s, ins, k - 1), ins[k - 1]);
    }
  }

  lemma {:induction false} WindowSlides(s: State, ins: seq<Inputs>, size: int, k: nat)
    requires ValidState(s) && k <= |ins|
    requires 1 <= size <= CAPACITY
    requires FixedSize(ins, size)
    ensures Slides(At(s, ins, k).win, size, SamplesOf(s, ins, k))
  {
    hide Slides, Measure, Sample, Measuring, Next, WindowSize, Step, FeedOf;
    if k == 0 {
      SlidesNothing(s.win, size);
    } else {
      WindowSlides(s, ins, size, k - 1);
      SqrtKept(s, ins, k - 1);
      StepParts(At(s, ins, k - 1), ins[k - 1]);
      SlidesStep(At(s, ins, k - 1).win, size, SamplesOf(s, ins, k - 1), Sample(s.sqrt, ins[k - 1]));
      assert SamplesOf(s, ins, k - 1) + [] == SamplesOf(s, ins, k - 1);
    }
  }

  lemma SlidesNothing(win: Window, size: int)
    requires win.Valid() && 1 <= size <= CAPACITY
    ensures Slides(win, size, [])
  {
  }

  /** Starting from any state, whatever the buffer holds: once N ticks have measured with size N, the
      width is exactly the mean of the last N samples, and naps in between change nothing. */
  lemma WidthIsSlidingMean(s: State, ins: seq<Inputs>, size: int, k: nat)
    requires ValidState(s) && k <= |ins|
    requires 1 <= size <= CAPACITY
    requires FixedSize(ins, size)
    requires |SamplesOf(s, ins, k)| >= size
    ensures At(s, ins, k).win.w == Sum(Last(SamplesOf(s, ins, k), size)) / size as real
  {
    hide Slides, Last, Sum, At, SamplesOf, FixedSize;
    WindowSlides(s, ins, size, k);
    SlidesMean(At(s, ins, k).win, size, SamplesOf(s, ins, k));
  }

  /** A nap freezes the buffer and the width; a measuring tick leaves the index inside the size of
      that tick, however the size changed before. */
  lemma WindowTick(s: State, i: Inputs)
    requires ValidState(s)
    ensures var measures := s.nap.measurement == 0 && s.auto.register == 0 && !i.shutterRequest;
      if measures then 0 <= Step(s, i).win.z < WindowSize(i.v.buffSize) else Step(s, i).win == s.win
  {
    assert Measuring(s.nap, s.auto, i) <==> s.nap.measurement == 0 && s.auto.register == 0 && !i.shutterRequest;
    hide Measure, Next, Step, FeedOf, Measuring;
    StepParts(s, i);
  }

  /** The metadata registers hold the moments of this image. */
  ghost predicate Shows(meta: Metadata, img: seq<Pixel>) {
    var m := ImageMoments(img);
    && m.m00 == meta.m00 as real && m.m10 == meta.m10 as real && m.m01 == meta.m01 as real
    && m.m11 == meta.m11 as real && m.m20 == meta.m20 as real && m.m02 == meta.m02 as real
  }

  lemma SampleOfImage(sqrt: real -> real, img: seq<Pixel>, i: Inputs)
    requires Shows(i.meta, img)
    ensures Sample(sqrt, i) == i.v.pixelMmRatio as real / 1000.0 * Width(sqrt, ImageMoments(img))
  {
    hide Width, ImageMoments;
  }

  /** The sample x of a frame is four standard deviations of its image along the narrowest direction, in
      millimetres: its square is (4 * PIXEL_MM_RATIO / 1000) squared times the least mean squared extent. */
  lemma SampleIsNarrowest(sqrt: real -> real, img: seq<Pixel>, i: Inputs, x: real, f: real)
    requires IsSqrt(sqrt) && NonNegative(img)
    requires Shows(i.meta, img)
    requires i.v.pixelMmRatio >= 0
    requires x == Sample(sqrt, i) && f == 4.0 * (i.v.pixelMmRatio as real / 1000.0)
    ensures x >= 0.0 && LeastTimes(img, x * x, f * f)
  {
    hide *;
    SampleOfImage(sqrt, img, i);
    WidthScaled(sqrt, img, i.v.pixelMmRatio as real / 1000.0, x, f);
  }

  // ---------------------------------------------------------------- automaton

  /** The invariant of all reachable states. */
  ghost predicate Reached(s: State) {
    && (s.ctl.estado == Manual || s.ctl.mode != 2)
    && StopsCleared(s.ctl)
  }

  lemma {:induction false} ReachedAlways(sqrt: real -> real, alarmTime: int, temperature: int, shutter: int,
                                         ins: seq<Inputs>, k: nat)
    requires k <= |ins|
    ensures var s := At(Initial(sqrt, alarmTime, temperature, shutter), ins, k);
      Reached(s) && (k > 0 ==> (s.ctl.estado == Manual <==> s.ctl.mode == 2))
  {
    hide Next, FeedOf, Step;
    if k == 0 {
    } else {
      ReachedAlways(sqrt, alarmTime, temperature, shutter, ins, k - 1);
      var s := At(Initial(sqrt, alarmTime, temperature, shutter), ins, k - 1);
      StepParts(s, ins[k - 1]);
      Transitions(s.ctl, FeedOf(s, ins[k - 1]));
      StopCountRestarts(s.ctl, FeedOf(s, ins[k - 1]));
    }
  }

  /** Registers with an external laser that is on, no reference track, and the given mode and preheating. */
  function LaserOn(mode: int, preheating: int): Inputs {
    Inputs(ProcVars(0, 0, 0, 0, 0, 0, 0, 0, 0, 0, 0, 0, 0, 0, 1, 0, 0, 0, 0, 0, 0, 0, 0, 0, 1, 0, preheating, 0, 0),
           Board(mode, 1, 0, 0, 0, 0, 0), Metadata(0, 0, 0, 0, 0, 0), 0, false)
  }

  /** From the start of the loop three ticks lead through the closed loop straight into preheating. */
  lemma PreheatingReached(sqrt: real -> real, alarmTime: int, temperature: int, shutter: int)
    ensures var s, ins := Initial(sqrt, alarmTime, temperature, shutter), [LaserOn(1, 0), LaserOn(1, 0), LaserOn(0, 1)];
      && At(s, ins, 1).ctl.estado == Midiendo
      && At(s, ins, 2).ctl.estado == Controlling
      && At(s, ins, 3).ctl.estado == Preheating
  {
    var s, ins := Initial(sqrt, alarmTime, temperature, shutter), [LaserOn(1, 0), LaserOn(1, 0), LaserOn(0, 1)];
    var s1, s2 := At(s, ins, 1), At(s, ins, 2);
    assert At(s, ins, 0) == s;
    StepParts(s, ins[0]);
    StepParts(s1, ins[1]);
    StepParts(s2, ins[2]);
    assert s.ctl.mode == 0;
    hide Next, Step, FeedOf;
    StartsMeasuring(s.ctl, FeedOf(s, ins[0]));
    StartsControl(s1.ctl, FeedOf(s1, ins[1]));
    PreheatingEntered(s2.ctl, FeedOf(s2, ins[2]));
  }

  /** The loop starts in MANUAL with the laser off, nothing measured and no nap: in mode 0 the first tick puts out the
      manual power and is IDLE, even with the laser on. */
  lemma FirstTick(sqrt: real -> real, alarmTime: int, temperature: int, shutter: int, i: Inputs)
    requires i.mb.mode == 0 && i.v.powerLimitMin <= i.v.powerLimitMax
    ensures var s := Initial(sqrt, alarmTime, temperature, shutter);
      var d := Step(s, i).ctl;
      && d.estado == Idle && Limited(d.power, i.v.powerMan as real, i.v)
      && s.ctl.laser == 0 && s.win.w == 0.0 && s.nap.measurement == 0 && s.auto.register == 0
  {
    var s := Initial(sqrt, alarmTime, temperature, shutter);
    StepParts(s, i);
    FirstControlTick(s.ctl, FeedOf(s, i));
    hide *;
  }

  lemma FirstControlTick(c: Control, f: Feed)
    requires c.estado == Manual && c.mode == 0 == f.i.mb.mode && f.i.v.powerLimitMin <= f.i.v.powerLimitMax
    ensures Next(c, f).estado == Idle && Limited(Next(c, f).power, f.i.v.powerMan as real, f.i.v)
  {
    hide LaserStatus;
  }

  /** The PWM word is defined and within its 14 bits whenever the power limits lie in the power range. */
  lemma PwmInRange(s: State, i: Inputs)
    requires ValidState(s)
    requires MinPower(i.v) <= i.v.powerLimitMin as real && i.v.powerLimitMin <= i.v.powerLimitMax <= i.v.maxPower
    requires MinPower(i.v) < i.v.maxPower as real
    ensures var r := Step(s, i);
      && i.v.powerLimitMin as real <= r.ctl.power <= i.v.powerLimitMax as real
      && r.pwm.Some? && 0 <= r.pwm.value <= 16383
      && (r.ctl.power == i.v.maxPower as real ==> r.pwm.value == 16383)
      && (r.ctl.power == MinPower(i.v) ==> r.pwm.value == 0)
  {
    hide *;
    StepParts(s, i);
    PowerInLimits(s.ctl, FeedOf(s, i));
    PwmOfPower(Step(s, i).ctl.power, i.v);
  }

  lemma WordBounds(d: real, range: real, word: int)
    requires range > 0.0 && d >= 0.0
    requires word == Trunc(d)
    ensures word as real <= d < word as real + 1.0
  {
  }

  lemma DutyTimesRange(x: real, range: real)
    requires range > 0.0
    ensures Duty(x, range) * range == 16383.0 * x
  {
    DivideCancels(16383.0, range);
    assert Duty(x, range) * range == x * (16383.0 / range * range);
  }

  /** The word is x in 16383 parts of the range, rounded down. */
  predicate IsShare(word: int, x: real, range: real) {
    word as real * range <= 16383.0 * x < (word as real + 1.0) * range
  }

  /** The PWM word is the power's share of the power range in 16383 parts, rounded down. The lower end of the range
      is the 16-bit register read as a signed number. */
  lemma PwmShare(s: State, i: Inputs, low: int)
    requires ValidState(s)
    requires 0 <= i.v.minPower < 0x1_0000 && -0x8000 <= low < 0x8000 && (low - i.v.minPower) % 0x1_0000 == 0
    requires low <= i.v.powerLimitMin <= i.v.powerLimitMax <= i.v.maxPower && low < i.v.maxPower
    ensures var r := Step(s, i);
      && r.pwm.Some?
      && IsShare(r.pwm.value, r.ctl.power - low as real, (i.v.maxPower - low) as real)
  {
    SignedRegister(i.v, low);
    var power := Step(s, i).ctl.power;
    hide *;
    StepParts(s, i);
    PowerInLimits(s.ctl, FeedOf(s, i));
    PwmOfPower(power, i.v);
    PwmOfDuty(power, i.v, low);
  }

  lemma SignedRegister(v: ProcVars, low: int)
    requires 0 <= v.minPower < 0x1_0000 && -0x8000 <= low < 0x8000 && (low - v.minPower) % 0x1_0000 == 0
    ensures MinPower(v) == low as real
  {
  }

  lemma PwmOfDuty(power: real, v: ProcVars, low: int)
    requires MinPower(v) == low as real && low < v.maxPower
    requires PwmWord(power, v).Some? && power >= low as real
    ensures IsShare(PwmWord(power, v).value, power - low as real, (v.maxPower - low) as real)
  {
    var x, range := power - low as real, (v.maxPower - low) as real;
    assert PwmWord(power, v).value == Trunc(Duty(x, range));
    var w := PwmWord(power, v).value;
    hide Duty, PwmWord, Trunc, MinPower;
    DutyNonNegative(x, range);
    WordBounds(Duty(x, range), range, w);
    DutyTimesRange(x, range);
    ProductMonotone(w as real, Duty(x, range), range);
    ProductStrict(Duty(x, range), w as real + 1.0, range);
  }

  lemma DutyNonNegative(x: real, range: real)
    requires range > 0.0 && x >= 0.0
    ensures Duty(x, range) >= 0.0
  {
    var q := 16383.0 / range;
    DivideCancels(16383.0, range);
    FactorNonNegative(range, q);
    ProductMonotone(0.0, x, q);
  }

  lemma ProductStrict(x: real, y: real, z: real)
    requires x < y && z > 0.0
    ensures x * z < y * z
  {
    ProductPositive(y - x, z);
  }

  lemma PwmOfPower(power: real, v: ProcVars)
    requires MinPower(v) < v.maxPower as real
    requires MinPower(v) <= power <= v.maxPower as real
    ensures PwmWord(power, v).Some? && 0 <= PwmWord(power, v).value <= 16383
    ensures power == v.maxPower as real ==> PwmWord(power, v).value == 16383
    ensures power == MinPower(v) ==> PwmWord(power, v).value == 0
  {
    hide MinPower, Duty;
    DutyBounds(power - MinPower(v), v.maxPower as real - MinPower(v));
  }

  lemma DutyBounds(x: real, range: real)
    requires range > 0.0
    requires 0.0 <= x <= range
    ensures 0.0 <= Duty(x, range) <= 16383.0
    ensures x == range ==> Duty(x, range) == 16383.0
    ensures x == 0.0 ==> Duty(x, range) == 0.0
  {
    var q := 16383.0 / range;
    DivideCancels(16383.0, range);
    FactorNonNegative(range, q);
    ProductMonotone(0.0, x, q);
    ProductMonotone(x, range, q);
  }

  /** Writing the 16-bit track time v makes the closed loop start after exactly
      max(1, REFERENCE_TRACK * (100 v + 1)) counting ticks, preceded by the tick that sees the
      laser and the preheating. */
  lemma TrackTimeToControl(s: State, ins: seq<Inputs>, v: nat)
    requires ValidState(s)
    requires v < 0x1_0000
    requires SteadyApproach(FeedsOf(s, ins))
    requires s.ctl.estado == Idle && s.ctl.mode == 0
    requires LaserStatus(s.ctl.laser, ins[0]) != 0
    requires ins[0].mb.timeTrackHigh < WORD && ins[0].mb.timeTrackLow < WORD
    requires ins[0].mb.timeTrackHigh * WORD + ins[0].mb.timeTrackLow == v * 10_000_000
    requires |ins| == 1 + PreheatingTicks(ins[0].v) + MeasuringTicks(ins[0].mb.referenceTrack, 100 * v)
    ensures At(s, ins, |ins|).ctl.estado == Controlling
    ensures forall k :: 1 <= k < |ins| ==> At(s, ins, k).ctl.estado in {Preheating, Midiendo}
  {
    var feeds := FeedsOf(s, ins);
    assert feeds[0].i == ins[0];
    TrackTimeEndToEnd(v, ins[0].mb.timeTrackHigh, ins[0].mb.timeTrackLow);
    hide Step, TrackLength, SteadyApproach, MeasuringTicks, PreheatingTicks, LaserStatus, FeedsOf, At;
    forall k | 1 <= k <= |ins|
      ensures At(s, ins, k).ctl.estado == Controlling || At(s, ins, k).ctl.estado in {Preheating, Midiendo}
      ensures At(s, ins, k).ctl.estado == Controlling <==> k == |ins|
    {
      TimeToControl(s.ctl, feeds, k, PreheatingTicks(ins[0].v), ins[0].mb.referenceTrack, 100 * v);
      AutomatonOfRun(s, ins, k);
    }
  }

  // ---------------------------------------------------------------- a nap in the closed loop

  /** A nap is requested in the closed loop right after a computing tick; the laser stays on, no
      delay is pending, and END_OF_PROCESS is fixed. */
  ghost predicate NapInLoop(s: State, ins: seq<Inputs>, endOfProcess: int)
    requires ValidState(s)
  {
    && |ins| == NAP_DURATION
    && s.nap.measurement == 0 && (s.auto.register != 0 || ins[0].shutterRequest)
    && s.ctl.estado == Controlling && s.ctl.framesStop == 0
    && forall j :: 0 <= j < |ins| ==>
         && ins[j].mb.mode == s.ctl.mode
         && ins[j].v.endOfProcess == endOfProcess
         && TickKind(ControlAt(s.ctl, FeedsOf(s, ins), j), FeedsOf(s, ins)[j]) != Delayed
  }

  lemma NapInLoopRegisters(s: State, ins: seq<Inputs>, endOfProcess: int)
    requires ValidState(s)
    requires NapInLoop(s, ins, endOfProcess)
    ensures |ins| == NAP_DURATION
    ensures s.ctl.estado == Controlling && s.ctl.framesStop == 0
    ensures forall j :: 0 <= j < |ins| ==>
      FeedsOf(s, ins)[j].i.mb.mode == s.ctl.mode && FeedsOf(s, ins)[j].i.v.endOfProcess == endOfProcess
  {
    hide FeedsOf, Step, Next, TickKind, ControlAt, NextNap, NextWindow, Measuring, Requested;
  }

  /** The first 749 ticks of the nap are stopped ticks. */
  lemma NapTicksStop(s: State, ins: seq<Inputs>, endOfProcess: int, j: nat)
    requires ValidState(s)
    requires NapInLoop(s, ins, endOfProcess)
    requires j < NAP_DURATION - 1
    ensures TickKind(ControlAt(s.ctl, FeedsOf(s, ins), j), FeedsOf(s, ins)[j]) == Stopped
  {
    hide Next, NapStep, Requested, Step, FeedOf, FeedsOf, TrackTick, Prepare, ControlAt;
    ShutterTimeline(s, ins, j + 1);
    StepParts(At(s, ins, j), ins[j]);
  }

  lemma NapStops(s: State, ins: seq<Inputs>, endOfProcess: int, k: nat)
    requires ValidState(s)
    requires NapInLoop(s, ins, endOfProcess)
    requires k <= NAP_DURATION - 1
    ensures Stops(s.ctl, FeedsOf(s, ins), k) == k
    ensures Stalled(s.ctl, FeedsOf(s, ins), k, endOfProcess)
  {
    hide *;
    NapInLoopRegisters(s, ins, endOfProcess);
    forall j | 0 <= j < k ensures TickKind(ControlAt(s.ctl, FeedsOf(s, ins), j), FeedsOf(s, ins)[j]) == Stopped {
      NapTicksStop(s, ins, endOfProcess, j);
    }
    AllStopped(s.ctl, FeedsOf(s, ins), k, endOfProcess);
  }

  /** With the laser on and no delay, one whole nap cannot end the process if and only if
      END_OF_PROCESS is at least 748. */
  lemma NapSurvival(s: State, ins: seq<Inputs>, endOfProcess: int)
    requires ValidState(s)
    requires NapInLoop(s, ins, endOfProcess)
    ensures (forall k :: 0 <= k < NAP_DURATION ==> At(s, ins, k).ctl.estado == Controlling) <==> endOfProcess >= 748
  {
    var feeds := FeedsOf(s, ins);
    var last := EndingStops(endOfProcess);
    hide FeedsOf, At, Stalled, NapInLoop;
    NapInLoopRegisters(s, ins, endOfProcess);
    forall k | 0 <= k < NAP_DURATION && k <= last
      ensures At(s, ins, k).ctl.estado == if k < last then Controlling else Idle
    {
      NapStops(s, ins, endOfProcess, k);
      if k > 0 {
        NapStops(s, ins, endOfProcess, k - 1);
      }
      EndOfProcess(s.ctl, feeds, k, endOfProcess);
      AutomatonOfRun(s, ins, k);
    }
    if endOfProcess < 748 {
      assert At(s, ins, last).ctl.estado == Idle;
    }
  }
}
