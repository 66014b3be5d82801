/** The automatic shutter: requests raised by elapsed time or temperature drift. */
module AutoShutter {
  import opened RealMath
  import opened Registers
  import opened Automaton

  const WORD32 := 0x1_0000_0000

  /** register is the shared request register, which the loop itself clears on the next tick. */
  datatype Auto = Auto(register: int, temperatureLast: real, countLast: int, pending: bool, current: real)

  function ConfigBit(i: Inputs, k: nat): bool {
    if k == 0 then i.v.autoshutterConfig % 2 == 1
    else if k == 1 then i.v.autoshutterConfig / 2 % 2 == 1
    else i.v.autoshutterConfig / 8 % 2 == 1
  }

  function TimeTarget(i: Inputs): int {
    i.v.autoshutterTimer * 10000 % WORD32
  }

  /** A request clears the register; if it starts a nap the drift references restart. */
  function Acknowledge(a: Auto, requested: bool, starts: bool): Auto {
    var b := if requested then a.(register := 0) else a;
    if starts then b.(countLast := 0, temperatureLast := a.current) else b
  }

  function Drift(a: Auto, i: Inputs): Auto {
    var count := (a.countLast + 1) % WORD32;
    var current := i.temperature as real / 10.0;
    if ConfigBit(i, 3) then
      if TimeTarget(i) < count then a.(current := current, pending := true, countLast := 0)
      else a.(current := current, countLast := count)
    else if i.v.autoshutterTemp as real / 10.0 < Abs(a.temperatureLast - current) then
      a.(current := current, pending := true, countLast := 0, temperatureLast := current)
    else a.(current := current, countLast := count)
  }

  predicate MayRaise(estado: Estado, i: Inputs) {
    match estado
    case Manual => ConfigBit(i, 0)
    case Idle => ConfigBit(i, 0)
    case Preheating => false
    case Midiendo => ConfigBit(i, 0) && ConfigBit(i, 1)
    case Controlling => ConfigBit(i, 0) && ConfigBit(i, 1)
  }

  function Raise(a: Auto, estado: Estado, i: Inputs): Auto {
    if MayRaise(estado, i) && a.pending then a.(register := 1, pending := false) else a
  }

  function AutoStep(a: Auto, requested: bool, starts: bool, estado: Estado, i: Inputs): Auto {
    Raise(Drift(Acknowledge(a, requested, starts), i), estado, i)
  }

  /** What a tick feeds the automatic shutter: whether a request started a nap, the state at the
      end of the switch, and the registers. */
  datatype AutoFeed = AutoFeed(starts: bool, estado: Estado, i: Inputs)

  function AutoAt(a: Auto, feeds: seq<AutoFeed>, k: nat): Auto
    requires k <= |feeds|
  {
    if k == 0 then a
    else
      var b := AutoAt(a, feeds, k - 1);
      AutoStep(b, b.register != 0, feeds[k - 1].starts, feeds[k - 1].estado, feeds[k - 1].i)
  }

  // ---------------------------------------------------------------- when a request falls due

  /** A tick on which a pending request may be raised. */
  predicate Permits(f: AutoFeed) {
    MayRaise(f.estado, f.i)
  }

  /** Outside the process bit 0 of the configuration permits a request, in it bits 0 and 1 together; preheating never
      does. */
  lemma PermitsWhen(f: AutoFeed)
    ensures var config := f.i.v.autoshutterConfig;
      Permits(f) <==>
        || (f.estado in {Manual, Idle} && config % 2 == 1)
        || (f.estado in {Midiendo, Controlling} && config % 4 == 3)
  {
  }

  function Temperature(f: AutoFeed): real {
    f.i.temperature as real / 10.0
  }

  /** The allowed drift of the temperature. */
  function Band(f: AutoFeed): real {
    f.i.v.autoshutterTemp as real / 10.0
  }

  /** Ticks since the last request fell due or a nap started, the reference temperature, the last reading. */
  datatype Watch = Watch(elapsed: int, reference: real, current: real)

  /** A tick passes; a nap that starts on it restarts the time and takes the last reading as reference. */
  function Advance(w: Watch, f: AutoFeed): Watch {
    Watch(((if f.starts then 0 else w.elapsed) + 1) % WORD32,
          if f.starts then w.current else w.reference,
          Temperature(f))
  }

  /** The time is up, or the temperature has left the band around its reference. */
  predicate Due(w: Watch, f: AutoFeed) {
    if ConfigBit(f.i, 3) then TimeTarget(f.i) < w.elapsed else Band(f) < Abs(w.reference - w.current)
  }

  function Settle(w: Watch, f: AutoFeed): Watch {
    if !Due(w, f) then w else Watch(0, if ConfigBit(f.i, 3) then w.reference else w.current, w.current)
  }

  function WatchAt(a: Auto, feeds: seq<AutoFeed>, k: nat): Watch
    requires k <= |feeds|
  {
    if k == 0 then Watch(a.countLast, a.temperatureLast, a.current)
    else Settle(Advance(WatchAt(a, feeds, k - 1), feeds[k - 1]), feeds[k - 1])
  }

  /** The ticks on which a request falls due. */
  function Dues(a: Auto, feeds: seq<AutoFeed>): (dues: seq<bool>)
    ensures |dues| == |feeds|
    ensures forall j :: 0 <= j < |feeds| ==> dues[j] == Due(Advance(WatchAt(a, feeds, j), feeds[j]), feeds[j])
  {
    seq(|feeds|, j requires 0 <= j < |feeds| => Due(Advance(WatchAt(a, feeds, j), feeds[j]), feeds[j]))
  }

  /** At tick k a request waits that fell due on this tick or earlier, and no tick in between has permitted it. */
  ghost predicate Waits(dues: seq<bool>, feeds: seq<AutoFeed>, k: nat)
    requires k <= |dues| == |feeds|
  {
    exists j :: 0 <= j < k && dues[j] && forall i :: j <= i < k - 1 ==> !Permits(feeds[i])
  }

  lemma WaitsStep(dues: seq<bool>, feeds: seq<AutoFeed>, k: nat)
    requires 1 <= k <= |dues| == |feeds|
    ensures Waits(dues, feeds, k)
      <==> dues[k - 1] || (k > 1 && Waits(dues, feeds, k - 1) && !Permits(feeds[k - 2]))
  {
    hide Permits;
    if k > 1 && Waits(dues, feeds, k - 1) && !Permits(feeds[k - 2]) {
      var j :| 0 <= j < k - 1 && dues[j] && forall i :: j <= i < k - 2 ==> !Permits(feeds[i]);
      assert forall i :: j <= i < k - 1 ==> !Permits(feeds[i]);
    }
    if Waits(dues, feeds, k) && !dues[k - 1] {
      var j :| 0 <= j < k && dues[j] && forall i :: j <= i < k - 1 ==> !Permits(feeds[i]);
      assert !Permits(feeds[k - 2]);
      assert forall i :: j <= i < k - 2 ==> !Permits(feeds[i]);
    }
  }

  ghost predicate Watches(b: Auto, w: Watch) {
    b.countLast == w.elapsed && b.temperatureLast == w.reference && b.current == w.current
  }

  lemma RaiseStep(b: Auto, f: AutoFeed, w: Watch)
    requires Watches(b, w)
    ensures var c, v := AutoStep(b, b.register != 0, f.starts, f.estado, f.i), Advance(w, f);
      && Watches(c, Settle(v, f))
      && (c.register != 0 <==> Permits(f) && (b.pending || Due(v, f)))
      && (c.pending <==> !Permits(f) && (b.pending || Due(v, f)))
  {
    hide ConfigBit, TimeTarget, MayRaise, Abs;
  }

  /** For every configuration, changing or not, every pattern of naps and every sequence of states: after a tick
      the request register is set exactly when that tick permits a request and one has been waiting, and a
      request stays pending exactly while none of the ticks since it fell due has permitted it. */
  lemma {:induction false} RequestsRaised(a: Auto, feeds: seq<AutoFeed>, k: nat)
    requires k <= |feeds|
    requires !a.pending
    ensures var b, waits := AutoAt(a, feeds, k), Waits(Dues(a, feeds), feeds, k);
      && Watches(b, WatchAt(a, feeds, k))
      && (k > 0 ==> (b.register != 0 <==> Permits(feeds[k - 1]) && waits))
      && (b.pending <==> k > 0 && !Permits(feeds[k - 1]) && waits)
  {
    hide AutoStep, Waits, Watches, Permits, Due, Advance, Settle, Dues;
    if k == 0 {
      WatchesStart(a, feeds);
    } else {
      RequestsRaised(a, feeds, k - 1);
      RaiseStep(AutoAt(a, feeds, k - 1), feeds[k - 1], WatchAt(a, feeds, k - 1));
      WaitsStep(Dues(a, feeds), feeds, k);
    }
  }

  lemma WatchesStart(a: Auto, feeds: seq<AutoFeed>)
    ensures Watches(a, WatchAt(a, feeds, 0))
  {
  }

  // ---------------------------------------------------------------- timer mode

  ghost predicate TimerMode(feeds: seq<AutoFeed>, target: int) {
    forall j :: 0 <= j < |feeds| ==> ConfigBit(feeds[j].i, 3) && TimeTarget(feeds[j].i) == target
  }

  /** Ticks since the timer last ran out or a nap was started. */
  function Phase(feeds: seq<AutoFeed>, target: nat, k: nat): (p: nat)
    requires k <= |feeds|
    ensures p <= target
  {
    if k == 0 then 0
    else
      var p := if feeds[k - 1].starts then 0 else Phase(feeds, target, k - 1);
      if p == target then 0 else p + 1
  }

  /** The ticks on which the timer runs out. */
  function RunOuts(feeds: seq<AutoFeed>, target: nat): (outs: seq<bool>)
    ensures |outs| == |feeds|
    ensures forall j :: 0 <= j < |feeds| ==>
      outs[j] == ((if feeds[j].starts then 0 else Phase(feeds, target, j)) == target)
  {
    seq(|feeds|, j requires 0 <= j < |feeds| => (if feeds[j].starts then 0 else Phase(feeds, target, j)) == target)
  }

  lemma TimerDue(w: Watch, f: AutoFeed, target: nat)
    requires target < WORD32 - 1 && 0 <= w.elapsed <= target
    requires ConfigBit(f.i, 3) && TimeTarget(f.i) == target
    ensures var p, v := if f.starts then 0 else w.elapsed, Advance(w, f);
      (Due(v, f) <==> p == target) && Settle(v, f).elapsed == if p == target then 0 else p + 1
  {
    hide ConfigBit, TimeTarget;
  }

  lemma {:induction false} TimerWatch(a: Auto, feeds: seq<AutoFeed>, target: nat, k: nat)
    requires target < WORD32 - 1
    requires TimerMode(feeds, target)
    requires a.countLast == 0
    requires k <= |feeds|
    ensures WatchAt(a, feeds, k).elapsed == Phase(feeds, target, k)
    ensures k > 0 ==> Dues(a, feeds)[k - 1] == RunOuts(feeds, target)[k - 1]
  {
    hide ConfigBit, TimeTarget, Due, Advance, Settle, Dues, RunOuts;
    if k == 0 {
    } else {
      var w, f := WatchAt(a, feeds, k - 1), feeds[k - 1];
      TimerWatch(a, feeds, target, k - 1);
      TimerDue(w, f, target);
      assert WatchAt(a, feeds, k) == Settle(Advance(w, f), f);
      hide WatchAt;
    }
  }

  /** In timer mode, for every pattern of naps and every sequence of states: a request falls due target + 1 ticks
      after the timer last ran out or a nap was started, and is raised on the first tick that permits it. */
  lemma TimerRuns(a: Auto, feeds: seq<AutoFeed>, target: nat, k: nat)
    requires target < WORD32 - 1
    requires TimerMode(feeds, target)
    requires !a.pending && a.countLast == 0
    requires k <= |feeds|
    ensures var b, waits := AutoAt(a, feeds, k), Waits(RunOuts(feeds, target), feeds, k);
      && b.countLast == Phase(feeds, target, k)
      && (k > 0 ==> (b.register != 0 <==> Permits(feeds[k - 1]) && waits))
      && (b.pending <==> k > 0 && !Permits(feeds[k - 1]) && waits)
  {
    hide TimerMode, Waits, Permits, WatchAt, AutoAt, Dues, RunOuts;
    forall j | 0 <= j < |feeds| ensures Dues(a, feeds)[j] == RunOuts(feeds, target)[j] {
      TimerWatch(a, feeds, target, j + 1);
    }
    assert Dues(a, feeds) == RunOuts(feeds, target);
    TimerWatch(a, feeds, target, k);
    RequestsRaised(a, feeds, k);
  }

  /** When every tick permits a request, the register is set after exactly the ticks on which the timer runs out. */
  lemma TimerAlwaysPermitted(a: Auto, feeds: seq<AutoFeed>, target: nat, k: nat)
    requires target < WORD32 - 1
    requires TimerMode(feeds, target)
    requires !a.pending && a.countLast == 0
    requires forall j :: 0 <= j < |feeds| ==> Permits(feeds[j])
    requires 1 <= k <= |feeds|
    ensures !AutoAt(a, feeds, k).pending
    ensures AutoAt(a, feeds, k).register != 0 <==> RunOuts(feeds, target)[k - 1]
  {
    hide TimerMode, Permits, Waits, RunOuts, AutoAt;
    TimerRuns(a, feeds, target, k);
    WaitsStep(RunOuts(feeds, target), feeds, k);
  }

  function Mod(k: nat, n: nat): nat
    requires n > 0
  {
    k % n
  }

  lemma PhaseStep(k: nat, n: nat)
    requires n > 0
    ensures Mod(k + 1, n) == if Mod(k, n) == n - 1 then 0 else Mod(k, n) + 1
  {
    var q, r := k / n, k % n;
    assert k == q * n + r;
    if r == n - 1 {
      assert k + 1 == (q + 1) * n;
      Remainder(k + 1, q + 1, 0, n);
    } else {
      Remainder(k + 1, q, r + 1, n);
    }
  }

  lemma Remainder(k: nat, q: nat, r: nat, n: nat)
    requires r < n && k == q * n + r
    ensures k % n == r
  {
    var p := k / n;
    assert k == p * n + k % n;
    if p > q {
      ProductOrder(q + 1, p, n);
    } else if p < q {
      ProductOrder(p + 1, q, n);
    }
  }

  lemma ModOfZero(n: nat)
    requires n > 0
    ensures Mod(0, n) == 0
  {
  }

  /** Every nap starts just after the timer has run out. */
  ghost predicate NapsInPhase(feeds: seq<AutoFeed>, target: nat) {
    forall j :: 0 <= j < |feeds| && feeds[j].starts ==> Phase(feeds, target, j) == 0
  }

  lemma PhaseAdvances(feeds: seq<AutoFeed>, target: nat, k: nat)
    requires NapsInPhase(feeds, target)
    requires 1 <= k <= |feeds|
    ensures var p := Phase(feeds, target, k - 1);
      && Phase(feeds, target, k) == (if p == target then 0 else p + 1)
      && RunOuts(feeds, target)[k - 1] == (p == target)
  {
    hide RunOuts;
  }

  lemma {:induction false} PhaseIsRemainder(feeds: seq<AutoFeed>, target: nat, k: nat)
    requires NapsInPhase(feeds, target)
    requires k <= |feeds|
    ensures Phase(feeds, target, k) == Mod(k, target + 1)
    ensures k > 0 ==> (RunOuts(feeds, target)[k - 1] <==> Phase(feeds, target, k) == 0)
  {
    hide RunOuts, Mod, NapsInPhase;
    if k == 0 {
      ModOfZero(target + 1);
    } else {
      PhaseIsRemainder(feeds, target, k - 1);
      PhaseAdvances(feeds, target, k);
      PhaseStep(k - 1, target + 1);
    }
  }

  lemma RunOutResets(feeds: seq<AutoFeed>, target: nat, k: nat)
    requires 1 <= k <= |feeds|
    ensures RunOuts(feeds, target)[k - 1] ==> Phase(feeds, target, k) == 0
  {
    hide RunOuts;
  }

  /** When every tick permits a request and every nap that starts was asked for by the register, the register is
      set exactly every target + 1 ticks, for ever, whether or not a request finds a nap already running. */
  lemma TimerPeriod(a: Auto, feeds: seq<AutoFeed>, target: nat, k: nat)
    requires target < WORD32 - 1
    requires TimerMode(feeds, target)
    requires !a.pending && a.countLast == 0
    requires forall j :: 0 <= j < |feeds| ==> Permits(feeds[j])
    requires forall j :: 0 <= j < |feeds| && feeds[j].starts ==> AutoAt(a, feeds, j).register != 0
    requires k <= |feeds|
    ensures AutoAt(a, feeds, k).countLast == k % (target + 1)
    ensures k > 0 ==> (AutoAt(a, feeds, k).register != 0 <==> k % (target + 1) == 0)
  {
    hide TimerMode, Permits, Waits, RunOuts, AutoAt;
    forall j | 0 <= j < |feeds| && feeds[j].starts ensures Phase(feeds, target, j) == 0 {
      if j > 0 {
        TimerAlwaysPermitted(a, feeds, target, j);
        RunOutResets(feeds, target, j);
      }
    }
    hide Phase;
    PhaseIsRemainder(feeds, target, k);
    TimerRuns(a, feeds, target, k);
    if k > 0 {
      TimerAlwaysPermitted(a, feeds, target, k);
    }
  }

  // ---------------------------------------------------------------- drift mode

  ghost predicate DriftMode(feeds: seq<AutoFeed>, band: real) {
    forall j :: 0 <= j < |feeds| ==> !ConfigBit(feeds[j].i, 3) && Band(feeds[j]) == band
  }

  /** The reading after k ticks. */
  function ReadingAt(a: Auto, feeds: seq<AutoFeed>, k: nat): real
    requires k <= |feeds|
  {
    if k == 0 then a.current else Temperature(feeds[k - 1])
  }

  /** The reading at the last drift, or the one before the last nap if that came later. */
  function ReferenceAt(a: Auto, feeds: seq<AutoFeed>, band: real, k: nat): real
    requires k <= |feeds|
  {
    if k == 0 then a.temperatureLast
    else
      var base := if feeds[k - 1].starts then ReadingAt(a, feeds, k - 1) else ReferenceAt(a, feeds, band, k - 1);
      if Abs(ReadingAt(a, feeds, k) - base) > band then ReadingAt(a, feeds, k) else base
  }

  /** The reading of tick k lies outside the band around the reference that it finds. */
  predicate Drifts(a: Auto, feeds: seq<AutoFeed>, band: real, k: nat)
    requires 1 <= k <= |feeds|
  {
    var base := if feeds[k - 1].starts then ReadingAt(a, feeds, k - 1) else ReferenceAt(a, feeds, band, k - 1);
    Abs(ReadingAt(a, feeds, k) - base) > band
  }

  function DriftTicks(a: Auto, feeds: seq<AutoFeed>, band: real): (drifts: seq<bool>)
    ensures |drifts| == |feeds|
    ensures forall j :: 0 <= j < |feeds| ==> drifts[j] == Drifts(a, feeds, band, j + 1)
  {
    seq(|feeds|, j requires 0 <= j < |feeds| => Drifts(a, feeds, band, j + 1))
  }

  lemma {:induction false} DriftWatch(a: Auto, feeds: seq<AutoFeed>, band: real, k: nat)
    requires DriftMode(feeds, band)
    requires k <= |feeds|
    ensures WatchAt(a, feeds, k).reference == ReferenceAt(a, feeds, band, k)
    ensures WatchAt(a, feeds, k).current == ReadingAt(a, feeds, k)
    ensures k > 0 ==> Dues(a, feeds)[k - 1] == DriftTicks(a, feeds, band)[k - 1]
  {
    hide ConfigBit, Band, Temperature, Dues, DriftTicks;
    if k == 0 {
    } else {
      DriftWatch(a, feeds, band, k - 1);
      var f := feeds[k - 1];
      var v := Advance(WatchAt(a, feeds, k - 1), f);
      assert Band(f) == band && !ConfigBit(f.i, 3) && v.current == ReadingAt(a, feeds, k);
      assert Due(v, f) <==> Drifts(a, feeds, band, k);
      assert WatchAt(a, feeds, k) == Settle(v, f);
    }
  }

  /** In drift mode, for every pattern of naps and every sequence of states: a request falls due exactly when the
      temperature has left the band around its reference, is raised on the first tick that permits it, and the
      reading is inside the band of the new reference after every tick. */
  lemma DriftRuns(a: Auto, feeds: seq<AutoFeed>, band: real, k: nat)
    requires DriftMode(feeds, band)
    requires !a.pending
    requires k <= |feeds|
    ensures var b, waits := AutoAt(a, feeds, k), Waits(DriftTicks(a, feeds, band), feeds, k);
      && b.temperatureLast == ReferenceAt(a, feeds, band, k)
      && (k > 0 && band >= 0.0 ==> Abs(b.current - b.temperatureLast) <= band)
      && (k > 0 ==> (b.register != 0 <==> Permits(feeds[k - 1]) && waits))
      && (b.pending <==> k > 0 && !Permits(feeds[k - 1]) && waits)
  {
    hide DriftMode, Waits, Permits, WatchAt, AutoAt, Dues, DriftTicks, Drifts;
    forall j | 0 <= j < |feeds| ensures Dues(a, feeds)[j] == DriftTicks(a, feeds, band)[j] {
      DriftWatch(a, feeds, band, j + 1);
    }
    assert Dues(a, feeds) == DriftTicks(a, feeds, band);
    DriftWatch(a, feeds, band, k);
    RequestsRaised(a, feeds, k);
  }
}
