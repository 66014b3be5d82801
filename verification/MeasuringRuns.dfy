/** The reference width, the counting of tracks by laser edges, and the delay that a counted edge starts. */
module MeasuringRuns {
  import opened RealMath
  import opened Registers
  import opened ShutterNap
  import opened TrackTime
  import opened Automaton
  import opened AutomatonRuns

  // ---------------------------------------------------------------- reference width

  /** A measuring tick whose width counts: the laser is on and the first reference track has been reached. */
  predicate Measures(c: Control, f: Feed) {
    var d := TrackTick(Prepare(c, f.i, f.measuring), f.i, f.nap.measurement);
    Branch(c, f) == Midiendo && d.laser % 2 != 0 && d.track >= f.i.v.trackRefStart
  }

  function MeasuredNext(c: Control, f: Feed, ws: seq<real>): seq<real> {
    if Branch(c, f) != Midiendo then [] else if Measures(c, f) then ws + [f.w] else ws
  }

  /** The widths that counted in the current stay in the measuring state. */
  function Measured(c: Control, feeds: seq<Feed>, k: nat): seq<real>
    requires k <= |feeds|
  {
    if k == 0 then [] else MeasuredNext(ControlAt(c, feeds, k - 1), feeds[k - 1], Measured(c, feeds, k - 1))
  }

  /** The mean of the widths, 0 when none counted. */
  function MeanOf(ws: seq<real>): real {
    if ws == [] then 0.0 else Sum(ws) / |ws| as real
  }

  ghost predicate SoFar(c: Control, ws: seq<real>) {
    && (c.estado == Preheating ==> c.widthAux == 0.0 && ws == [])
    && (c.estado == Midiendo ==> c.widthAux == Sum(ws) && c.framesMeasured == |ws|)
  }

  /** The reference width with which a tick enters the closed loop. */
  function Reference(v: ProcVars, ws: seq<real>): real {
    if v.automeasure % 0x1_0000 == 1 then MeanOf(ws) else v.widthRef as real / 100.0
  }

  lemma SumAppend(ws: seq<real>, w: real)
    ensures Sum(ws + [w]) == Sum(ws) + w
  {
    assert (ws + [w])[..|ws|] == ws;
  }

  lemma MeanOfNothing()
    ensures MeanWidth(0.0, 1) == 0.0
  {
  }

  lemma EnterReference(c: Control, i: Inputs, ws: seq<real>)
    requires c.widthAux == Sum(ws) && c.framesMeasured == |ws|
    ensures EnterControl(c, i).estado == Controlling
    ensures EnterControl(c, i).widthRef == Reference(i.v, ws)
  {
    if ws == [] {
      MeanOfNothing();
    }
  }

  lemma TrackTickKeeps(d: Control, i: Inputs, napping: int)
    ensures var e := TrackTick(d, i, napping);
      e.estado == d.estado && e.widthAux == d.widthAux && e.framesMeasured == d.framesMeasured
  {
  }

  lemma MeasuringTick(d: Control, i: Inputs, napping: int, w: real, ws: seq<real>)
    requires d.widthAux == Sum(ws) && d.framesMeasured == |ws|
    ensures var r, e := MidiendoTick(d, i, napping, w), TrackTick(d, i, napping);
      var now := if e.laser % 2 != 0 && e.track >= i.v.trackRefStart then ws + [w] else ws;
      if e.track >= i.mb.referenceTrack then r.estado == Controlling && r.widthRef == Reference(i.v, now)
      else r.estado == d.estado && r.widthAux == Sum(now) && r.framesMeasured == |now|
  {
    hide Sum, TrackTick, EnterControl, Reference;
    SumAppend(ws, w);
    TrackTickKeeps(d, i, napping);
    var e := TrackTick(d, i, napping);
    var f, now := e.(power := i.v.powerMan as real), ws;
    if e.laser % 2 != 0 && e.track >= i.v.trackRefStart {
      f, now := f.(widthAux := e.widthAux + w, framesMeasured := e.framesMeasured + 1), ws + [w];
    }
    EnterReference(f, i, now);
  }

  lemma SoFarStep(c: Control, f: Feed, ws: seq<real>)
    requires SoFar(c, ws)
    ensures SoFar(Next(c, f), MeasuredNext(c, f, ws))
    ensures Next(c, f).estado == Controlling && c.estado != Controlling ==>
      Next(c, f).widthRef == Reference(f.i.v, MeasuredNext(c, f, ws))
  {
    if Branch(c, f) == Midiendo {
      var p := Prepare(c, f.i, f.measuring);
      MeasuringTick(p, f.i, f.nap.measurement, f.w, ws);
      hide Sum, TrackTick, Reference, MeanOf, MidiendoTick, LaserStatus;
    } else {
      assert Sum([]) == 0.0;
      hide Sum, TrackTick, Reference, MeanOf, LaserStatus, Compute, TrackLength;
      NotMeasuring(c, f);
    }
  }

  lemma NotMeasuring(c: Control, f: Feed)
    requires Branch(c, f) != Midiendo
    requires c.estado == Preheating ==> c.widthAux == 0.0
    ensures var d := Next(c, f);
      && (d.estado in {Preheating, Midiendo} ==> d.widthAux == 0.0)
      && (d.estado == Midiendo ==> d.framesMeasured == 0)
      && (d.estado == Controlling ==> c.estado == Controlling)
  {
    hide LaserStatus, TrackLength, MeanWidth, Clamp, PidLaw, Saturate, LimitSlew, IntegralLimit;
  }

  /** Over every run: the tick that enters the closed loop with automeasure set takes as its reference the mean
      of the widths of exactly those measuring ticks that had the laser on and had reached TRACK_REF_START,
      and 0 when there were none; without automeasure it takes the register. */
  lemma {:induction false} ReferenceWidth(c: Control, feeds: seq<Feed>, k: nat)
    requires k <= |feeds|
    requires c.estado !in {Preheating, Midiendo}
    ensures SoFar(ControlAt(c, feeds, k), Measured(c, feeds, k))
    ensures k > 0 && ControlAt(c, feeds, k - 1).estado != Controlling
            && ControlAt(c, feeds, k).estado == Controlling ==>
      ControlAt(c, feeds, k).widthRef == Reference(feeds[k - 1].i.v, Measured(c, feeds, k))
  {
    hide Next, SoFar, MeasuredNext, Reference;
    if k == 0 {
      SoFarStart(c);
    } else {
      ReferenceWidth(c, feeds, k - 1);
      SoFarStep(ControlAt(c, feeds, k - 1), feeds[k - 1], Measured(c, feeds, k - 1));
    }
  }

  lemma SoFarStart(c: Control)
    requires c.estado !in {Preheating, Midiendo}
    ensures SoFar(c, [])
  {
  }

  // ---------------------------------------------------------------- tracks by laser edges, mode 1

  /** The laser status after k ticks, from the registers alone. */
  function LaserAt(laser: int, feeds: seq<Feed>, k: nat): int
    requires k <= |feeds|
  {
    if k == 0 then laser else LaserStatus(LaserAt(laser, feeds, k - 1), feeds[k - 1].i)
  }

  /** A rising edge that counts: one detected from the image counts only outside a nap. */
  predicate Edge(before: int, now: int, f: Feed) {
    now > 0 && now != before && (External(f.i) || f.nap.measurement == 0)
  }

  /** Counted edges of the measuring and closed-loop ticks since the automaton last idled. */
  function Edges(c: Control, feeds: seq<Feed>, k: nat): nat
    requires k <= |feeds|
  {
    if k == 0 then 0
    else
      var e := Branch(ControlAt(c, feeds, k - 1), feeds[k - 1]);
      var before, now := LaserAt(c.laser, feeds, k - 1), LaserAt(c.laser, feeds, k);
      if Counting(e) then Edges(c, feeds, k - 1) + if Edge(before, now, feeds[k - 1]) then 1 else 0
      else if e == Preheating then Edges(c, feeds, k - 1)
      else 0
  }

  lemma EdgeStep(c: Control, f: Feed)
    requires f.i.mb.mode == 1 && c.lastLaser == c.laser
    ensures var d, e := Next(c, f), Branch(c, f);
      && d.laser == d.lastLaser == LaserStatus(c.laser, f.i)
      && (Counting(e) ==> d.track == c.track + if Edge(c.laser, d.laser, f) then 1 else 0)
      && (e == Preheating ==> d.track == c.track)
      && (e in {Idle, Manual} ==> d.track == 0)
      && (e == Midiendo ==> (d.estado == Controlling <==> d.track >= f.i.mb.referenceTrack))
  {
    hide LaserStatus, TrackLength, MeanWidth, Clamp, PidLaw, Saturate, LimitSlew, IntegralLimit;
  }

  /** In mode 1 the track number is the number of counted rising edges, and measuring ends on the tick on which
      that number reaches REFERENCE_TRACK. */
  lemma {:induction false} TracksAreEdges(c: Control, feeds: seq<Feed>, k: nat)
    requires k <= |feeds|
    requires forall j :: 0 <= j < k ==> feeds[j].i.mb.mode == 1
    requires c.track == 0 && c.lastLaser == c.laser
    ensures var d := ControlAt(c, feeds, k);
      && d.laser == d.lastLaser == LaserAt(c.laser, feeds, k)
      && d.track == Edges(c, feeds, k)
    ensures k > 0 && Branch(ControlAt(c, feeds, k - 1), feeds[k - 1]) == Midiendo ==>
      (ControlAt(c, feeds, k).estado == Controlling <==> Edges(c, feeds, k) >= feeds[k - 1].i.mb.referenceTrack)
  {
    hide Next, Branch, Edge, LaserStatus;
    if k == 0 {
    } else {
      TracksAreEdges(c, feeds, k - 1);
      EdgeStep(ControlAt(c, feeds, k - 1), feeds[k - 1]);
    }
  }

  // ---------------------------------------------------------------- delay after an edge

  predicate CountsEdge(c: Control, f: Feed) {
    f.i.mb.mode == 1 && Edge(c.lastLaser, LaserStatus(c.laser, f.i), f)
  }

  /** What a tick takes off a pending delay: a measuring tick takes one before the state switch and one in it. */
  function Taken(f: Feed): nat {
    if f.measuring then 2 else 1
  }

  function DelayLeft(delay: int, spent: nat): int {
    if delay <= 0 then delay else if delay > spent then delay - spent else 0
  }

  lemma DelayTick(c: Control, f: Feed)
    requires ControlBranch(c, f) && !CountsEdge(c, f)
    ensures Next(c, f).delay == DelayLeft(c.delay, Taken(f))
    ensures TickKind(c, f) == Delayed <==> c.delay >= Taken(f)
  {
    hide LaserStatus, Clamp, PidLaw, Saturate, LimitSlew, IntegralLimit;
  }

  lemma DelayStarts(c: Control, f: Feed)
    requires ControlBranch(c, f) && CountsEdge(c, f)
    ensures Next(c, f).delay == DelayLeft(f.i.v.delayLaserOn, 1)
    ensures TickKind(c, f) == Delayed <==> f.i.v.delayLaserOn >= 1
  {
    hide LaserStatus, Clamp, PidLaw, Saturate, LimitSlew, IntegralLimit;
  }

  /** What the first k ticks take off. */
  function Spent(feeds: seq<Feed>, k: nat): nat
    requires k <= |feeds|
  {
    if k == 0 then 0 else Spent(feeds, k - 1) + Taken(feeds[k - 1])
  }

  /** Over every stretch of closed-loop ticks without a counted edge: measuring ticks take two off the delay and
      nap ticks one, and a tick is delayed exactly when the delay covers all that has been taken with it. */
  lemma {:induction false} DelayRun(c: Control, feeds: seq<Feed>, k: nat)
    requires k <= |feeds|
    requires ControlRun(c, feeds, k)
    requires forall j :: 0 <= j < k ==> !CountsEdge(ControlAt(c, feeds, j), feeds[j])
    ensures ControlAt(c, feeds, k).delay == DelayLeft(c.delay, Spent(feeds, k))
    ensures k > 0 ==> (TickKind(ControlAt(c, feeds, k - 1), feeds[k - 1]) == Delayed <==> c.delay >= Spent(feeds, k))
  {
    hide Next, ControlBranch, CountsEdge, TickKind;
    if k == 0 {
    } else {
      DelayRun(c, feeds, k - 1);
      DelayTick(ControlAt(c, feeds, k - 1), feeds[k - 1]);
    }
  }

  /** So a register value D delays the tick of the edge and the measuring ticks after it for ceil(D / 2) ticks in
      all, not D: tick k, counted from 1 at the edge, is delayed exactly when 2 * k <= D + 1. */
  lemma {:induction false} DelayLasts(c: Control, feeds: seq<Feed>, k: nat)
    requires 1 <= k <= |feeds|
    requires ControlRun(c, feeds, k)
    requires CountsEdge(c, feeds[0])
    requires forall j :: 1 <= j < k ==> feeds[j].measuring && !CountsEdge(ControlAt(c, feeds, j), feeds[j])
    ensures ControlAt(c, feeds, k).delay == DelayLeft(feeds[0].i.v.delayLaserOn, 2 * k - 1)
    ensures TickKind(ControlAt(c, feeds, k - 1), feeds[k - 1]) == Delayed <==> 2 * k <= feeds[0].i.v.delayLaserOn + 1
  {
    hide Next, ControlBranch, CountsEdge, TickKind;
    if k == 1 {
      assert ControlAt(c, feeds, 0) == c;
      DelayStarts(c, feeds[0]);
    } else {
      DelayLasts(c, feeds, k - 1);
      DelayTick(ControlAt(c, feeds, k - 1), feeds[k - 1]);
    }
  }

  // ---------------------------------------------------------------- the way to the closed loop

  /** A mode change with the laser on and no preheating starts measuring at once. */
  lemma StartsMeasuring(c: Control, f: Feed)
    requires f.i.mb.mode != c.mode && f.i.mb.mode != 2
    requires LaserStatus(c.laser, f.i) != 0 && f.i.v.preheatingEna == 0
    ensures Next(c, f).estado == Midiendo && Next(c, f).mode == f.i.mb.mode
  {
    hide LaserStatus, TrackLength, Clamp;
  }

  lemma StartsControl(c: Control, f: Feed)
    requires c.estado == Midiendo && f.i.mb.mode == c.mode && f.i.mb.referenceTrack <= 0
    ensures Next(c, f).estado == Controlling && Next(c, f).mode == c.mode
  {
    hide LaserStatus, Clamp, MeanWidth;
  }
}
