/** When the control loop takes the laser to be on. */
module LaserRuns {
  import opened RealMath
  import opened Registers
  import opened ShutterNap
  import opened TrackTime
  import opened Automaton
  import opened AutomatonRuns
  import opened MeasuringRuns

  lemma LaserTick(c: Control, f: Feed)
    ensures Next(c, f).laser == LaserStatus(c.laser, f.i)
  {
    hide LaserStatus, TrackLength, Clamp, MeanWidth, PidLaw, Saturate, LimitSlew, IntegralLimit;
  }

  lemma {:induction false} LaserOfRun(c: Control, feeds: seq<Feed>, k: nat)
    requires k <= |feeds|
    ensures ControlAt(c, feeds, k).laser == LaserAt(c.laser, feeds, k)
  {
    hide Next, LaserStatus;
    if k == 0 {
    } else {
      LaserOfRun(c, feeds, k - 1);
      LaserTick(ControlAt(c, feeds, k - 1), feeds[k - 1]);
    }
  }

  /** With external control the status is the digital input. */
  lemma LaserExternal(c: Control, feeds: seq<Feed>, k: nat)
    requires 1 <= k <= |feeds|
    requires feeds[k - 1].i.v.laserExternal % 0x1_0000 != 0
    ensures ControlAt(c, feeds, k).laser == feeds[k - 1].i.mb.digitalIn0
  {
    LaserOfRun(c, feeds, k);
    hide ControlAt;
  }

  /** Detection from the intensity, with a threshold for going off that is not above the one for going on. */
  ghost predicate Detected(feeds: seq<Feed>, k: nat)
    requires k <= |feeds|
  {
    forall j :: 0 <= j < k ==>
      feeds[j].i.v.laserExternal % 0x1_0000 == 0 && feeds[j].i.mb.endOfTrack <= feeds[j].i.mb.startTrack
  }

  /** From tick j to tick k the intensity has never been below END_OF_TRACK. */
  ghost predicate Bright(feeds: seq<Feed>, j: nat, k: nat)
    requires k <= |feeds|
  {
    forall i :: j <= i < k ==> feeds[i].i.meta.m00 >= feeds[i].i.mb.endOfTrack
  }

  /** The intensity reached START_TRACK on some tick and has not been below END_OF_TRACK since. */
  ghost predicate Lighted(feeds: seq<Feed>, k: nat)
    requires k <= |feeds|
  {
    exists j :: 0 <= j < k && feeds[j].i.meta.m00 >= feeds[j].i.mb.startTrack && Bright(feeds, j + 1, k)
  }

  lemma LightedStep(feeds: seq<Feed>, k: nat)
    requires 1 <= k <= |feeds|
    ensures Lighted(feeds, k) <==>
      || feeds[k - 1].i.meta.m00 >= feeds[k - 1].i.mb.startTrack
      || (Lighted(feeds, k - 1) && feeds[k - 1].i.meta.m00 >= feeds[k - 1].i.mb.endOfTrack)
  {
    var f := feeds[k - 1];
    if f.i.meta.m00 >= f.i.mb.startTrack {
      assert Bright(feeds, k, k);
    }
    if Lighted(feeds, k - 1) && f.i.meta.m00 >= f.i.mb.endOfTrack {
      var j :| 0 <= j < k - 1 && feeds[j].i.meta.m00 >= feeds[j].i.mb.startTrack && Bright(feeds, j + 1, k - 1);
      assert Bright(feeds, j + 1, k);
    }
    if Lighted(feeds, k) && f.i.meta.m00 < f.i.mb.startTrack {
      var j :| 0 <= j < k && feeds[j].i.meta.m00 >= feeds[j].i.mb.startTrack && Bright(feeds, j + 1, k);
      assert Bright(feeds, j + 1, k - 1);
    }
  }

  /** Hysteresis, over every run with detection: the laser is on exactly when the intensity has reached START_TRACK
      and has not been below END_OF_TRACK since, or when it was on at the start and the intensity never was. */
  lemma {:induction false} LaserHysteresis(c: Control, feeds: seq<Feed>, k: nat)
    requires k <= |feeds|
    requires Detected(feeds, k)
    ensures ControlAt(c, feeds, k).laser != 0 <==> (c.laser != 0 && Bright(feeds, 0, k)) || Lighted(feeds, k)
    ensures ControlAt(c, feeds, k).laser in {0, 1, c.laser}
  {
    hide Next, Lighted;
    if k == 0 {
      NotLighted(feeds);
    } else {
      LaserHysteresis(c, feeds, k - 1);
      LaserTick(ControlAt(c, feeds, k - 1), feeds[k - 1]);
      LightedStep(feeds, k);
    }
  }

  lemma NotLighted(feeds: seq<Feed>)
    ensures !Lighted(feeds, 0)
  {
  }
}
