/** The shutter nap: close, wait, update the sensor offset, open, wait. */
module ShutterNap {

  const WAIT_START_CALIBRATION := 150
  const WAIT_STOP_CALIBRATION := 100
  const WAIT_SECOND_APERTURE := 400
  const NAP_DURATION := 750

  /** The three nap counters, the shutter register (non-zero is closed), and whether this tick
      wrote 1 to the offset-update register, which its reader clears. */
  datatype Nap = Nap(measurement: int, control: int, calibration: int, shutter: int, offsetUpdate: bool)

  /** A request starts a nap only when none is running. */
  function Request(n: Nap, requested: bool): Nap {
    if requested && n.measurement == 0 then
      n.(measurement := NAP_DURATION, control := NAP_DURATION,
         calibration := WAIT_START_CALIBRATION + 1 + WAIT_STOP_CALIBRATION + WAIT_SECOND_APERTURE,
         shutter := 1)
    else n
  }

  function Elapse(n: Nap): Nap {
    if n.measurement == 0 then n.(offsetUpdate := false)
    else
      var opens := n.calibration <= 0 && n.shutter != 0;
      Nap(n.measurement - 1, n.control - 1, n.calibration - 1,
          if opens then 0 else n.shutter,
          !opens && n.calibration == 1 + WAIT_STOP_CALIBRATION + WAIT_SECOND_APERTURE)
  }

  function NapStep(n: Nap, requested: bool): Nap {
    Elapse(Request(n, requested))
  }

  function NapAt(n: Nap, requests: seq<bool>, k: nat): Nap
    requires k <= |requests|
  {
    if k == 0 then n else NapStep(NapAt(n, requests, k - 1), requests[k - 1])
  }

  /** Naps started in the first k ticks. */
  function Starts(n: Nap, requests: seq<bool>, k: nat): nat
    requires k <= |requests|
  {
    if k == 0 then 0
    else
      Starts(n, requests, k - 1) + if requests[k - 1] && NapAt(n, requests, k - 1).measurement == 0 then 1 else 0
  }

  /** What holds after every tick. `early` says that the shutter was closed when the loop started and no
      nap has opened it yet. */
  ghost predicate Timed(n: Nap, early: bool) {
    && n.measurement == n.control
    && 0 <= n.measurement < NAP_DURATION
    && (n.measurement > 0 ==> n.calibration == n.measurement - 99)
    && (early ==> n.measurement == 0)
    && (n.shutter != 0 <==> n.measurement >= 99 || early)
    && (n.offsetUpdate <==> n.measurement == 599)
  }

  lemma {:induction false} NapAlwaysTimed(n: Nap, requests: seq<bool>, k: nat, early: bool)
    requires k <= |requests|
    requires Timed(n, early)
    ensures Timed(NapAt(n, requests, k), early && Starts(n, requests, k) == 0)
  {
    if k == 0 {
    } else {
      NapAlwaysTimed(n, requests, k - 1, early);
    }
  }

  /** The whole timeline of a nap, whatever is requested meanwhile. Tick k closes the shutter up to
      its 651st tick, raises the offset update at its 151st, and the nap is over after 750. */
  lemma {:induction false} NapTimeline(n: Nap, requests: seq<bool>, k: nat)
    requires 1 <= k <= |requests| && k <= NAP_DURATION
    requires n.measurement == 0 && requests[0]
    ensures NapAt(n, requests, k)
      == Nap(NAP_DURATION - k, NAP_DURATION - k, 651 - k, if k <= 651 then 1 else 0, k == 151)
  {
    if k == 1 {
      assert NapAt(n, requests, 0) == n;
    } else {
      NapTimeline(n, requests, k - 1);
    }
  }

  /** Offset updates raised in the first k ticks. */
  function Raises(n: Nap, requests: seq<bool>, k: nat): nat
    requires k <= |requests|
  {
    if k == 0 then 0 else Raises(n, requests, k - 1) + if NapAt(n, requests, k).offsetUpdate then 1 else 0
  }

  /** Every nap raises exactly one offset update, always behind a closed shutter. */
  lemma {:induction false} OneUpdatePerNap(n: Nap, requests: seq<bool>, k: nat, early: bool)
    requires k <= |requests|
    requires Timed(n, early) && n.measurement == 0
    ensures var now := NapAt(n, requests, k);
      && Starts(n, requests, k) == Raises(n, requests, k) + (if now.measurement >= 600 then 1 else 0)
      && (now.offsetUpdate ==> now.shutter != 0)
  {
    if k == 0 {
    } else {
      OneUpdatePerNap(n, requests, k - 1, early);
      NapAlwaysTimed(n, requests, k - 1, early);
    }
  }
}
