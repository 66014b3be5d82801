/** The derivative limiter: its output follows the input no faster than a maximum slope. */
module DerivativeLimiter {
  import opened RealMath

  function ClipSlope(slope: real, max: real): real {
    if Abs(slope) > max then if slope < 0.0 then -max else max else slope
  }

  /** The slope towards the target, clipped. A zero interval makes the slope infinite, so it is clipped. */
  function Slope(output: real, value: real, max: real, interval: real): real {
    if interval == 0.0 then if value < output then -max else max
    else ClipSlope((value - output) / interval, max)
  }

  /** The output after one input. */
  function Limit(output: real, value: real, max: real, interval: real): real {
    if output == value then output else Slope(output, value, max, interval) * interval + output
  }

  /** The same on floating-point values: a NaN on either side stays NaN for good. */
  function LimitFloat(output: Float, value: Float, max: real, interval: real): Float {
    if output.Num? && value.Num? then Num(Limit(output.r, value.r, max, interval)) else NaN
  }

  class Limiter {
    var output: Float
    var derivativeMax: real

    /** The source leaves the first output unset; it is a parameter here. */
    constructor (limit: real, initial: Float)
      ensures derivativeMax == Abs(limit) && output == initial
    {
      derivativeMax := Abs(limit);
      output := initial;
    }

    /** interval is the time since the previous input that differed from the output. */
    method InputSet(value: Float, interval: real) returns (emitted: bool)
      modifies this`output
      ensures output == LimitFloat(old(output), value, derivativeMax, interval)
      ensures emitted <==> !Same(old(output), value)
    {
      emitted := false;
      if !Same(output, value) {
        if output.NaN? || value.NaN? {
          output := NaN;
        } else if interval == 0.0 {
          var slope := if value.r < output.r then 0.0 - derivativeMax else derivativeMax;
          output := Num(slope * interval + output.r);
        } else {
          var slope := (value.r - output.r) / interval;
          if Abs(slope) > derivativeMax {
            if slope < 0.0 {
              slope := 0.0 - derivativeMax;
            } else {
              slope := derivativeMax;
            }
          }
          output := Num(slope * interval + output.r);
        }
        emitted := true;
      }
    }
  }

  /** What remains to be moved, in terms of the slope q towards a target at distance d. */
  lemma ClippedRemainder(d: real, interval: real, max: real, q: real, c: real, left: real)
    requires max >= 0.0 && interval * q == d
    requires Abs(q) > max && c == (if q < 0.0 then -max else max)
    requires left == d - c * interval
    ensures Abs(left) == Abs(d) - max * Abs(interval)
  {
    AbsProduct(q, interval, d);
    assert left == (q - c) * interval;
    AbsProduct(q - c, interval, left);
    assert Abs(q - c) == Abs(q) - max;
    Subtract(Abs(q), max, Abs(interval));
  }

  lemma Subtract(a: real, b: real, t: real)
    ensures (a - b) * t == a * t - b * t
  {
  }

  lemma ClippedDistance(d: real, interval: real, max: real, q: real, moved: real)
    requires max >= 0.0 && interval * q == d
    requires moved == ClipSlope(q, max) * interval
    ensures Abs(d - moved) == Max(0.0, Abs(d) - max * Abs(interval))
  {
    SlopeCovers(d, interval, max, q);
    if Abs(q) > max {
      ClippedRemainder(d, interval, max, q, ClipSlope(q, max), d - moved);
    } else {
      assert moved == d;
    }
  }

  /** The slope is within the maximum exactly when the allowance covers the distance. */
  lemma SlopeCovers(d: real, interval: real, max: real, q: real)
    requires max >= 0.0 && interval * q == d
    ensures Abs(q) <= max ==> Abs(d) <= max * Abs(interval)
    ensures Abs(q) >= max ==> Abs(d) >= max * Abs(interval)
  {
    assert Abs(interval) >= 0.0;
    hide Abs;
    AbsProduct(q, interval, d);
    if Abs(q) <= max {
      ProductMonotone(Abs(q), max, Abs(interval));
    }
    if Abs(q) >= max {
      ProductMonotone(max, Abs(q), Abs(interval));
    }
  }

  /** One input shortens the distance to the target by exactly max * |interval|, stopping at zero. */
  lemma LimitDistance(output: real, value: real, max: real, interval: real)
    requires max >= 0.0
    ensures Abs(value - Limit(output, value, max, interval)) == Max(0.0, Abs(value - output) - max * Abs(interval))
  {
    hide ClipSlope;
    ProductMonotone(0.0, max, Abs(interval));
    if output != value && interval != 0.0 {
      var q := (value - output) / interval;
      DivideCancels(value - output, interval);
      ClippedDistance(value - output, interval, max, q, ClipSlope(q, max) * interval);
    }
  }

  /** A factor between 0 and q keeps the product between 0 and q * t. */
  lemma ShrinkProduct(c: real, q: real, t: real)
    requires 0.0 <= c <= q || q <= c <= 0.0
    ensures 0.0 <= c * t <= q * t || q * t <= c * t <= 0.0
  {
    if t >= 0.0 {
      OrderedProduct(c, q, t);
    } else {
      OrderedProduct(c, q, -t);
      assert c * -t == -(c * t) && q * -t == -(q * t);
    }
  }

  lemma OrderedProduct(c: real, q: real, t: real)
    requires t >= 0.0
    ensures 0.0 <= c <= q ==> 0.0 <= c * t <= q * t
    ensures q <= c <= 0.0 ==> q * t <= c * t <= 0.0
  {
    if 0.0 <= c <= q {
      ProductMonotone(0.0, c, t);
      ProductMonotone(c, q, t);
    } else if q <= c <= 0.0 {
      ProductMonotone(c, 0.0, t);
      ProductMonotone(q, c, t);
    }
  }

  lemma ClippedMove(d: real, interval: real, max: real, q: real, moved: real)
    requires max >= 0.0 && interval * q == d
    requires moved == ClipSlope(q, max) * interval
    ensures 0.0 <= moved <= d || d <= moved <= 0.0
    ensures Abs(moved) <= max * Abs(interval)
  {
    var c := ClipSlope(q, max);
    ShrinkProduct(c, q, interval);
    AbsProduct(c, interval, moved);
    ProductMonotone(Abs(c), max, Abs(interval));
  }

  /** The output stays between its old value and the target, and moves no faster than the maximum slope. */
  lemma LimitBetween(output: real, value: real, max: real, interval: real)
    requires max >= 0.0
    ensures var r := Limit(output, value, max, interval); output <= r <= value || value <= r <= output
    ensures Abs(Limit(output, value, max, interval) - output) <= max * Abs(interval)
  {
    hide ClipSlope;
    ProductMonotone(0.0, max, Abs(interval));
    if output != value && interval != 0.0 {
      var q := (value - output) / interval;
      DivideCancels(value - output, interval);
      ClippedMove(value - output, interval, max, q, ClipSlope(q, max) * interval);
    }
  }

  /** The limiter never moves away from its target exactly when the maximum slope is not negative. */
  lemma LimitApproaches(max: real)
    ensures (forall output, value, interval ::
        Abs(value - Limit(output, value, max, interval)) <= Abs(value - output)) <==> max >= 0.0
  {
    if max >= 0.0 {
      forall output, value, interval ensures Abs(value - Limit(output, value, max, interval)) <= Abs(value - output) {
        LimitDistance(output, value, max, interval);
        ProductMonotone(0.0, max, Abs(interval));
      }
    } else {
      assert Limit(0.0, 1.0, max, 1.0) == max;
    }
  }

  // ---------------------------------------------------------------- runs towards a fixed target

  function LimitAt(output: real, value: real, max: real, intervals: seq<real>, k: nat): real
    requires k <= |intervals|
  {
    if k == 0 then output else Limit(LimitAt(output, value, max, intervals, k - 1), value, max, intervals[k - 1])
  }

  /** The distance the first k inputs allow. */
  function Allowance(max: real, intervals: seq<real>, k: nat): real
    requires k <= |intervals|
  {
    if k == 0 then 0.0 else Allowance(max, intervals, k - 1) + max * Abs(intervals[k - 1])
  }

  /** Towards a fixed target the remaining distance is the initial one less the summed allowance. */
  lemma {:induction false} LimitRun(output: real, value: real, max: real, intervals: seq<real>, k: nat)
    requires k <= |intervals|
    requires max >= 0.0
    ensures Allowance(max, intervals, k) >= 0.0
    ensures Abs(value - LimitAt(output, value, max, intervals, k))
      == Max(0.0, Abs(value - output) - Allowance(max, intervals, k))
  {
    hide Limit;
    if k == 0 {
    } else {
      LimitRun(output, value, max, intervals, k - 1);
      LimitDistance(LimitAt(output, value, max, intervals, k - 1), value, max, intervals[k - 1]);
      ProductMonotone(0.0, max, Abs(intervals[k - 1]));
    }
  }

  /** So the output has arrived exactly when the allowance covers the initial distance, and it stays. */
  lemma LimitArrives(output: real, value: real, max: real, intervals: seq<real>, k: nat)
    requires k <= |intervals|
    requires max >= 0.0
    ensures LimitAt(output, value, max, intervals, k) == value <==> Abs(value - output) <= Allowance(max, intervals, k)
    ensures forall j :: 0 <= j <= k && LimitAt(output, value, max, intervals, j) == value ==>
      LimitAt(output, value, max, intervals, k) == value
  {
    hide LimitAt, Allowance;
    LimitRun(output, value, max, intervals, k);
    forall j | 0 <= j <= k && LimitAt(output, value, max, intervals, j) == value
      ensures LimitAt(output, value, max, intervals, k) == value
    {
      LimitRun(output, value, max, intervals, j);
      AllowanceGrows(max, intervals, j, k);
    }
  }

  lemma {:induction false} AllowanceGrows(max: real, intervals: seq<real>, j: nat, k: nat)
    requires j <= k <= |intervals|
    requires max >= 0.0
    ensures Allowance(max, intervals, j) <= Allowance(max, intervals, k)
  {
    if j == k {
    } else {
      AllowanceGrows(max, intervals, j, k - 1);
      ProductMonotone(0.0, max, Abs(intervals[k - 1]));
    }
  }
}
