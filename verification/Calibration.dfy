/** Two-point calibration of the sensor and the correction of frames. */
module Calibration {
  import opened RealMath

  /** The fixed-point unit of the two tables. */
  const K := 16383

  /** Storing an integer in a signed 32-bit or 16-bit variable, as two's complement. */
  function Int32(x: int): int {
    (x + 0x8000_0000) % 0x1_0000_0000 - 0x8000_0000
  }

  function Int16(x: int): int {
    (x + 0x8000) % 0x1_0000 - 0x8000
  }

  predicate Fits32(x: int) {
    -0x8000_0000 <= x < 0x8000_0000
  }

  predicate Fits16(x: int) {
    -0x8000 <= x < 0x8000
  }

  /** A frame or a table is stored row by row. */
  function Index(row: nat, col: nat, width: nat): nat {
    row * width + col
  }

  function Pixels(width: nat, height: nat): nat {
    height * width
  }

  lemma IndexBound(row: nat, col: nat, width: nat, height: nat)
    requires row < height && col < width
    ensures Index(row, col, width) < Pixels(width, height)
    ensures Index(row, col + 1, width) == Index(row, col, width) + 1
  {
    assert (row + 1) * width <= height * width;
    assert (row + 1) * width == row * width + width;
  }

  lemma RowBound(row: nat, width: nat, height: nat)
    requires row <= height
    ensures Index(0, 0, width) == 0 && Index(height, 0, width) == Pixels(width, height)
    ensures Index(row, 0, width) <= Pixels(width, height)
    ensures Index(row + 1, 0, width) == Index(row, width, width)
  {
    assert row * width <= height * width;
    assert (row + 1) * width == row * width + width;
  }

  function Total(s: seq<int>): real {
    if s == [] then 0.0 else Total(s[..|s| - 1]) + s[|s| - 1] as real
  }

  function Mean(s: seq<int>): real
    requires s != []
  {
    Total(s) / |s| as real
  }

  /** The line through (x0, y0) and (x1, y1). */
  function Gain(x0: real, x1: real, y0: real, y1: real): real
    requires x0 != x1
  {
    (y1 - y0) / (x1 - x0)
  }

  function Bias(x0: real, x1: real, y0: real, y1: real): real
    requires x0 != x1
  {
    y1 - Gain(x0, x1, y0, y1) * x1
  }

  function FixedPoint(x: real): int {
    Int32(Trunc(x * K as real))
  }

  /** The table entries of a live pixel. */
  function ScaleEntry(x0: int, x1: int, y0: real, y1: real): int
    requires x0 != x1
  {
    FixedPoint(Gain(x0 as real, x1 as real, y0, y1))
  }

  function OffsetEntry(x0: int, x1: int, y0: real, y1: real): int
    requires x0 != x1
  {
    FixedPoint(Bias(x0 as real, x1 as real, y0, y1))
  }

  function CorrectPixel(x: int, scale: int, offset: int): int {
    Int16(Trunc(Int32(x * scale + offset) as real / K as real))
  }

  /** A corrected frame: the first n pixels are corrected, the rest keep what the target held. */
  ghost predicate Corrected(result: seq<int>, target: seq<int>, source: seq<int>,
                            scale: seq<int>, offset: seq<int>, n: nat)
    requires n <= |target| && n <= |source| && n <= |scale| && n <= |offset|
  {
    && |result| == |target|
    && (forall p :: 0 <= p < n ==> result[p] == CorrectPixel(source[p], scale[p], offset[p]))
    && (forall p :: n <= p < |target| ==> result[p] == target[p])
  }

  /** Tables after calibrating the first n pixels: live pixels are fitted, dead ones keep their entries. */
  ghost predicate Calibrated(scale: seq<int>, offset: seq<int>, oldScale: seq<int>, oldOffset: seq<int>,
                             low: seq<int>, high: seq<int>, y0: real, y1: real, n: nat)
    requires n <= |low| && n <= |high| && n <= |oldScale| && n <= |oldOffset|
  {
    && |scale| == |oldScale| && |offset| == |oldOffset|
    && (forall p :: 0 <= p < n && low[p] != high[p] ==>
          scale[p] == ScaleEntry(low[p], high[p], y0, y1) && offset[p] == OffsetEntry(low[p], high[p], y0, y1))
    && (forall p :: 0 <= p < n && low[p] == high[p] ==> scale[p] == oldScale[p] && offset[p] == oldOffset[p])
    && (forall p :: n <= p < |scale| ==> scale[p] == oldScale[p])
    && (forall p :: n <= p < |offset| ==> offset[p] == oldOffset[p])
  }

  /** A pixel that the reset reaches in its first `rows` rows and `cols` pixels of the next one. The
      reset runs through `height` columns of every row. */
  ghost predicate Reached(p: int, width: nat, height: nat, rows: nat, cols: nat) {
    exists row: nat, col: nat ::
      col < height && (row < rows || (row == rows && col < cols)) && p == Index(row, col, width)
  }

  ghost predicate ResetTo(now: seq<int>, before: seq<int>, value: int, width: nat, height: nat, rows: nat, cols: nat) {
    && |now| == |before|
    && forall p :: 0 <= p < |now| ==> now[p] == if Reached(p, width, height, rows, cols) then value else before[p]
  }

  class SensorCorrection {
    const width: nat
    const height: nat
    const frameMin: array<int>
    const frameMax: array<int>
    const scale: array<int>
    const offset: array<int>

    ghost predicate Holds(length: nat) {
      Pixels(width, height) <= length
    }

    /** The four arrays hold a frame, and no table is one of the frames. */
    ghost predicate Valid() {
      && Holds(frameMin.Length) && Holds(frameMax.Length) && Holds(scale.Length) && Holds(offset.Length)
      && frameMin != scale && frameMin != offset
      && frameMax != scale && frameMax != offset && scale != offset
    }

    lemma Separate()
      requires Valid()
      ensures Pixels(width, height) <= frameMin.Length && Pixels(width, height) <= frameMax.Length
      ensures Pixels(width, height) <= scale.Length && Pixels(width, height) <= offset.Length
      ensures frameMin != scale && frameMin != offset && frameMax != scale && frameMax != offset && scale != offset
    {
    }

    /** An array reaches as far as the reset writes. */
    ghost predicate Extends(length: nat) {
      height > 0 ==> Index(height - 1, height, width) <= length
    }

    ghost predicate Resettable() {
      && Extends(frameMin.Length) && Extends(frameMax.Length) && Extends(scale.Length) && Extends(offset.Length)
      && frameMin != frameMax && frameMin != scale && frameMin != offset
      && frameMax != scale && frameMax != offset && scale != offset
    }

    /** The two stored frames have the same mean, which an update takes for an error. */
    ghost predicate EqualMeans()
      requires Valid()
      reads frameMin, frameMax
    {
      var n := Pixels(width, height);
      n > 0 && Mean(frameMin[..n]) == Mean(frameMax[..n])
    }

    constructor (width: nat, height: nat, frameMin: array<int>, frameMax: array<int>,
                 scale: array<int>, offset: array<int>)
      ensures this.width == width && this.height == height
      ensures this.frameMin == frameMin && this.frameMax == frameMax && this.scale == scale && this.offset == offset
    {
      this.width, this.height := width, height;
      this.frameMin, this.frameMax, this.scale, this.offset := frameMin, frameMax, scale, offset;
    }

    method AverageOf(frame: array<int>) returns (mean: real)
      requires 0 < Pixels(width, height) <= frame.Length
      ensures mean == Mean(frame[..Pixels(width, height)])
    {
      hide Index, Pixels;
      mean := 0.0;
      var row := 0;
      RowBound(0, width, height);
      while row < height
        invariant 0 <= row <= height
        invariant Index(row, 0, width) <= Pixels(width, height)
        invariant mean == Total(frame[..Index(row, 0, width)])
      {
        var col := 0;
        while col < width
          invariant 0 <= col <= width
          invariant Index(row, col, width) <= Pixels(width, height)
          invariant mean == Total(frame[..Index(row, col, width)])
        {
          IndexBound(row, col, width, height);
          var index := Index(row, col, width);
          assert frame[..index + 1][..index] == frame[..index];
          mean := mean + frame[index] as real;
          col := col + 1;
        }
        RowBound(row, width, height);
        row := row + 1;
      }
      RowBound(height, width, height);
      mean := mean / Pixels(width, height) as real;
    }

    method Reset()
      requires Resettable()
      modifies frameMin, frameMax, scale, offset
      ensures ResetTo(frameMin[..], old(frameMin[..]), 0, width, height, height, 0)
      ensures ResetTo(frameMax[..], old(frameMax[..]), 0, width, height, height, 0)
      ensures ResetTo(scale[..], old(scale[..]), K, width, height, height, 0)
      ensures ResetTo(offset[..], old(offset[..]), 0, width, height, height, 0)
    {
      hide ResetTo;
      ResetNothing(frameMin[..], 0, width, height);
      ResetNothing(frameMax[..], 0, width, height);
      ResetNothing(scale[..], K, width, height);
      ResetNothing(offset[..], 0, width, height);
      var row := 0;
      while row < height
        invariant 0 <= row <= height
        invariant ResetTo(frameMin[..], old(frameMin[..]), 0, width, height, row, 0)
        invariant ResetTo(frameMax[..], old(frameMax[..]), 0, width, height, row, 0)
        invariant ResetTo(scale[..], old(scale[..]), K, width, height, row, 0)
        invariant ResetTo(offset[..], old(offset[..]), 0, width, height, row, 0)
      {
        var col := 0;
        while col < height
          invariant 0 <= col <= height
          invariant ResetTo(frameMin[..], old(frameMin[..]), 0, width, height, row, col)
          invariant ResetTo(frameMax[..], old(frameMax[..]), 0, width, height, row, col)
          invariant ResetTo(scale[..], old(scale[..]), K, width, height, row, col)
          invariant ResetTo(offset[..], old(offset[..]), 0, width, height, row, col)
        {
          var index := row * width + col;
          ResetBound(row, col, width, height);
          ResetPixel(frameMin[..], old(frameMin[..]), 0, width, height, row, col);
          ResetPixel(frameMax[..], old(frameMax[..]), 0, width, height, row, col);
          ResetPixel(scale[..], old(scale[..]), K, width, height, row, col);
          ResetPixel(offset[..], old(offset[..]), 0, width, height, row, col);
          frameMax[index] := 0;
          frameMin[index] := 0;
          scale[index] := K;
          offset[index] := 0;
          col := col + 1;
        }
        ResetRow(frameMin[..], old(frameMin[..]), 0, width, height, row);
        ResetRow(frameMax[..], old(frameMax[..]), 0, width, height, row);
        ResetRow(scale[..], old(scale[..]), K, width, height, row);
        ResetRow(offset[..], old(offset[..]), 0, width, height, row);
        row := row + 1;
      }
    }

    /** Fit every live pixel so that its two samples map to the two frame means. */
    method FitPixels(y0: real, y1: real)
      requires Valid()
      modifies scale, offset
      ensures Calibrated(scale[..], offset[..], old(scale[..]), old(offset[..]), frameMin[..], frameMax[..],
                         y0, y1, Pixels(width, height))
    {
      hide ScaleEntry, OffsetEntry, Index, Pixels, Valid;
      Separate();
      var row := 0;
      RowBound(0, width, height);
      while row < height
        invariant 0 <= row <= height
        invariant Index(row, 0, width) <= Pixels(width, height)
        invariant Calibrated(scale[..], offset[..], old(scale[..]), old(offset[..]), frameMin[..], frameMax[..],
                             y0, y1, Index(row, 0, width))
      {
        var col := 0;
        while col < width
          invariant 0 <= col <= width
          invariant Index(row, col, width) <= Pixels(width, height)
          invariant Calibrated(scale[..], offset[..], old(scale[..]), old(offset[..]), frameMin[..], frameMax[..],
                               y0, y1, Index(row, col, width))
        {
          IndexBound(row, col, width, height);
          var index := Index(row, col, width);
          var x0, x1 := frameMin[index], frameMax[index];
          if x0 != x1 {
            scale[index] := ScaleEntry(x0, x1, y0, y1);
            offset[index] := OffsetEntry(x0, x1, y0, y1);
          }
          col := col + 1;
        }
        RowBound(row, width, height);
        row := row + 1;
      }
      RowBound(height, width, height);
    }

    /** Recompute the tables from the two stored frames. Equal means are an error and reset the tables. */
    method CalibrateUpdate() returns (status: int)
      requires Valid()
      requires EqualMeans() ==> Resettable()
      modifies frameMin, frameMax, scale, offset
      ensures Pixels(width, height) == 0 ==> status == 0 && unchanged(frameMin, frameMax, scale, offset)
      ensures Pixels(width, height) > 0 ==>
        var n := Pixels(width, height);
        var y0, y1 := old(Mean(frameMin[..n])), old(Mean(frameMax[..n]));
        if y0 == y1 then
          && status == -1
          && ResetTo(scale[..], old(scale[..]), K, width, height, height, 0)
          && ResetTo(offset[..], old(offset[..]), 0, width, height, height, 0)
          && ResetTo(frameMin[..], old(frameMin[..]), 0, width, height, height, 0)
          && ResetTo(frameMax[..], old(frameMax[..]), 0, width, height, height, 0)
        else
          && status == 0 && unchanged(frameMin, frameMax)
          && Calibrated(scale[..], offset[..], old(scale[..]), old(offset[..]), frameMin[..], frameMax[..], y0, y1, n)
    {
      hide ResetTo, Calibrated, Mean, Pixels;
      if Pixels(width, height) == 0 {
        return 0;
      }
      var meanMin := AverageOf(frameMin);
      var meanMax := AverageOf(frameMax);
      if meanMin == meanMax {
        Reset();
        return -1;
      }
      FitPixels(meanMin, meanMax);
      return 0;
    }

    /** Correct a frame. The target may be the source itself. */
    method ProcessEval(target: array<int>, source: array<int>)
      requires Holds(scale.Length) && Holds(offset.Length)
      requires target != scale && target != offset
      requires Pixels(width, height) <= target.Length && Pixels(width, height) <= source.Length
      modifies target
      ensures Corrected(target[..], old(target[..]), old(source[..]), scale[..], offset[..], Pixels(width, height))
    {
      hide CorrectPixel, Index, Pixels;
      var row := 0;
      RowBound(0, width, height);
      while row < height
        invariant 0 <= row <= height
        invariant Index(row, 0, width) <= Pixels(width, height)
        invariant Corrected(target[..], old(target[..]), old(source[..]), scale[..], offset[..], Index(row, 0, width))
        invariant forall p :: Index(row, 0, width) <= p < source.Length ==> source[p] == old(source[p])
      {
        var col := 0;
        while col < width
          invariant 0 <= col <= width
          invariant Index(row, col, width) <= Pixels(width, height)
          invariant Corrected(target[..], old(target[..]), old(source[..]), scale[..], offset[..],
                              Index(row, col, width))
          invariant forall p :: Index(row, col, width) <= p < source.Length ==> source[p] == old(source[p])
        {
          IndexBound(row, col, width, height);
          var index := Index(row, col, width);
          target[index] := CorrectPixel(source[index], scale[index], offset[index]);
          col := col + 1;
        }
        RowBound(row, width, height);
        row := row + 1;
      }
      RowBound(height, width, height);
    }

    /** Calibrate, and correct the two frames it was calibrated on into two other arrays: every live pixel
        comes out close to the mean of its frame, at the low and at the high exposure. */
    method CorrectOwnFrames(low: array<int>, high: array<int>) returns (status: int)
      requires Valid()
      requires EqualMeans() ==> Resettable()
      requires Pixels(width, height) <= low.Length && Pixels(width, height) <= high.Length && low != high
      requires low != scale && low != offset && low != frameMin && low != frameMax
      requires high != scale && high != offset && high != frameMin && high != frameMax
      modifies frameMin, frameMax, scale, offset, low, high
      ensures status == if old(EqualMeans()) then -1 else 0
      ensures status == 0 && Pixels(width, height) > 0 ==>
        var n := Pixels(width, height);
        var x0, x1 := old(frameMin[..]), old(frameMax[..]);
        var y0, y1 := Mean(x0[..n]), Mean(x1[..n]);
        AllClose(low[..], x0, x0, x1, y0, y0, y1, n) && AllClose(high[..], x1, x0, x1, y1, y0, y1, n)
    {
      hide Calibrated, Corrected, ResetTo, AllClose, Mean, Pixels, Resettable;
      ghost var n := Pixels(width, height);
      ghost var x0, x1 := frameMin[..], frameMax[..];
      ghost var oldScale, oldOffset := scale[..], offset[..];
      assert x0[..n] == frameMin[..n] && x1[..n] == frameMax[..n];
      status := CalibrateUpdate();
      if status != 0 {
        return;
      }
      ghost var tables := (scale[..], offset[..]);
      assert frameMin[..] == x0 && frameMax[..] == x1;
      ghost var target0, target1 := low[..], high[..];
      ProcessEval(low, frameMin);
      assert Corrected(low[..], target0, x0, tables.0, tables.1, n);
      assert frameMax[..] == x1 && high[..] == target1 && scale[..] == tables.0 && offset[..] == tables.1;
      ghost var result0 := low[..];
      ProcessEval(high, frameMax);
      assert low[..] == result0;
      if n > 0 {
        ghost var y0, y1 := Mean(x0[..n]), Mean(x1[..n]);
        assert Calibrated(tables.0, tables.1, oldScale, oldOffset, x0, x1, y0, y1, n);
        CorrectedClose(low[..], target0, x0, tables.0, tables.1, oldScale, oldOffset, x0, x1, y0, y0, y1, n);
        CorrectedClose(high[..], target1, x1, tables.0, tables.1, oldScale, oldOffset, x0, x1, y1, y0, y1, n);
      }
    }
  }

  lemma ResetNothing(s: seq<int>, value: int, width: nat, height: nat)
    ensures ResetTo(s, s, value, width, height, 0, 0)
  {
  }

  lemma ResetBound(row: nat, col: nat, width: nat, height: nat)
    requires row < height && col < height
    ensures Index(row, col, width) < Index(height - 1, height, width)
  {
    assert row * width <= (height - 1) * width;
  }

  lemma ResetPixel(now: seq<int>, before: seq<int>, value: int, width: nat, height: nat, row: nat, col: nat)
    requires ResetTo(now, before, value, width, height, row, col)
    requires col < height && Index(row, col, width) < |now|
    ensures ResetTo(now[Index(row, col, width) := value], before, value, width, height, row, col + 1)
  {
    hide Index;
    forall p: int ensures Reached(p, width, height, row, col + 1)
      <==> Reached(p, width, height, row, col) || p == Index(row, col, width) {
    }
  }

  lemma ResetRow(now: seq<int>, before: seq<int>, value: int, width: nat, height: nat, row: nat)
    requires ResetTo(now, before, value, width, height, row, height)
    ensures ResetTo(now, before, value, width, height, row + 1, 0)
  {
    hide Index;
    forall p: int ensures Reached(p, width, height, row + 1, 0) <==> Reached(p, width, height, row, height) {
    }
  }

  /** The reset reaches every pixel exactly when the frame has at least as many rows as columns. */
  lemma ResetComplete(width: nat, height: nat)
    ensures (forall p :: 0 <= p < Pixels(width, height) ==> Reached(p, width, height, height, 0))
      <==> height == 0 || width <= height
  {
    if 0 < height < width {
      ResetMisses(width, height);
    } else {
      forall p: int | 0 <= p < Pixels(width, height) ensures Reached(p, width, height, height, 0) {
        RowOf(p, width, height);
        assert p == Index(p / width, p % width, width);
      }
    }
  }

  /** In frame-sized arrays the reset stays inside exactly when the frame has no more rows than columns. */
  lemma ResetInBounds(width: nat, height: nat)
    ensures (forall p :: Reached(p, width, height, height, 0) ==> p < Pixels(width, height)) <==> height <= width
  {
    if height <= width {
      forall p | Reached(p, width, height, height, 0) ensures p < Pixels(width, height) {
        var row: nat, col: nat :| col < height && row < height && p == Index(row, col, width);
        IndexBound(row, col, width, height);
      }
    } else {
      var p := Index(height - 1, height - 1, width);
      assert Reached(p, width, height, height, 0);
      assert height * width == (height - 1) * width + width;
    }
  }

  lemma ResetMisses(width: nat, height: nat)
    requires 0 < height < width
    ensures height < Pixels(width, height) && !Reached(height, width, height, height, 0)
  {
    ProductOrder(1, height, width);
    forall row: nat, col: nat | col < height ensures height != Index(row, col, width) {
      if row > 0 {
        ProductOrder(1, row, width);
      }
    }
    hide Index;
  }

  lemma RowOf(p: nat, width: nat, height: nat)
    requires p < Pixels(width, height)
    ensures width > 0 && p / width < height
  {
    if height <= p / width {
      ProductOrder(height, p / width, width);
    }
  }

  // ---------------------------------------------------------------- error of the fixed-point correction

  lemma TruncError(x: real)
    ensures Abs(Trunc(x) as real - x) < 1.0
  {
  }

  lemma ProductError(x: real, e: real, u: real)
    requires Abs(e) <= 1.0 && u == x * e
    ensures Abs(u) <= Abs(x)
  {
    ProductMonotone(Abs(e), 1.0, Abs(x));
    AbsProduct(x, e, u);
  }

  lemma DivideError(d: real, bound: real, k: real)
    requires k > 0.0
    requires Abs(d) < bound
    ensures Abs(d / k) < bound / k
  {
    DivideCancels(d, k);
    DivideCancels(bound, k);
    if d / k >= bound / k {
      ProductMonotone(bound / k, d / k, k);
    }
    if -(d / k) >= bound / k {
      ProductMonotone(bound / k, -(d / k), k);
      assert -(d / k) * k == -(k * (d / k));
    }
  }

  /** The quantities of one fixed-point correction fit their machine types. */
  predicate Fits(x: int, gain: real, bias: real) {
    var s, o := Trunc(gain * K as real), Trunc(bias * K as real);
    && Fits32(s) && Fits32(o) && Fits32(x * s) && Fits32(x * s + o)
    && Fits16(Trunc(Quotient(x, s, o)))
  }

  /** A line through fixed-point coefficients that are off by less than one unit. */
  lemma FixedPointError(x: real, s: real, o: real, a: real, b: real, y: real, k: real)
    requires k > 0.0
    requires x * a + b == k * y
    requires Abs(s - a) < 1.0 && Abs(o - b) < 1.0
    ensures Abs((x * s + o) / k - y) < (Abs(x) + 1.0) / k
  {
    var u := x * (s - a);
    var d := u + (o - b);
    var q := x * s + o;
    ProductError(x, s - a, u);
    TriangleLess(u, o - b, Abs(x), 1.0);
    DivideError(d, Abs(x) + 1.0, k);
    ErrorSplit(x, s, o, a, b);
    QuotientOfSum(q, y, d, k);
  }

  lemma TriangleLess(u: real, f: real, p: real, q: real)
    requires Abs(u) <= p && Abs(f) < q
    ensures Abs(u + f) < p + q
  {
  }

  lemma ErrorSplit(x: real, s: real, o: real, a: real, b: real)
    ensures x * s + o == (x * a + b) + (x * (s - a) + (o - b))
  {
  }

  lemma QuotientOfSum(q: real, y: real, d: real, k: real)
    requires k > 0.0 && q == k * y + d
    ensures q / k == y + d / k
  {
    DivideCancels(d, k);
    DivideCancels(y + d / k, k);
    assert k * (y + d / k) == q;
  }

  lemma ScaledLine(x: real, gain: real, bias: real, k: real, y: real)
    requires y == gain * x + bias
    ensures x * (gain * k) + bias * k == k * y
  {
  }

  lemma RealOfProduct(x: int, s: int, o: int)
    ensures (x * s + o) as real == x as real * s as real + o as real
  {
  }

  /** The corrected value before it is stored as an integer. */
  function Quotient(x: int, s: int, o: int): real {
    (x * s + o) as real / K as real
  }

  /** How far a fixed-point correction of sample x may be from the exact line before truncation. */
  function Tolerance(x: int): real {
    (Abs(x as real) + 1.0) / 16383.0
  }

  lemma FittingWords(x: int, gain: real, bias: real)
    requires Fits(x, gain, bias)
    ensures CorrectPixel(x, FixedPoint(gain), FixedPoint(bias))
      == Trunc(Quotient(x, Trunc(gain * K as real), Trunc(bias * K as real)))
  {
    var s, o := Trunc(gain * K as real), Trunc(bias * K as real);
    hide Trunc;
    var v := x * s + o;
    assert Int32(s) == s && Int32(o) == o && Int32(v) == v;
  }

  lemma QuotientError(x: int, gain: real, bias: real, y: real)
    requires y == gain * x as real + bias
    ensures Abs(Quotient(x, Trunc(gain * K as real), Trunc(bias * K as real)) - y) < Tolerance(x)
  {
    var k := K as real;
    var a, b := gain * k, bias * k;
    var s, o := Trunc(a), Trunc(b);
    TruncError(a);
    TruncError(b);
    hide Trunc;
    ScaledLine(x as real, gain, bias, k, y);
    RealOfProduct(x, s, o);
    FixedPointError(x as real, s as real, o as real, a, b, y, k);
  }

  /** The corrected integer is close to the exact line for every sample, not only the two calibration samples. */
  lemma CorrectionError(x: int, gain: real, bias: real, y: real)
    requires Fits(x, gain, bias)
    requires y == gain * x as real + bias
    ensures Abs(CorrectPixel(x, FixedPoint(gain), FixedPoint(bias)) as real - y) < 1.0 + Tolerance(x)
  {
    hide *;
    var q := Quotient(x, Trunc(gain * K as real), Trunc(bias * K as real));
    FittingWords(x, gain, bias);
    QuotientError(x, gain, bias, y);
    TruncError(q);
    Triangle(Trunc(q) as real, q, y, 1.0, Tolerance(x));
  }

  lemma Triangle(a: real, b: real, c: real, p: real, q: real)
    requires Abs(a - b) < p && Abs(b - c) < q
    ensures Abs(a - c) < p + q
  {
  }

  predicate Close(result: int, x: int, y: real) {
    Abs(result as real - y) < 1.0 + Tolerance(x)
  }

  /** Every live pixel whose correction fits the machine types came out close to y. */
  ghost predicate AllClose(result: seq<int>, source: seq<int>, low: seq<int>, high: seq<int>,
                           y: real, y0: real, y1: real, n: nat)
    requires n <= |result| && n <= |source| && n <= |low| && n <= |high|
  {
    forall p :: 0 <= p < n && low[p] != high[p]
                && Fits(source[p], Gain(low[p] as real, high[p] as real, y0, y1),
                        Bias(low[p] as real, high[p] as real, y0, y1)) ==>
                Close(result[p], source[p], y)
  }

  /** Correcting sample x with the entries fitted to (x0, y0) and (x1, y1) comes close to y. */
  ghost predicate Restores(x: int, y: real, x0: int, x1: int, y0: real, y1: real, scale: int, offset: int)
    requires x0 != x1
  {
    Fits(x, Gain(x0 as real, x1 as real, y0, y1), Bias(x0 as real, x1 as real, y0, y1)) ==>
      Close(CorrectPixel(x, scale, offset), x, y)
  }

  lemma LivePixelRestored(x0: int, x1: int, y0: real, y1: real)
    requires x0 != x1
    ensures Restores(x0, y0, x0, x1, y0, y1, ScaleEntry(x0, x1, y0, y1), OffsetEntry(x0, x1, y0, y1))
    ensures Restores(x1, y1, x0, x1, y0, y1, ScaleEntry(x0, x1, y0, y1), OffsetEntry(x0, x1, y0, y1))
  {
    hide Gain, Bias, FixedPoint, Fits, CorrectPixel, Tolerance, Abs;
    var g, b := Gain(x0 as real, x1 as real, y0, y1), Bias(x0 as real, x1 as real, y0, y1);
    LineThroughBoth(x0 as real, x1 as real, y0, y1);
    if Fits(x0, g, b) {
      CorrectionError(x0, g, b, y0);
    }
    if Fits(x1, g, b) {
      CorrectionError(x1, g, b, y1);
    }
  }

  /** After calibration every live pixel maps its own two samples close to the two frame means. */
  lemma CalibrationError(scale: seq<int>, offset: seq<int>, oldScale: seq<int>, oldOffset: seq<int>,
                         low: seq<int>, high: seq<int>, y0: real, y1: real, n: nat, p: nat)
    requires n <= |low| && n <= |high| && n <= |oldScale| && n <= |oldOffset|
    requires Calibrated(scale, offset, oldScale, oldOffset, low, high, y0, y1, n)
    requires p < n && low[p] != high[p]
    ensures Restores(low[p], y0, low[p], high[p], y0, y1, scale[p], offset[p])
    ensures Restores(high[p], y1, low[p], high[p], y0, y1, scale[p], offset[p])
  {
    hide Restores, ScaleEntry, OffsetEntry;
    LivePixelRestored(low[p], high[p], y0, y1);
  }

  /** A frame that is one of the two calibration frames comes out close to its mean. */
  lemma CorrectedClose(result: seq<int>, target: seq<int>, source: seq<int>, scale: seq<int>, offset: seq<int>,
                       oldScale: seq<int>, oldOffset: seq<int>, low: seq<int>, high: seq<int>,
                       y: real, y0: real, y1: real, n: nat)
    requires n <= |low| && n <= |high| && n <= |oldScale| && n <= |oldOffset| && n <= |target|
    requires Calibrated(scale, offset, oldScale, oldOffset, low, high, y0, y1, n)
    requires (source == low && y == y0) || (source == high && y == y1)
    requires n <= |scale| && n <= |offset|
    requires Corrected(result, target, source, scale, offset, n)
    ensures n <= |result| && AllClose(result, source, low, high, y, y0, y1, n)
  {
    hide Fits, Close, CorrectPixel, ScaleEntry, OffsetEntry, Gain, Bias;
    forall p | 0 <= p < n && low[p] != high[p]
      ensures Restores(source[p], y, low[p], high[p], y0, y1, scale[p], offset[p])
    {
      CalibrationError(scale, offset, oldScale, oldOffset, low, high, y0, y1, n, p);
    }
  }

  lemma LineThroughBoth(x0: real, x1: real, y0: real, y1: real)
    requires x0 != x1
    ensures var g, b := Gain(x0, x1, y0, y1), Bias(x0, x1, y0, y1); g * x0 + b == y0 && g * x1 + b == y1
  {
    DivideCancels(y1 - y0, x1 - x0);
    var g := Gain(x0, x1, y0, y1);
    assert (x1 - x0) * g == g * x1 - g * x0;
  }

  // ---------------------------------------------------------------- flat field

  /** A pixel answers a uniform light linearly, with its own gain and offset. */
  datatype Response = Response(gain: real, offset: real)

  function Reading(r: Response, light: real): real {
    r.gain * light + r.offset
  }

  function SumReadings(rs: seq<Response>, light: real): real {
    if rs == [] then 0.0 else SumReadings(rs[1..], light) + Reading(rs[0], light)
  }

  function MeanReading(rs: seq<Response>, light: real): real
    requires rs != []
  {
    SumReadings(rs, light) / |rs| as real
  }

  function SumGain(rs: seq<Response>): real {
    if rs == [] then 0.0 else SumGain(rs[1..]) + rs[0].gain
  }

  function SumOffset(rs: seq<Response>): real {
    if rs == [] then 0.0 else SumOffset(rs[1..]) + rs[0].offset
  }

  lemma {:induction false} SumReadingsLinear(rs: seq<Response>, light: real)
    ensures SumReadings(rs, light) == SumGain(rs) * light + SumOffset(rs)
  {
    if rs == [] {
    } else {
      SumReadingsLinear(rs[1..], light);
      assert (SumGain(rs[1..]) + rs[0].gain) * light == SumGain(rs[1..]) * light + rs[0].gain * light;
    }
  }

  function MeanResponse(rs: seq<Response>): Response
    requires rs != []
  {
    Response(SumGain(rs) / |rs| as real, SumOffset(rs) / |rs| as real)
  }

  /** The mean over the pixels is itself linear in the light. */
  lemma MeanReadingLinear(rs: seq<Response>, light: real)
    requires rs != []
    ensures MeanReading(rs, light) == Reading(MeanResponse(rs), light)
  {
    SumReadingsLinear(rs, light);
    hide SumGain, SumOffset, SumReadings;
    QuotientLinear(SumReadings(rs, light), SumGain(rs), SumOffset(rs), light, |rs| as real);
  }

  lemma QuotientLinear(q: real, g: real, o: real, light: real, n: real)
    requires n > 0.0 && q == g * light + o
    ensures q / n == g / n * light + o / n
  {
    DivideCancels(g, n);
    assert n * (g / n * light) == (n * (g / n)) * light;
    QuotientOfSum(q, g / n * light, o, n);
  }

  /** Fitting one linear pixel to a linear target makes them agree for every light. */
  lemma LinearFit(r: Response, mean: Response, dark: real, bright: real, light: real)
    requires r.gain != 0.0 && dark != bright
    requires Reading(r, dark) != Reading(r, bright)
    ensures var x0, x1, y0, y1 := Reading(r, dark), Reading(r, bright), Reading(mean, dark), Reading(mean, bright);
      Gain(x0, x1, y0, y1) * Reading(r, light) + Bias(x0, x1, y0, y1) == Reading(mean, light)
  {
    var x0, x1, y0, y1 := Reading(r, dark), Reading(r, bright), Reading(mean, dark), Reading(mean, bright);
    var g := Gain(x0, x1, y0, y1);
    var d := bright - dark;
    assert x1 - x0 == r.gain * d && y1 - y0 == mean.gain * d;
    DivideCancels(y1 - y0, x1 - x0);
    CancelCommon(g, r.gain, mean.gain, d);
    assert Reading(r, light) - x1 == r.gain * (light - bright);
    assert Reading(mean, light) - y1 == mean.gain * (light - bright);
    assert g * (r.gain * (light - bright)) == (g * r.gain) * (light - bright);
    assert g * (Reading(r, light) - x1) == g * Reading(r, light) - g * x1;
  }

  lemma CancelCommon(g: real, a: real, b: real, d: real)
    requires d != 0.0 && (a * d) * g == b * d
    ensures g * a == b
  {
    DivideCancels(g * a, d);
    DivideCancels(b, d);
    assert d * (g * a) == d * b;
  }

  /** Flat field. If every pixel answers linearly with non-zero gain and two uniform exposures have
      different means, then after calibration every pixel reads the same under every light, and
      that common reading is the mean response. */
  lemma FlatField(rs: seq<Response>, dark: real, bright: real, light: real, p: nat)
    requires rs != [] && p < |rs|
    requires forall q :: 0 <= q < |rs| ==> rs[q].gain != 0.0
    requires MeanReading(rs, dark) != MeanReading(rs, bright)
    ensures Reading(rs[p], dark) != Reading(rs[p], bright)
    ensures var x0, x1 := Reading(rs[p], dark), Reading(rs[p], bright);
      var y0, y1 := MeanReading(rs, dark), MeanReading(rs, bright);
      Gain(x0, x1, y0, y1) * Reading(rs[p], light) + Bias(x0, x1, y0, y1) == MeanReading(rs, light)
  {
    var r := rs[p];
    assert r.gain != 0.0;
    MeanReadingLinear(rs, dark);
    MeanReadingLinear(rs, bright);
    MeanReadingLinear(rs, light);
    hide *;
    LiveReading(r, dark, bright);
    LinearFit(r, MeanResponse(rs), dark, bright, light);
  }

  lemma LiveReading(r: Response, dark: real, bright: real)
    requires r.gain != 0.0 && dark != bright
    ensures Reading(r, dark) != Reading(r, bright)
  {
    if Reading(r, dark) == Reading(r, bright) {
      CancelCommon(0.0, 1.0, r.gain, bright - dark);
    }
  }

  /** A frame that shows the readings of its pixels under one light. */
  ghost predicate ShowsLight(frame: seq<int>, rs: seq<Response>, light: real) {
    |frame| == |rs| && forall q :: 0 <= q < |rs| ==> frame[q] as real == Reading(rs[q], light)
  }

  lemma {:induction false} SumReadingsAppend(rs: seq<Response>, r: Response, light: real)
    ensures SumReadings(rs + [r], light) == SumReadings(rs, light) + Reading(r, light)
  {
    if rs == [] {
      assert rs + [r] == [r];
    } else {
      assert (rs + [r])[1..] == rs[1..] + [r];
      SumReadingsAppend(rs[1..], r, light);
    }
  }

  lemma {:induction false} TotalOfReadings(frame: seq<int>, rs: seq<Response>, light: real)
    requires ShowsLight(frame, rs, light)
    ensures Total(frame) == SumReadings(rs, light)
  {
    hide Reading;
    if frame == [] {
    } else {
      var n := |frame| - 1;
      TotalOfReadings(frame[..n], rs[..n], light);
      SumReadingsAppend(rs[..n], rs[n], light);
      assert rs[..n] + [rs[n]] == rs;
    }
  }

  lemma MeanOfReadings(frame: seq<int>, rs: seq<Response>, light: real)
    requires rs != [] && ShowsLight(frame, rs, light)
    ensures Mean(frame) == MeanReading(rs, light)
  {
    TotalOfReadings(frame, rs, light);
  }

  lemma LineClose(x: int, x0: int, x1: int, y0: real, y1: real, y: real)
    requires x0 != x1
    requires y == Gain(x0 as real, x1 as real, y0, y1) * x as real + Bias(x0 as real, x1 as real, y0, y1)
    ensures Fits(x, Gain(x0 as real, x1 as real, y0, y1), Bias(x0 as real, x1 as real, y0, y1)) ==>
      Close(CorrectPixel(x, ScaleEntry(x0, x1, y0, y1), OffsetEntry(x0, x1, y0, y1)), x, y)
  {
    hide Gain, Bias, FixedPoint, Fits, CorrectPixel, Tolerance, Abs;
    var g, b := Gain(x0 as real, x1 as real, y0, y1), Bias(x0 as real, x1 as real, y0, y1);
    if Fits(x, g, b) {
      CorrectionError(x, g, b, y);
    }
  }

  lemma FlatFieldLine(rs: seq<Response>, low: seq<int>, high: seq<int>, frame: seq<int>,
                      dark: real, bright: real, light: real, p: nat)
    requires p < |rs| && forall q :: 0 <= q < |rs| ==> rs[q].gain != 0.0
    requires ShowsLight(low, rs, dark) && ShowsLight(high, rs, bright) && ShowsLight(frame, rs, light)
    requires Mean(low) != Mean(high)
    ensures low[p] != high[p]
    ensures Mean(frame) == Gain(low[p] as real, high[p] as real, Mean(low), Mean(high)) * frame[p] as real
                           + Bias(low[p] as real, high[p] as real, Mean(low), Mean(high))
  {
    hide Mean, MeanReading, Reading, Gain, Bias;
    MeanOfReadings(low, rs, dark);
    MeanOfReadings(high, rs, bright);
    MeanOfReadings(frame, rs, light);
    FlatField(rs, dark, bright, light, p);
  }

  /** Flat field with the tables as they are stored. Two uniform exposures with different means calibrate; then in
      a frame of any uniform light every pixel that fits comes out close to the mean of that frame. */
  lemma FlatFieldFrames(rs: seq<Response>, low: seq<int>, high: seq<int>, frame: seq<int>,
                        dark: real, bright: real, light: real, p: nat)
    requires p < |rs| && forall q :: 0 <= q < |rs| ==> rs[q].gain != 0.0
    requires ShowsLight(low, rs, dark) && ShowsLight(high, rs, bright) && ShowsLight(frame, rs, light)
    requires Mean(low) != Mean(high)
    ensures low[p] != high[p]
    ensures var y0, y1 := Mean(low), Mean(high);
      Fits(frame[p], Gain(low[p] as real, high[p] as real, y0, y1), Bias(low[p] as real, high[p] as real, y0, y1)) ==>
        Close(CorrectPixel(frame[p], ScaleEntry(low[p], high[p], y0, y1), OffsetEntry(low[p], high[p], y0, y1)),
              frame[p], Mean(frame))
  {
    hide Mean, Reading, Gain, Bias, Fits, CorrectPixel, ScaleEntry, OffsetEntry, Close;
    FlatFieldLine(rs, low, high, frame, dark, bright, light, p);
    LineClose(frame[p], low[p], high[p], Mean(low), Mean(high), Mean(frame));
  }

  /** The reset tables correct every 16-bit value to itself. */
  lemma ResetIsIdentity(x: int)
    requires Fits16(x)
    ensures CorrectPixel(x, K, 0) == x
  {
    assert Int32(x * K + 0) == x * K;
    DivideCancels(x as real, K as real);
    assert (x * K) as real / K as real == x as real;
  }
}
