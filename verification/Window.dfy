/** The circular buffer that averages the melt-pool width. */
module WidthWindow {
  import opened RealMath

  const CAPACITY := 512

  datatype Window = Window(samples: seq<real>, z: int, w: real) {
    ghost predicate Valid() {
      |samples| == CAPACITY && 0 <= z < CAPACITY
    }
  }

  function Distance(a: int, b: int): nat {
    if a < b then b - a else a - b
  }

  /** The size in 1 to 512 that is nearest to the register. */
  function WindowSize(register: int): (size: int)
    ensures 1 <= size <= CAPACITY
    ensures forall n :: 1 <= n <= CAPACITY ==> Distance(register, size) <= Distance(register, n)
  {
    if register < 1 then 1 else if register > CAPACITY then CAPACITY else register
  }

  function NextIndex(z: int, size: int): int {
    if z + 1 >= size then 0 else z + 1
  }

  /** One measuring tick: advance the index, store the sample, average the first `size` slots. */
  function Measure(win: Window, size: int, x: real): (r: Window)
    requires win.Valid()
    requires 1 <= size <= CAPACITY
    ensures r.Valid() && r.z < size
  {
    var z := NextIndex(win.z, size);
    var samples := win.samples[z := x];
    Window(samples, z, Sum(samples[..size]) / size as real)
  }

  /** The slots in use, oldest first. */
  function Unrolled(win: Window, size: int): (s: seq<real>)
    requires win.Valid()
    requires win.z < size <= CAPACITY
    ensures |s| == size
  {
    win.samples[win.z + 1..size] + win.samples[..win.z + 1]
  }

  function Last(s: seq<real>, n: nat): seq<real>
    requires n <= |s|
  {
    s[|s| - n..]
  }

  function Min(a: nat, b: nat): nat {
    if a < b then a else b
  }

  /** The window has seen exactly the samples xs since the size was set to `size`. */
  ghost predicate Slides(win: Window, size: int, xs: seq<real>)
    requires win.Valid()
    requires 1 <= size <= CAPACITY
  {
    xs != [] ==>
      && win.z < size
      && Last(Unrolled(win, size), Min(|xs|, size)) == Last(xs, Min(|xs|, size))
      && win.w == Sum(Unrolled(win, size)) / size as real
  }

  lemma StoredSlices(s: seq<real>, z: int, size: int, x: real)
    requires 0 <= z < size <= |s|
    ensures s[z := x][z + 1..size] + s[z := x][..z + 1] == s[z + 1..size] + s[..z] + [x]
  {
  }

  lemma OldestLeaves(s: seq<real>, z: int, size: int)
    requires 0 <= z < size <= |s|
    ensures (s[z..size] + s[..z])[1..] == s[z + 1..size] + s[..z]
  {
  }

  lemma WholeWindow(s: seq<real>, size: int)
    requires 1 <= size <= |s|
    ensures s[size..size] + s[..size] == s[0..size] + s[..0]
  {
  }

  /** The sample becomes the newest slot and the oldest leaves; an index that a larger size has left beyond the
      window starts again at its first slot. */
  lemma MeasureAppends(win: Window, size: int, x: real)
    requires win.Valid()
    requires 1 <= size <= CAPACITY
    ensures Unrolled(Measure(win, size, x), size)
      == (if win.z < size then Unrolled(win, size)[1..] else win.samples[1..size]) + [x]
  {
    hide Sum;
    var s, z := win.samples, NextIndex(win.z, size);
    StoredSlices(s, z, size, x);
    if win.z < size {
      WholeWindow(s, size);
      OldestLeaves(s, z, size);
    } else {
      assert s[1..size] + s[..0] == s[1..size];
    }
  }

  /** The mean over the slots is the mean over the unrolled window. */
  lemma MeasureAverages(win: Window, size: int, x: real)
    requires win.Valid()
    requires 1 <= size <= CAPACITY
    ensures var r := Measure(win, size, x); r.w == Sum(Unrolled(r, size)) / size as real
  {
    var r := Measure(win, size, x);
    SumRotates(r.samples[..r.z + 1], r.samples[r.z + 1..size]);
    assert r.samples[..size] == r.samples[..r.z + 1] + r.samples[r.z + 1..size];
    hide Sum;
  }

  lemma SumRotates(a: seq<real>, b: seq<real>)
    ensures Sum(a + b) == Sum(b + a)
  {
    hide Sum;
    SumConcat(a, b);
    SumConcat(b, a);
  }

  lemma LastAppend(s: seq<real>, x: real, n: nat)
    requires 1 <= n <= |s| + 1
    ensures Last(s + [x], n) == Last(s, n - 1) + [x]
  {
  }

  lemma LastOfLast(s: seq<real>, m: nat, n: nat)
    requires n <= m <= |s|
    ensures Last(Last(s, m), n) == Last(s, n)
  {
  }

  lemma LastOfRest(s: seq<real>, n: nat)
    requires n < |s|
    ensures Last(s[1..], n) == Last(s, n)
  {
  }

  lemma LastOne(s: seq<real>, x: real)
    ensures Last(s + [x], 1) == [x]
  {
  }

  /** Dropping the oldest entry of v and appending x keeps v a suffix of the sample list. */
  lemma ShiftLast(v: seq<real>, xs: seq<real>, x: real)
    requires v != []
    requires Last(v, Min(|xs|, |v|)) == Last(xs, Min(|xs|, |v|))
    ensures var n := Min(|xs| + 1, |v|); Last(v[1..] + [x], n) == Last(xs + [x], n)
  {
    hide Last;
    var m, n := Min(|xs|, |v|), Min(|xs| + 1, |v|);
    LastAppend(v[1..], x, n);
    LastAppend(xs, x, n);
    LastOfRest(v, n - 1);
    LastOfLast(v, m, n - 1);
    LastOfLast(xs, m, n - 1);
  }

  lemma SlidesStep(win: Window, size: int, xs: seq<real>, x: real)
    requires win.Valid()
    requires 1 <= size <= CAPACITY
    requires Slides(win, size, xs)
    ensures Slides(Measure(win, size, x), size, xs + [x])
  {
    hide Measure, Sum, Unrolled, Last;
    MeasureAppends(win, size, x);
    MeasureAverages(win, size, x);
    if xs == [] {
      LastOne(if win.z < size then Unrolled(win, size)[1..] else win.samples[1..size], x);
      LastOne(xs, x);
    } else {
      ShiftLast(Unrolled(win, size), xs, x);
    }
  }

  /** Once `size` samples have been taken the width is exactly the mean of the last `size` samples. */
  lemma SlidesMean(win: Window, size: int, xs: seq<real>)
    requires win.Valid()
    requires 1 <= size <= CAPACITY
    requires Slides(win, size, xs)
    requires |xs| >= size
    ensures win.w == Sum(Last(xs, size)) / size as real
  {
    var u := Unrolled(win, size);
    assert Last(u, size) == u;
  }
}
