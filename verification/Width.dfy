/** Melt-pool width from image moments. */
module MeltPoolWidth {
  import opened RealMath

  /** One lit pixel. An image is the list of its pixels; positions and intensities are unrestricted reals. */
  datatype Pixel = Pixel(x: real, y: real, v: real)

  datatype Moments = Moments(m00: real, m10: real, m01: real, m11: real, m20: real, m02: real)

  /** Normalised second moments about the centroid. */
  datatype Central = Central(u20: real, u11: real, u02: real)

  ghost predicate NonNegative(img: seq<Pixel>) {
    forall i :: 0 <= i < |img| ==> img[i].v >= 0.0
  }

  function PixelMoments(p: Pixel): Moments {
    Moments(p.v, p.v * p.x, p.v * p.y, p.v * p.x * p.y, p.v * p.x * p.x, p.v * p.y * p.y)
  }

  function Plus(a: Moments, b: Moments): Moments {
    Moments(a.m00 + b.m00, a.m10 + b.m10, a.m01 + b.m01, a.m11 + b.m11, a.m20 + b.m20, a.m02 + b.m02)
  }

  /** The true raw moments of an image up to order two. */
  function ImageMoments(img: seq<Pixel>): Moments {
    if img == [] then Moments(0.0, 0.0, 0.0, 0.0, 0.0, 0.0)
    else Plus(PixelMoments(img[0]), ImageMoments(img[1..]))
  }

  function Mass(m: Moments): real {
    if m.m00 == 0.0 then 1.0 else m.m00
  }

  function CentroidX(m: Moments): real {
    m.m10 / Mass(m)
  }

  function CentroidY(m: Moments): real {
    m.m01 / Mass(m)
  }

  function CentralOf(m: Moments): Central {
    var x := CentroidX(m);
    var y := CentroidY(m);
    Central(m.m20 / Mass(m) - x * x, m.m11 / Mass(m) - x * y, m.m02 / Mass(m) - y * y)
  }

  function Inner(c: Central): real {
    4.0 * c.u11 * c.u11 + (c.u20 - c.u02) * (c.u20 - c.u02)
  }

  function Outer(sqrt: real -> real, c: Central): real {
    8.0 * (c.u20 + c.u02 - sqrt(Inner(c)))
  }

  /** The width formula of the control loop. */
  function Width(sqrt: real -> real, m: Moments): real {
    sqrt(Outer(sqrt, CentralOf(m)))
  }

  /** Offset of a pixel from (x0, y0), projected on (a, b). */
  function Projection(p: Pixel, a: real, b: real, x0: real, y0: real): real {
    a * (p.x - x0) + b * (p.y - y0)
  }

  /** Weighted sum of the squared projections. */
  function Scatter(img: seq<Pixel>, a: real, b: real, x0: real, y0: real): real {
    if img == [] then 0.0
    else
      var d := Projection(img[0], a, b, x0, y0);
      img[0].v * (d * d) + Scatter(img[1..], a, b, x0, y0)
  }

  /** Mean squared extent of the image along (a, b), measured from the centroid. */
  function Spread(img: seq<Pixel>, a: real, b: real): real {
    var m := ImageMoments(img);
    Scatter(img, a, b, CentroidX(m), CentroidY(m)) / Mass(m)
  }

  function Quadratic(c: Central, a: real, b: real): real {
    a * a * c.u20 + 2.0 * a * b * c.u11 + b * b * c.u02
  }

  lemma {:induction false} ScatterNonNegative(img: seq<Pixel>, a: real, b: real, x0: real, y0: real)
    requires NonNegative(img)
    ensures Scatter(img, a, b, x0, y0) >= 0.0
  {
    if img == [] {
    } else {
      ScatterNonNegative(img[1..], a, b, x0, y0);
      var d := Projection(img[0], a, b, x0, y0);
      SquareNonNegative(d);
      ProductMonotone(0.0, img[0].v, d * d);
    }
  }

  function Expansion(m: Moments, a: real, b: real, c: real): real {
    a * a * m.m20 + 2.0 * a * b * m.m11 + b * b * m.m02 + 2.0 * a * c * m.m10 + 2.0 * b * c * m.m01 + c * c * m.m00
  }

  lemma ExpansionOfPixel(p: Pixel, a: real, b: real, x0: real, y0: real, c: real)
    requires c == -(a * x0 + b * y0)
    ensures var d := Projection(p, a, b, x0, y0); p.v * (d * d) == Expansion(PixelMoments(p), a, b, c)
  {
    assert Projection(p, a, b, x0, y0) == a * p.x + b * p.y + c;
  }

  lemma ExpansionPlus(m: Moments, n: Moments, a: real, b: real, c: real)
    ensures Expansion(Plus(m, n), a, b, c) == Expansion(m, a, b, c) + Expansion(n, a, b, c)
  {
  }

  lemma ExpansionOfNothing(a: real, b: real, c: real)
    ensures Expansion(Moments(0.0, 0.0, 0.0, 0.0, 0.0, 0.0), a, b, c) == 0.0
  {
  }

  lemma {:induction false} ScatterExpands(img: seq<Pixel>, a: real, b: real, x0: real, y0: real, c: real)
    requires c == -(a * x0 + b * y0)
    ensures Scatter(img, a, b, x0, y0) == Expansion(ImageMoments(img), a, b, c)
  {
    hide Expansion, PixelMoments, Plus, Projection;
    if img == [] {
      ExpansionOfNothing(a, b, c);
    } else {
      ScatterExpands(img[1..], a, b, x0, y0, c);
      ExpansionOfPixel(img[0], a, b, x0, y0, c);
      ExpansionPlus(PixelMoments(img[0]), ImageMoments(img[1..]), a, b, c);
    }
  }

  /** The mass of a non-negative image vanishes only if all its moments do. */
  lemma {:induction false} BlankImage(img: seq<Pixel>)
    requires NonNegative(img)
    ensures ImageMoments(img).m00 >= 0.0
    ensures ImageMoments(img).m00 == 0.0 ==> ImageMoments(img) == Moments(0.0, 0.0, 0.0, 0.0, 0.0, 0.0)
  {
    hide PixelMoments, Plus;
    if img == [] {
    } else {
      BlankImage(img[1..]);
      BlankStep(img[0], ImageMoments(img[1..]));
    }
  }

  lemma BlankStep(p: Pixel, m: Moments)
    requires p.v >= 0.0 && m.m00 >= 0.0
    requires m.m00 == 0.0 ==> m == Moments(0.0, 0.0, 0.0, 0.0, 0.0, 0.0)
    ensures var n := Plus(PixelMoments(p), m);
      n.m00 >= 0.0 && (n.m00 == 0.0 ==> n == Moments(0.0, 0.0, 0.0, 0.0, 0.0, 0.0))
  {
  }

  /** The raw moments of a unit of mass w with the given centroid and central moments. */
  function MomentsAbout(w: real, x: real, y: real, n: Central): Moments {
    Moments(w, w * x, w * y, w * (n.u11 + x * y), w * (n.u20 + x * x), w * (n.u02 + y * y))
  }

  lemma ExpansionAboutCentroid(w: real, x: real, y: real, n: Central, a: real, b: real, c: real)
    requires c == -(a * x + b * y)
    ensures Expansion(MomentsAbout(w, x, y, n), a, b, c) == w * Quadratic(n, a, b)
  {
  }

  lemma Recover(q: real, w: real, offset: real, u: real)
    requires w != 0.0
    requires u == q / w - offset
    ensures w * (u + offset) == q
  {
    DivideCancels(q, w);
  }

  lemma CentralParts(m: Moments)
    requires m.m00 != 0.0
    ensures var x, y, n := CentroidX(m), CentroidY(m), CentralOf(m);
      && x == m.m10 / m.m00 && y == m.m01 / m.m00
      && n.u11 == m.m11 / m.m00 - x * y && n.u20 == m.m20 / m.m00 - x * x && n.u02 == m.m02 / m.m00 - y * y
  {
  }

  lemma CentralRecovers(m: Moments)
    requires m.m00 != 0.0
    ensures m == MomentsAbout(m.m00, CentroidX(m), CentroidY(m), CentralOf(m))
  {
    hide CentroidX, CentroidY, CentralOf, MomentsAbout;
    var x, y, n := CentroidX(m), CentroidY(m), CentralOf(m);
    CentralParts(m);
    DivideCancels(m.m10, m.m00);
    DivideCancels(m.m01, m.m00);
    Recover(m.m11, m.m00, x * y, n.u11);
    Recover(m.m20, m.m00, x * x, n.u20);
    Recover(m.m02, m.m00, y * y, n.u02);
    AboutParts(m.m00, x, y, n);
  }

  lemma AboutParts(w: real, x: real, y: real, n: Central)
    ensures MomentsAbout(w, x, y, n)
      == Moments(w, w * x, w * y, w * (n.u11 + x * y), w * (n.u20 + x * x), w * (n.u02 + y * y))
  {
  }

  lemma QuadraticOfMoments(m: Moments, a: real, b: real, c: real)
    requires m.m00 == 0.0 ==> m == Moments(0.0, 0.0, 0.0, 0.0, 0.0, 0.0)
    requires c == -(a * CentroidX(m) + b * CentroidY(m))
    ensures Expansion(m, a, b, c) / Mass(m) == Quadratic(CentralOf(m), a, b)
  {
    if m.m00 != 0.0 {
      CentralRecovers(m);
      ExpansionAboutCentroid(m.m00, CentroidX(m), CentroidY(m), CentralOf(m), a, b, c);
      DivideCancels(Quadratic(CentralOf(m), a, b), Mass(m));
      assert Expansion(m, a, b, c) == Mass(m) * Quadratic(CentralOf(m), a, b);
    } else {
      assert Expansion(m, a, b, c) == 0.0;
      assert CentralOf(m) == Central(0.0, 0.0, 0.0);
    }
  }

  lemma SpreadIsQuadratic(img: seq<Pixel>, a: real, b: real)
    requires NonNegative(img)
    ensures Spread(img, a, b) == Quadratic(CentralOf(ImageMoments(img)), a, b)
  {
    var m := ImageMoments(img);
    var c := -(a * CentroidX(m) + b * CentroidY(m));
    BlankImage(img);
    ScatterExpands(img, a, b, CentroidX(m), CentroidY(m), c);
    QuadraticOfMoments(m, a, b, c);
  }

  lemma FormAtDeterminant(c: Central)
    ensures Quadratic(c, c.u02, -c.u11) == c.u02 * (c.u20 * c.u02 - c.u11 * c.u11)
  {
  }

  lemma FormAtDegenerate(c: Central)
    requires c.u02 == 0.0
    ensures Quadratic(c, -c.u11, c.u20 + 1.0) == -((c.u20 + 2.0) * (c.u11 * c.u11))
  {
    var p, q := c.u11 * c.u11, c.u20;
    assert (-c.u11) * (-c.u11) * q == p * q;
    assert 2.0 * (-c.u11) * (q + 1.0) * c.u11 == -2.0 * (p * q) - 2.0 * p;
    assert (q + 1.0) * (q + 1.0) * c.u02 == 0.0;
  }

  lemma SquareZero(x: real)
    requires x * x <= 0.0
    ensures x == 0.0
  {
    SquareOrder(x, 0.0);
    SquareOrder(-x, 0.0);
  }

  /** A quadratic form that is never negative has a non-negative diagonal and determinant. */
  lemma NonNegativeForm(c: Central)
    requires forall a, b :: Quadratic(c, a, b) >= 0.0
    ensures c.u20 >= 0.0 && c.u02 >= 0.0 && c.u20 * c.u02 >= c.u11 * c.u11
  {
    assert Quadratic(c, 1.0, 0.0) >= 0.0;
    assert Quadratic(c, 0.0, 1.0) >= 0.0;
    hide Quadratic;
    if c.u02 > 0.0 {
      assert Quadratic(c, c.u02, -c.u11) >= 0.0;
      FormAtDeterminant(c);
      FactorNonNegative(c.u02, c.u20 * c.u02 - c.u11 * c.u11);
    } else {
      assert Quadratic(c, -c.u11, c.u20 + 1.0) >= 0.0;
      FormAtDegenerate(c);
      FactorNonNegative(c.u20 + 2.0, -(c.u11 * c.u11));
      SquareZero(c.u11);
    }
  }

  lemma SpreadNonNegative(img: seq<Pixel>, a: real, b: real)
    requires NonNegative(img)
    ensures Spread(img, a, b) >= 0.0
  {
    hide Scatter, ImageMoments;
    var m := ImageMoments(img);
    BlankImage(img);
    ScatterNonNegative(img, a, b, CentroidX(m), CentroidY(m));
  }

  /** Cauchy-Schwarz for images. */
  lemma CentralMomentsBounded(img: seq<Pixel>)
    requires NonNegative(img)
    ensures var c := CentralOf(ImageMoments(img));
      c.u20 >= 0.0 && c.u02 >= 0.0 && c.u20 * c.u02 >= c.u11 * c.u11
  {
    hide *;
    var m := ImageMoments(img);
    forall a, b ensures Quadratic(CentralOf(m), a, b) >= 0.0 {
      SpreadIsQuadratic(img, a, b);
      SpreadNonNegative(img, a, b);
    }
    NonNegativeForm(CentralOf(m));
  }

  /** Both square roots of the width formula are taken of non-negative numbers. */
  lemma WidthDefined(sqrt: real -> real, img: seq<Pixel>)
    requires IsSqrt(sqrt)
    requires NonNegative(img)
    ensures var c := CentralOf(ImageMoments(img)); Inner(c) >= 0.0 && Outer(sqrt, c) >= 0.0
  {
    hide *;
    CentralMomentsBounded(img);
    RadicandsNonNegative(sqrt, CentralOf(ImageMoments(img)));
  }

  lemma InnerIdentity(c: Central)
    ensures Inner(c) == (c.u20 + c.u02) * (c.u20 + c.u02) - 4.0 * (c.u20 * c.u02 - c.u11 * c.u11)
    ensures Inner(c) >= 0.0
  {
    SquareNonNegative(c.u11);
    SquareNonNegative(c.u20 - c.u02);
  }

  lemma RadicandsNonNegative(sqrt: real -> real, c: Central)
    requires IsSqrt(sqrt)
    requires c.u20 >= 0.0 && c.u02 >= 0.0 && c.u20 * c.u02 >= c.u11 * c.u11
    ensures Inner(c) >= 0.0 && Outer(sqrt, c) >= 0.0
  {
    hide Inner;
    InnerIdentity(c);
    SquareOrder(sqrt(Inner(c)), c.u20 + c.u02);
  }

  /** The smaller eigenvalue of the matrix of central moments, in terms of the width. */
  function Narrowest(sqrt: real -> real, m: Moments): real {
    Width(sqrt, m) * Width(sqrt, m) / 16.0
  }

  function Characteristic(c: Central, t: real): real {
    t * t - (c.u20 + c.u02) * t + (c.u20 * c.u02 - c.u11 * c.u11)
  }

  lemma NarrowestHalf(sqrt: real -> real, img: seq<Pixel>)
    requires IsSqrt(sqrt) && NonNegative(img)
    ensures var c := CentralOf(ImageMoments(img));
      Narrowest(sqrt, ImageMoments(img)) == (c.u20 + c.u02 - sqrt(Inner(c))) / 2.0
  {
    hide ImageMoments, CentralOf, Inner;
    WidthDefined(sqrt, img);
  }

  lemma RootOrder(p: real, q: real, t: real)
    requires q >= 0.0
    requires (2.0 * t - p) * (2.0 * t - p) == q * q
    ensures t >= (p - q) / 2.0
  {
    SquareOrder(p - 2.0 * t, q);
  }

  lemma CharacteristicSquare(c: Central, t: real)
    ensures 4.0 * Characteristic(c, t)
      == (2.0 * t - (c.u20 + c.u02)) * (2.0 * t - (c.u20 + c.u02)) - Inner(c)
  {
  }

  /** W*W/16 is the smaller root of the characteristic polynomial of the central moments. */
  lemma WidthIsSmallerRoot(sqrt: real -> real, img: seq<Pixel>)
    requires IsSqrt(sqrt) && NonNegative(img)
    ensures Width(sqrt, ImageMoments(img)) >= 0.0
    ensures Characteristic(CentralOf(ImageMoments(img)), Narrowest(sqrt, ImageMoments(img))) == 0.0
    ensures forall t :: Characteristic(CentralOf(ImageMoments(img)), t) == 0.0 ==>
      Narrowest(sqrt, ImageMoments(img)) <= t
  {
    hide ImageMoments, CentralOf, Inner, Characteristic, Narrowest;
    var c := CentralOf(ImageMoments(img));
    var n := Narrowest(sqrt, ImageMoments(img));
    var s := sqrt(Inner(c));
    WidthDefined(sqrt, img);
    NarrowestHalf(sqrt, img);
    assert 2.0 * n - (c.u20 + c.u02) == -s;
    CharacteristicSquare(c, n);
    forall t | Characteristic(c, t) == 0.0 ensures n <= t {
      CharacteristicSquare(c, t);
      RootOrder(c.u20 + c.u02, s, t);
    }
  }

  lemma SingularFormSquare(d: Central, a: real, b: real)
    requires d.u20 * d.u02 == d.u11 * d.u11
    ensures var r := d.u20 * a + d.u11 * b; d.u20 * Quadratic(d, a, b) == r * r
  {
    assert b * b * (d.u20 * d.u02) == b * b * (d.u11 * d.u11);
  }

  /** A singular non-negative form has no negative value. */
  lemma SingularFormNonNegative(d: Central, a: real, b: real)
    requires d.u20 >= 0.0 && d.u02 >= 0.0 && d.u20 * d.u02 == d.u11 * d.u11
    ensures Quadratic(d, a, b) >= 0.0
  {
    if d.u20 > 0.0 {
      hide Quadratic;
      SingularFormSquare(d, a, b);
      SquareNonNegative(d.u20 * a + d.u11 * b);
      FactorNonNegative(d.u20, Quadratic(d, a, b));
    } else {
      SquareZero(d.u11);
      SquareNonNegative(b);
      ProductMonotone(0.0, d.u02, b * b);
    }
  }

  /** A singular form vanishes in some direction. */
  lemma SingularFormKernel(d: Central) returns (a: real, b: real)
    requires d.u20 >= 0.0 && d.u02 >= 0.0 && d.u20 * d.u02 == d.u11 * d.u11
    ensures a * a + b * b > 0.0
    ensures Quadratic(d, a, b) == 0.0
  {
    if d.u20 > 0.0 {
      a, b := -d.u11, d.u20;
      SquareNonNegative(a);
      ProductPositive(b, b);
      SingularFormSquare(d, a, b);
      SquareZero(d.u20 * a + d.u11 * b);
      hide Quadratic;
      if Quadratic(d, a, b) != 0.0 {
        FactorNonNegative(d.u20, Quadratic(d, a, b));
        ProductPositive(d.u20, Quadratic(d, a, b));
      }
    } else {
      a, b := 1.0, 0.0;
    }
  }

  lemma ShiftedForm(c: Central, n: real, a: real, b: real)
    ensures Quadratic(Central(c.u20 - n, c.u11, c.u02 - n), a, b) == Quadratic(c, a, b) - n * (a * a + b * b)
  {
  }

  lemma ShiftedSingular(sqrt: real -> real, c: Central, n: real)
    requires IsSqrt(sqrt)
    requires n == (c.u20 + c.u02 - sqrt(Inner(c))) / 2.0
    requires Characteristic(c, n) == 0.0
    ensures c.u20 - n >= 0.0 && c.u02 - n >= 0.0
    ensures (c.u20 - n) * (c.u02 - n) == c.u11 * c.u11
  {
    InnerIdentity(c);
    SquareNonNegative(c.u11);
    assert (c.u20 - n) * (c.u02 - n) - c.u11 * c.u11 == Characteristic(c, n);
    hide Characteristic;
    SquareOrder(c.u20 - c.u02, sqrt(Inner(c)));
    SquareOrder(c.u02 - c.u20, sqrt(Inner(c)));
  }

  /** The width is four times the standard deviation of the image along its narrowest direction. */
  lemma WidthIsNarrowestExtent(sqrt: real -> real, img: seq<Pixel>)
    requires IsSqrt(sqrt) && NonNegative(img)
    ensures forall a, b ::
      Narrowest(sqrt, ImageMoments(img)) * (a * a + b * b) <= Spread(img, a, b)
    ensures exists a, b ::
      a * a + b * b > 0.0 && Spread(img, a, b) == Narrowest(sqrt, ImageMoments(img)) * (a * a + b * b)
  {
    hide *;
    var c := CentralOf(ImageMoments(img));
    var n := Narrowest(sqrt, ImageMoments(img));
    var d := Central(c.u20 - n, c.u11, c.u02 - n);
    WidthIsSmallerRoot(sqrt, img);
    NarrowestHalf(sqrt, img);
    ShiftedSingular(sqrt, c, n);
    forall a, b ensures n * (a * a + b * b) <= Spread(img, a, b) {
      SpreadIsQuadratic(img, a, b);
      ShiftedForm(c, n, a, b);
      SingularFormNonNegative(d, a, b);
    }
    var a, b := SingularFormKernel(d);
    SpreadIsQuadratic(img, a, b);
    ShiftedForm(c, n, a, b);
  }

  /** n is the least mean squared extent of the image, over all directions. */
  ghost predicate Least(img: seq<Pixel>, n: real) {
    && (forall a, b :: n * (a * a + b * b) <= Spread(img, a, b))
    && (exists a, b :: a * a + b * b > 0.0 && Spread(img, a, b) == n * (a * a + b * b))
  }

  /** n is q times that. */
  ghost predicate LeastTimes(img: seq<Pixel>, n: real, q: real) {
    && (forall a, b :: n * (a * a + b * b) <= q * Spread(img, a, b))
    && (exists a, b :: a * a + b * b > 0.0 && q * Spread(img, a, b) == n * (a * a + b * b))
  }

  lemma ScaledSquare(ratio: real, w: real, n: real, x: real, f: real)
    requires n == w * w / 16.0 && x == ratio * w && f == 4.0 * ratio
    ensures x * x == f * f * n
  {
    var r := ratio * ratio;
    assert f * f == 16.0 * r;
    assert x * x == r * (w * w);
  }

  lemma ScaledBound(q: real, n: real, m: real, d: real, spread: real)
    requires q >= 0.0 && m == q * n
    ensures n * d <= spread ==> m * d <= q * spread
    ensures spread == n * d ==> q * spread == m * d
  {
    Regroup(q, n, d);
    if n * d <= spread {
      ProductMonotone(n * d, spread, q);
    }
  }

  lemma LeastScales(img: seq<Pixel>, n: real, q: real, m: real)
    requires q >= 0.0 && m == q * n
    requires Least(img, n)
    ensures LeastTimes(img, m, q)
  {
    hide Spread;
    forall a, b ensures m * (a * a + b * b) <= q * Spread(img, a, b) {
      ScaledBound(q, n, m, a * a + b * b, Spread(img, a, b));
    }
    var a, b :| a * a + b * b > 0.0 && Spread(img, a, b) == n * (a * a + b * b);
    ScaledBound(q, n, m, a * a + b * b, Spread(img, a, b));
    assert a * a + b * b > 0.0 && q * Spread(img, a, b) == m * (a * a + b * b);
  }

  lemma NarrowestIsLeast(sqrt: real -> real, img: seq<Pixel>)
    requires IsSqrt(sqrt) && NonNegative(img)
    ensures Least(img, Narrowest(sqrt, ImageMoments(img)))
  {
    hide Spread, Narrowest, ImageMoments, IsSqrt, NonNegative;
    WidthIsNarrowestExtent(sqrt, img);
  }

  lemma WidthNonNegative(sqrt: real -> real, img: seq<Pixel>)
    requires IsSqrt(sqrt) && NonNegative(img)
    ensures Width(sqrt, ImageMoments(img)) >= 0.0
  {
    WidthIsSmallerRoot(sqrt, img);
  }

  /** A width scaled by a ratio, squared, is the least mean squared extent times (4 * ratio) squared. */
  lemma WidthScaled(sqrt: real -> real, img: seq<Pixel>, ratio: real, x: real, f: real)
    requires IsSqrt(sqrt) && NonNegative(img)
    requires ratio >= 0.0 && x == ratio * Width(sqrt, ImageMoments(img)) && f == 4.0 * ratio
    ensures x >= 0.0 && LeastTimes(img, x * x, f * f)
  {
    var w, n := Width(sqrt, ImageMoments(img)), Narrowest(sqrt, ImageMoments(img));
    assert n == w * w / 16.0;
    hide *;
    WidthNonNegative(sqrt, img);
    SquareNonNegative(f);
    NarrowestIsLeast(sqrt, img);
    ScaledSquare(ratio, w, n, x, f);
    LeastScales(img, n, f * f, x * x);
    ProductMonotone(0.0, w, ratio);
  }

  function Translate(img: seq<Pixel>, dx: real, dy: real): seq<Pixel> {
    if img == [] then []
    else [Pixel(img[0].x + dx, img[0].y + dy, img[0].v)] + Translate(img[1..], dx, dy)
  }

  function Brighten(img: seq<Pixel>, k: real): seq<Pixel> {
    if img == [] then [] else [Pixel(img[0].x, img[0].y, k * img[0].v)] + Brighten(img[1..], k)
  }

  function SwapAxes(img: seq<Pixel>): seq<Pixel> {
    if img == [] then [] else [Pixel(img[0].y, img[0].x, img[0].v)] + SwapAxes(img[1..])
  }

  /** The metadata with the moments of the two axes exchanged. */
  function SwapMoments(m: Moments): Moments {
    Moments(m.m00, m.m01, m.m10, m.m11, m.m02, m.m20)
  }

  /** The extents along all directions determine the central moments. */
  lemma SpreadDeterminesCentral(img: seq<Pixel>, other: seq<Pixel>)
    requires NonNegative(img) && NonNegative(other)
    requires forall a, b :: Spread(other, a, b) == Spread(img, a, b)
    ensures CentralOf(ImageMoments(other)) == CentralOf(ImageMoments(img))
  {
    hide Spread, CentralOf, ImageMoments;
    forall a, b
      ensures Quadratic(CentralOf(ImageMoments(other)), a, b) == Quadratic(CentralOf(ImageMoments(img)), a, b)
    {
      SpreadIsQuadratic(img, a, b);
      SpreadIsQuadratic(other, a, b);
    }
    FormDeterminesCentral(CentralOf(ImageMoments(img)), CentralOf(ImageMoments(other)));
  }

  lemma FormDeterminesCentral(c: Central, d: Central)
    requires forall a, b :: Quadratic(d, a, b) == Quadratic(c, a, b)
    ensures d == c
  {
    assert Quadratic(d, 1.0, 0.0) == Quadratic(c, 1.0, 0.0);
    assert Quadratic(d, 0.0, 1.0) == Quadratic(c, 0.0, 1.0);
    assert Quadratic(d, 1.0, 1.0) == Quadratic(c, 1.0, 1.0);
  }

  lemma {:induction false} TranslateKeeps(img: seq<Pixel>, dx: real, dy: real, a: real, b: real, x0: real, y0: real)
    requires NonNegative(img)
    ensures NonNegative(Translate(img, dx, dy))
    ensures Scatter(Translate(img, dx, dy), a, b, x0 + dx, y0 + dy) == Scatter(img, a, b, x0, y0)
  {
    if img == [] {
    } else {
      TranslateKeeps(img[1..], dx, dy, a, b, x0, y0);
      assert Translate(img, dx, dy)[1..] == Translate(img[1..], dx, dy);
      assert Projection(Translate(img, dx, dy)[0], a, b, x0 + dx, y0 + dy) == Projection(img[0], a, b, x0, y0);
    }
  }

  ghost predicate FirstTranslated(m: Moments, n: Moments, dx: real, dy: real) {
    n.m00 == m.m00 && n.m10 == m.m10 + dx * m.m00 && n.m01 == m.m01 + dy * m.m00
  }

  lemma FirstTranslatedStep(p: Pixel, m: Moments, n: Moments, dx: real, dy: real)
    requires FirstTranslated(m, n, dx, dy)
    ensures FirstTranslated(Plus(PixelMoments(p), m), Plus(PixelMoments(Pixel(p.x + dx, p.y + dy, p.v)), n), dx, dy)
  {
    PixelFirst(p);
    PixelFirst(Pixel(p.x + dx, p.y + dy, p.v));
    hide PixelMoments;
    TranslateStep(p.v, p.x, dx, m.m10, m.m00);
    TranslateStep(p.v, p.y, dy, m.m01, m.m00);
  }

  lemma {:induction false} TranslateFirst(img: seq<Pixel>, dx: real, dy: real)
    ensures FirstTranslated(ImageMoments(img), ImageMoments(Translate(img, dx, dy)), dx, dy)
  {
    if img == [] {
    } else {
      hide FirstTranslated, PixelMoments, Plus;
      TranslateFirst(img[1..], dx, dy);
      assert Translate(img, dx, dy)[1..] == Translate(img[1..], dx, dy);
      FirstTranslatedStep(img[0], ImageMoments(img[1..]), ImageMoments(Translate(img[1..], dx, dy)), dx, dy);
    }
  }

  lemma PixelFirst(p: Pixel)
    ensures var m := PixelMoments(p); m.m00 == p.v && m.m10 == p.v * p.x && m.m01 == p.v * p.y
  {
  }

  lemma TranslateStep(v: real, x: real, d: real, r: real, w: real)
    ensures v * (x + d) + (r + d * w) == (v * x + r) + d * (v + w)
  {
    Distribute(v, x, d);
    Distribute(d, v, w);
  }

  lemma Distribute(k: real, x: real, y: real)
    ensures k * (x + y) == k * x + k * y
  {
  }

  lemma ShiftQuotient(x: real, w: real, d: real)
    requires w != 0.0
    ensures (x + d * w) / w == x / w + d
  {
  }

  lemma TranslateSpread(img: seq<Pixel>, dx: real, dy: real, a: real, b: real)
    requires NonNegative(img) && ImageMoments(img).m00 != 0.0
    ensures Spread(Translate(img, dx, dy), a, b) == Spread(img, a, b)
  {
    hide ImageMoments, Translate, Scatter;
    var m, n := ImageMoments(img), ImageMoments(Translate(img, dx, dy));
    TranslateFirst(img, dx, dy);
    ShiftQuotient(m.m10, m.m00, dx);
    ShiftQuotient(m.m01, m.m00, dy);
    TranslateKeeps(img, dx, dy, a, b, CentroidX(m), CentroidY(m));
    assert CentroidX(n) == CentroidX(m) + dx && CentroidY(n) == CentroidY(m) + dy;
  }

  /** The width does not depend on where the melt pool lies. */
  lemma WidthTranslationInvariant(sqrt: real -> real, img: seq<Pixel>, dx: real, dy: real)
    requires NonNegative(img)
    ensures Width(sqrt, ImageMoments(Translate(img, dx, dy))) == Width(sqrt, ImageMoments(img))
  {
    hide ImageMoments, Translate, CentralOf, Spread;
    TranslateKeeps(img, dx, dy, 0.0, 0.0, 0.0, 0.0);
    TranslateFirst(img, dx, dy);
    BlankImage(img);
    BlankImage(Translate(img, dx, dy));
    if ImageMoments(img).m00 != 0.0 {
      forall a, b ensures Spread(Translate(img, dx, dy), a, b) == Spread(img, a, b) {
        TranslateSpread(img, dx, dy, a, b);
      }
      SpreadDeterminesCentral(img, Translate(img, dx, dy));
    }
  }

  lemma {:induction false} BrightenNonNegative(img: seq<Pixel>, k: real)
    requires NonNegative(img)
    requires k > 0.0
    ensures NonNegative(Brighten(img, k))
  {
    if img == [] {
    } else {
      BrightenNonNegative(img[1..], k);
      ProductMonotone(0.0, img[0].v, k);
    }
  }

  lemma BrightenTerm(p: Pixel, q: Pixel, k: real, a: real, b: real, x0: real, y0: real, r: real)
    requires q == Pixel(p.x, p.y, k * p.v)
    ensures var d, e := Projection(p, a, b, x0, y0), Projection(q, a, b, x0, y0);
      q.v * (e * e) + k * r == k * (p.v * (d * d) + r)
  {
    var d := Projection(p, a, b, x0, y0);
    assert Projection(q, a, b, x0, y0) == d;
    hide Projection;
    BrightenStep(k, p.v, d * d, r);
  }

  lemma {:induction false} BrightenScatter(img: seq<Pixel>, k: real, a: real, b: real, x0: real, y0: real)
    ensures Scatter(Brighten(img, k), a, b, x0, y0) == k * Scatter(img, a, b, x0, y0)
  {
    hide Projection;
    if img == [] {
    } else {
      BrightenScatter(img[1..], k, a, b, x0, y0);
      assert Brighten(img, k)[1..] == Brighten(img[1..], k);
      BrightenTerm(img[0], Brighten(img, k)[0], k, a, b, x0, y0, Scatter(img[1..], a, b, x0, y0));
    }
  }

  lemma BrightenStep(k: real, v: real, q: real, r: real)
    ensures (k * v) * q + k * r == k * (v * q + r)
  {
    Regroup(k, v, q);
    Distribute(k, v * q, r);
  }

  lemma Regroup(k: real, v: real, q: real)
    ensures k * (v * q) == (k * v) * q
  {
  }

  ghost predicate FirstBrightened(m: Moments, n: Moments, k: real) {
    n.m00 == k * m.m00 && n.m10 == k * m.m10 && n.m01 == k * m.m01
  }

  lemma FirstBrightenedStep(p: Pixel, q: Pixel, m: Moments, n: Moments, k: real)
    requires q == Pixel(p.x, p.y, k * p.v)
    requires FirstBrightened(m, n, k)
    ensures FirstBrightened(Plus(PixelMoments(p), m), Plus(PixelMoments(q), n), k)
  {
    PixelFirst(p);
    PixelFirst(q);
    hide PixelMoments;
    Distribute(k, p.v, m.m00);
    BrightenStep(k, p.v, p.x, m.m10);
    BrightenStep(k, p.v, p.y, m.m01);
  }

  lemma {:induction false} BrightenFirst(img: seq<Pixel>, k: real)
    ensures FirstBrightened(ImageMoments(img), ImageMoments(Brighten(img, k)), k)
  {
    if img == [] {
    } else {
      hide FirstBrightened, PixelMoments, Plus;
      BrightenFirst(img[1..], k);
      assert Brighten(img, k)[1..] == Brighten(img[1..], k);
      FirstBrightenedStep(img[0], Brighten(img, k)[0], ImageMoments(img[1..]), ImageMoments(Brighten(img[1..], k)), k);
    }
  }

  lemma CancelFactor(k: real, x: real, w: real)
    requires k != 0.0 && w != 0.0 && k * w != 0.0
    ensures (k * x) / (k * w) == x / w
  {
  }

  lemma BrightenedCentroid(m: Moments, n: Moments, k: real)
    requires FirstBrightened(m, n, k)
    requires k > 0.0 && m.m00 > 0.0
    ensures Mass(m) == m.m00 && Mass(n) == k * m.m00 && Mass(n) > 0.0
    ensures CentroidX(n) == CentroidX(m) && CentroidY(n) == CentroidY(m)
  {
    ProductPositive(k, m.m00);
    CancelFactor(k, m.m10, m.m00);
    CancelFactor(k, m.m01, m.m00);
  }

  lemma BrightenSpread(img: seq<Pixel>, k: real, a: real, b: real)
    requires NonNegative(img) && ImageMoments(img).m00 > 0.0
    requires k > 0.0
    ensures Spread(Brighten(img, k), a, b) == Spread(img, a, b)
  {
    hide ImageMoments, Brighten, Scatter, CentroidX, CentroidY, Mass, FirstBrightened;
    var m, n := ImageMoments(img), ImageMoments(Brighten(img, k));
    BrightenFirst(img, k);
    BrightenedCentroid(m, n, k);
    BrightenScatter(img, k, a, b, CentroidX(m), CentroidY(m));
    CancelFactor(k, Scatter(img, a, b, CentroidX(m), CentroidY(m)), m.m00);
  }

  /** The width does not depend on the exposure: all intensities may be scaled by k > 0. */
  lemma WidthBrightnessInvariant(sqrt: real -> real, img: seq<Pixel>, k: real)
    requires NonNegative(img)
    requires k > 0.0
    ensures Width(sqrt, ImageMoments(Brighten(img, k))) == Width(sqrt, ImageMoments(img))
  {
    hide ImageMoments, Brighten, CentralOf, Spread;
    BrightenNonNegative(img, k);
    BrightenFirst(img, k);
    BlankImage(img);
    BlankImage(Brighten(img, k));
    if ImageMoments(img).m00 != 0.0 {
      forall a, b ensures Spread(Brighten(img, k), a, b) == Spread(img, a, b) {
        BrightenSpread(img, k, a, b);
      }
      SpreadDeterminesCentral(img, Brighten(img, k));
    }
  }

  lemma SwapPixel(p: Pixel)
    ensures PixelMoments(Pixel(p.y, p.x, p.v)) == SwapMoments(PixelMoments(p))
  {
    assert p.v * p.y * p.x == p.v * p.x * p.y;
  }

  lemma {:induction false} SwapImage(img: seq<Pixel>)
    ensures ImageMoments(SwapAxes(img)) == SwapMoments(ImageMoments(img))
  {
    hide PixelMoments;
    if img == [] {
    } else {
      SwapImage(img[1..]);
      assert SwapAxes(img)[1..] == SwapAxes(img[1..]);
      SwapPixel(img[0]);
    }
  }

  lemma SwapCentral(m: Moments)
    ensures var c := CentralOf(m); CentralOf(SwapMoments(m)) == Central(c.u02, c.u11, c.u20)
  {
    var c, d := CentralOf(m), CentralOf(SwapMoments(m));
    assert d.u11 == c.u11;
  }

  /** Exchanging the two axes, or equally the order of the moments in the metadata, leaves the width alone. */
  lemma WidthAxesInvariant(sqrt: real -> real, img: seq<Pixel>)
    ensures Width(sqrt, ImageMoments(SwapAxes(img))) == Width(sqrt, ImageMoments(img))
    ensures Width(sqrt, SwapMoments(ImageMoments(img))) == Width(sqrt, ImageMoments(img))
  {
    hide ImageMoments, SwapAxes, SwapMoments, CentralOf, Inner;
    SwapImage(img);
    SwapCentral(ImageMoments(img));
    InnerSwap(CentralOf(ImageMoments(img)));
  }

  lemma InnerSwap(c: Central)
    ensures Inner(Central(c.u02, c.u11, c.u20)) == Inner(c)
  {
    assert (c.u02 - c.u20) * (c.u02 - c.u20) == (c.u20 - c.u02) * (c.u20 - c.u02);
  }
}
