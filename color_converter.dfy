/** ColorConverter: sRGB to OKLAB and back, the Euclidean OKLAB distance,
    and the CIEDE2000 colour difference (CIE 142-2001) computed on CIE L*a*b*
    values. Every transcendental call goes through the uninterpreted `Maths`
    value; what is proved is the branch structure around those calls. */
module ColorConverter {
  import opened Common
  import opened Numerics
  import opened Geometry
  import opened OklabColor

  /** `1f/3f`, the cube-root exponent. */
  const ONE_THIRD: real := 1.0 / 3.0
  /** `1f/2.4f`, the inverse of the sRGB gamma. */
  const INVERSE_GAMMA: real := 1.0 / 2.4
  const TWO_PI: real := 2.0 * JAVA_PI

  // ------------------------------------------------------------------ sRGB transfer

  /** `gammaToLinear`: the sRGB decoding curve, linear up to 0.04045. */
  function GammaToLinear(m: Maths, v: real): real
  {
    if v <= 0.04045 then v / 12.92 else m.pow((v + 0.055) / 1.055, 2.4)
  }

  /** `linearToGamma`: the sRGB encoding curve, linear up to 0.0031308. */
  function LinearToGamma(m: Maths, v: real): real
  {
    if v <= 0.0031308 then v * 12.92 else 1.055 * m.pow(v, INVERSE_GAMMA) - 0.055
  }

  /** Decoding keeps a unit-range value in the unit range. */
  lemma GammaToLinearRange(m: Maths, v: real)
    requires Lawful(m)
    requires 0.0 <= v <= 1.0
    ensures 0.0 <= GammaToLinear(m, v) <= 1.0
  {
    if v > 0.04045 {
      var base := (v + 0.055) / 1.055;
      assert 0.0 <= base <= 1.0;
      assert 0.0 <= m.pow(base, 2.4) <= 1.0;
    }
  }

  /** On the linear segment of the encoding curve, decoding undoes encoding:
      `v * 12.92` stays below the decoding threshold 0.04045. */
  lemma LinearGammaInverse(m: Maths, u: real)
    requires u <= 0.0031308
    ensures GammaToLinear(m, LinearToGamma(m, u)) == u
  {
  }

  /** And encoding undoes decoding on the values whose decoded value lies on
      the linear segment of the encoding curve. */
  lemma GammaLinearInverse(m: Maths, v: real)
    requires v <= 0.0031308 * 12.92
    ensures LinearToGamma(m, GammaToLinear(m, v)) == v
  {
  }

  // ------------------------------------------------------------------ cube root and clamp

  /** `cbrt`: the real cube root through `pow`, with the sign split off. */
  function Cbrt(m: Maths, x: real): real
  {
    if x >= 0.0 then m.pow(x, ONE_THIRD) else -m.pow(-x, ONE_THIRD)
  }

  /** The sign split makes the cube root odd and sign-preserving. */
  lemma CbrtOdd(m: Maths, x: real)
    requires Lawful(m)
    ensures Cbrt(m, -x) == -Cbrt(m, x)
    ensures (x > 0.0 ==> Cbrt(m, x) > 0.0) && (x < 0.0 ==> Cbrt(m, x) < 0.0)
    ensures x == 0.0 ==> Cbrt(m, x) == 0.0
  {
    assert m.pow(0.0, ONE_THIRD) == 0.0;
    if x > 0.0 {
      assert m.pow(x, ONE_THIRD) > 0.0;
    } else if x < 0.0 {
      assert m.pow(-x, ONE_THIRD) > 0.0;
    }
  }

  /** `clamp`: `max(0, min(255, value))`. */
  function Clamp(v: int): (c: int)
    ensures 0 <= c <= 255
    ensures 0 <= v <= 255 ==> c == v
    ensures v < 0 ==> c == 0
    ensures v > 255 ==> c == 255
  {
    Max(0, Min(255, v))
  }

  // ------------------------------------------------------------------ OKLAB

  /** `rgbToOklab`: decode each channel, mix to LMS cone space, take cube
      roots and mix to L, a, b. */
  function RgbToOklab(m: Maths, r: int, g: int, b: int): Oklab
  {
    var rLin := GammaToLinear(m, r as real / 255.0);
    var gLin := GammaToLinear(m, g as real / 255.0);
    var bLin := GammaToLinear(m, b as real / 255.0);
    var l := 0.4122214708 * rLin + 0.5363325363 * gLin + 0.0514459929 * bLin;
    var md := 0.2119034982 * rLin + 0.6806995451 * gLin + 0.1073969566 * bLin;
    var s := 0.0883024619 * rLin + 0.2817188376 * gLin + 0.6299787005 * bLin;
    var lRoot, mRoot, sRoot := Cbrt(m, l), Cbrt(m, md), Cbrt(m, s);
    Oklab(0.2104542553 * lRoot + 0.7936177850 * mRoot - 0.0040720468 * sRoot,
          1.9779984951 * lRoot - 2.4285922050 * mRoot + 0.4505937099 * sRoot,
          0.0259040371 * lRoot + 0.7827717662 * mRoot - 0.8086757660 * sRoot)
  }

  /** Black is the origin of OKLAB: zero lightness and zero chroma. */
  lemma BlackIsOrigin(m: Maths)
    requires Lawful(m)
    ensures RgbToOklab(m, 0, 0, 0) == Oklab(0.0, 0.0, 0.0)
  {
    CbrtOdd(m, 0.0);
  }

  /** One encoded output channel: `clamp((int) (linearToGamma(x) * 255))`. */
  function EncodeChannel(m: Maths, lin: real): (v: int)
    ensures ChannelOk(v)
  {
    Clamp(Trunc(LinearToGamma(m, lin) * 255.0))
  }

  /** `oklabToRgb`: back to LMS by the inverse matrix, cube, mix to linear
      RGB, encode and clamp each channel. */
  function OklabToRgb(m: Maths, c: Oklab): (rgb: RGB)
    ensures ValidRGB(rgb)
  {
    var lRoot := c.L * 0.9999999985 + 0.3963377774 * c.a + 0.2158037573 * c.b;
    var mRoot := c.L * 1.0000000089 - 0.1055613458 * c.a - 0.0638541728 * c.b;
    var sRoot := c.L * 1.0000000547 - 0.0894841775 * c.a - 1.2914855480 * c.b;
    var l, md, s := lRoot * lRoot * lRoot, mRoot * mRoot * mRoot, sRoot * sRoot * sRoot;
    var rLin := 4.0767416621 * l - 3.3077115913 * md + 0.2309699292 * s;
    var gLin := -1.2684380046 * l + 2.6097574011 * md - 0.3413193965 * s;
    var bLin := -0.0041960863 * l - 0.7034186147 * md + 1.7076147010 * s;
    RGB(EncodeChannel(m, rLin), EncodeChannel(m, gLin), EncodeChannel(m, bLin))
  }

  /** `oklabDistance`: the Euclidean distance of the two colours. */
  function OklabDistance(m: Maths, c1: Oklab, c2: Oklab): real
  {
    m.sqrt(Sq(c2.L - c1.L) + Sq(c2.a - c1.a) + Sq(c2.b - c1.b))
  }

  /** The OKLAB distance is a metric's distance: non-negative, symmetric,
      and zero exactly for identical colours. */
  lemma OklabDistanceMetric(m: Maths, c1: Oklab, c2: Oklab)
    requires SqrtLaw(m)
    ensures 0.0 <= OklabDistance(m, c1, c2)
    ensures OklabDistance(m, c1, c2) == OklabDistance(m, c2, c1)
    ensures OklabDistance(m, c1, c2) == 0.0 <==> c1 == c2
  {
    SqNegate(c2.L - c1.L);
    SqNegate(c2.a - c1.a);
    SqNegate(c2.b - c1.b);
    assert c1.L - c2.L == -(c2.L - c1.L) && c1.a - c2.a == -(c2.a - c1.a) && c1.b - c2.b == -(c2.b - c1.b);
    var d := Sq(c2.L - c1.L) + Sq(c2.a - c1.a) + Sq(c2.b - c1.b);
    SumOfSquaresZero(c2.L - c1.L, c2.a - c1.a);
    SqNonneg(c2.b - c1.b);
    if c2.b - c1.b != 0.0 {
      SqPos(c2.b - c1.b);
    }
    if c1 == c2 {
      SqZero();
      SqrtZero(m);
    } else {
      assert 0.0 < d;
      SqrtPositive(m, d);
    }
  }

  // ------------------------------------------------------------------ CIE L*a*b*

  datatype Lab = Lab(L: real, a: real, b: real)

  /** The L*a*b* companding function with its linear toe below 0.008856. */
  function LabF(m: Maths, t: real): real
  {
    if t > 0.008856 then m.pow(t, ONE_THIRD) else 7.787 * t + 16.0 / 116.0
  }

  /** `rgbToLab`: decode, mix to XYZ, divide by the D65 white point,
      compand, and form L*, a*, b*. */
  function RgbToLab(m: Maths, rgb: RGB): Lab
  {
    var rLin := GammaToLinear(m, rgb.r as real / 255.0);
    var gLin := GammaToLinear(m, rgb.g as real / 255.0);
    var bLin := GammaToLinear(m, rgb.b as real / 255.0);
    var x := (rLin * 0.4124564 + gLin * 0.3575761 + bLin * 0.1804375) / 0.95047;
    var y := (rLin * 0.2126729 + gLin * 0.7151522 + bLin * 0.0721750) / 1.00000;
    var z := (rLin * 0.0193339 + gLin * 0.1191920 + bLin * 0.9503041) / 1.08883;
    var fx, fy, fz := LabF(m, x), LabF(m, y), LabF(m, z);
    Lab(116.0 * fy - 16.0, 500.0 * (fx - fy), 200.0 * (fy - fz))
  }

  /** Black has L* = a* = b* = 0, through the linear toe of the compander. */
  lemma BlackLab(m: Maths)
    ensures RgbToLab(m, RGB(0, 0, 0)) == Lab(0.0, 0.0, 0.0)
  {
    assert LabF(m, 0.0) == 16.0 / 116.0;
  }

  // ------------------------------------------------------------------ CIEDE2000 hue logic

  function AbsR(x: real): real { if x < 0.0 then -x else x }

  /** `h'`: `atan2(b, a')`, or 0 for a zero vector, moved into [0, 2pi). */
  function HuePrime(m: Maths, ap: real, b: real): real
  {
    var h := if AbsR(ap) + AbsR(b) == 0.0 then 0.0 else m.atan2(b, ap);
    if h < 0.0 then h + TWO_PI else h
  }

  predicate IsAngle(h: real) { 0.0 <= h < TWO_PI }

  lemma HuePrimeRange(m: Maths, ap: real, b: real)
    requires Lawful(m)
    ensures IsAngle(HuePrime(m, ap, b))
    ensures ap == 0.0 && b == 0.0 ==> HuePrime(m, ap, b) == 0.0
  {
    assert -JAVA_PI <= m.atan2(b, ap) <= JAVA_PI;
  }

  /** `dh'`: zero when either primed chroma is zero, otherwise the hue
      difference wrapped by one turn into [-pi, pi]. */
  function HueDifference(c1p: real, c2p: real, h1p: real, h2p: real): real
  {
    if Prod(c1p, c2p) == 0.0 then 0.0
    else
      var d := h2p - h1p;
      var d' := if d > JAVA_PI then d - TWO_PI else d;
      if d' < -JAVA_PI then d' + TWO_PI else d'
  }

  /** For hue angles in [0, 2pi), the wrapped difference lies in [-pi, pi]
      and differs from h2' - h1' by a whole turn at most. */
  lemma HueDifferenceWrap(c1p: real, c2p: real, h1p: real, h2p: real)
    requires IsAngle(h1p) && IsAngle(h2p)
    ensures var dhp := HueDifference(c1p, c2p, h1p, h2p);
      (Prod(c1p, c2p) == 0.0 ==> dhp == 0.0)
      && (Prod(c1p, c2p) != 0.0 ==>
            -JAVA_PI <= dhp <= JAVA_PI
            && (dhp == h2p - h1p || dhp == h2p - h1p - TWO_PI || dhp == h2p - h1p + TWO_PI))
  {
  }

  /** Swapping the two colours negates the hue difference. */
  lemma HueDifferenceAntisymmetric(c1p: real, c2p: real, h1p: real, h2p: real)
    requires IsAngle(h1p) && IsAngle(h2p)
    ensures HueDifference(c2p, c1p, h2p, h1p) == -HueDifference(c1p, c2p, h1p, h2p)
  {
    ProdCommutes(c1p, c2p);
  }

  /** `h-bar'`: h1' + h2' when either primed chroma is zero; otherwise the
      average, moved by half a turn when the hues are more than pi apart. */
  function MeanHue(c1p: real, c2p: real, h1p: real, h2p: real): real
  {
    if Prod(c1p, c2p) == 0.0 then h1p + h2p
    else
      var avg := (h1p + h2p) / 2.0;
      if AbsR(h1p - h2p) > JAVA_PI then
        if avg < JAVA_PI then avg + JAVA_PI else avg - JAVA_PI
      else avg
  }

  /** The shorter way round the circle between two angles. */
  function AngularGap(x: real, y: real): real
  {
    var d := AbsR(x - y);
    if d <= JAVA_PI then d else TWO_PI - d
  }

  /** With both chromas non-zero, the mean hue is an angle in [0, 2pi) lying
      within a quarter turn of each hue: the midpoint of the shorter arc. */
  lemma MeanHueMidpoint(c1p: real, c2p: real, h1p: real, h2p: real)
    requires IsAngle(h1p) && IsAngle(h2p)
    requires Prod(c1p, c2p) != 0.0
    ensures var hpbar := MeanHue(c1p, c2p, h1p, h2p);
      IsAngle(hpbar)
      && AngularGap(hpbar, h1p) <= JAVA_PI / 2.0 && AngularGap(hpbar, h2p) <= JAVA_PI / 2.0
      && (2.0 * hpbar == h1p + h2p || 2.0 * hpbar == h1p + h2p + TWO_PI || 2.0 * hpbar == h1p + h2p - TWO_PI)
  {
  }

  lemma MeanHueSymmetric(c1p: real, c2p: real, h1p: real, h2p: real)
    ensures MeanHue(c2p, c1p, h2p, h1p) == MeanHue(c1p, c2p, h1p, h2p)
  {
    ProdCommutes(c1p, c2p);
  }

  // ------------------------------------------------------------------ CIEDE2000 weights

  /** `sqrt(C^7 / (C^7 + 25^7))`, shared by G and R_T. */
  function ChromaRatio(m: Maths, c: real): (q: real)
    requires Lawful(m)
    requires 0.0 <= c
    ensures 0.0 <= q <= 1.0
  {
    var c7 := m.pow(c, 7.0);
    var k7 := m.pow(25.0, 7.0);
    assert 0.0 <= c7 && 0.0 < k7;
    var x := c7 / (c7 + k7);
    QuotNonneg(c7, c7 + k7);
    assert x <= 1.0 by {
      assert Prod(c7 + k7, x) == c7;
      if x > 1.0 {
        ProdStrict(c7 + k7, 1.0, x);
      }
    }
    SqrtMonotone(m, x, 1.0);
    SqrtOfSquare(m, 1.0);
    m.sqrt(x)
  }

  /** `T`, the hue weighting; the cosine bounds keep it within [0.07, 1.93]. */
  function HueWeight(m: Maths, hpbar: real): real
  {
    1.0 - 0.17 * m.cos(hpbar - JAVA_PI / 6.0)
        + 0.24 * m.cos(2.0 * hpbar)
        + 0.32 * m.cos(3.0 * hpbar + JAVA_PI / 30.0)
        - 0.20 * m.cos(4.0 * hpbar - 63.0 * JAVA_PI / 180.0)
  }

  lemma HueWeightBounds(m: Maths, hpbar: real)
    requires Lawful(m)
    ensures 0.07 <= HueWeight(m, hpbar) <= 1.93
  {
    assert -1.0 <= m.cos(hpbar - JAVA_PI / 6.0) <= 1.0;
    assert -1.0 <= m.cos(2.0 * hpbar) <= 1.0;
    assert -1.0 <= m.cos(3.0 * hpbar + JAVA_PI / 30.0) <= 1.0;
    assert -1.0 <= m.cos(4.0 * hpbar - 63.0 * JAVA_PI / 180.0) <= 1.0;
  }

  /** `S_L`, the lightness compensation. */
  function LightnessScale(m: Maths, lbar: real): (sl: real)
    requires Lawful(m)
    ensures 1.0 <= sl
  {
    var dev := Sq(lbar - 50.0);
    SqNonneg(lbar - 50.0);
    SqrtPositive(m, 20.0 + dev);
    QuotNonneg(0.015 * dev, m.sqrt(20.0 + dev));
    1.0 + 0.015 * dev / m.sqrt(20.0 + dev)
  }

  /** `S_C`, the chroma compensation. */
  function ChromaScale(cpbar: real): (sc: real)
    ensures 0.0 <= cpbar ==> 1.0 <= sc
  {
    1.0 + 0.045 * cpbar
  }

  /** `S_H`, the hue compensation. */
  function HueScale(m: Maths, cpbar: real, hpbar: real): (sh: real)
    requires Lawful(m)
    requires 0.0 <= cpbar
    ensures 1.0 <= sh
  {
    var t := HueWeight(m, hpbar);
    HueWeightBounds(m, hpbar);
    ProdNonneg(0.015 * cpbar, t);
    1.0 + Prod(0.015 * cpbar, t)
  }

  /** `R_T`, the rotation term for blue hues. */
  function Rotation(m: Maths, cpbar: real, hpbar: real): real
    requires Lawful(m)
    requires 0.0 <= cpbar
  {
    var e := m.exp(-m.pow((hpbar - 275.0 * JAVA_PI / 180.0) / (25.0 * JAVA_PI / 180.0), 2.0));
    Prod(-2.0 * ChromaRatio(m, cpbar), m.sin(60.0 * JAVA_PI / 180.0 * e))
  }

  // ------------------------------------------------------------------ CIEDE2000

  /** One colour after the a' correction: L, C' and h'. */
  datatype Primed = Primed(L: real, cp: real, hp: real)

  function Prime(m: Maths, lab: Lab, g: real): (p: Primed)
    requires Lawful(m)
    ensures 0.0 <= p.cp && IsAngle(p.hp)
  {
    var ap := lab.a * (1.0 + g);
    HypotZeroIff(m, ap, lab.b);
    HuePrimeRange(m, ap, lab.b);
    Primed(lab.L, Hypot(m, ap, lab.b), HuePrime(m, ap, lab.b))
  }

  /** The differences dL', dC' and dH' of two primed colours. */
  datatype Deltas = Deltas(dL: real, dC: real, dH: real)

  /** The means L-bar, C-bar' and h-bar' of two primed colours. */
  datatype Means = Means(L: real, cp: real, hp: real)

  function PrimedDeltas(m: Maths, p1: Primed, p2: Primed): Deltas
  {
    var dhp := HueDifference(p1.cp, p2.cp, p1.hp, p2.hp);
    Deltas(p2.L - p1.L, p2.cp - p1.cp, Prod(2.0 * m.sqrt(Prod(p1.cp, p2.cp)), m.sin(dhp / 2.0)))
  }

  function PrimedMeans(p1: Primed, p2: Primed): (w: Means)
    ensures 0.0 <= p1.cp && 0.0 <= p2.cp ==> 0.0 <= w.cp
  {
    Means((p1.L + p2.L) / 2.0, (p1.cp + p2.cp) / 2.0, MeanHue(p1.cp, p2.cp, p1.hp, p2.hp))
  }

  function Negated(d: Deltas): Deltas
  {
    Deltas(-d.dL, -d.dC, -d.dH)
  }

  /** The compensations S_L, S_C, S_H and the rotation R_T at the means. */
  datatype Scales = Scales(sl: real, sc: real, sh: real, rt: real)

  predicate ScalesAtLeastOne(s: Scales) { 1.0 <= s.sl && 1.0 <= s.sc && 1.0 <= s.sh }

  function ScalesOf(m: Maths, w: Means): (s: Scales)
    requires Lawful(m)
    requires 0.0 <= w.cp
    ensures ScalesAtLeastOne(s)
  {
    Scales(LightnessScale(m, w.L), ChromaScale(w.cp), HueScale(m, w.cp, w.hp), Rotation(m, w.cp, w.hp))
  }

  /** The root of the weighted squares with the rotation cross term. */
  function Weighted(m: Maths, d: Deltas, s: Scales): real
    requires ScalesAtLeastOne(s)
  {
    m.sqrt(m.pow(d.dL / s.sl, 2.0) + m.pow(d.dC / s.sc, 2.0) + m.pow(d.dH / s.sh, 2.0)
           + Prod(Prod(s.rt, d.dC / s.sc), d.dH / s.sh))
  }

  /** The difference formula on two primed colours. */
  function Combine(m: Maths, p1: Primed, p2: Primed): real
    requires Lawful(m)
    requires 0.0 <= p1.cp && 0.0 <= p2.cp
  {
    Weighted(m, PrimedDeltas(m, p1, p2), ScalesOf(m, PrimedMeans(p1, p2)))
  }

  /** `G`, the a' correction factor, from the mean of the two chromas. */
  function ChromaCorrection(m: Maths, lab1: Lab, lab2: Lab): real
    requires Lawful(m)
  {
    HypotZeroIff(m, lab1.a, lab1.b);
    HypotZeroIff(m, lab2.a, lab2.b);
    var cbar := (Hypot(m, lab1.a, lab1.b) + Hypot(m, lab2.a, lab2.b)) / 2.0;
    0.5 * (1.0 - ChromaRatio(m, cbar))
  }

  lemma ChromaCorrectionSymmetric(m: Maths, lab1: Lab, lab2: Lab)
    requires Lawful(m)
    ensures ChromaCorrection(m, lab2, lab1) == ChromaCorrection(m, lab1, lab2)
  {
    var c1, c2 := Hypot(m, lab1.a, lab1.b), Hypot(m, lab2.a, lab2.b);
    assert (c2 + c1) / 2.0 == (c1 + c2) / 2.0;
  }

  /** `calculateCIEDE2000(lab1, lab2)` */
  function Ciede2000(m: Maths, lab1: Lab, lab2: Lab): real
    requires Lawful(m)
  {
    var g := ChromaCorrection(m, lab1, lab2);
    Combine(m, Prime(m, lab1, g), Prime(m, lab2, g))
  }

  /** `ciede2000Distance`: both OKLAB colours go through `oklabToRgb` and
      `rgbToLab` before the CIEDE2000 formula. */
  function Ciede2000Distance(m: Maths, c1: Oklab, c2: Oklab): real
    requires Lawful(m)
  {
    Ciede2000(m, RgbToLab(m, OklabToRgb(m, c1)), RgbToLab(m, OklabToRgb(m, c2)))
  }

  /** Swapping the colours negates every difference: dh' by the wrap's
      antisymmetry, dH' because the sine is odd. */
  lemma DeltasAntisymmetric(m: Maths, p1: Primed, p2: Primed)
    requires TrigLaws(m)
    requires IsAngle(p1.hp) && IsAngle(p2.hp)
    ensures PrimedDeltas(m, p2, p1) == Negated(PrimedDeltas(m, p1, p2))
  {
    var dhp := HueDifference(p1.cp, p2.cp, p1.hp, p2.hp);
    HueDifferenceAntisymmetric(p1.cp, p2.cp, p1.hp, p2.hp);
    ProdCommutes(p1.cp, p2.cp);
    var root := 2.0 * m.sqrt(Prod(p1.cp, p2.cp));
    assert -dhp / 2.0 == -(dhp / 2.0);
    assert m.sin(-(dhp / 2.0)) == -m.sin(dhp / 2.0);
    ProdNegateRight(root, m.sin(dhp / 2.0));
  }

  /** The means do not depend on the order of the colours. */
  lemma MeansSymmetric(p1: Primed, p2: Primed)
    ensures PrimedMeans(p2, p1) == PrimedMeans(p1, p2)
  {
    MeanHueSymmetric(p1.cp, p2.cp, p1.hp, p2.hp);
  }

  /** Negating all differences leaves the weighted sum unchanged: the
      squares are even and the cross term multiplies two negated factors. */
  lemma WeightedEven(m: Maths, d: Deltas, s: Scales)
    requires SquareLaw(m)
    requires ScalesAtLeastOne(s)
    ensures Weighted(m, Negated(d), s) == Weighted(m, d, s)
  {
    QuotNegate(d.dL, s.sl);
    QuotNegate(d.dC, s.sc);
    QuotNegate(d.dH, s.sh);
    SqNegate(d.dL / s.sl);
    SqNegate(d.dC / s.sc);
    SqNegate(d.dH / s.sh);
    ProdNegateRight(s.rt, d.dC / s.sc);
    ProdNegateLeft(Prod(s.rt, d.dC / s.sc), -(d.dH / s.sh));
    ProdNegateRight(Prod(s.rt, d.dC / s.sc), d.dH / s.sh);
  }

  /** Swapping the primed colours leaves the formula unchanged. */
  lemma CombineSymmetric(m: Maths, p1: Primed, p2: Primed)
    requires Lawful(m)
    requires 0.0 <= p1.cp && 0.0 <= p2.cp
    requires IsAngle(p1.hp) && IsAngle(p2.hp)
    ensures Combine(m, p2, p1) == Combine(m, p1, p2)
  {
    DeltasAntisymmetric(m, p1, p2);
    MeansSymmetric(p1, p2);
    WeightedEven(m, PrimedDeltas(m, p1, p2), ScalesOf(m, PrimedMeans(p1, p2)));
  }

  /** CIEDE2000 is symmetric in its two colours. */
  lemma Ciede2000Symmetric(m: Maths, lab1: Lab, lab2: Lab)
    requires Lawful(m)
    ensures Ciede2000(m, lab2, lab1) == Ciede2000(m, lab1, lab2)
  {
    ChromaCorrectionSymmetric(m, lab1, lab2);
    var g := ChromaCorrection(m, lab1, lab2);
    CombineSymmetric(m, Prime(m, lab1, g), Prime(m, lab2, g));
  }

  /** A colour has CIEDE2000 difference zero from itself. */
  lemma Ciede2000SelfZero(m: Maths, lab: Lab)
    requires Lawful(m)
    ensures Ciede2000(m, lab, lab) == 0.0
  {
    var p := Prime(m, lab, ChromaCorrection(m, lab, lab));
    SelfDeltasZero(m, p);
    WeightedZero(m, ScalesOf(m, PrimedMeans(p, p)));
  }

  lemma SelfDeltasZero(m: Maths, p: Primed)
    requires TrigLaws(m)
    ensures PrimedDeltas(m, p, p) == Deltas(0.0, 0.0, 0.0)
  {
    assert HueDifference(p.cp, p.cp, p.hp, p.hp) == 0.0;
    SinZero(m);
    ProdZeroRight(2.0 * m.sqrt(Prod(p.cp, p.cp)));
  }

  lemma WeightedZero(m: Maths, s: Scales)
    requires SquareLaw(m) && SqrtLaw(m)
    requires ScalesAtLeastOne(s)
    ensures Weighted(m, Deltas(0.0, 0.0, 0.0), s) == 0.0
  {
    assert 0.0 / s.sl == 0.0 && 0.0 / s.sc == 0.0 && 0.0 / s.sh == 0.0;
    SqZero();
    ProdZeroRight(s.rt);
    ProdZeroRight(Prod(s.rt, 0.0));
    SqrtZero(m);
  }

  /** The pipeline inherits both properties. */
  lemma Ciede2000DistanceProperties(m: Maths, c1: Oklab, c2: Oklab)
    requires Lawful(m)
    ensures Ciede2000Distance(m, c1, c2) == Ciede2000Distance(m, c2, c1)
    ensures Ciede2000Distance(m, c1, c1) == 0.0
  {
    Ciede2000Symmetric(m, RgbToLab(m, OklabToRgb(m, c1)), RgbToLab(m, OklabToRgb(m, c2)));
    Ciede2000SelfZero(m, RgbToLab(m, OklabToRgb(m, c1)));
  }
}
