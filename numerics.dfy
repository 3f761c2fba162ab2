/** The floating-point maths library the colour code calls (Math.sqrt,
    Math.pow, Math.atan2, Math.sin, Math.cos, Math.exp), kept uninterpreted:
    the model is parametrised by a `Maths` value and relies only on the laws
    collected in `Lawful`. Java floats and doubles are modelled as exact reals. */
module Numerics {

  /** `Math.PI` as a Java double. */
  const JAVA_PI: real := 3.141592653589793

  datatype Maths = Maths(
    sqrt: real -> real,
    pow: (real, real) -> real,
    atan2: (real, real) -> real,
    sin: real -> real,
    cos: real -> real,
    exp: real -> real)

  /** The properties of the real functions that the model's proofs use,
      in four groups so that a proof can ask for only the group it needs. */
  ghost predicate Lawful(m: Maths)
  {
    SqrtLaw(m) && PowLaws(m) && SquareLaw(m) && TrigLaws(m)
  }

  /** `Math.sqrt` is the non-negative square root on non-negative arguments. */
  ghost predicate SqrtLaw(m: Maths)
  {
    forall x :: 0.0 <= x ==> 0.0 <= m.sqrt(x) && Sq(m.sqrt(x)) == x
  }

  /** `Math.pow` keeps signs and the unit interval, and fixes 1 and 0. */
  ghost predicate PowLaws(m: Maths)
  {
    (forall b, e :: 0.0 <= b <= 1.0 && 0.0 < e ==> 0.0 <= m.pow(b, e) <= 1.0)
    && (forall b, e :: 0.0 <= b ==> 0.0 <= m.pow(b, e))
    && (forall e :: m.pow(1.0, e) == 1.0)
    && (forall e :: 0.0 < e ==> m.pow(0.0, e) == 0.0)
    && (forall b, e :: 0.0 < b ==> 0.0 < m.pow(b, e))
  }

  /** `Math.pow(x, 2)` is the square. */
  ghost predicate SquareLaw(m: Maths)
  {
    forall x :: m.pow(x, 2.0) == Sq(x)
  }

  /** `Math.atan2` lies in [-pi, pi], `Math.sin` is odd, `Math.cos` lies in
      [-1, 1]. */
  ghost predicate TrigLaws(m: Maths)
  {
    (forall y, x :: -JAVA_PI <= m.atan2(y, x) <= JAVA_PI)
    && (forall x :: m.sin(-x) == -m.sin(x))
    && (forall x :: -1.0 <= m.cos(x) <= 1.0)
  }

  /** A product of two reals. Products and squares are named so that the
      sign and order facts below carry the non-linear reasoning. */
  function Prod(a: real, b: real): real
  {
    a * b
  }

  /** `x * x` */
  function Sq(x: real): real
  {
    Prod(x, x)
  }

  lemma ProdPos(a: real, b: real)
    requires 0.0 < a && 0.0 < b
    ensures 0.0 < Prod(a, b)
  {
    assert a * b > 0.0;
  }

  lemma ProdNonneg(a: real, b: real)
    requires 0.0 <= a && 0.0 <= b
    ensures 0.0 <= Prod(a, b)
  {
    ProdMonotone(a, 0.0, b);
    ProdZeroRight(a);
  }

  lemma ProdMonotone(a: real, b: real, c: real)
    requires 0.0 <= a && b <= c
    ensures Prod(a, b) <= Prod(a, c)
  {
    assert a * (c - b) >= 0.0;
    assert a * c - a * b == a * (c - b);
  }

  lemma ProdStrict(a: real, b: real, c: real)
    requires 0.0 < a && b < c
    ensures Prod(a, b) < Prod(a, c)
  {
    ProdPos(a, c - b);
    assert a * c - a * b == a * (c - b);
  }

  lemma ProdCommutes(a: real, b: real)
    ensures Prod(a, b) == Prod(b, a)
  {
  }

  lemma ProdZeroRight(a: real)
    ensures Prod(a, 0.0) == 0.0
  {
  }

  lemma ProdNegateLeft(a: real, b: real)
    ensures Prod(-a, b) == -Prod(a, b)
  {
    assert (-a) * b == -(a * b);
  }

  lemma ProdNegateRight(a: real, b: real)
    ensures Prod(a, -b) == -Prod(a, b)
  {
    assert a * (-b) == -(a * b);
  }

  lemma QuotNonneg(x: real, y: real)
    requires 0.0 <= x && 0.0 < y
    ensures 0.0 <= x / y
  {
  }

  lemma QuotNegate(x: real, y: real)
    requires y != 0.0
    ensures (-x) / y == -(x / y)
  {
  }

  /** Dividing by a larger positive number gives a smaller quotient. */
  lemma QuotientBetween(a: real, d: real, lo: real, hi: real)
    requires 0.0 <= a && 0.0 < lo <= d <= hi
    ensures a / hi <= a / d <= a / lo
  {
    var q, qlo, qhi := a / d, a / lo, a / hi;
    assert Prod(q, d) == a && Prod(qlo, lo) == a && Prod(qhi, hi) == a;
    QuotNonneg(a, d);
    QuotNonneg(a, lo);
    ProdMonotone(q, lo, d);
    ProdCommutes(q, lo);
    if qlo < q {
      ProdStrict(lo, qlo, q);
      ProdCommutes(lo, qlo);
    }
    ProdMonotone(qhi, d, hi);
    ProdCommutes(qhi, d);
    if q < qhi {
      ProdStrict(d, q, qhi);
      ProdCommutes(d, q);
    }
  }

  lemma SqPos(x: real)
    requires x < 0.0 || 0.0 < x
    ensures 0.0 < Sq(x)
  {
    if 0.0 < x {
      ProdPos(x, x);
    } else {
      ProdPos(-x, -x);
      assert Prod(-x, -x) == Prod(x, x);
    }
  }

  lemma SqZero()
    ensures Sq(0.0) == 0.0
  {
  }

  lemma SqNonneg(x: real)
    ensures 0.0 <= Sq(x)
  {
    if x < 0.0 || 0.0 < x {
      SqPos(x);
    } else {
      SqZero();
    }
  }

  lemma SqNegate(x: real)
    ensures Sq(-x) == Sq(x)
  {
    assert (-x) * (-x) == x * x;
  }

  /** A sum of two squares is non-negative and vanishes only at the origin. */
  lemma SumOfSquaresZero(x: real, y: real)
    ensures 0.0 <= Sq(x) + Sq(y)
    ensures Sq(x) + Sq(y) == 0.0 <==> x == 0.0 && y == 0.0
  {
    SqNonneg(x);
    SqNonneg(y);
    if x < 0.0 || 0.0 < x {
      SqPos(x);
    }
    if y < 0.0 || 0.0 < y {
      SqPos(y);
    }
    if x == 0.0 && y == 0.0 {
      SqZero();
    }
  }

  /** `Math.toDegrees`. */
  function ToDegrees(rad: real): real
  {
    rad * 180.0 / JAVA_PI
  }

  lemma SquareMonotone(s: real, k: real)
    requires 0.0 <= s && 0.0 <= k
    ensures s < k <==> Sq(s) < Sq(k)
  {
    if s < k {
      ProdMonotone(s, s, k);
      ProdCommutes(s, k);
      ProdStrict(k, s, k);
    } else {
      ProdMonotone(k, k, s);
      ProdCommutes(k, s);
      ProdMonotone(s, k, s);
    }
  }

  /** A square root compares with a non-negative bound as its argument
      compares with the bound's square; this lets thresholds on distances be
      read as thresholds on squared distances. */
  lemma SqrtLess(m: Maths, d: real, k: real)
    requires SqrtLaw(m)
    requires 0.0 <= d && 0.0 <= k
    ensures m.sqrt(d) < k <==> d < Sq(k)
  {
    var s := m.sqrt(d);
    assert 0.0 <= s && Sq(s) == d;
    SquareMonotone(s, k);
  }

  lemma SqrtGreater(m: Maths, d: real, k: real)
    requires SqrtLaw(m)
    requires 0.0 <= d && 0.0 <= k
    ensures m.sqrt(d) > k <==> d > Sq(k)
  {
    var s := m.sqrt(d);
    assert 0.0 <= s && Sq(s) == d;
    SquareMonotone(k, s);
  }

  lemma SqrtZero(m: Maths)
    requires SqrtLaw(m)
    ensures m.sqrt(0.0) == 0.0
  {
    SqrtOfSquare(m, 0.0);
    SqZero();
  }

  /** The root of a square of a non-negative number is that number. */
  lemma SqrtOfSquare(m: Maths, x: real)
    requires SqrtLaw(m)
    requires 0.0 <= x
    ensures m.sqrt(Sq(x)) == x
  {
    SqNonneg(x);
    var s := m.sqrt(Sq(x));
    assert 0.0 <= s && Sq(s) == Sq(x);
    SquareMonotone(s, x);
    SquareMonotone(x, s);
  }

  /** The root of a positive number is positive. */
  lemma SqrtPositive(m: Maths, x: real)
    requires SqrtLaw(m)
    requires 0.0 < x
    ensures 0.0 < m.sqrt(x)
  {
    var s := m.sqrt(x);
    assert 0.0 <= s && Sq(s) == x;
    if s == 0.0 {
      SqZero();
    }
  }

  /** The sine of zero, from oddness. */
  lemma SinZero(m: Maths)
    requires TrigLaws(m)
    ensures m.sin(0.0) == 0.0
  {
    assert m.sin(-0.0) == -m.sin(0.0);
  }

  /** `Math.sqrt(x * x + y * y)`: the length of a plane vector. */
  function Hypot(m: Maths, x: real, y: real): real
  {
    m.sqrt(Sq(x) + Sq(y))
  }

  /** The length is never negative and is zero exactly for the zero vector. */
  lemma HypotZeroIff(m: Maths, x: real, y: real)
    requires SqrtLaw(m)
    ensures 0.0 <= Hypot(m, x, y)
    ensures Hypot(m, x, y) == 0.0 <==> x == 0.0 && y == 0.0
  {
    SumOfSquaresZero(x, y);
    var s := m.sqrt(Sq(x) + Sq(y));
    if 0.0 < s {
      SqPos(s);
    } else {
      SqZero();
    }
  }

  /** The root is monotone. */
  lemma SqrtMonotone(m: Maths, x: real, y: real)
    requires SqrtLaw(m)
    requires 0.0 <= x <= y
    ensures m.sqrt(x) <= m.sqrt(y)
  {
    var sx, sy := m.sqrt(x), m.sqrt(y);
    assert 0.0 <= sx && Sq(sx) == x;
    assert 0.0 <= sy && Sq(sy) == y;
    SquareMonotone(sy, sx);
  }
}
