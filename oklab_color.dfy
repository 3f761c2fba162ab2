/** OklabColor: an immutable colour in the OKLAB space with its derived
    chroma and hue. */
module OklabColor {
  import opened Numerics

  /** `new OklabColor(L, a, b)`: the three components are final. */
  datatype Oklab = Oklab(L: real, a: real, b: real)

  /** `getChroma()`: the length of the (a, b) vector. */
  function Chroma(m: Maths, c: Oklab): real
  {
    Hypot(m, c.a, c.b)
  }

  /** `getHue()`: `atan2(b, a)` in degrees, moved up by 360 when negative. */
  function Hue(m: Maths, c: Oklab): real
  {
    var hue := ToDegrees(m.atan2(c.b, c.a));
    if hue < 0.0 then hue + 360.0 else hue
  }

  /** Chroma is never negative, and it is zero exactly on the grey axis. */
  lemma ChromaZeroIff(m: Maths, c: Oklab)
    requires Lawful(m)
    ensures 0.0 <= Chroma(m, c)
    ensures Chroma(m, c) == 0.0 <==> c.a == 0.0 && c.b == 0.0
  {
    HypotZeroIff(m, c.a, c.b);
  }

  /** Chroma is the distance from the grey axis: it compares with a bound
      as the squared (a, b) length compares with the bound's square. */
  lemma ChromaBelow(m: Maths, c: Oklab, k: real)
    requires Lawful(m)
    requires 0.0 <= k
    ensures Chroma(m, c) < k <==> Sq(c.a) + Sq(c.b) < Sq(k)
  {
    SumOfSquaresZero(c.a, c.b);
    SqrtLess(m, Sq(c.a) + Sq(c.b), k);
  }

  /** The hue is an angle in [0, 360). */
  lemma HueRange(m: Maths, c: Oklab)
    requires Lawful(m)
    ensures 0.0 <= Hue(m, c) < 360.0
  {
    var t := m.atan2(c.b, c.a);
    assert -JAVA_PI <= t <= JAVA_PI;
  }

  /** Chroma and hue depend on a and b only, not on the lightness. */
  lemma ChromaHueIgnoreL(m: Maths, c: Oklab, l: real)
    ensures Chroma(m, c.(L := l)) == Chroma(m, c)
    ensures Hue(m, c.(L := l)) == Hue(m, c)
  {
    var c' := c.(L := l);
    assert c'.a == c.a && c'.b == c.b;
    assert Sq(c'.a) + Sq(c'.b) == Sq(c.a) + Sq(c.b);
  }
}
