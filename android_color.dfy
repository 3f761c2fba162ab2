/** android.graphics.Color on packed colours: a colour is a Java `int`
    holding alpha, red, green and blue bytes from the most significant end.
    The channel getters read the 32-bit two's-complement pattern, and
    `Color.argb` packs four bytes back into a (possibly negative) `int`. */
module AndroidColor {
  import opened Common

  const TWO_32: int := 0x1_0000_0000
  const TWO_31: int := 0x8000_0000

  predicate IsJavaInt(c: int) { -TWO_31 <= c < TWO_31 }

  /** The 32-bit pattern of an `int`, read as unsigned. */
  function Unsigned(c: int): (u: int)
    ensures 0 <= u < TWO_32
  {
    c % TWO_32
  }

  /** `Color.alpha(c)`: `c >>> 24`. */
  function Alpha(c: int): (v: int)
    ensures 0 <= v < 256
  {
    Unsigned(c) / 0x100_0000
  }

  /** `Color.red(c)`: `(c >> 16) & 0xFF`. */
  function Red(c: int): (v: int)
    ensures 0 <= v < 256
  {
    (Unsigned(c) / 0x1_0000) % 256
  }

  /** `Color.green(c)`: `(c >> 8) & 0xFF`. */
  function Green(c: int): (v: int)
    ensures 0 <= v < 256
  {
    (Unsigned(c) / 0x100) % 256
  }

  /** `Color.blue(c)`: `c & 0xFF`. */
  function Blue(c: int): (v: int)
    ensures 0 <= v < 256
  {
    Unsigned(c) % 256
  }

  predicate IsByte(v: int) { 0 <= v < 256 }

  /** The unsigned pattern `a << 24 | r << 16 | g << 8 | b`. */
  function Pack(a: int, r: int, g: int, b: int): (u: int)
    requires IsByte(a) && IsByte(r) && IsByte(g) && IsByte(b)
    ensures 0 <= u < TWO_32
  {
    a * 0x100_0000 + r * 0x1_0000 + g * 0x100 + b
  }

  /** `Color.argb(a, r, g, b)` as the Java `int` with that bit pattern. */
  function Argb(a: int, r: int, g: int, b: int): (c: int)
    requires IsByte(a) && IsByte(r) && IsByte(g) && IsByte(b)
    ensures IsJavaInt(c)
    ensures Unsigned(c) == Pack(a, r, g, b)
  {
    var u := Pack(a, r, g, b);
    if u < TWO_31 then
      DivModUnique(u, TWO_32, 0, u);
      u
    else
      DivModUnique(u - TWO_32, TWO_32, -1, u);
      u - TWO_32
  }

  /** `Color.rgb(r, g, b)`: opaque alpha. */
  function Rgb(r: int, g: int, b: int): (c: int)
    requires IsByte(r) && IsByte(g) && IsByte(b)
    ensures Alpha(c) == 255 && Red(c) == r && Green(c) == g && Blue(c) == b
  {
    ArgbChannels(255, r, g, b);
    Argb(255, r, g, b)
  }

  /** `Color.WHITE` (0xFFFFFFFF). */
  const WHITE: int := -1

  lemma WhiteChannels()
    ensures Alpha(WHITE) == 255 && Red(WHITE) == 255 && Green(WHITE) == 255 && Blue(WHITE) == 255
  {
    DivModUnique(WHITE, TWO_32, -1, TWO_32 - 1);
    assert Unsigned(WHITE) == Pack(255, 255, 255, 255);
    ArgbUnpacks(255, 255, 255, 255);
  }

  /** Unpacking a packed pattern gives back its four bytes. */
  lemma ArgbUnpacks(a: int, r: int, g: int, b: int)
    requires IsByte(a) && IsByte(r) && IsByte(g) && IsByte(b)
    ensures var u := Pack(a, r, g, b);
      u / 0x100_0000 == a && (u / 0x1_0000) % 256 == r && (u / 0x100) % 256 == g && u % 256 == b
  {
    var u := Pack(a, r, g, b);
    DivModUnique(u, 0x100_0000, a, r * 0x1_0000 + g * 0x100 + b);
    DivModUnique(u, 0x1_0000, a * 256 + r, g * 0x100 + b);
    DivModUnique(a * 256 + r, 256, a, r);
    DivModUnique(u, 0x100, a * 0x1_0000 + r * 256 + g, b);
    DivModUnique(a * 0x1_0000 + r * 256 + g, 256, a * 256 + r, g);
    DivModUnique(u, 256, a * 0x1_0000 + r * 256 + g, b);
  }

  /** The channel getters undo `Color.argb`. */
  lemma ArgbChannels(a: int, r: int, g: int, b: int)
    requires IsByte(a) && IsByte(r) && IsByte(g) && IsByte(b)
    ensures var c := Argb(a, r, g, b);
      Alpha(c) == a && Red(c) == r && Green(c) == g && Blue(c) == b
  {
    ArgbUnpacks(a, r, g, b);
  }

  /** `Color.argb` of the four channels of an `int` is that `int`. */
  lemma ChannelsArgb(c: int)
    requires IsJavaInt(c)
    ensures Argb(Alpha(c), Red(c), Green(c), Blue(c)) == c
  {
    var u := Unsigned(c);
    var q16, q8 := u / 0x1_0000, u / 0x100;
    var a, r, g, b := Alpha(c), Red(c), Green(c), Blue(c);
    assert u == q16 * 0x1_0000 + u % 0x1_0000;
    assert q16 == (q16 / 256) * 256 + r;
    DivModUnique(u, 0x100_0000, q16 / 256, r * 0x1_0000 + u % 0x1_0000);
    assert a == q16 / 256;
    assert u == q8 * 0x100 + b;
    DivModUnique(u, 0x1_0000, q8 / 256, (q8 % 256) * 0x100 + b);
    assert q8 == q16 * 256 + g;
    assert u == Pack(a, r, g, b);
    if c >= 0 {
      DivModUnique(c, TWO_32, 0, c);
    } else {
      DivModUnique(c, TWO_32, -1, c + TWO_32);
    }
  }
}
