/** ColorInfo: what the app reports about one picked colour. The channel
    values, the hex code and the contrast against white are computed once
    from the packed colour; the luminance and contrast follow the WCAG 2.1
    definitions of relative luminance and contrast ratio. */
module ColorInfo {
  import opened Common
  import opened Numerics
  import opened AndroidColor

  /** The final fields of a `ColorInfo`. */
  datatype ColorInfo = ColorInfo(
    color: int,
    colorName: string,
    hexCode: string,
    red: int,
    green: int,
    blue: int,
    contrast: real)

  /** `String.format("#%02X%02X%02X", red, green, blue)` */
  function HexCode(r: int, g: int, b: int): (s: string)
    requires IsByte(r) && IsByte(g) && IsByte(b)
  {
    "#" + Hex2(r) + Hex2(g) + Hex2(b)
  }

  /** Two hexadecimal digits read back as a number. */
  function HexPairValue(s: string, i: int): int
    requires 0 <= i && i + 1 < |s|
  {
    HexDigitValue(s[i]) * 16 + HexDigitValue(s[i + 1])
  }

  /** The hex code has seven characters, a '#' and three digit pairs that
      read back as the three channels. */
  lemma HexCodeRoundTrip(r: int, g: int, b: int)
    requires IsByte(r) && IsByte(g) && IsByte(b)
    ensures var s := HexCode(r, g, b);
      |s| == 7 && s[0] == '#'
      && HexPairValue(s, 1) == r && HexPairValue(s, 3) == g && HexPairValue(s, 5) == b
  {
    var s := HexCode(r, g, b);
    Hex2RoundTrip(r);
    Hex2RoundTrip(g);
    Hex2RoundTrip(b);
    assert s[1] == Hex2(r)[0] && s[2] == Hex2(r)[1];
    assert s[3] == Hex2(g)[0] && s[4] == Hex2(g)[1];
    assert s[5] == Hex2(b)[0] && s[6] == Hex2(b)[1];
  }

  /** One channel of `calculateLuminance`: the piecewise linearisation with
      its threshold at 0.03928. */
  function Linearize(m: Maths, c: real): real
  {
    if c <= 0.03928 then c / 12.92 else m.pow((c + 0.055) / 1.055, 2.4)
  }

  lemma LinearizeRange(m: Maths, c: real)
    requires PowLaws(m)
    requires 0.0 <= c <= 1.0
    ensures 0.0 <= Linearize(m, c) <= 1.0
  {
    if c > 0.03928 {
      var base := (c + 0.055) / 1.055;
      assert 0.0 <= base <= 1.0;
      assert 0.0 <= m.pow(base, 2.4) <= 1.0;
    }
  }

  /** `calculateLuminance(color)` */
  function Luminance(m: Maths, color: int): real
  {
    var r := Linearize(m, Red(color) as real / 255.0);
    var g := Linearize(m, Green(color) as real / 255.0);
    var b := Linearize(m, Blue(color) as real / 255.0);
    0.2126 * r + 0.7152 * g + 0.0722 * b
  }

  /** The weights sum to one, so the relative luminance lies in [0, 1]. */
  lemma LuminanceRange(m: Maths, color: int)
    requires PowLaws(m)
    ensures 0.0 <= Luminance(m, color) <= 1.0
  {
    LinearizeRange(m, Red(color) as real / 255.0);
    LinearizeRange(m, Green(color) as real / 255.0);
    LinearizeRange(m, Blue(color) as real / 255.0);
  }

  /** White has relative luminance exactly 1. */
  lemma WhiteLuminance(m: Maths)
    requires PowLaws(m)
    ensures Luminance(m, WHITE) == 1.0
  {
    WhiteChannels();
    assert (1.0 + 0.055) / 1.055 == 1.0;
    assert m.pow(1.0, 2.4) == 1.0;
  }

  /** `calculateContrast(color)`: the ratio of the lighter to the darker
      luminance, each offset by 0.05, against white. */
  function Contrast(m: Maths, color: int): real
    requires PowLaws(m)
  {
    var l1 := Luminance(m, color);
    var l2 := Luminance(m, WHITE);
    LuminanceRange(m, color);
    LuminanceRange(m, WHITE);
    (MaxR(l1, l2) + 0.05) / (MinR(l1, l2) + 0.05)
  }

  /** The contrast formula with white's luminance 1 on one side. */
  lemma RatioAgainstWhite(l: real)
    requires 0.0 <= l <= 1.0
    ensures var q := (MaxR(l, 1.0) + 0.05) / (MinR(l, 1.0) + 0.05);
      q == 1.05 / (l + 0.05) && 1.0 <= q <= 21.0
  {
    QuotientBetween(1.05, l + 0.05, 0.05, 1.05);
  }

  /** Against white the darker side is the colour itself, so the ratio is
      at least 1 (white itself) and at most 21 (black). */
  lemma ContrastBounds(m: Maths, color: int)
    requires PowLaws(m)
    ensures 1.0 <= Contrast(m, color) <= 21.0
    ensures Contrast(m, color) == 1.05 / (Luminance(m, color) + 0.05)
  {
    WhiteLuminance(m);
    LuminanceRange(m, color);
    RatioAgainstWhite(Luminance(m, color));
  }

  /** `new ColorInfo(color, colorName)` */
  function MakeColorInfo(m: Maths, color: int, name: string): (info: ColorInfo)
    requires PowLaws(m)
    ensures IsByte(info.red) && IsByte(info.green) && IsByte(info.blue)
    ensures |info.hexCode| == 7
    ensures 1.0 <= info.contrast <= 21.0
  {
    var r, g, b := Red(color), Green(color), Blue(color);
    HexCodeRoundTrip(r, g, b);
    ContrastBounds(m, color);
    ColorInfo(color, name, HexCode(r, g, b), r, g, b, Contrast(m, color))
  }

  /** The channels are the bytes of the packed colour: building the info of
      `Color.argb(a, r, g, b)` recovers r, g and b, and the hex code spells
      them. */
  lemma MakeColorInfoChannels(m: Maths, a: int, r: int, g: int, b: int, name: string)
    requires PowLaws(m)
    requires IsByte(a) && IsByte(r) && IsByte(g) && IsByte(b)
    ensures var info := MakeColorInfo(m, Argb(a, r, g, b), name);
      info.red == r && info.green == g && info.blue == b
      && HexPairValue(info.hexCode, 1) == r && HexPairValue(info.hexCode, 3) == g
      && HexPairValue(info.hexCode, 5) == b
  {
    ArgbChannels(a, r, g, b);
    HexCodeRoundTrip(r, g, b);
  }

  /** The WCAG conformance level a contrast ratio reaches: 3 for AAA (7:1),
      2 for AA (4.5:1), 1 for the 3:1 large-text level, 0 below. */
  function RatingLevel(contrast: real): nat
  {
    if contrast >= 7.0 then 3
    else if contrast >= 4.5 then 2
    else if contrast >= 3.0 then 1
    else 0
  }

  /** `getContrastRating()` */
  function ContrastRating(info: ColorInfo): string
  {
    match RatingLevel(info.contrast)
    case 3 => "AAA (Отличная)"
    case 2 => "AA (Хорошая)"
    case 1 => "A (Удовлетворительная)"
    case _ => "Низкая"
  }

  /** A higher contrast never gets a lower rating, and each level is
      reached exactly from its threshold. */
  lemma RatingMonotone(c1: real, c2: real)
    ensures c1 <= c2 ==> RatingLevel(c1) <= RatingLevel(c2)
    ensures RatingLevel(c1) == 3 <==> c1 >= 7.0
    ensures RatingLevel(c1) >= 2 <==> c1 >= 4.5
    ensures RatingLevel(c1) >= 1 <==> c1 >= 3.0
  {
  }

  /** `getRgbString()`: `String.format("RGB(%d, %d, %d)", red, green, blue)` */
  function RgbString(info: ColorInfo): string
  {
    "RGB(" + IntToDecimal(info.red) + ", " + IntToDecimal(info.green) + ", "
      + IntToDecimal(info.blue) + ")"
  }

  /** For channel bytes each `%d` field is the plain decimal numeral of the
      channel, with no sign, which reads back as the channel. */
  lemma RgbStringFields(info: ColorInfo)
    requires IsByte(info.red) && IsByte(info.green) && IsByte(info.blue)
    ensures var dr, dg, db := NatToDecimal(info.red), NatToDecimal(info.green), NatToDecimal(info.blue);
      RgbString(info) == "RGB(" + dr + ", " + dg + ", " + db + ")"
      && DecimalValue(dr) == info.red && DecimalValue(dg) == info.green && DecimalValue(db) == info.blue
  {
    DecimalRoundTrip(info.red);
    DecimalRoundTrip(info.green);
    DecimalRoundTrip(info.blue);
  }

  /** `toString()`: `"%s (%s, %s)"` of name, hex code and RGB string. The
      name opens the text, the hex code follows its " (" and the text closes
      with ")". */
  function ToString(info: ColorInfo): (s: string)
    ensures |s| == |info.colorName| + |info.hexCode| + |RgbString(info)| + 5
    ensures s[..|info.colorName| + 2] == info.colorName + " ("
    ensures s[|info.colorName| + 2..|info.colorName| + 2 + |info.hexCode|] == info.hexCode
    ensures s[|s| - 1] == ')'
  {
    var s := info.colorName + " (" + info.hexCode + ", " + RgbString(info) + ")";
    assert s[..|info.colorName| + 2] == info.colorName + " (";
    assert s[|info.colorName| + 2..|info.colorName| + 2 + |info.hexCode|] == info.hexCode;
    s
  }

  /** The characters after "name (" are those of the hex code. */
  lemma ToStringHexAt(info: ColorInfo)
    requires |info.hexCode| == 7
    ensures var s, n := ToString(info), |info.colorName|;
      |s| > n + 9 && s[..n] == info.colorName && s[n + 2] == info.hexCode[0]
      && HexPairValue(s, n + 3) == HexPairValue(info.hexCode, 1)
      && HexPairValue(s, n + 5) == HexPairValue(info.hexCode, 3)
      && HexPairValue(s, n + 7) == HexPairValue(info.hexCode, 5)
  {
    var s, n := ToString(info), |info.colorName|;
    assert s[..n] == (s[..n + 2])[..n];
    assert forall k :: 0 <= k < 7 ==> s[n + 2 + k] == info.hexCode[k];
  }

  /** The text of a colour built by `new ColorInfo(Color.argb(a, r, g, b),
      name)` carries its channels: the digit pairs after "name (#" read back
      as r, g and b. */
  lemma ToStringReadsBack(m: Maths, a: int, r: int, g: int, b: int, name: string)
    requires PowLaws(m)
    requires IsByte(a) && IsByte(r) && IsByte(g) && IsByte(b)
    ensures var s := ToString(MakeColorInfo(m, Argb(a, r, g, b), name));
      var n := |name|;
      |s| > n + 9 && s[..n] == name && s[n + 2] == '#'
      && HexPairValue(s, n + 3) == r && HexPairValue(s, n + 5) == g && HexPairValue(s, n + 7) == b
  {
    var info := MakeColorInfo(m, Argb(a, r, g, b), name);
    MakeColorInfoChannels(m, a, r, g, b, name);
    HexCodeRoundTrip(r, g, b);
    ToStringHexAt(info);
  }
}
