/** ColorBlindnessSimulator: each kind of colour vision deficiency is a 3x3
    matrix applied to the red, green and blue fractions of a colour; the
    result is scaled back to bytes, truncated and clamped, and the alpha is
    kept. Two colours count as distinguishable when their transformed
    channels are more than 50 apart in Euclidean RGB distance. */
module ColorBlindness {
  import opened Common
  import opened Numerics
  import opened AndroidColor
  import opened Handles
  import opened OklabColor
  import opened ColorConverter
  import opened ColorNameMapper

  datatype BlindnessType =
    | Normal | Protanopia | Deuteranopia | Tritanopia
    | Protanomaly | Deuteranomaly | Tritanomaly | Achromatopsia

  /** `getDisplayName()` */
  function DisplayName(t: BlindnessType): string
  {
    match t
    case Normal => "Обычное зрение"
    case Protanopia => "Протанопия (красный-зеленый)"
    case Deuteranopia => "Дейтеранопия (красный-зеленый)"
    case Tritanopia => "Тританопия (сине-желтый)"
    case Protanomaly => "Протаномалия (слабая красный-зеленый)"
    case Deuteranomaly => "Дейтераномалия (слабая красный-зеленый)"
    case Tritanomaly => "Тританомалия (слабая сине-желтый)"
    case Achromatopsia => "Ахроматопсия (полная цветовая слепота)"
  }

  /** A `float[3][3]` with rows of length three. */
  predicate Is3x3(mat: seq<seq<real>>)
  {
    |mat| == 3 && forall i :: 0 <= i < 3 ==> |mat[i]| == 3
  }

  /** `getTransformationMatrix(type)` */
  function TransformationMatrix(t: BlindnessType): (mat: seq<seq<real>>)
    ensures Is3x3(mat)
  {
    match t
    case Protanopia => [[0.567, 0.433, 0.0], [0.558, 0.442, 0.0], [0.0, 0.242, 0.758]]
    case Deuteranopia => [[0.625, 0.375, 0.0], [0.7, 0.3, 0.0], [0.0, 0.3, 0.7]]
    case Tritanopia => [[0.95, 0.05, 0.0], [0.0, 0.433, 0.567], [0.0, 0.475, 0.525]]
    case Protanomaly => [[0.817, 0.183, 0.0], [0.333, 0.667, 0.0], [0.0, 0.125, 0.875]]
    case Deuteranomaly => [[0.8, 0.2, 0.0], [0.258, 0.742, 0.0], [0.0, 0.142, 0.858]]
    case Tritanomaly => [[0.967, 0.033, 0.0], [0.0, 0.733, 0.267], [0.0, 0.183, 0.817]]
    case Achromatopsia => [[0.299, 0.587, 0.114], [0.299, 0.587, 0.114], [0.299, 0.587, 0.114]]
    case Normal => [[1.0, 0.0, 0.0], [0.0, 1.0, 0.0], [0.0, 0.0, 1.0]]
  }

  /** Every entry is non-negative and every row sums to one, so each output
      channel is a weighted average of the input channels. */
  predicate RowStochastic(mat: seq<seq<real>>)
    requires Is3x3(mat)
  {
    forall i :: 0 <= i < 3 ==>
      0.0 <= mat[i][0] && 0.0 <= mat[i][1] && 0.0 <= mat[i][2]
      && mat[i][0] + mat[i][1] + mat[i][2] == 1.0
  }

  lemma MatricesRowStochastic(t: BlindnessType)
    ensures RowStochastic(TransformationMatrix(t))
  {
  }

  /** Row `i` of the matrix applied to `v`. */
  function RowTimes(mat: seq<seq<real>>, v: seq<real>, i: int): real
    requires Is3x3(mat) && |v| == 3 && 0 <= i < 3
  {
    Prod(mat[i][0], v[0]) + Prod(mat[i][1], v[1]) + Prod(mat[i][2], v[2])
  }

  /** The matrix-vector product `applyColorMatrix` computes. */
  function Times(mat: seq<seq<real>>, v: seq<real>): (w: seq<real>)
    requires Is3x3(mat) && |v| == 3
  {
    [RowTimes(mat, v, 0), RowTimes(mat, v, 1), RowTimes(mat, v, 2)]
  }

  /** `applyColorMatrix(rgb, matrix)`: one row product per output channel. */
  method ApplyColorMatrix(rgb: array<real>, mat: seq<seq<real>>) returns (result: array<real>)
    requires rgb.Length == 3 && Is3x3(mat)
    ensures fresh(result) && result[..] == Times(mat, rgb[..])
  {
    result := new real[3];
    for i := 0 to 3
      invariant forall j :: 0 <= j < i ==> result[j] == RowTimes(mat, rgb[..], j)
    {
      result[i] := Prod(mat[i][0], rgb[0]) + Prod(mat[i][1], rgb[1]) + Prod(mat[i][2], rgb[2]);
    }
  }

  /** A weighted average of values in [0, 1] stays in [0, 1]. */
  lemma AverageInUnit(a: real, b: real, c: real, x: real, y: real, z: real)
    requires 0.0 <= a && 0.0 <= b && 0.0 <= c && a + b + c == 1.0
    requires 0.0 <= x <= 1.0 && 0.0 <= y <= 1.0 && 0.0 <= z <= 1.0
    ensures 0.0 <= Prod(a, x) + Prod(b, y) + Prod(c, z) <= 1.0
  {
    ProdNonneg(a, x);
    ProdNonneg(b, y);
    ProdNonneg(c, z);
    ProdMonotone(a, x, 1.0);
    ProdMonotone(b, y, 1.0);
    ProdMonotone(c, z, 1.0);
  }

  /** A row-stochastic matrix maps the unit cube into itself. */
  lemma TimesInUnit(mat: seq<seq<real>>, v: seq<real>)
    requires Is3x3(mat) && RowStochastic(mat) && |v| == 3
    requires forall k :: 0 <= k < 3 ==> 0.0 <= v[k] <= 1.0
    ensures forall i :: 0 <= i < 3 ==> 0.0 <= Times(mat, v)[i] <= 1.0
  {
    forall i | 0 <= i < 3
      ensures 0.0 <= Times(mat, v)[i] <= 1.0
    {
      AverageInUnit(mat[i][0], mat[i][1], mat[i][2], v[0], v[1], v[2]);
    }
  }

  /** The channel fractions `{r / 255f, g / 255f, b / 255f}`. */
  function Fractions(color: int): (v: seq<real>)
    ensures |v| == 3 && forall k :: 0 <= k < 3 ==> 0.0 <= v[k] <= 1.0
  {
    [Red(color) as real / 255.0, Green(color) as real / 255.0, Blue(color) as real / 255.0]
  }

  /** `clamp((int) (x * 255))` */
  function ToByte(x: real): (c: int)
    ensures IsByte(c)
  {
    Clamp(Trunc(x * 255.0))
  }

  /** The colour `transformColor` computes with the matrix `mat`. */
  function TransformedBy(color: int, mat: seq<seq<real>>): int
    requires Is3x3(mat)
  {
    var w := Times(mat, Fractions(color));
    Argb(Alpha(color), ToByte(w[0]), ToByte(w[1]), ToByte(w[2]))
  }

  /** `transformColor(color, type)` */
  function Transformed(color: int, t: BlindnessType): int
  {
    TransformedBy(color, TransformationMatrix(t))
  }

  /** The body of `transformColor` once the matrix is chosen. */
  method TransformWith(color: int, mat: seq<seq<real>>) returns (c: int)
    requires Is3x3(mat)
    ensures c == TransformedBy(color, mat)
  {
    var rgb := new real[3];
    rgb[0], rgb[1], rgb[2] := Red(color) as real / 255.0, Green(color) as real / 255.0, Blue(color) as real / 255.0;
    assert rgb[..] == Fractions(color);
    var transformed := ApplyColorMatrix(rgb, mat);
    var newR := ToByte(transformed[0]);
    var newG := ToByte(transformed[1]);
    var newB := ToByte(transformed[2]);
    c := Argb(Alpha(color), newR, newG, newB);
  }

  /** `transformColor(color, type)`, through `applyColorMatrix`. */
  method TransformColor(color: int, t: BlindnessType) returns (c: int)
    ensures c == Transformed(color, t)
  {
    c := TransformWith(color, TransformationMatrix(t));
  }

  /** The transformed colour keeps the alpha, and each channel is the byte
      of its weighted average; the clamp never has to cut, since the
      averages of fractions stay in [0, 1]. */
  lemma TransformedChannels(color: int, t: BlindnessType)
    ensures var c := Transformed(color, t);
      var w := Times(TransformationMatrix(t), Fractions(color));
      Alpha(c) == Alpha(color)
      && Red(c) == Trunc(w[0] * 255.0) && Green(c) == Trunc(w[1] * 255.0) && Blue(c) == Trunc(w[2] * 255.0)
  {
    var w := Times(TransformationMatrix(t), Fractions(color));
    MatricesRowStochastic(t);
    TimesInUnit(TransformationMatrix(t), Fractions(color));
    TruncMonotone(0.0, w[0] * 255.0);
    TruncMonotone(w[0] * 255.0, 255.0);
    TruncMonotone(0.0, w[1] * 255.0);
    TruncMonotone(w[1] * 255.0, 255.0);
    TruncMonotone(0.0, w[2] * 255.0);
    TruncMonotone(w[2] * 255.0, 255.0);
    TruncOfInt(0);
    TruncOfInt(255);
    ArgbChannels(Alpha(color), ToByte(w[0]), ToByte(w[1]), ToByte(w[2]));
  }

  /** A byte survives the trip through its fraction. */
  lemma ByteRoundTrip(v: int)
    requires IsByte(v)
    ensures ToByte(v as real / 255.0) == v
  {
    assert (v as real / 255.0) * 255.0 == v as real;
    TruncOfInt(v);
  }

  /** The identity matrix changes nothing: normal vision sees the colour
      itself. */
  lemma NormalIsIdentity(color: int)
    requires IsJavaInt(color)
    ensures Transformed(color, Normal) == color
  {
    var v := Fractions(color);
    var w := Times(TransformationMatrix(Normal), v);
    assert w == v;
    ByteRoundTrip(Red(color));
    ByteRoundTrip(Green(color));
    ByteRoundTrip(Blue(color));
    ChannelsArgb(color);
  }

  /** Achromatopsia's three rows are the same luma weights, so the result
      is a grey: its three channels are equal. */
  lemma AchromatopsiaIsGrey(color: int)
    ensures var c := Transformed(color, Achromatopsia);
      Red(c) == Green(c) == Blue(c) && Alpha(c) == Alpha(color)
  {
    TransformedChannels(color, Achromatopsia);
  }

  /** The inner loop of `applyColorBlindnessFilter`: row `y` of `dst`
      becomes the transformed row `y` of `src`; the other rows stay. */
  method TransformRow(src: array2<int>, dst: array2<int>, y: int, t: BlindnessType)
    requires src != dst && src.Length0 == dst.Length0 && src.Length1 == dst.Length1
    requires 0 <= y < src.Length1
    modifies dst
    ensures forall x' :: 0 <= x' < src.Length0 ==> dst[x', y] == Transformed(src[x', y], t)
    ensures forall x', y' :: 0 <= x' < dst.Length0 && 0 <= y' < dst.Length1 && y' != y ==>
      dst[x', y'] == old(dst[x', y'])
  {
    for x := 0 to src.Length0
      invariant forall x' :: 0 <= x' < x ==> dst[x', y] == Transformed(src[x', y], t)
      invariant forall x', y' :: 0 <= x' < dst.Length0 && 0 <= y' < dst.Length1 && y' != y ==>
        dst[x', y'] == old(dst[x', y'])
    {
      var transformedPixel := TransformColor(src[x, y], t);
      dst[x, y] := transformedPixel;
    }
  }

  /** `applyColorBlindnessFilter(source, type)`: the source itself for no
      bitmap or for normal vision; otherwise a new bitmap of the same size
      whose every pixel is the transformed source pixel. */
  method ApplyColorBlindnessFilter(source: Bitmap?, t: BlindnessType) returns (result: Bitmap?)
    requires source != null ==> source.Valid()
    ensures source == null || t == Normal ==> result == source
    ensures source != null && t != Normal ==>
      result != null && fresh(result) && fresh(result.pixels) && result.Valid()
      && result.width == source.width && result.height == source.height
      && forall x, y :: 0 <= x < source.width && 0 <= y < source.height ==>
        result.pixels[x, y] == Transformed(source.pixels[x, y], t)
  {
    if source == null || t == Normal {
      return source;
    }
    var width, height := source.width, source.height;
    var out := new Bitmap(width, height);
    var src, dst := source.pixels, out.pixels;
    for y := 0 to height
      invariant forall x', y' :: 0 <= x' < width && 0 <= y' < y ==> dst[x', y'] == Transformed(src[x', y'], t)
    {
      TransformRow(src, dst, y, t);
    }
    result := out;
  }

  /** `getAdaptedColorName(color, type)`: the name of the colour as seen,
      followed by the lower-cased name of the deficiency. */
  method GetAdaptedColorName(m: Maths, color: int, t: BlindnessType,
                             palette: map<string, Oklab>, order: seq<string>) returns (name: string)
    requires Enumerates(order, palette)
    ensures name == ColorName(m, Transformed(color, t), palette, order)
      + " (как воспринимается при " + ToLower(DisplayName(t)) + ")"
  {
    var transformedColor := TransformColor(color, t);
    var seen := GetColorName(m, transformedColor, palette, order);
    name := seen + " (как воспринимается при " + ToLower(DisplayName(t)) + ")";
  }

  /** The squared RGB distance of two packed colours, in `int`. */
  function SqRgbDistance(c1: int, c2: int): (d: int)
    ensures 0 <= d
  {
    var dr, dg, db := Red(c1) - Red(c2), Green(c1) - Green(c2), Blue(c1) - Blue(c2);
    SquareNonneg(dr);
    SquareNonneg(dg);
    SquareNonneg(db);
    dr * dr + dg * dg + db * db
  }

  /** `areDistinguishable(color1, color2, type)`: `Math.sqrt` of the squared
      distance of the transformed colours exceeds 50. */
  predicate Distinguishable(m: Maths, c1: int, c2: int, t: BlindnessType)
  {
    m.sqrt(SqRgbDistance(Transformed(c1, t), Transformed(c2, t)) as real) > 50.0
  }

  method AreDistinguishable(m: Maths, c1: int, c2: int, t: BlindnessType) returns (b: bool)
    ensures b == Distinguishable(m, c1, c2, t)
  {
    var transformed1 := TransformColor(c1, t);
    var transformed2 := TransformColor(c2, t);
    var distance := m.sqrt(SqRgbDistance(transformed1, transformed2) as real);
    b := distance > 50.0;
  }

  /** With a correct square root the test is the integer comparison of the
      squared distance with 2500; it is symmetric, and a colour is never
      distinguishable from itself. */
  lemma DistinguishableIff(m: Maths, c1: int, c2: int, t: BlindnessType)
    requires SqrtLaw(m)
    ensures Distinguishable(m, c1, c2, t) <==> SqRgbDistance(Transformed(c1, t), Transformed(c2, t)) > 2500
    ensures Distinguishable(m, c1, c2, t) == Distinguishable(m, c2, c1, t)
    ensures !Distinguishable(m, c1, c1, t)
  {
    var t1, t2 := Transformed(c1, t), Transformed(c2, t);
    assert SqRgbDistance(t1, t2) == SqRgbDistance(t2, t1);
    assert Sq(50.0) == 2500.0;
    SqrtGreater(m, SqRgbDistance(t1, t2) as real, 50.0);
    SqrtGreater(m, SqRgbDistance(t1, t1) as real, 50.0);
  }
}
