/** ColorNameMapper: the Russian colour names. The palette is the map the
    static initialiser builds with `put` (a later `addColor` for a name
    overwrites an earlier one); a colour is named by the grey rules when its
    OKLAB chroma is below 0.05, and otherwise by the palette entry nearest in
    OKLAB distance, with a dark or light prefix for extreme lightness.
    `HashMap` iteration order is not determined by the program text, so the
    order of the scan is an input `order` listing every palette key once. */
module ColorNameMapper {
  import opened Common
  import opened Numerics
  import opened OklabColor
  import opened ColorConverter
  import opened AndroidColor

  /** One `addColor(name, r, g, b)` call. */
  datatype Addition = Addition(name: string, r: int, g: int, b: int)

  /** The `addColor` calls of the static initialiser, in order. */
  const ADDITIONS: seq<Addition> := [
    Addition("Красный", 255, 0, 0),
    Addition("Зеленый", 0, 255, 0),
    Addition("Синий", 0, 0, 255),
    Addition("Желтый", 255, 255, 0),
    Addition("Голубой", 0, 255, 255),
    Addition("Пурпурный", 255, 0, 255),
    Addition("Белый", 255, 255, 255),
    Addition("Черный", 0, 0, 0),
    Addition("Серый", 128, 128, 128),
    Addition("Индийский красный", 205, 92, 92),
    Addition("Светло-коралловый", 240, 128, 128),
    Addition("Лососевый", 250, 128, 114),
    Addition("Темно-лососевый", 233, 150, 122),
    Addition("Светло-лососевый", 255, 160, 122),
    Addition("Малиновый", 220, 20, 60),
    Addition("Красный", 255, 0, 0),
    Addition("Кирпичный", 178, 34, 34),
    Addition("Темно-бордовый", 139, 0, 0),
    Addition("Розовый", 255, 192, 203),
    Addition("Светло-розовый", 255, 182, 193),
    Addition("Ярко-розовый", 255, 105, 180),
    Addition("Темно-розовый", 255, 20, 147),
    Addition("Средний фиолетово-красный", 199, 21, 133),
    Addition("Бледный фиолетово-красный", 219, 112, 147),
    Addition("Коралловый", 255, 127, 80),
    Addition("Томатный", 255, 99, 71),
    Addition("Красно-оранжевый", 255, 69, 0),
    Addition("Темно-оранжевый", 255, 140, 0),
    Addition("Оранжевый", 255, 165, 0),
    Addition("Золотой", 255, 215, 0),
    Addition("Желтый", 255, 255, 0),
    Addition("Светло-желтый", 255, 255, 224),
    Addition("Лимонный", 255, 250, 205),
    Addition("Светлый золотисто-желтый", 250, 250, 210),
    Addition("Папайя", 255, 239, 213),
    Addition("Мокасин", 255, 228, 181),
    Addition("Персиковый", 255, 218, 185),
    Addition("Бледно-золотистый", 238, 232, 170),
    Addition("Хаки", 240, 230, 140),
    Addition("Темно-хаки", 189, 183, 107),
    Addition("Лавандовый", 230, 230, 250),
    Addition("Чертополох", 216, 191, 216),
    Addition("Сиреневый", 221, 160, 221),
    Addition("Фиолетовый", 238, 130, 238),
    Addition("Орхидея", 218, 112, 214),
    Addition("Фуксия", 255, 0, 255),
    Addition("Пурпурный", 255, 0, 255),
    Addition("Средняя орхидея", 186, 85, 211),
    Addition("Средний пурпурный", 147, 112, 219),
    Addition("Сине-фиолетовый", 138, 43, 226),
    Addition("Темно-фиолетовый", 148, 0, 211),
    Addition("Темная орхидея", 153, 50, 204),
    Addition("Темно-пурпурный", 139, 0, 139),
    Addition("Пурпурный", 128, 0, 128),
    Addition("Индиго", 75, 0, 130),
    Addition("Шиферно-синий", 106, 90, 205),
    Addition("Темный шиферно-синий", 72, 61, 139),
    Addition("Кукурузные рыльца", 255, 248, 220),
    Addition("Миндаль", 255, 235, 205),
    Addition("Бисквит", 255, 228, 196),
    Addition("Навахо", 255, 222, 173),
    Addition("Пшеничный", 245, 222, 179),
    Addition("Древесный", 222, 184, 135),
    Addition("Тан", 210, 180, 140),
    Addition("Розово-коричневый", 188, 143, 143),
    Addition("Песочный", 244, 164, 96),
    Addition("Золотарник", 218, 165, 32),
    Addition("Темный золотарник", 184, 134, 11),
    Addition("Перу", 205, 133, 63),
    Addition("Шоколадный", 210, 105, 30),
    Addition("Коричневое седло", 139, 69, 19),
    Addition("Сиенна", 160, 82, 45),
    Addition("Коричневый", 165, 42, 42),
    Addition("Темно-бордовый", 128, 0, 0),
    Addition("Зеленовато-желтый", 173, 255, 47),
    Addition("Шартрез", 127, 255, 0),
    Addition("Газонная зелень", 124, 252, 0),
    Addition("Лайм", 0, 255, 0),
    Addition("Лаймово-зеленый", 50, 205, 50),
    Addition("Бледно-зеленый", 152, 251, 152),
    Addition("Светло-зеленый", 144, 238, 144),
    Addition("Средняя весенняя зелень", 0, 250, 154),
    Addition("Весенняя зелень", 0, 255, 127),
    Addition("Средний морской зеленый", 60, 179, 113),
    Addition("Морской зеленый", 46, 139, 87),
    Addition("Лесной зеленый", 34, 139, 34),
    Addition("Зеленый", 0, 128, 0),
    Addition("Темно-зеленый", 0, 100, 0),
    Addition("Желто-зеленый", 154, 205, 50),
    Addition("Оливково-зеленый", 107, 142, 35),
    Addition("Оливковый", 128, 128, 0),
    Addition("Темный оливково-зеленый", 85, 107, 47),
    Addition("Средний аквамарин", 102, 205, 170),
    Addition("Темный морской зеленый", 143, 188, 143),
    Addition("Светлый морской зеленый", 32, 178, 170),
    Addition("Темно-циановый", 0, 139, 139),
    Addition("Темно-бирюзовый", 0, 128, 128),
    Addition("Циан", 0, 255, 255),
    Addition("Светло-циановый", 224, 255, 255),
    Addition("Бледно-бирюзовый", 175, 238, 238),
    Addition("Аквамарин", 127, 255, 212),
    Addition("Бирюзовый", 64, 224, 208),
    Addition("Средний бирюзовый", 72, 209, 204),
    Addition("Темный бирюзовый", 0, 206, 209),
    Addition("Синий кадет", 95, 158, 160),
    Addition("Стальной синий", 70, 130, 180),
    Addition("Светлый стальной синий", 176, 196, 222),
    Addition("Пороховой синий", 176, 224, 230),
    Addition("Светло-синий", 173, 216, 230),
    Addition("Небесно-голубой", 135, 206, 235),
    Addition("Светлый небесно-голубой", 135, 206, 250),
    Addition("Темный небесно-голубой", 0, 191, 255),
    Addition("Яркий синий", 30, 144, 255),
    Addition("Васильковый", 100, 149, 237),
    Addition("Средний шиферно-синий", 123, 104, 238),
    Addition("Королевский синий", 65, 105, 225),
    Addition("Синий", 0, 0, 255),
    Addition("Средне-синий", 0, 0, 205),
    Addition("Темно-синий", 0, 0, 139),
    Addition("Темно-синий (нави)", 0, 0, 128),
    Addition("Полуночно-синий", 25, 25, 112),
    Addition("Белый", 255, 255, 255),
    Addition("Белоснежный", 255, 250, 250),
    Addition("Медвяная роса", 240, 255, 240),
    Addition("Мятно-кремовый", 245, 255, 250),
    Addition("Лазурный", 240, 255, 255),
    Addition("Алиса-синий", 240, 248, 255),
    Addition("Призрачно-белый", 248, 248, 255),
    Addition("Белый дым", 245, 245, 245),
    Addition("Морская раковина", 255, 245, 238),
    Addition("Бежевый", 245, 245, 220),
    Addition("Старое кружево", 253, 245, 230),
    Addition("Цветочный белый", 255, 250, 240),
    Addition("Слоновая кость", 255, 255, 240),
    Addition("Античный белый", 250, 235, 215),
    Addition("Льняной", 250, 240, 230),
    Addition("Лавандовый румянец", 255, 240, 245),
    Addition("Туманная роза", 255, 228, 225),
    Addition("Гейнсборо", 220, 220, 220),
    Addition("Светло-серый", 211, 211, 211),
    Addition("Серебристый", 192, 192, 192),
    Addition("Темно-серый", 169, 169, 169),
    Addition("Серый", 128, 128, 128),
    Addition("Тускло-серый", 105, 105, 105),
    Addition("Светлый шиферно-серый", 119, 136, 153),
    Addition("Шиферно-серый", 112, 128, 144),
    Addition("Темный шиферно-серый", 47, 79, 79)
  ]

  /** `addColor(name, r, g, b)`: `HashMap.put` of the colour's OKLAB value,
      replacing the value of a name already present. */
  function AddColor(m: Maths, palette: map<string, Oklab>, a: Addition): (p: map<string, Oklab>)
    ensures p.Keys == palette.Keys + {a.name}
    ensures p[a.name] == RgbToOklab(m, a.r, a.g, a.b)
    ensures forall k :: k in palette && k != a.name ==> p[k] == palette[k]
  {
    palette[a.name := RgbToOklab(m, a.r, a.g, a.b)]
  }

  /** The map after the additions, in order. */
  function PaletteOf(m: Maths, adds: seq<Addition>): map<string, Oklab>
  {
    if adds == [] then map[]
    else AddColor(m, PaletteOf(m, adds[..|adds| - 1]), adds[|adds| - 1])
  }

  /** `COLOR_MAP_OKLAB` once the static initialiser has run. */
  function Palette(m: Maths): map<string, Oklab>
  {
    PaletteOf(m, ADDITIONS)
  }

  /** The keys are exactly the added names. */
  lemma {:induction false} PaletteKeys(m: Maths, adds: seq<Addition>, name: string)
    ensures name in PaletteOf(m, adds) <==> exists i :: 0 <= i < |adds| && adds[i].name == name
  {
    if adds != [] {
      var init := adds[..|adds| - 1];
      PaletteKeys(m, init, name);
      if exists i :: 0 <= i < |init| && init[i].name == name {
        var i :| 0 <= i < |init| && init[i].name == name;
        assert adds[i].name == name;
      }
      if exists i :: 0 <= i < |adds| && adds[i].name == name {
        var i :| 0 <= i < |adds| && adds[i].name == name;
        if i < |init| {
          assert init[i].name == name;
        }
      }
    }
  }

  /** The last addition of a name decides its colour. */
  lemma {:induction false} PaletteLastWins(m: Maths, adds: seq<Addition>, k: int)
    requires 0 <= k < |adds|
    requires forall j :: k < j < |adds| ==> adds[j].name != adds[k].name
    ensures adds[k].name in PaletteOf(m, adds)
    ensures PaletteOf(m, adds)[adds[k].name] == RgbToOklab(m, adds[k].r, adds[k].g, adds[k].b)
  {
    if k < |adds| - 1 {
      var init := adds[..|adds| - 1];
      assert init[k] == adds[k];
      PaletteLastWins(m, init, k);
    }
  }

  /** The added names in the order of their first addition, each once. */
  function DistinctNames(adds: seq<Addition>): (order: seq<string>)
    ensures forall i, j :: 0 <= i < j < |order| ==> order[i] != order[j]
  {
    if adds == [] then []
    else
      var init := DistinctNames(adds[..|adds| - 1]);
      var name := adds[|adds| - 1].name;
      if name in init then init else init + [name]
  }

  /** A name is listed exactly when it was added. */
  lemma {:induction false} DistinctNamesMembers(adds: seq<Addition>, name: string)
    ensures name in DistinctNames(adds) <==> exists i :: 0 <= i < |adds| && adds[i].name == name
  {
    if adds != [] {
      var init := adds[..|adds| - 1];
      DistinctNamesMembers(init, name);
      if exists i :: 0 <= i < |init| && init[i].name == name {
        var i :| 0 <= i < |init| && init[i].name == name;
        assert adds[i].name == name;
      }
      if exists i :: 0 <= i < |adds| && adds[i].name == name {
        var i :| 0 <= i < |adds| && adds[i].name == name;
        if i < |init| {
          assert init[i].name == name;
        }
      }
    }
  }

  /** The distinct names enumerate the palette built from the same additions,
      so every palette the program builds meets the `Enumerates` precondition
      of the naming operations. */
  lemma DistinctNamesEnumerate(m: Maths, adds: seq<Addition>)
    ensures Enumerates(DistinctNames(adds), PaletteOf(m, adds))
  {
    var order := DistinctNames(adds);
    forall i | 0 <= i < |order|
      ensures order[i] in PaletteOf(m, adds)
    {
      DistinctNamesMembers(adds, order[i]);
      PaletteKeys(m, adds, order[i]);
    }
    forall k | k in PaletteOf(m, adds)
      ensures k in order
    {
      PaletteKeys(m, adds, k);
      DistinctNamesMembers(adds, k);
    }
  }

  /** `COLOR_MAP_OKLAB` has an iteration order: its distinct names. */
  lemma PaletteEnumerated(m: Maths)
    ensures Enumerates(DistinctNames(ADDITIONS), Palette(m))
  {
    DistinctNamesEnumerate(m, ADDITIONS);
  }

  // ---------- getColorName ----------

  const UNKNOWN: string := "Неизвестный цвет"

  /** `Float.MAX_VALUE`, the starting minimum of the scan. */
  const FLOAT_MAX: real := 340282346638528859811704183484516925440.0

  /** The names of the achromatic colours (chroma below 0.05), by lightness. */
  function GreyName(l: real): string
  {
    if l < 0.2 then "Черный"
    else if l > 0.9 then "Белый"
    else if l < 0.4 then "Темно-серый"
    else if l > 0.7 then "Светло-серый"
    else "Серый"
  }

  /** Each grey name covers one lightness interval, and the five intervals
      partition the line. */
  lemma GreyNameBuckets(l: real)
    ensures GreyName(l) == "Черный" <==> l < 0.2
    ensures GreyName(l) == "Белый" <==> l > 0.9
    ensures GreyName(l) == "Темно-серый" <==> 0.2 <= l < 0.4
    ensures GreyName(l) == "Светло-серый" <==> 0.7 < l <= 0.9
    ensures GreyName(l) == "Серый" <==> 0.4 <= l <= 0.7
  {
  }

  /** `order` is an iteration of the map: every key once, nothing else. */
  predicate Enumerates(order: seq<string>, palette: map<string, Oklab>)
  {
    (forall i :: 0 <= i < |order| ==> order[i] in palette)
    && (forall k :: k in palette ==> k in order)
    && (forall i, j :: 0 <= i < j < |order| ==> order[i] != order[j])
  }

  /** The scan's pair of variables `closestName` and `minDistance`. */
  datatype Best = Best(name: string, distance: real)

  /** The scan after visiting `order`: a candidate replaces the current one
      only when it is strictly nearer. */
  function ClosestScan(m: Maths, target: Oklab, palette: map<string, Oklab>, order: seq<string>): Best
    requires forall i :: 0 <= i < |order| ==> order[i] in palette
  {
    if order == [] then Best(UNKNOWN, FLOAT_MAX)
    else
      var prev := ClosestScan(m, target, palette, order[..|order| - 1]);
      var key := order[|order| - 1];
      var d := OklabDistance(m, target, palette[key]);
      if d < prev.distance then Best(key, d) else prev
  }

  /** The distance from the target to the `j`-th visited entry. */
  function DistanceAt(m: Maths, target: Oklab, palette: map<string, Oklab>, order: seq<string>, j: int): real
    requires 0 <= j < |order| && order[j] in palette
  {
    OklabDistance(m, target, palette[order[j]])
  }

  /** The scan finds the first entry of least distance, or keeps the
      fallback when no entry is nearer than `Float.MAX_VALUE`. */
  lemma {:induction false} ClosestScanArgMin(m: Maths, target: Oklab, palette: map<string, Oklab>, order: seq<string>)
    requires forall i :: 0 <= i < |order| ==> order[i] in palette
    ensures var best := ClosestScan(m, target, palette, order);
      (best == Best(UNKNOWN, FLOAT_MAX)
        && forall j :: 0 <= j < |order| ==> DistanceAt(m, target, palette, order, j) >= FLOAT_MAX)
      || (exists k :: (0 <= k < |order| && best == Best(order[k], DistanceAt(m, target, palette, order, k))
        && best.distance < FLOAT_MAX
        && (forall j :: 0 <= j < k ==> DistanceAt(m, target, palette, order, j) > best.distance)
        && (forall j :: 0 <= j < |order| ==> DistanceAt(m, target, palette, order, j) >= best.distance)))
  {
    if order != [] {
      var n := |order| - 1;
      var init := order[..n];
      ClosestScanArgMin(m, target, palette, init);
      var prev := ClosestScan(m, target, palette, init);
      var d := DistanceAt(m, target, palette, order, n);
      assert forall j :: 0 <= j < n ==> DistanceAt(m, target, palette, init, j) == DistanceAt(m, target, palette, order, j);
      if prev == Best(UNKNOWN, FLOAT_MAX)
        && forall j :: 0 <= j < n ==> DistanceAt(m, target, palette, init, j) >= FLOAT_MAX
      {
        if d < FLOAT_MAX {
          assert ClosestScan(m, target, palette, order) == Best(order[n], d);
        }
      } else {
        var k :| 0 <= k < n && prev == Best(init[k], DistanceAt(m, target, palette, init, k))
          && prev.distance < FLOAT_MAX
          && (forall j :: 0 <= j < k ==> DistanceAt(m, target, palette, init, j) > prev.distance)
          && (forall j :: 0 <= j < n ==> DistanceAt(m, target, palette, init, j) >= prev.distance);
        if d < prev.distance {
          assert ClosestScan(m, target, palette, order) == Best(order[n], d);
        } else {
          assert ClosestScan(m, target, palette, order) == prev;
          assert prev == Best(order[k], DistanceAt(m, target, palette, order, k));
        }
      }
    }
  }

  /** The lightness modifier: very dark colours get "Темно-" and very light
      ones "Светло-" before the lower-cased name, unless the name already
      says so. */
  function WithModifier(l: real, name: string): string
  {
    if l < 0.25 && !Contains(name, "Темно") then "Темно-" + ToLower(name)
    else if l > 0.85 && !Contains(name, "Светло") then "Светло-" + ToLower(name)
    else name
  }

  lemma PrefixContains(p: string, s: string)
    ensures Contains(p + s, p)
  {
    assert (p + s)[..|p|] == p;
  }

  /** Mid lightness keeps the name. */
  lemma WithModifierMid(l: real, name: string)
    requires 0.25 <= l <= 0.85
    ensures WithModifier(l, name) == name
  {
  }

  /** A changed name is exactly one prefix before the lower-cased name, and
      afterwards a very dark (very light) colour's name always mentions
      "Темно" ("Светло"). */
  lemma WithModifierShape(l: real, name: string)
    ensures var r := WithModifier(l, name);
      (r == name || r == "Темно-" + ToLower(name) || r == "Светло-" + ToLower(name))
      && (l < 0.25 ==> Contains(r, "Темно"))
      && (l > 0.85 ==> Contains(r, "Светло"))
  {
    var low := ToLower(name);
    if l < 0.25 && !Contains(name, "Темно") {
      assert "Темно-" + low == "Темно" + ("-" + low);
      PrefixContains("Темно", "-" + low);
    } else if l > 0.85 && !Contains(name, "Светло") {
      assert "Светло-" + low == "Светло" + ("-" + low);
      PrefixContains("Светло", "-" + low);
    }
  }

  /** Applying the modifier twice adds nothing. */
  lemma WithModifierIdempotent(l: real, name: string)
    ensures WithModifier(l, WithModifier(l, name)) == WithModifier(l, name)
  {
    WithModifierShape(l, name);
  }

  /** `getColorName(color)` with the palette and its iteration order. */
  function ColorName(m: Maths, color: int, palette: map<string, Oklab>, order: seq<string>): string
    requires forall i :: 0 <= i < |order| ==> order[i] in palette
  {
    var o := RgbToOklab(m, Red(color), Green(color), Blue(color));
    if Chroma(m, o) < 0.05 then GreyName(o.L)
    else WithModifier(o.L, ClosestScan(m, o, palette, order).name)
  }

  /** `getColorName(color)`: the grey rules, then the scan over the entries. */
  method GetColorName(m: Maths, color: int, palette: map<string, Oklab>, order: seq<string>) returns (name: string)
    requires Enumerates(order, palette)
    ensures name == ColorName(m, color, palette, order)
  {
    var o := RgbToOklab(m, Red(color), Green(color), Blue(color));
    if Chroma(m, o) < 0.05 {
      return GreyName(o.L);
    }
    var closestName := UNKNOWN;
    var minDistance := FLOAT_MAX;
    for i := 0 to |order|
      invariant Best(closestName, minDistance) == ClosestScan(m, o, palette, order[..i])
    {
      assert order[..i + 1][..i] == order[..i];
      var distance := OklabDistance(m, o, palette[order[i]]);
      if distance < minDistance {
        minDistance := distance;
        closestName := order[i];
      }
    }
    assert order[..|order|] == order;
    name := WithModifier(o.L, closestName);
  }

  /** A chromatic colour of mid lightness is named after a palette entry
      nearest to it in OKLAB (or the fallback when every entry is at least
      `Float.MAX_VALUE` away); an achromatic one gets a grey name. */
  lemma ColorNameNearest(m: Maths, color: int, palette: map<string, Oklab>, order: seq<string>)
    requires Enumerates(order, palette)
    ensures var o := RgbToOklab(m, Red(color), Green(color), Blue(color));
      var name := ColorName(m, color, palette, order);
      (Chroma(m, o) < 0.05 ==> name == GreyName(o.L))
      && (Chroma(m, o) >= 0.05 && 0.25 <= o.L <= 0.85 ==>
        (name == UNKNOWN && forall k :: k in palette ==> OklabDistance(m, o, palette[k]) >= FLOAT_MAX)
        || (name in palette && forall k :: k in palette ==> OklabDistance(m, o, palette[name]) <= OklabDistance(m, o, palette[k])))
  {
    var o := RgbToOklab(m, Red(color), Green(color), Blue(color));
    var best := ClosestScan(m, o, palette, order);
    if Chroma(m, o) >= 0.05 && 0.25 <= o.L <= 0.85 {
      WithModifierMid(o.L, best.name);
      assert ColorName(m, color, palette, order) == best.name;
      ClosestScanArgMin(m, o, palette, order);
      if best == Best(UNKNOWN, FLOAT_MAX)
        && forall j :: 0 <= j < |order| ==> DistanceAt(m, o, palette, order, j) >= FLOAT_MAX
      {
        forall k | k in palette
          ensures OklabDistance(m, o, palette[k]) >= FLOAT_MAX
        {
          var j :| 0 <= j < |order| && order[j] == k;
          assert DistanceAt(m, o, palette, order, j) >= FLOAT_MAX;
        }
      } else {
        var i :| 0 <= i < |order| && best == Best(order[i], DistanceAt(m, o, palette, order, i))
          && (forall j :: 0 <= j < |order| ==> DistanceAt(m, o, palette, order, j) >= best.distance);
        forall k | k in palette
          ensures OklabDistance(m, o, palette[best.name]) <= OklabDistance(m, o, palette[k])
        {
          var j :| 0 <= j < |order| && order[j] == k;
          assert DistanceAt(m, o, palette, order, j) >= best.distance;
        }
      }
    }
  }

  // ---------- getColorDescription ----------

  /** The five lightness levels of the description, 4 for the lightest. */
  function BrightnessLevel(l: real): nat
  {
    if l > 0.85 then 4
    else if l > 0.65 then 3
    else if l > 0.45 then 2
    else if l > 0.25 then 1
    else 0
  }

  function BrightnessDescription(l: real): string
  {
    match BrightnessLevel(l)
    case 4 => "очень светлый"
    case 3 => "светлый"
    case 2 => "средней яркости"
    case 1 => "темный"
    case _ => "очень темный"
  }

  /** A lighter colour never gets a darker word, and each word starts at its
      threshold. */
  lemma BrightnessMonotone(l1: real, l2: real)
    ensures l1 <= l2 ==> BrightnessLevel(l1) <= BrightnessLevel(l2)
    ensures BrightnessLevel(l1) == 4 <==> l1 > 0.85
    ensures BrightnessLevel(l1) >= 3 <==> l1 > 0.65
    ensures BrightnessLevel(l1) >= 2 <==> l1 > 0.45
    ensures BrightnessLevel(l1) >= 1 <==> l1 > 0.25
  {
  }

  /** `getColorDescription(color)`: `"%s, %s оттенок"` of the name and the
      lightness word. */
  method GetColorDescription(m: Maths, color: int, palette: map<string, Oklab>, order: seq<string>)
    returns (description: string)
    requires Enumerates(order, palette)
    ensures var o := RgbToOklab(m, Red(color), Green(color), Blue(color));
      description == ColorName(m, color, palette, order) + ", " + BrightnessDescription(o.L) + " оттенок"
  {
    var name := GetColorName(m, color, palette, order);
    var o := RgbToOklab(m, Red(color), Green(color), Blue(color));
    description := name + ", " + BrightnessDescription(o.L) + " оттенок";
  }

  /** The name and the lightness word agree at the extremes: a very dark
      chromatic colour is "очень темный" and its name mentions "Темно", a
      very light one is "очень светлый" and its name mentions "Светло". */
  lemma DescriptionAgreesWithName(m: Maths, color: int, palette: map<string, Oklab>, order: seq<string>)
    requires Enumerates(order, palette)
    ensures var o := RgbToOklab(m, Red(color), Green(color), Blue(color));
      var name := ColorName(m, color, palette, order);
      Chroma(m, o) >= 0.05 ==>
        (o.L < 0.25 ==> BrightnessDescription(o.L) == "очень темный" && Contains(name, "Темно"))
        && (o.L > 0.85 ==> BrightnessDescription(o.L) == "очень светлый" && Contains(name, "Светло"))
  {
    var o := RgbToOklab(m, Red(color), Green(color), Blue(color));
    WithModifierShape(o.L, ClosestScan(m, o, palette, order).name);
  }
}
