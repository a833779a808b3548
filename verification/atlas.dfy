/** The glyph atlas built once by `generate_glyphs_texture`: every character
    of a fixed alphabet is rasterised, its metrics are recorded, and its bitmap
    is packed left to right, with a border on each side, into one
    single-channel texture whose sides are powers of two. The rasteriser (a
    font library) is a parameter; the texture uploads are not modelled. */
module Atlas {

  /** Texels of empty padding kept on each side of a glyph bitmap. */
  const Border: nat := 2

  /** The characters packed into the atlas, in packing order. The letter 'n'
      occurs three times, so it is packed three times. */
  const Alphabet: string := "0123456789., -enaninf"

  /** The alphabet with the exponent sign that `%e` always prints added at
      the end (see the findings of the README). */
  const CorrectedAlphabet: string := Alphabet + "+"

  /** What the rasteriser reports for one character: a failure (the
      character is skipped), or its advance in 26.6 fixed point, its bitmap
      size and its bearing. */
  datatype Raster =
    | Skipped
    | Rendered(advanceX: int, advanceY: int, width: nat, rows: nat, left: int, top: int)

  /** One stored glyph: advance in whole pixels, bitmap size, bearing, and
      the texel position of its bitmap inside the atlas. */
  datatype Glyph = Glyph(advanceX: int, advanceY: int, width: nat, rows: nat,
                         left: int, top: int, offsetX: int, offsetY: int)

  /** The packed extent, the texture size, and the character-indexed tables. */
  datatype GlyphAtlas = GlyphAtlas(packedWidth: nat, packedHeight: nat,
                                   textureWidth: nat, textureHeight: nat,
                                   glyphs: map<char, Glyph>)

  /** `v >> 6` on a signed 26.6 value: an arithmetic shift, which rounds
      towards minus infinity. */
  function FixedToPixels(v: int): (r: int)
    ensures 64 * r <= v < 64 * r + 64
  {
    v / 64
  }

  /** Horizontal atlas space one rasteriser result takes. */
  function Extent(g: Raster): nat
  {
    if g.Skipped? then 0 else g.width + 2 * Border
  }

  /** The accumulated `boxW` of the first pass. */
  function PackedWidth(text: string, rast: char -> Raster): nat
  {
    if |text| == 0 then 0
    else PackedWidth(text[..|text| - 1], rast) + Extent(rast(text[|text| - 1]))
  }

  /** The accumulated `boxH` of the first pass. */
  function PackedHeight(text: string, rast: char -> Raster): nat
  {
    if |text| == 0 then 0
    else
      var h := PackedHeight(text[..|text| - 1], rast);
      var g := rast(text[|text| - 1]);
      if g.Rendered? && h < g.rows + 2 * Border then g.rows + 2 * Border else h
  }

  /** The vertical cursor of the second pass: the sum of the vertical
      advances of the rendered characters. */
  function VerticalCursor(text: string, rast: char -> Raster): int
  {
    if |text| == 0 then 0
    else
      var g := rast(text[|text| - 1]);
      VerticalCursor(text[..|text| - 1], rast) + (if g.Rendered? then FixedToPixels(g.advanceY) else 0)
  }

  /** Atlas position given to the character at index `i` of `text`. */
  function OffsetX(text: string, rast: char -> Raster, i: nat): int
    requires i <= |text|
  {
    Border + PackedWidth(text[..i], rast)
  }

  function OffsetY(text: string, rast: char -> Raster, i: nat): int
    requires i <= |text|
  {
    Border + VerticalCursor(text[..i], rast)
  }

  predicate IsPow2(n: nat)
  {
    n == 1 || (n >= 2 && n % 2 == 0 && IsPow2(n / 2))
  }

  /** Doubles the power of two `d` until it covers `n`. */
  function GrowToCover(d: nat, n: nat): (r: nat)
    requires IsPow2(d)
    ensures IsPow2(r) && n <= r && d <= r
    ensures r == d || r / 2 < n
    decreases n - d
  {
    if d >= n then d else GrowToCover(2 * d, n)
  }

  /** The texture side chosen for a packed extent `n`: start at 1, double
      while below `n`. */
  function AtlasDimension(n: nat): (r: nat)
    ensures IsPow2(r) && n <= r
  {
    GrowToCover(1, n)
  }

  lemma {:induction false} Pow2Step(a: nat, b: nat)
    requires IsPow2(a) && IsPow2(b) && a < b
    ensures 2 * a <= b
    decreases b
  {
    if a != 1 {
      Pow2Step(a / 2, b / 2);
    }
  }

  /** The texture side is the smallest power of two that covers the extent. */
  lemma AtlasDimensionIsSmallest(n: nat, p: nat)
    requires IsPow2(p) && n <= p
    ensures AtlasDimension(n) <= p
  {
    var r := AtlasDimension(n);
    if r != 1 {
      assert r / 2 < p;
      Pow2Step(r / 2, p);
    }
  }

  /** Index of the last occurrence of `c`: the entry a repeated character
      keeps, since the tables are written in order. */
  function LastIndex(text: string, c: char): (i: nat)
    requires c in text
    ensures i < |text| && text[i] == c
    ensures forall j :: i < j < |text| ==> text[j] != c
  {
    if text[|text| - 1] == c then |text| - 1
    else
      assert text == text[..|text| - 1] + [text[|text| - 1]];
      LastIndex(text[..|text| - 1], c)
  }

  /** `g` is what the two passes store for the character at index `i`. */
  predicate StoredAt(g: Glyph, text: string, rast: char -> Raster, i: nat)
    requires i < |text|
  {
    var r := rast(text[i]);
    && r.Rendered?
    && g == Glyph(FixedToPixels(r.advanceX), FixedToPixels(r.advanceY), r.width, r.rows,
                  r.left, r.top, OffsetX(text, rast, i), OffsetY(text, rast, i))
  }

  /** The character-indexed tables as both passes leave them, written in
      order, so a repeated character keeps its last entry. */
  function GlyphTable(text: string, rast: char -> Raster): map<char, Glyph>
  {
    if |text| == 0 then map[]
    else
      var prefix := text[..|text| - 1];
      var m0 := GlyphTable(prefix, rast);
      match rast(text[|text| - 1])
      case Skipped => m0
      case Rendered(ax, ay, w, h, l, t) =>
        m0[text[|text| - 1] := Glyph(FixedToPixels(ax), FixedToPixels(ay), w, h, l, t,
                                     Border + PackedWidth(prefix, rast), Border + VerticalCursor(prefix, rast))]
  }

  lemma LastIndexOfPrefix(text: string, c: char)
    requires |text| > 0 && c in text[..|text| - 1] && text[|text| - 1] != c
    ensures c in text && LastIndex(text, c) == LastIndex(text[..|text| - 1], c)
  {
  }

  /** One table entry per rendered character, taken from its last occurrence. */
  lemma {:induction false} GlyphTableEntries(text: string, rast: char -> Raster)
    ensures forall c :: c in GlyphTable(text, rast) <==> c in text && rast(c).Rendered?
    ensures forall c :: c in GlyphTable(text, rast) ==>
              StoredAt(GlyphTable(text, rast)[c], text, rast, LastIndex(text, c))
    decreases |text|
  {
    if |text| > 0 {
      var prefix := text[..|text| - 1];
      var c0 := text[|text| - 1];
      assert text == prefix + [c0];
      GlyphTableEntries(prefix, rast);
      var m0 := GlyphTable(prefix, rast);
      var m := GlyphTable(text, rast);
      forall c | c in m
        ensures StoredAt(m[c], text, rast, LastIndex(text, c))
      {
        if c != c0 {
          LastIndexOfPrefix(text, c);
          var i := LastIndex(prefix, c);
          assert text[..i] == prefix[..i];
        }
      }
    }
  }

  lemma PackedWidthStep(text: string, rast: char -> Raster, i: nat)
    requires i < |text|
    ensures PackedWidth(text[..i + 1], rast) == PackedWidth(text[..i], rast) + Extent(rast(text[i]))
  {
    assert text[..i + 1][..i] == text[..i];
  }

  lemma {:induction false} PackedWidthMonotone(text: string, rast: char -> Raster, i: nat, j: nat)
    requires i <= j <= |text|
    ensures PackedWidth(text[..i], rast) <= PackedWidth(text[..j], rast)
    decreases j
  {
    if i < j {
      PackedWidthMonotone(text, rast, i, j - 1);
      PackedWidthStep(text, rast, j - 1);
    }
  }

  /** A later glyph starts past the end of an earlier one and its border:
      offsets strictly increase and the bitmap spans are disjoint. */
  lemma PackedSpansDisjoint(text: string, rast: char -> Raster, i: nat, j: nat)
    requires i < j < |text|
    requires rast(text[i]).Rendered?
    ensures OffsetX(text, rast, i) + rast(text[i]).width + 2 * Border <= OffsetX(text, rast, j)
  {
    PackedWidthStep(text, rast, i);
    PackedWidthMonotone(text, rast, i + 1, j);
  }

  /** Every packed span, with its right border, lies inside the packed width. */
  lemma PackedSpanInside(text: string, rast: char -> Raster, i: nat)
    requires i < |text|
    requires rast(text[i]).Rendered?
    ensures Border <= OffsetX(text, rast, i)
    ensures OffsetX(text, rast, i) + rast(text[i]).width + Border <= PackedWidth(text, rast)
  {
    PackedWidthStep(text, rast, i);
    PackedWidthMonotone(text, rast, i + 1, |text|);
    assert text[..|text|] == text;
  }

  /** Fonts laid out horizontally: every rendered glyph's vertical advance
      is below one pixel. */
  predicate HorizontalFont(text: string, rast: char -> Raster)
  {
    forall i :: 0 <= i < |text| && rast(text[i]).Rendered? ==> FixedToPixels(rast(text[i]).advanceY) == 0
  }

  lemma {:induction false} VerticalCursorStaysZero(text: string, rast: char -> Raster, i: nat)
    requires i <= |text| && HorizontalFont(text, rast)
    ensures VerticalCursor(text[..i], rast) == 0
    decreases i
  {
    if i > 0 {
      assert text[..i][..i - 1] == text[..i - 1];
      VerticalCursorStaysZero(text, rast, i - 1);
    }
  }

  lemma {:induction false} PackedHeightCovers(text: string, rast: char -> Raster, i: nat)
    requires i < |text| && rast(text[i]).Rendered?
    ensures rast(text[i]).rows + 2 * Border <= PackedHeight(text, rast)
    decreases |text|
  {
    var prefix := text[..|text| - 1];
    if i < |text| - 1 {
      assert prefix[i] == text[i];
      PackedHeightCovers(prefix, rast, i);
    }
  }

  /** With a horizontal font every glyph sits in one row, one border below
      the top, and that row fits inside the packed height. */
  lemma PackedRowInside(text: string, rast: char -> Raster, i: nat)
    requires i < |text| && rast(text[i]).Rendered?
    requires HorizontalFont(text, rast)
    ensures OffsetY(text, rast, i) == Border
    ensures OffsetY(text, rast, i) + rast(text[i]).rows + Border <= PackedHeight(text, rast)
  {
    VerticalCursorStaysZero(text, rast, i);
    PackedHeightCovers(text, rast, i);
  }

  /** The vertical cursor is advanced as written, by the vertical advance:
      with a font whose glyphs advance ten pixels downwards, the second
      glyph is placed below the bottom of an 8-texel-high atlas. */
  lemma VerticalAdvanceCanLeaveAtlas()
    ensures var rast := (c: char) => Rendered(0, 640, 1, 1, 0, 0);
            var a := GenerateGlyphsTexture("01", rast);
            && a.textureHeight == 8
            && '1' in a.glyphs
            && a.glyphs['1'].offsetY + a.glyphs['1'].rows > a.textureHeight
  {
    var rast := (c: char) => Rendered(0, 640, 1, 1, 0, 0);
    var text := "01";
    assert text[..1] == "0" && text[..1][..0] == [];
    assert text[..|text| - 1] == "0";
    assert PackedHeight(text, rast) == 5;
    assert GrowToCover(8, 5) == 8;
    assert AtlasDimension(5) == 8;
    assert LastIndex(text, '1') == 1;
    assert VerticalCursor(text[..1], rast) == 10;
  }

  /** Glyph atlas construction: both passes over `text` (the source packs
      `Alphabet`) with the rasteriser `rast`. */
  function GenerateGlyphsTexture(text: string, rast: char -> Raster): (a: GlyphAtlas)
    ensures a.packedWidth == PackedWidth(text, rast) && a.packedHeight == PackedHeight(text, rast)
    ensures IsPow2(a.textureWidth) && a.packedWidth <= a.textureWidth
    ensures IsPow2(a.textureHeight) && a.packedHeight <= a.textureHeight
    ensures forall p :: IsPow2(p) && a.packedWidth <= p ==> a.textureWidth <= p
    ensures forall p :: IsPow2(p) && a.packedHeight <= p ==> a.textureHeight <= p
    ensures forall c :: c in a.glyphs <==> c in text && rast(c).Rendered?
    ensures forall c :: c in a.glyphs ==> StoredAt(a.glyphs[c], text, rast, LastIndex(text, c))
    ensures forall c :: c in a.glyphs ==>
              Border <= a.glyphs[c].offsetX && a.glyphs[c].offsetX + a.glyphs[c].width + Border <= a.packedWidth
    ensures forall c :: c in a.glyphs ==> a.glyphs[c].rows + 2 * Border <= a.packedHeight
  {
    var w := PackedWidth(text, rast);
    var h := PackedHeight(text, rast);
    var m := GlyphTable(text, rast);
    GlyphTableEntries(text, rast);
    GlyphsInside(text, rast, m);
    DimensionsSmallest(w);
    DimensionsSmallest(h);
    GlyphAtlas(w, h, AtlasDimension(w), AtlasDimension(h), m)
  }

  lemma DimensionsSmallest(n: nat)
    ensures forall p :: IsPow2(p) && n <= p ==> AtlasDimension(n) <= p
  {
    forall p | IsPow2(p) && n <= p
      ensures AtlasDimension(n) <= p
    {
      AtlasDimensionIsSmallest(n, p);
    }
  }

  lemma GlyphsInside(text: string, rast: char -> Raster, m: map<char, Glyph>)
    requires m == GlyphTable(text, rast)
    ensures forall c :: c in m ==> c in text
    ensures forall c :: c in m ==>
              Border <= m[c].offsetX && m[c].offsetX + m[c].width + Border <= PackedWidth(text, rast)
    ensures forall c :: c in m ==> m[c].rows + 2 * Border <= PackedHeight(text, rast)
  {
    GlyphTableEntries(text, rast);
    forall c | c in m
      ensures Border <= m[c].offsetX && m[c].offsetX + m[c].width + Border <= PackedWidth(text, rast)
      ensures m[c].rows + 2 * Border <= PackedHeight(text, rast)
    {
      PackedSpanInside(text, rast, LastIndex(text, c));
      PackedHeightCovers(text, rast, LastIndex(text, c));
    }
  }

  /** With a horizontal font every stored glyph's bitmap, with its border,
      lies inside the atlas in both directions. */
  lemma GlyphsInsideTexture(text: string, rast: char -> Raster, c: char)
    requires HorizontalFont(text, rast)
    requires c in GenerateGlyphsTexture(text, rast).glyphs
    ensures var a := GenerateGlyphsTexture(text, rast);
            var g := a.glyphs[c];
            && Border <= g.offsetX && g.offsetX + g.width + Border <= a.textureWidth
            && g.offsetY == Border && g.offsetY + g.rows + Border <= a.textureHeight
  {
    PackedRowInside(text, rast, LastIndex(text, c));
  }
}
