/** `draw_text` over the reals: the label box, the session-wide text scale,
    the centred pen, and one textured quad per character. The GPU uploads
    and draw calls are not modelled; the quads are the result. */
module Layout {
  import opened Atlas

  /** One glyph's quad: bottom-left corner, size, and texture-coordinate
      bounds. The four vertices are its corners. */
  datatype Quad = Quad(x: real, y: real, width: real, height: real,
                       texLowerX: real, texLowerY: real, texUpperX: real, texUpperY: real)

  /** The quads of one label, the text scale after it, and where the pen
      starts and ends horizontally. */
  datatype TextDraw = TextDraw(quads: seq<Quad>, textPixelScale: real,
                               penStartX: real, penStartY: real, penEndX: real)

  /** Every character of `text` has a glyph, and the atlas has a size. */
  predicate Drawable(a: GlyphAtlas, text: string)
  {
    && 0 < a.textureWidth && 0 < a.textureHeight
    && forall i :: 0 <= i < |text| ==> text[i] in a.glyphs
  }

  /** Width of the label box: the sum of the horizontal advances. */
  function BoxWidth(a: GlyphAtlas, text: string): int
    requires Drawable(a, text)
  {
    if |text| == 0 then 0 else a.glyphs[text[0]].advanceX + BoxWidth(a, text[1..])
  }

  function AdvanceYSum(a: GlyphAtlas, text: string): int
    requires Drawable(a, text)
  {
    if |text| == 0 then 0 else a.glyphs[text[0]].advanceY + AdvanceYSum(a, text[1..])
  }

  /** Height of the label box: the tallest bitmap, or 0 for an empty label. */
  function BoxHeight(a: GlyphAtlas, text: string): (h: nat)
    requires Drawable(a, text)
    ensures forall i :: 0 <= i < |text| ==> a.glyphs[text[i]].rows <= h
    ensures h == 0 || exists i :: 0 <= i < |text| && a.glyphs[text[i]].rows == h
  {
    if |text| == 0 then 0
    else
      var rest := BoxHeight(a, text[1..]);
      var rows := a.glyphs[text[0]].rows;
      assert forall i :: 1 <= i < |text| ==> text[i] == text[1..][i - 1];
      if rest < rows then rows else rest
  }

  function TexLower(offset: int, dim: nat): real
    requires 0 < dim
  {
    offset as real / dim as real
  }

  /** Upper texture coordinate: the last texel of the bitmap, not the one
      past it. */
  function TexUpper(offset: int, size: nat, dim: nat): real
    requires 0 < dim
  {
    TexLower(offset, dim) + (size as real - 1.0) / dim as real
  }

  /** The upper bound stops one texel short of the glyph's right or bottom
      edge, and a bitmap inside the atlas has bounds inside [0, 1]. */
  lemma TexBounds(offset: int, size: nat, dim: nat)
    requires 0 < dim
    ensures TexUpper(offset, size, dim) < (offset + size) as real / dim as real
    ensures TexUpper(offset, size, dim) == TexLower(offset, dim) + (size as real - 1.0) / dim as real
    ensures 0 <= offset && offset + size <= dim ==>
              0.0 <= TexLower(offset, dim) <= 1.0 && TexUpper(offset, size, dim) < 1.0
    ensures 1 <= offset ==> 0.0 <= TexUpper(offset, size, dim)
  {
    var d := dim as real;
    assert TexUpper(offset, size, dim) == (offset as real + size as real - 1.0) / d;
    DivideStrict(offset as real + size as real - 1.0, offset as real + size as real, d);
    if 0 <= offset && offset + size <= dim {
      DivideMonotone(0.0, offset as real, d);
      DivideMonotone(offset as real, d, d);
      DivideStrict(offset as real + size as real - 1.0, d, d);
    }
    if 1 <= offset {
      DivideMonotone(0.0, offset as real + size as real - 1.0, d);
    }
  }

  lemma DivideMonotone(u: real, v: real, d: real)
    requires 0.0 < d && u <= v
    ensures u / d <= v / d
  {
    assert v / d - u / d == (v - u) / d;
  }

  lemma DivideStrict(u: real, v: real, d: real)
    requires 0.0 < d && u < v
    ensures u / d < v / d
  {
    assert v / d - u / d == (v - u) / d;
  }

  function GlyphQuad(a: GlyphAtlas, ch: char, penX: real, penY: real, s: real): Quad
    requires ch in a.glyphs && 0 < a.textureWidth && 0 < a.textureHeight
  {
    var g := a.glyphs[ch];
    Quad(penX + g.left as real * s, penY - g.top as real * s,
         g.width as real * s, g.rows as real * s,
         TexLower(g.offsetX, a.textureWidth), TexLower(g.offsetY, a.textureHeight),
         TexUpper(g.offsetX, g.width, a.textureWidth), TexUpper(g.offsetY, g.rows, a.textureHeight))
  }

  /** The glyph loop: a quad at the pen, then the pen moves by the scaled advance. */
  function GlyphRun(a: GlyphAtlas, text: string, penX: real, penY: real, s: real): (r: seq<Quad>)
    requires Drawable(a, text)
    ensures |r| == |text|
  {
    if |text| == 0 then []
    else
      var g := a.glyphs[text[0]];
      [GlyphQuad(a, text[0], penX, penY, s)]
        + GlyphRun(a, text[1..], Move(penX, g.advanceX, s), Move(penY, g.advanceY, s), s)
  }

  /** The pen after moving `n` font units at scale `s`. */
  function Move(pen: real, n: int, s: real): real
  {
    pen + n as real * s
  }

  lemma MoveTwice(pen: real, m: int, n: int, s: real)
    ensures Move(Move(pen, m, s), n, s) == Move(pen, m + n, s)
  {
    assert (m + n) as real * s == m as real * s + n as real * s;
  }

  /** Quad `k` sits at the pen moved by the scaled advances of the
      characters before it. */
  lemma {:induction false} GlyphRunAt(a: GlyphAtlas, text: string, penX: real, penY: real, s: real, k: nat)
    requires Drawable(a, text) && k < |text|
    ensures Drawable(a, text[..k])
    ensures 0 <= k < |GlyphRun(a, text, penX, penY, s)| &&
            GlyphRun(a, text, penX, penY, s)[k]
              == GlyphQuad(a, text[k], Move(penX, BoxWidth(a, text[..k]), s),
                           Move(penY, AdvanceYSum(a, text[..k]), s), s)
    decreases k
  {
    assert Drawable(a, text[..k]);
    var g := a.glyphs[text[0]];
    var rest := text[1..];
    var penX' := Move(penX, g.advanceX, s);
    var penY' := Move(penY, g.advanceY, s);
    assert GlyphRun(a, text, penX, penY, s) == [GlyphQuad(a, text[0], penX, penY, s)] + GlyphRun(a, rest, penX', penY', s);
    if k == 0 {
      assert text[..0] == [];
    } else {
      GlyphRunAt(a, rest, penX', penY', s, k - 1);
      assert text[..k][0] == text[0] && text[..k][1..] == rest[..k - 1];
      assert BoxWidth(a, text[..k]) == g.advanceX + BoxWidth(a, rest[..k - 1]);
      assert AdvanceYSum(a, text[..k]) == g.advanceY + AdvanceYSum(a, rest[..k - 1]);
      MoveTwice(penX, g.advanceX, BoxWidth(a, rest[..k - 1]), s);
      MoveTwice(penY, g.advanceY, AdvanceYSum(a, rest[..k - 1]), s);
    }
  }

  function Max(x: real, y: real): (m: real)
    ensures x <= m && y <= m && (m == x || m == y)
  {
    if x < y then y else x
  }

  lemma TimesReciprocal(u: real, t: real)
    requires t != 0.0
    ensures u * (1.0 / t) == u / t
  {
  }

  lemma HalfTimesReciprocal(u: real, t: real)
    requires t != 0.0
    ensures u / 2.0 * (1.0 / t) == u / (2.0 * t)
  {
  }

  lemma Halves(u: real, t: real)
    requires t != 0.0
    ensures u / (2.0 * t) + u / (2.0 * t) == u / t
  {
  }

  /** A text scale at least `2 w / scale` makes a box `w` font units wide
      at most `scale / 2` cells wide. */
  lemma ScaledWidthFits(w: real, scale: real, t: real)
    requires 0.0 < scale && 0.0 < t && 2.0 * w / scale <= t
    ensures 0.0 <= w ==> w / t <= scale / 2.0
  {
    var q := 2.0 * w / scale;
    assert q * scale == 2.0 * w;
    assert q * scale <= t * scale;
    assert w <= t * (scale / 2.0);
    assert w / t <= t * (scale / 2.0) / t;
  }

  /** The session scale after a label `w` font units wide drawn at
      horizontal scale `scale`: grown just enough for the label to fit. */
  function GrownScale(textPixelScale: real, w: real, scale: real): (t: real)
    requires 0.0 < textPixelScale && 0.0 < scale
    ensures textPixelScale <= t && 0.0 < t
    ensures 2.0 * w / scale <= t
    ensures t == textPixelScale || t == 2.0 * w / scale
    ensures 0.0 <= w ==> w / t <= scale / 2.0
  {
    var t := Max(textPixelScale, w * 2.0 / scale);
    ScaledWidthFits(w, scale, t);
    t
  }

  /** Where the pen starts across: left of the cell centre by half the
      scaled box width. */
  function PenStartX(x: real, w: real, t: real): (p: real)
    requires 0.0 < t
    ensures p == x + 0.5 - w / (2.0 * t)
  {
    HalfTimesReciprocal(w, t);
    x + 0.5 - w / 2.0 * (1.0 / t)
  }

  /** Where the pen starts down: below the cell centre by half the scaled
      box height, then raised by `yOffset`. */
  function PenStartY(y: real, h: real, t: real, yOffset: real): (p: real)
    requires 0.0 < t
    ensures p == y + 0.5 + h / (2.0 * t) - yOffset
  {
    HalfTimesReciprocal(h, t);
    y + 0.5 + h / 2.0 * (1.0 / t) - yOffset
  }

  /** Draws one label centred on cell `(x, y)`, lowered by `yOffset`, with
      horizontal scale `scale`, given the session's current text scale. The
      session scale grows only as far as this label needs, never shrinks,
      and leaves the label at most `scale / 2` cells wide, centred on the
      cell. */
  function DrawText(a: GlyphAtlas, textPixelScale: real, text: string,
                    x: real, y: real, yOffset: real, scale: real): (d: TextDraw)
    requires 0.0 < textPixelScale && 0.0 < scale && Drawable(a, text)
    ensures textPixelScale <= d.textPixelScale && 0.0 < d.textPixelScale
    ensures 2.0 * BoxWidth(a, text) as real / scale <= d.textPixelScale
    ensures d.textPixelScale == textPixelScale || d.textPixelScale == 2.0 * BoxWidth(a, text) as real / scale
    ensures d.penEndX - d.penStartX == BoxWidth(a, text) as real / d.textPixelScale
    ensures 0 <= BoxWidth(a, text) ==> d.penEndX - d.penStartX <= scale / 2.0
    ensures d.textPixelScale == Max(textPixelScale, 2.0 * BoxWidth(a, text) as real / scale)
    ensures d.penStartX == x + 0.5 - BoxWidth(a, text) as real / (2.0 * d.textPixelScale)
    ensures d.penStartX + d.penEndX == 2.0 * (x + 0.5)
    ensures d.penStartY == y + 0.5 + BoxHeight(a, text) as real / (2.0 * d.textPixelScale) - yOffset
    ensures d.quads == GlyphRun(a, text, d.penStartX, d.penStartY, 1.0 / d.textPixelScale)
  {
    var w := BoxWidth(a, text) as real;
    var h := BoxHeight(a, text) as real;
    var t := GrownScale(textPixelScale, w, scale);
    var s := 1.0 / t;
    var penY := PenStartY(y, h, t, yOffset);
    var penX := PenStartX(x, w, t);
    TimesReciprocal(w, t);
    Halves(w, t);
    TextDraw(GlyphRun(a, text, penX, penY, s), t, penX, penY, penX + w * s)
  }

  lemma MoveThenBearing(pen: real, n: int, bearing: int, t: real)
    requires t != 0.0
    ensures Move(pen, n, 1.0 / t) + bearing as real * (1.0 / t) == pen + (n + bearing) as real / t
  {
    MoveTwice(pen, n, bearing, 1.0 / t);
    TimesReciprocal((n + bearing) as real, t);
  }

  lemma MoveThenDrop(pen: real, n: int, drop: int, t: real)
    requires t != 0.0
    ensures Move(pen, n, 1.0 / t) - drop as real * (1.0 / t) == pen + (n - drop) as real / t
  {
    MoveTwice(pen, n, -drop, 1.0 / t);
    TimesReciprocal((n - drop) as real, t);
  }

  /** The quad of glyph `ch` with the pen moved `(bw, ay)` font units from
      `(penX, penY)` at text scale `t`. */
  lemma GlyphQuadFields(a: GlyphAtlas, ch: char, penX: real, penY: real, bw: int, ay: int, t: real)
    requires 0.0 < t && ch in a.glyphs && 0 < a.textureWidth && 0 < a.textureHeight
    ensures var q := GlyphQuad(a, ch, Move(penX, bw, 1.0 / t), Move(penY, ay, 1.0 / t), 1.0 / t);
            var g := a.glyphs[ch];
            && q.x == penX + (bw + g.left) as real / t
            && q.y == penY + (ay - g.top) as real / t
            && q.width == g.width as real / t
            && q.height == g.rows as real / t
            && q.texLowerX == g.offsetX as real / a.textureWidth as real
            && q.texLowerY == g.offsetY as real / a.textureHeight as real
            && q.texUpperX < (g.offsetX + g.width) as real / a.textureWidth as real
            && q.texUpperY < (g.offsetY + g.rows) as real / a.textureHeight as real
            && (0 <= g.offsetX && g.offsetX + g.width <= a.textureWidth ==>
                  0.0 <= q.texLowerX <= 1.0 && q.texUpperX < 1.0)
            && (0 <= g.offsetY && g.offsetY + g.rows <= a.textureHeight ==>
                  0.0 <= q.texLowerY <= 1.0 && q.texUpperY < 1.0)
            && (1 <= g.offsetX ==> 0.0 <= q.texUpperX)
            && (1 <= g.offsetY ==> 0.0 <= q.texUpperY)
  {
    var g := a.glyphs[ch];
    MoveThenBearing(penX, bw, g.left, t);
    MoveThenDrop(penY, ay, g.top, t);
    TimesReciprocal(g.width as real, t);
    TimesReciprocal(g.rows as real, t);
    TexBounds(g.offsetX, g.width, a.textureWidth);
    TexBounds(g.offsetY, g.rows, a.textureHeight);
  }

  /** Quad `k` of a label drawn from pen `(penX, penY)` at text scale `t`:
      its corner is the pen moved by the scaled advances before it and the
      glyph's bearing; its size is the bitmap's scaled by `t`; its texture
      bounds are the glyph's atlas rectangle, stopping one texel short of its
      far edges, and they lie inside [0, 1] when that rectangle lies inside
      the atlas at least one texel from its near edges. */
  lemma QuadAt(a: GlyphAtlas, text: string, penX: real, penY: real, t: real, k: nat)
    requires 0.0 < t && Drawable(a, text) && k < |text|
    ensures text[k] in a.glyphs && Drawable(a, text[..k])
    ensures var q := GlyphRun(a, text, penX, penY, 1.0 / t)[k];
            var g := a.glyphs[text[k]];
            && q.x == penX + (BoxWidth(a, text[..k]) + g.left) as real / t
            && q.y == penY + (AdvanceYSum(a, text[..k]) - g.top) as real / t
            && q.width == g.width as real / t
            && q.height == g.rows as real / t
            && q.texLowerX == g.offsetX as real / a.textureWidth as real
            && q.texLowerY == g.offsetY as real / a.textureHeight as real
            && q.texUpperX < (g.offsetX + g.width) as real / a.textureWidth as real
            && q.texUpperY < (g.offsetY + g.rows) as real / a.textureHeight as real
            && (0 <= g.offsetX && g.offsetX + g.width <= a.textureWidth ==>
                  0.0 <= q.texLowerX <= 1.0 && q.texUpperX < 1.0)
            && (0 <= g.offsetY && g.offsetY + g.rows <= a.textureHeight ==>
                  0.0 <= q.texLowerY <= 1.0 && q.texUpperY < 1.0)
            && (1 <= g.offsetX ==> 0.0 <= q.texUpperX)
            && (1 <= g.offsetY ==> 0.0 <= q.texUpperY)
  {
    GlyphRunAt(a, text, penX, penY, 1.0 / t, k);
    GlyphQuadFields(a, text[k], penX, penY, BoxWidth(a, text[..k]), AdvanceYSum(a, text[..k]), t);
  }
}
