/** One frame of the overlay: the label plan of `draw` laid out by
    `draw_text` in order, threading the session's text scale from label to
    label, over the glyph atlas built once at start-up. */
module Frame {
  import opened Atlas
  import opened Format
  import opened Visible
  import opened Overlay
  import opened Layout

  /** The renderer state that outlives a frame. */
  datatype Session = Session(textPixelScale: real)

  /** The horizontal scale a request is drawn with; `draw_text`'s own
      default is a parameter of the model. */
  function ScaleFactor(s: HorizontalScale, defaultScale: real): real
  {
    match s
    case DefaultScale => defaultScale
    case Scale(f) => f
  }

  predicate PositiveScales(ls: seq<LabelRequest>)
  {
    forall i :: 0 <= i < |ls| ==> (ls[i].scale.Scale? ==> 0.0 < ls[i].scale.factor)
  }

  predicate AllDrawable(a: GlyphAtlas, ls: seq<LabelRequest>)
  {
    forall i :: 0 <= i < |ls| ==> Drawable(a, ls[i].text)
  }

  /** The scale label `l` asks the session for: twice its box width over
      its horizontal scale. */
  function Demand(a: GlyphAtlas, l: LabelRequest, defaultScale: real): real
    requires Drawable(a, l.text) && 0.0 < ScaleFactor(l.scale, defaultScale)
  {
    2.0 * BoxWidth(a, l.text) as real / ScaleFactor(l.scale, defaultScale)
  }

  /** The labels drawn one after another, each seeing the text scale the
      previous one left. The final scale is the largest of the starting
      scale and every label's demand, and every label is drawn at most half
      its horizontal scale wide. */
  function DrawLabels(a: GlyphAtlas, textPixelScale: real, ls: seq<LabelRequest>, defaultScale: real)
    : (r: (seq<TextDraw>, real))
    requires 0.0 < textPixelScale && 0.0 < defaultScale && PositiveScales(ls) && AllDrawable(a, ls)
    ensures |r.0| == |ls|
    ensures textPixelScale <= r.1
    ensures forall i :: 0 <= i < |ls| ==> Demand(a, ls[i], defaultScale) <= r.1
    ensures r.1 == textPixelScale || exists i :: 0 <= i < |ls| && r.1 == Demand(a, ls[i], defaultScale)
    ensures forall i :: 0 <= i < |ls| ==>
              && r.0[i].textPixelScale <= r.1
              && |r.0[i].quads| == |ls[i].text|
              && (0 <= BoxWidth(a, ls[i].text) ==>
                    r.0[i].penEndX - r.0[i].penStartX <= ScaleFactor(ls[i].scale, defaultScale) / 2.0)
              && r.0[i].penStartX + r.0[i].penEndX == 2.0 * (ls[i].x as real + 0.5)
    decreases |ls|
  {
    if |ls| == 0 then ([], textPixelScale)
    else
      var l := ls[0];
      var d := DrawText(a, textPixelScale, l.text, l.x as real, l.y as real, l.yOffset,
                        ScaleFactor(l.scale, defaultScale));
      var rest := DrawLabels(a, d.textPixelScale, ls[1..], defaultScale);
      assert forall i :: 1 <= i < |ls| ==> ls[i] == ls[1..][i - 1];
      ([d] + rest.0, rest.1)
  }

  /** Drawn text `d` is label `l` laid out at the scale `d` records: its pen
      starts half the box width left of the cell's centre and half the box
      height below it, lifted by the label's channel offset, and its quads
      are the glyph run from there. */
  predicate Placed(a: GlyphAtlas, d: TextDraw, l: LabelRequest)
  {
    && Drawable(a, l.text)
    && 0.0 < d.textPixelScale
    && d.penStartX == l.x as real + 0.5 - BoxWidth(a, l.text) as real / (2.0 * d.textPixelScale)
    && d.penStartY == l.y as real + 0.5 + BoxHeight(a, l.text) as real / (2.0 * d.textPixelScale) - l.yOffset
    && d.quads == GlyphRun(a, l.text, d.penStartX, d.penStartY, 1.0 / d.textPixelScale)
  }

  /** Label `i` of a run is drawn at a scale no smaller than the one the run
      starts with, stacked by its channel offset, with the glyph run of its
      own text. */
  lemma {:induction false} DrawLabelsAt(a: GlyphAtlas, textPixelScale: real, ls: seq<LabelRequest>,
                                        defaultScale: real, i: nat)
    requires 0.0 < textPixelScale && 0.0 < defaultScale && PositiveScales(ls) && AllDrawable(a, ls)
    requires i < |ls|
    ensures textPixelScale <= DrawLabels(a, textPixelScale, ls, defaultScale).0[i].textPixelScale
    ensures Placed(a, DrawLabels(a, textPixelScale, ls, defaultScale).0[i], ls[i])
    decreases i
  {
    var l := ls[0];
    var d := DrawText(a, textPixelScale, l.text, l.x as real, l.y as real, l.yOffset,
                      ScaleFactor(l.scale, defaultScale));
    var r := DrawLabels(a, textPixelScale, ls, defaultScale).0;
    var rest := DrawLabels(a, d.textPixelScale, ls[1..], defaultScale).0;
    DrawLabelsUnfold(a, textPixelScale, ls, defaultScale);
    if i == 0 {
      assert r[0] == d;
      DrawTextPlaced(a, textPixelScale, l, defaultScale);
    } else {
      assert r[i] == rest[i - 1];
      assert ls[i] == ls[1..][i - 1];
      DrawLabelsAt(a, d.textPixelScale, ls[1..], defaultScale, i - 1);
    }
  }

  /** Label `i > 0` of a run is `draw_text` of request `i` from the scale
      label `i - 1` left: the one text scale is threaded through the labels
      in order. */
  lemma {:induction false} DrawLabelsThread(a: GlyphAtlas, textPixelScale: real, ls: seq<LabelRequest>,
                                            defaultScale: real, i: nat)
    requires 0.0 < textPixelScale && 0.0 < defaultScale && PositiveScales(ls) && AllDrawable(a, ls)
    requires 0 < i < |ls|
    ensures var r := DrawLabels(a, textPixelScale, ls, defaultScale).0;
            && 0.0 < r[i - 1].textPixelScale
            && 0.0 < ScaleFactor(ls[i].scale, defaultScale)
            && r[i] == DrawText(a, r[i - 1].textPixelScale, ls[i].text, ls[i].x as real, ls[i].y as real,
                                ls[i].yOffset, ScaleFactor(ls[i].scale, defaultScale))
    decreases i
  {
    var t := DrawLabels(a, textPixelScale, ls, defaultScale).0[0].textPixelScale;
    DrawLabelsShift(a, textPixelScale, ls, defaultScale, i);
    RestDrawable(a, ls);
    if i == 1 {
      DrawLabelsHead(a, t, ls[1..], defaultScale);
    } else {
      DrawLabelsThread(a, t, ls[1..], defaultScale, i - 1);
      DrawLabelsShift(a, textPixelScale, ls, defaultScale, i - 1);
    }
  }

  /** Label `i` of a run is drawn at the larger of the scale label `i - 1`
      left (the run's start for the first label) and its own demand. */
  lemma DrawLabelsStep(a: GlyphAtlas, textPixelScale: real, ls: seq<LabelRequest>,
                       defaultScale: real, i: nat)
    requires 0.0 < textPixelScale && 0.0 < defaultScale && PositiveScales(ls) && AllDrawable(a, ls)
    requires i < |ls|
    ensures i == 0 ==>
              DrawLabels(a, textPixelScale, ls, defaultScale).0[0].textPixelScale
                == Max(textPixelScale, Demand(a, ls[0], defaultScale))
    ensures 0 < i ==>
              DrawLabels(a, textPixelScale, ls, defaultScale).0[i].textPixelScale
                == Max(DrawLabels(a, textPixelScale, ls, defaultScale).0[i - 1].textPixelScale,
                       Demand(a, ls[i], defaultScale))
  {
    if i == 0 {
      DrawLabelsHead(a, textPixelScale, ls, defaultScale);
    } else {
      DrawLabelsThread(a, textPixelScale, ls, defaultScale, i);
    }
  }

  /** The labels after the first keep positive scales and stay drawable. */
  lemma RestDrawable(a: GlyphAtlas, ls: seq<LabelRequest>)
    requires PositiveScales(ls) && AllDrawable(a, ls) && 0 < |ls|
    ensures PositiveScales(ls[1..]) && AllDrawable(a, ls[1..])
  {
    assert forall j :: 0 <= j < |ls| - 1 ==> ls[1..][j] == ls[j + 1];
  }

  /** The first label of a run is drawn by `draw_text` from the run's scale,
      at the larger of that scale and its own demand. */
  lemma DrawLabelsHead(a: GlyphAtlas, textPixelScale: real, ls: seq<LabelRequest>, defaultScale: real)
    requires 0.0 < textPixelScale && 0.0 < defaultScale && PositiveScales(ls) && AllDrawable(a, ls)
    requires 0 < |ls|
    ensures DrawLabels(a, textPixelScale, ls, defaultScale).0[0]
              == DrawText(a, textPixelScale, ls[0].text, ls[0].x as real, ls[0].y as real, ls[0].yOffset,
                          ScaleFactor(ls[0].scale, defaultScale))
    ensures DrawLabels(a, textPixelScale, ls, defaultScale).0[0].textPixelScale
              == Max(textPixelScale, Demand(a, ls[0], defaultScale))
  {
    var l := ls[0];
    assert 0.0 < ScaleFactor(l.scale, defaultScale);
    var d := DrawText(a, textPixelScale, l.text, l.x as real, l.y as real, l.yOffset,
                      ScaleFactor(l.scale, defaultScale));
    DrawLabelsUnfold(a, textPixelScale, ls, defaultScale);
    assert DrawLabels(a, textPixelScale, ls, defaultScale).0[0] == d;
  }

  /** Label `i > 0` of a run is label `i - 1` of the run of the rest, from
      the scale the first label leaves. */
  lemma DrawLabelsShift(a: GlyphAtlas, textPixelScale: real, ls: seq<LabelRequest>, defaultScale: real, i: nat)
    requires 0.0 < textPixelScale && 0.0 < defaultScale && PositiveScales(ls) && AllDrawable(a, ls)
    requires 0 < i < |ls|
    ensures 0.0 < DrawLabels(a, textPixelScale, ls, defaultScale).0[0].textPixelScale
    ensures ls[i] == ls[1..][i - 1]
    ensures DrawLabels(a, textPixelScale, ls, defaultScale).0[i]
              == DrawLabels(a, DrawLabels(a, textPixelScale, ls, defaultScale).0[0].textPixelScale,
                            ls[1..], defaultScale).0[i - 1]
  {
    DrawLabelsHead(a, textPixelScale, ls, defaultScale);
    DrawLabelsUnfold(a, textPixelScale, ls, defaultScale);
  }

  /** One label drawn by `draw_text` is placed by its own text and offset. */
  lemma DrawTextPlaced(a: GlyphAtlas, textPixelScale: real, l: LabelRequest, defaultScale: real)
    requires 0.0 < textPixelScale && 0.0 < ScaleFactor(l.scale, defaultScale) && Drawable(a, l.text)
    ensures Placed(a, DrawText(a, textPixelScale, l.text, l.x as real, l.y as real, l.yOffset,
                               ScaleFactor(l.scale, defaultScale)), l)
  {
  }

  /** A non-empty run is its first label's text followed by the run of the
      rest from the scale that label leaves. */
  lemma DrawLabelsUnfold(a: GlyphAtlas, textPixelScale: real, ls: seq<LabelRequest>, defaultScale: real)
    requires 0.0 < textPixelScale && 0.0 < defaultScale && PositiveScales(ls) && AllDrawable(a, ls)
    requires 0 < |ls|
    ensures var d := DrawText(a, textPixelScale, ls[0].text, ls[0].x as real, ls[0].y as real, ls[0].yOffset,
                              ScaleFactor(ls[0].scale, defaultScale));
            DrawLabels(a, textPixelScale, ls, defaultScale).0
              == [d] + DrawLabels(a, d.textPixelScale, ls[1..], defaultScale).0
  {
  }

  /** Once every label's demand is met, drawing the labels again leaves the
      text scale where it is: the session scale settles after one frame
      over an unchanged view. */
  lemma {:induction false} DrawLabelsSettles(a: GlyphAtlas, textPixelScale: real, ls: seq<LabelRequest>, defaultScale: real)
    requires 0.0 < textPixelScale && 0.0 < defaultScale && PositiveScales(ls) && AllDrawable(a, ls)
    requires forall i :: 0 <= i < |ls| ==> Demand(a, ls[i], defaultScale) <= textPixelScale
    ensures DrawLabels(a, textPixelScale, ls, defaultScale).1 == textPixelScale
    decreases |ls|
  {
    if |ls| > 0 {
      var l := ls[0];
      var d := DrawText(a, textPixelScale, l.text, l.x as real, l.y as real, l.yOffset,
                        ScaleFactor(l.scale, defaultScale));
      assert d.textPixelScale == textPixelScale;
      assert forall i :: 1 <= i < |ls| ==> ls[i] == ls[1..][i - 1];
      DrawLabelsSettles(a, textPixelScale, ls[1..], defaultScale);
    }
  }

  /** A frame's output: the drawn labels and the session after them. */
  datatype FrameDraw = FrameDraw(labels: seq<TextDraw>, session: Session)

  /** One call of `draw`: plan the labels, then draw them in order. The
      session scale ends at the largest of its start and every label's
      demand; label `i` is the text of request `i`, centred on its cell and
      at most half its horizontal scale wide. */
  function DrawFrame(a: GlyphAtlas, session: Session, zoom: real, k: Corners, b: BufferView,
                     fmt: FloatFormatters, defaultScale: real): (f: FrameDraw)
    requires zoom > ZoomThreshold ==> WellFormed(b)
    requires 0.0 < session.textPixelScale && 0.0 < defaultScale
    requires AllDrawable(a, Draw(zoom, k, b, fmt))
    ensures zoom <= ZoomThreshold ==> f.labels == [] && f.session == session
    ensures |f.labels| == |Draw(zoom, k, b, fmt)|
    ensures session.textPixelScale <= f.session.textPixelScale
    ensures PositiveScales(Draw(zoom, k, b, fmt))
    ensures forall i :: 0 <= i < |Draw(zoom, k, b, fmt)| ==>
              Demand(a, Draw(zoom, k, b, fmt)[i], defaultScale) <= f.session.textPixelScale
    ensures || f.session.textPixelScale == session.textPixelScale
            || exists i :: 0 <= i < |Draw(zoom, k, b, fmt)| &&
                 f.session.textPixelScale == Demand(a, Draw(zoom, k, b, fmt)[i], defaultScale)
    ensures forall i :: 0 <= i < |f.labels| ==>
              var l := Draw(zoom, k, b, fmt)[i];
              && |f.labels[i].quads| == |l.text|
              && f.labels[i].textPixelScale <= f.session.textPixelScale
              && f.labels[i].penStartX + f.labels[i].penEndX == 2.0 * (l.x as real + 0.5)
              && (0 <= BoxWidth(a, l.text) ==>
                    f.labels[i].penEndX - f.labels[i].penStartX <= ScaleFactor(l.scale, defaultScale) / 2.0)
  {
    var ls := Draw(zoom, k, b, fmt);
    DrawScalesPositive(zoom, k, b, fmt);
    var r := DrawLabels(a, session.textPixelScale, ls, defaultScale);
    FrameDraw(r.0, Session(r.1))
  }

  /** Label `i` of a frame is drawn for request `i` at a scale no smaller
      than the session's starting one, at its cell's row lifted by its
      channel offset, with the glyph run of its text. */
  lemma DrawFrameAt(a: GlyphAtlas, session: Session, zoom: real, k: Corners, b: BufferView,
                    fmt: FloatFormatters, defaultScale: real, i: nat)
    requires zoom > ZoomThreshold ==> WellFormed(b)
    requires 0.0 < session.textPixelScale && 0.0 < defaultScale
    requires AllDrawable(a, Draw(zoom, k, b, fmt))
    requires i < |Draw(zoom, k, b, fmt)|
    ensures session.textPixelScale <= DrawFrame(a, session, zoom, k, b, fmt, defaultScale).labels[i].textPixelScale
    ensures Placed(a, DrawFrame(a, session, zoom, k, b, fmt, defaultScale).labels[i], Draw(zoom, k, b, fmt)[i])
  {
    DrawScalesPositive(zoom, k, b, fmt);
    DrawLabelsAt(a, session.textPixelScale, Draw(zoom, k, b, fmt), defaultScale, i);
  }

  /** Text `i` of a frame is drawn at the larger of the scale text `i - 1`
      left (the session's for the first) and its request's demand. */
  lemma DrawFrameStep(a: GlyphAtlas, session: Session, zoom: real, k: Corners, b: BufferView,
                      fmt: FloatFormatters, defaultScale: real, i: nat)
    requires zoom > ZoomThreshold ==> WellFormed(b)
    requires 0.0 < session.textPixelScale && 0.0 < defaultScale
    requires AllDrawable(a, Draw(zoom, k, b, fmt))
    requires i < |Draw(zoom, k, b, fmt)|
    ensures PositiveScales(Draw(zoom, k, b, fmt))
    ensures var f := DrawFrame(a, session, zoom, k, b, fmt, defaultScale).labels;
            f[i].textPixelScale
              == Max(if i == 0 then session.textPixelScale else f[i - 1].textPixelScale,
                     Demand(a, Draw(zoom, k, b, fmt)[i], defaultScale))
  {
    DrawScalesPositive(zoom, k, b, fmt);
    DrawLabelsStep(a, session.textPixelScale, Draw(zoom, k, b, fmt), defaultScale, i);
  }

  /** Every planned label uses `draw_text`'s default scale or one half. */
  lemma DrawScalesPositive(zoom: real, k: Corners, b: BufferView, fmt: FloatFormatters)
    requires zoom > ZoomThreshold ==> WellFormed(b)
    ensures PositiveScales(Draw(zoom, k, b, fmt))
    ensures forall i :: 0 <= i < |Draw(zoom, k, b, fmt)| ==>
              Draw(zoom, k, b, fmt)[i].scale in {DefaultScale, Scale(0.5)}
  {
    if zoom > ZoomThreshold {
      DrawLabelsInBuffer(zoom, k, b, fmt);
      var ls := Draw(zoom, k, b, fmt);
      forall i | 0 <= i < |ls|
        ensures ls[i].scale in {DefaultScale, Scale(0.5)}
      {
        assert ls[i] in ls;
      }
    }
  }

  /** An atlas holding a glyph for every character of the corrected
      alphabet can draw every label of every frame, as long as the float
      formatters print only what `printf` prints. */
  lemma FrameLabelsDrawable(a: GlyphAtlas, zoom: real, k: Corners, b: BufferView, fmt: FloatFormatters)
    requires zoom > ZoomThreshold ==> WellFormed(b)
    requires PrintfCharset(fmt)
    requires 0 < a.textureWidth && 0 < a.textureHeight
    requires forall i :: 0 <= i < |CorrectedAlphabet| ==> CorrectedAlphabet[i] in a.glyphs
    ensures AllDrawable(a, Draw(zoom, k, b, fmt))
  {
    if zoom > ZoomThreshold {
      DrawLabelsInBuffer(zoom, k, b, fmt);
      var ls := Draw(zoom, k, b, fmt);
      forall i | 0 <= i < |ls|
        ensures Drawable(a, ls[i].text)
      {
        assert ls[i] in ls;
        var l := ls[i];
        LabelInCorrectedAlphabet(Sample(b, l.x, l.y, l.channel), b.channels == 1, fmt);
      }
    }
  }

  /** The atlas built from the corrected alphabet by a rasteriser that
      renders all of it can draw every frame. */
  lemma CorrectedAtlasDrawsEveryFrame(rast: char -> Raster, zoom: real, k: Corners, b: BufferView, fmt: FloatFormatters)
    requires zoom > ZoomThreshold ==> WellFormed(b)
    requires PrintfCharset(fmt)
    requires forall i :: 0 <= i < |CorrectedAlphabet| ==> rast(CorrectedAlphabet[i]).Rendered?
    ensures AllDrawable(GenerateGlyphsTexture(CorrectedAlphabet, rast), Draw(zoom, k, b, fmt))
  {
    var a := GenerateGlyphsTexture(CorrectedAlphabet, rast);
    Pow2Positive(a.textureWidth);
    Pow2Positive(a.textureHeight);
    FrameLabelsDrawable(a, zoom, k, b, fmt);
  }

  lemma Pow2Positive(n: nat)
    requires IsPow2(n)
    ensures 0 < n
  {
  }

  /** The atlas built from the corrected alphabet, by a rasteriser that
      renders all of it, can draw the label of any element. */
  lemma CorrectedAtlasDrawsEveryLabel(rast: char -> Raster, e: Element, singleChannel: bool, fmt: FloatFormatters)
    requires PrintfCharset(fmt)
    requires forall i :: 0 <= i < |CorrectedAlphabet| ==> rast(CorrectedAlphabet[i]).Rendered?
    ensures Drawable(GenerateGlyphsTexture(CorrectedAlphabet, rast), LabelText(e, singleChannel, fmt))
  {
    var a := GenerateGlyphsTexture(CorrectedAlphabet, rast);
    Pow2Positive(a.textureWidth);
    Pow2Positive(a.textureHeight);
    LabelInCorrectedAlphabet(e, singleChannel, fmt);
  }

  /** The atlas built from the alphabet as written cannot draw the
      single-channel label of 1234.5678 (bits 0x449A522B), whose `%.3f`
      text "1234.568" is too long and whose `%.2e` text is "1.23e+03",
      whatever the rasteriser. */
  lemma AsWrittenAtlasMissesFallbackLabel(rast: char -> Raster, fmt: FloatFormatters)
    requires fmt.fixed3(Float32(0x449A_522B)) == "1234.568"
    requires fmt.scientific2(Float32(0x449A_522B)) == "1.23e+03"
    ensures !Drawable(GenerateGlyphsTexture(Alphabet, rast), LabelText(F32(Float32(0x449A_522B)), true, fmt))
  {
    AsWrittenAtlasLacksPlus(rast);
    assert LabelText(F32(Float32(0x449A_522B)), true, fmt)[5] == '+';
  }

  /** The atlas built from the alphabet as written has no glyph for '+',
      which every `%.2e` label contains. */
  lemma AsWrittenAtlasLacksPlus(rast: char -> Raster)
    ensures '+' !in GenerateGlyphsTexture(Alphabet, rast).glyphs
  {
    assert '+' !in Alphabet;
  }

  /** The texture bounds of every quad of a label drawn from the packed
      atlas lie inside [0, 1] across, and also down when no glyph moves the
      vertical cursor. */
  lemma PackedQuadsInsideTexture(text: string, rast: char -> Raster, textPixelScale: real,
                                 caption: string, x: real, y: real, yOffset: real, scale: real, k: nat)
    requires 0.0 < textPixelScale && 0.0 < scale
    requires Drawable(GenerateGlyphsTexture(text, rast), caption) && k < |caption|
    ensures var q := DrawText(GenerateGlyphsTexture(text, rast), textPixelScale, caption, x, y, yOffset, scale).quads[k];
            && 0.0 <= q.texLowerX <= 1.0 && 0.0 <= q.texUpperX < 1.0
            && (HorizontalFont(text, rast) ==> 0.0 <= q.texLowerY <= 1.0 && 0.0 <= q.texUpperY < 1.0)
  {
    var a := GenerateGlyphsTexture(text, rast);
    var d := DrawText(a, textPixelScale, caption, x, y, yOffset, scale);
    QuadAt(a, caption, d.penStartX, d.penStartY, d.textPixelScale, k);
    if HorizontalFont(text, rast) {
      GlyphsInsideTexture(text, rast, caption[k]);
    }
  }
}
