# Per-pixel value overlay of OpenImageDebugger

This project models `BufferValues` in `src/buffer_values.cpp`. When the
viewer is zoomed in far enough, that component prints the numeric value of
every visible buffer channel on top of its pixel. The model has four parts.

- **Glyph atlas** (module `Atlas`, `generate_glyphs_texture`). A first pass
  over a fixed character string records each glyph's metrics and the packed
  box size. Each texture dimension is then the smallest power of two that
  covers the box. A second pass places the bitmaps one after another, each
  with a two-texel border. The rasteriser (FreeType) is a parameter: a total
  map from a character to either a rendered bitmap or a skip.
- **Label plan** (modules `Visible` and `Overlay`, `draw`). The view
  corners are truncated, ceiled and clamped to the buffer. Each visited cell
  yields one label per channel for 1 to 4 channels. Every label carries its
  text, its cell, its vertical offset and its horizontal scale.
- **Label text** (module `Format`). Integer elements use `%d`, and every
  integer type except `uint8` is first narrowed to `short`. A
  single-channel float uses `%.3f`, or `%.2e` when the `%.3f` text is longer
  than seven characters. A float in a multi-channel buffer uses `%.4f`.
- **Text layout and the session scale** (modules `Layout` and `Frame`,
  `draw_text`). The label box comes from the glyph advances and the bitmap
  heights. The shared `text_pixel_scale` only grows, and just enough for
  the label to fit half its horizontal scale. Each glyph becomes a quad
  with screen and texture coordinates. A frame runs the labels in order and
  threads the scale from one to the next.

Arithmetic is over `int` and `real`. There is no float rounding.

## Model

| member | source | states |
|---|---|---|
| Atlas.FixedToPixels | src/buffer_values.cpp:61-62 | `>> 6` on a 26.6 fixed-point advance gives the whole pixel count rounded down, also for negative advances |
| Atlas.GrowToCover | src/buffer_values.cpp:71-73 | doubling from a power of two ends at a power of two that covers the box, and stops at the first one that does |
| Atlas.AtlasDimensionIsSmallest | src/buffer_values.cpp:71-73 | the texture dimension is no larger than any power of two that covers the packed box |
| Atlas.GlyphTableEntries | src/buffer_values.cpp:58-95 | a character has an entry exactly when it occurs in the string and the rasteriser renders it; a repeated character keeps the metrics and offset of its last occurrence |
| Atlas.PackedWidthMonotone | src/buffer_values.cpp:67 | the packed width of a prefix never exceeds that of a longer prefix |
| Atlas.PackedSpansDisjoint | src/buffer_values.cpp:94-97 | a rendered glyph's bitmap plus both borders ends at or before the horizontal offset of every later glyph, so placed bitmaps never overlap |
| Atlas.PackedSpanInside | src/buffer_values.cpp:67-97 | every placed bitmap starts at least one border in and ends at least one border before the packed width of the first pass |
| Atlas.VerticalCursorStaysZero | src/buffer_values.cpp:98 | with no vertical advances the vertical cursor of the second pass stays at zero |
| Atlas.PackedHeightCovers | src/buffer_values.cpp:68 | the packed height is at least every rendered bitmap's rows plus two borders |
| Atlas.PackedRowInside | src/buffer_values.cpp:68-98 | with no vertical advances each glyph sits one border down and ends within the packed height |
| Atlas.VerticalAdvanceCanLeaveAtlas | src/buffer_values.cpp:98 | with a font that advances downwards, a glyph can be placed below the bottom of the texture |
| Atlas.GenerateGlyphsTexture | src/buffer_values.cpp:46-107 | the packed box is the first pass's sum of bordered widths and its tallest bordered bitmap; texture dimensions are the smallest powers of two that cover that box; the glyph table holds exactly the rendered characters of the string, each with its last occurrence's metrics; every bitmap lies horizontally inside the packed box, and its rows plus both borders fit its height |
| Atlas.GlyphsInsideTexture | src/buffer_values.cpp:86-98 | with no vertical advances every stored bitmap, borders included, lies inside the texture in both directions |
| Format.NatToDecimalRoundTrip | src/buffer_values.cpp:145 | the decimal digits of a natural number have no leading zero and read back to the number |
| Format.IntToDecimalRoundTrip | src/buffer_values.cpp:145-161 | the `%d` text of any integer is well formed (optional minus, then digits with no leading zero) and parses back to the integer |
| Format.ToShort | src/buffer_values.cpp:152-160 | storing into a `short` keeps the value modulo 2^16 and leaves every `short` value unchanged |
| Format.ToShortUnique | src/buffer_values.cpp:152-160 | the narrowed value is the only `short` congruent to the input modulo 2^16 |
| Format.PrintedInteger | src/buffer_values.cpp:145-161 | a `uint8` is printed as is; every other integer type is printed as a `short` congruent to it modulo 2^16; an `unsigned short` keeps its value exactly when it is below 2^15 |
| Format.IntToDecimalShape | src/buffer_values.cpp:145-161 | `%d` text uses only digits and the minus sign; three characters at most below 1000 and six at most for a `short` |
| Format.IntegerLabel | src/buffer_values.cpp:145-161 | an integer label parses back to the printed value, uses digits and minus only, and is 1 to 6 characters long (at most 3 for `uint8`) |
| Format.SingleChannelFloatLabel | src/buffer_values.cpp:140-142 | the label is the `%.3f` text when that is at most seven characters, and otherwise the `%.2e` text |
| Format.LabelText | src/buffer_values.cpp:137-262 | a single-channel float follows the fallback rule, a multi-channel float uses `%.4f`, and an integer uses its `%d` label |
| Format.IntegerLabelInAlphabet | src/buffer_values.cpp:47 | every character of an integer label has a place in the atlas string |
| Format.LabelInCorrectedAlphabet | src/buffer_values.cpp:47 | once '+' is added to the atlas string, every label of every element type is drawn from it |
| Format.WrittenTexts | src/buffer_values.cpp:137-262 | the texts `sprintf` writes into the label buffer for one value, in order: the last is the label drawn, and a single-channel float writes its `%.3f` text first, even when it is then replaced |
| Format.SingleChannelFixedOverflows | src/buffer_values.cpp:133-142 | for 1e30 the 35-character `%.3f` text overruns the 30-byte label buffer, although the label finally drawn fits |
| Format.MultiChannelFixedOverflows | src/buffer_values.cpp:168-170 | for 1e24 the 30-character `%.4f` text of a multi-channel float leaves no room for its NUL in the 30-byte label buffer |
| Format.WritesFitCorrectedBuffer | src/buffer_values.cpp:133 | with a buffer of 46 bytes, every text written for every element type and channel layout fits, given the C library's float widths |
| Format.ScientificFallbackLeavesAlphabet | src/buffer_values.cpp:140-142 | the value 1234.5678 falls back to "1.23e+03", whose '+' is not in the atlas string |
| Visible.Clamp | src/buffer_values.cpp:127-131 | the clamped value lies within the bounds: it is the lower bound below them, the upper bound above them, and the input itself otherwise |
| Visible.VisibleRange | src/buffer_values.cpp:127-131 | the lower bounds are cells of the buffer and the upper bounds lie in 1..size, so every visited cell is in the buffer |
| Visible.VisitedColumns | src/buffer_values.cpp:127-128 | a column is visited exactly when it is in the buffer and between the view corners, or it is the edge column the clamp keeps when the view lies outside the buffer |
| Visible.VisitedRows | src/buffer_values.cpp:130-131 | the same as for columns, for rows |
| Overlay.SampleIndexInBounds | src/buffer_values.cpp:136 | every channel of every cell of a well-formed buffer is read at an index inside the data |
| Overlay.SampleIndexFitsInt32 | src/buffer_values.cpp:136 | for a buffer of at most 2^31 values, `y * step + x` and the full index both stay below 2^31, so the 32-bit `int` computation does not overflow |
| Overlay.YOffsetsStack | src/buffer_values.cpp:165-233 | stacked channel labels go down with the channel index, stay within half a cell of the centre, and are centred as a group (2, 3 and 4 channels) |
| Overlay.ChannelLabel | src/buffer_values.cpp:137-264 | a label carries its cell, its channel and that channel's text; a single-channel label has no offset and the default scale; a multi-channel label has its channel's offset and scale one half exactly for `uint8` data |
| Overlay.CellLabels | src/buffer_values.cpp:137-264 | a cell yields one label per channel for 1 to 4 channels and none otherwise, in channel order |
| Overlay.Draw | src/buffer_values.cpp:112 | at zoom 40 or below nothing is drawn, and the buffer need not be well formed there because it is never read |
| Overlay.GridAt | src/buffer_values.cpp:134-135 | the row-major nested loop emits cell (x, y)'s c-th item at position (y - lowerY) * rowLength + (x - lowerX) * n + c |
| Overlay.DrawOnePerChannel | src/buffer_values.cpp:134-264 | above the zoom threshold there is exactly one label per channel of every visited cell, each at its row-major position |
| Overlay.DrawLabelsInBuffer | src/buffer_values.cpp:134-136 | every label is for a cell inside the buffer and for one of its channels, and is that channel's label |
| Overlay.DrawCoversView | src/buffer_values.cpp:127-135 | above the zoom threshold every channel of every buffer cell between the view corners is labelled |
| Layout.BoxHeight | src/buffer_values.cpp:305-309 | the box height is the tallest bitmap of the label, or 0 for an empty label |
| Layout.TexBounds | src/buffer_values.cpp:327-330 | the upper texture coordinate stops one texel short of the bitmap's far edge |
| Layout.GrownScale | src/buffer_values.cpp:311 | the session scale never shrinks, grows only to the label's demand, and then fits the label in half its horizontal scale |
| Layout.DrawText | src/buffer_values.cpp:304-343 | the scale grows as far as the label demands and no further; the label is centred on the cell, at most half its horizontal scale wide, and lowered by half its box height; its quads are the glyph run from the pen start |
| Layout.GlyphRunAt | src/buffer_values.cpp:318-343 | the k-th quad is drawn with the pen moved by the scaled advances of the k glyphs before it |
| Layout.QuadAt | src/buffer_values.cpp:318-330 | each quad's corner is the pen plus the scaled bearing, and its size is the bitmap's scaled; for a glyph inside the atlas, the lower texture bounds lie in [0, 1] and the upper ones below 1, and the upper ones are at least 0 when the glyph starts at least one texel in, as a zero-size bitmap at offset 0 would not |
| Frame.DrawLabels | src/buffer_values.cpp:311-316 | over a frame the scale ends at the largest of its start and every label's demand; every label's pen interval is centred horizontally on its cell and fits half its horizontal scale; each label's pen start, quads and scale are stated by `Frame.DrawLabelsAt`, `Frame.DrawLabelsThread` and `Frame.DrawLabelsStep` |
| Frame.DrawLabelsAt | src/buffer_values.cpp:305-343 | label i of a run is drawn at a scale no smaller than the run's starting one; its pen starts half its box width over that scale left of its cell's centre, and half the box height over that scale below the row's centre minus its channel offset; its quads are the glyph run of its own text from that pen |
| Frame.DrawLabelsThread | src/buffer_values.cpp:270-343 | every label after the first is `draw_text` of its own request from the scale the label before it left, so the one text scale is threaded through the labels in order |
| Frame.DrawLabelsStep | src/buffer_values.cpp:311 | label i of a run is drawn at the larger of the scale label i-1 left (the run's start for the first label) and its own demand |
| Frame.DrawLabelsSettles | src/buffer_values.cpp:311 | once every demand is met, drawing the same labels again leaves the scale unchanged |
| Frame.DrawFrame | src/buffer_values.cpp:109-268 | text i of a frame has one quad per character of planned request i, has a pen interval centred horizontally on that request's cell and at most half its horizontal scale wide; the session scale ends at the largest of its start and every request's demand, and stays unchanged at zoom 40 or below; the pen start, quads and scale of each text are stated by `Frame.DrawFrameAt` and `Frame.DrawFrameStep` |
| Frame.DrawFrameAt | src/buffer_values.cpp:109-343 | text i of a frame is drawn for planned request i at a scale no smaller than the session's starting one, with its pen half its box width left of the request's cell centre and at the request's row lifted by its channel offset, and with the glyph run of its text |
| Frame.DrawFrameStep | src/buffer_values.cpp:109-311 | text i of a frame is drawn at the larger of the scale text i-1 left (the session's for the first) and its request's demand |
| Frame.DrawScalesPositive | src/buffer_values.cpp:164-264 | every label uses the default horizontal scale or one half |
| Frame.FrameLabelsDrawable | src/buffer_values.cpp:47 | an atlas that holds every character of the corrected string can draw every label of every frame |
| Frame.CorrectedAtlasDrawsEveryFrame | src/buffer_values.cpp:46-107 | the atlas built from the corrected string, by a rasteriser that renders all of it, can draw every frame |
| Frame.CorrectedAtlasDrawsEveryLabel | src/buffer_values.cpp:46-47 | the atlas built from the corrected string has a glyph for every character of every element's label |
| Frame.AsWrittenAtlasMissesFallbackLabel | src/buffer_values.cpp:140-142 | when `%.3f` prints 1234.5678 as "1234.568" and `%.2e` as "1.23e+03", the atlas built from the string as written cannot draw its single-channel label, whatever the rasteriser |
| Frame.AsWrittenAtlasLacksPlus | src/buffer_values.cpp:47 | the atlas built from the string as written has no glyph for '+' |
| Frame.PackedQuadsInsideTexture | src/buffer_values.cpp:327-330 | for a label drawn from the packed atlas, the lower and upper texture coordinates across lie in [0, 1], and so do those down when no glyph advances vertically |

## Left out

- FreeType: glyph rendering is the parameter `rast`. The same function is used for both passes, so a character skipped in one pass is skipped in the other.
- OpenGL: every texture upload, mipmap, sampler and draw call, and the quad's vertex layout beyond its corner, size and texture bounds.
- The inverse view-projection matrix (lines 121-125): the truncated and ceiled view corners are inputs.
- The camera and buffer component lookup and the contrast and tile-coordinate uniforms, which only feed the shader.
- `sprintf` itself: the `%.3f`, `%.4f` and `%.2e` renderings of a float are uninterpreted functions. Two assumptions constrain them where lemmas need it: `PrintfCharset`, the characters glibc prints for them, and `PrintfWidths`, their longest lengths. `%d` is modelled in full.
- Format.LabelText: the label is an unbounded string. The 30-byte `pix_label` buffer of line 133 is modelled on its own by `Format.WrittenTexts` and `Format.WritesFit`. What the source does after an overrun is undefined and is not modelled.
- The byte buffer and `reinterpret_cast`: the data comes as a sequence of typed values, and a float is kept as its bit pattern.
- Single-precision rounding: the atlas sizes are ints and the layout is over reals. This includes the float compares in the power-of-two loop and `1.0/text_pixel_scale`.
- `draw_text`'s default `scale` argument: the header that declares it is not part of this model, so the default is a positive parameter.
- `src/system/process/process.h` is not part of this model. It does not take part in drawing values.
- Overlay.SampleIndex: the index is an unbounded integer. The source's `int pos` of line 136 overflows once `(y * step + x) * channels` reaches 2^31, which is undefined behaviour. `Overlay.SampleIndexFitsInt32` shows this cannot happen for a buffer of at most 2^31 values, and larger buffers are not modelled faithfully.
- Layout.DrawText: it requires every character of the label to have a glyph. The source accepts any text and reads the 256-entry metric tables (lines 307-308 and 319-329) for characters the atlas never filled, such as '+'. What it then draws depends on how the header initialises those tables. The header is not part of this model.
- Frame.DrawLabels: it requires every label to be drawable, for the same reason as `Layout.DrawText`.
- Frame.DrawFrame: it requires every planned label to be drawable, for the same reason as `Layout.DrawText`. `Frame.CorrectedAtlasDrawsEveryFrame` shows that the corrected atlas meets this requirement.
- Overlay.Cells: it yields no labels outside the buffer. This only makes the cell function total, since `draw` never visits such a cell.
- Visible.VisibleRange: it requires a buffer with at least one row and one column, because `std::clamp` requires ordered bounds.
- Atlas.GlyphsInsideTexture: it is stated only for fonts with no vertical advance. Line 98 moves the vertical cursor by the glyph's vertical advance, and `Atlas.VerticalAdvanceCanLeaveAtlas` shows a glyph below the texture when that advance is not zero. Horizontal fonts have zero vertical advance, so this is not listed as a finding.
- Frame.PackedQuadsInsideTexture: the vertical bound needs the same no-vertical-advance condition, for the same reason.

## Findings

| source | as written | input that shows it | evidently intended | confidence | as-written member | corrected member |
|---|---|---|---|---|---|---|
| src/buffer_values.cpp:47 | the atlas string `"0123456789., -enaninf"` has no '+', but `%.2e` at line 142 always prints an exponent sign | the single-channel float 1234.5678f (bits 0x449A522B): `%.3f` gives "1234.568" (8 characters), so the label falls back to "1.23e+03", and `draw_text` looks up an atlas entry that was never filled for '+' | the atlas string also holds '+', so every label it can produce has glyphs | not executed | Format.ScientificFallbackLeavesAlphabet, Frame.AsWrittenAtlasMissesFallbackLabel | Atlas.CorrectedAlphabet, Frame.CorrectedAtlasDrawsEveryLabel, Frame.CorrectedAtlasDrawsEveryFrame |
| src/buffer_values.cpp:133 | labels are formatted with an unbounded `sprintf` into `char pix_label[30]`; the single-channel `%.3f` text is written before its length is measured (lines 140-141), and the multi-channel `%.4f` text has no length test at all (lines 169-170, 202-203, 235-236) | the single-channel float 1e30f (bits 0x7149F2CA): `%.3f` gives "1000000015047466219876688855040.000", 35 characters. The multi-channel float 1e24f (bits 0x6753C21C): `%.4f` gives "1000000013848427855085568.0000", 30 characters plus the NUL | a label buffer that holds the longest text any branch writes: 39 integer digits of the largest float, a sign, the point, four decimals and the NUL, so 46 bytes | not executed | Format.SingleChannelFixedOverflows, Format.MultiChannelFixedOverflows | Format.CorrectedLabelBufferSize, Format.WritesFitCorrectedBuffer |
