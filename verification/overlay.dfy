/** `draw`: when zoomed in far enough, one label request per channel of
    every visited cell, in row-major order. A request is what `draw` hands
    to `draw_text`: the text, the cell, the vertical offset and, where the
    branch passes one, the horizontal scale. */
module Overlay {
  import opened Format
  import opened Visible

  /** Labels are drawn only when the camera zoom exceeds this. */
  const ZoomThreshold: real := 40.0

  /** The buffer's values, already decoded according to its element type. */
  datatype Data =
    | Float32Data(fs: seq<Float32>)
    | UnsignedByteData(bs: seq<uint8>)
    | ShortData(ss: seq<int16>)
    | UnsignedShortData(us: seq<uint16>)
    | Int32Data(ns: seq<int32>)
    | UnsignedInt32Data(ws: seq<uint32>)

  function Length(d: Data): nat
  {
    match d
    case Float32Data(v) => |v|
    case UnsignedByteData(v) => |v|
    case ShortData(v) => |v|
    case UnsignedShortData(v) => |v|
    case Int32Data(v) => |v|
    case UnsignedInt32Data(v) => |v|
  }

  function ElementAt(d: Data, i: nat): Element
    requires i < Length(d)
  {
    match d
    case Float32Data(v) => F32(v[i])
    case UnsignedByteData(v) => U8(v[i])
    case ShortData(v) => I16(v[i])
    case UnsignedShortData(v) => U16(v[i])
    case Int32Data(v) => I32(v[i])
    case UnsignedInt32Data(v) => U32(v[i])
  }

  /** What `draw` reads from the buffer: size, row stride (`step`, in
      elements), channel count and the values. */
  datatype BufferView = BufferView(width: int, height: int, step: int, channels: int, data: Data)

  /** A buffer with at least one cell whose rows of `step` cells of
      `channels` values each are all present. */
  predicate WellFormed(b: BufferView)
  {
    && 1 <= b.width <= b.step
    && 1 <= b.height
    && 0 <= b.channels
    && b.step * b.height * b.channels <= Length(b.data)
  }

  /** The horizontal scale argument of `draw_text`: the default the
      declaration gives it, or the value a branch passes. */
  datatype HorizontalScale = DefaultScale | Scale(factor: real)

  datatype LabelRequest = LabelRequest(text: string, x: int, y: int, channel: int,
                                       yOffset: real, scale: HorizontalScale)

  /** Labels per visited cell: only the 1- to 4-channel branches draw. */
  function LabelsPerCell(channels: int): nat
  {
    if 1 <= channels <= 4 then channels else 0
  }

  /** Position of channel `c` of cell `(x, y)` in the value sequence. */
  function SampleIndex(b: BufferView, x: int, y: int, c: int): int
  {
    (y * b.step + x) * b.channels + c
  }

  predicate InBuffer(b: BufferView, x: int, y: int)
  {
    0 <= x < b.width && 0 <= y < b.height
  }

  /** Every channel of every cell of the buffer is read in bounds. */
  lemma SampleIndexInBounds(b: BufferView, x: int, y: int, c: int)
    requires WellFormed(b) && InBuffer(b, x, y) && 0 <= c < b.channels
    ensures 0 <= SampleIndex(b, x, y, c) < Length(b.data)
  {
    BlockBound(y, x, b.step, b.height);
    assert b.height * b.step == b.step * b.height;
    BlockBound(y * b.step + x, c, b.channels, b.step * b.height);
  }

  /** The index is computed in a 32-bit `int`. For a buffer of at most
      2^31 values, neither `y * step + x` nor the full index reaches 2^31,
      so the computation does not overflow. */
  lemma SampleIndexFitsInt32(b: BufferView, x: int, y: int, c: int)
    requires WellFormed(b) && InBuffer(b, x, y) && 0 <= c < b.channels
    requires b.step * b.height * b.channels <= 0x8000_0000
    ensures 0 <= y * b.step + x < 0x8000_0000
    ensures 0 <= SampleIndex(b, x, y, c) < 0x8000_0000
  {
    BlockBound(y, x, b.step, b.height);
    assert b.height * b.step == b.step * b.height;
    BlockBound(y * b.step + x, c, b.channels, b.step * b.height);
    MulNonNegative(b.step * b.height, b.channels - 1);
    Distribute(b.channels - 1, 1, b.step * b.height);
    assert (b.channels - 1) * (b.step * b.height) == (b.step * b.height) * (b.channels - 1);
  }

  /** Channel `c` of cell `(x, y)`: the value at `(y * step + x) * channels + c`. */
  function Sample(b: BufferView, x: int, y: int, c: int): Element
    requires WellFormed(b) && InBuffer(b, x, y) && 0 <= c < b.channels
  {
    SampleIndexInBounds(b, x, y, c);
    ElementAt(b.data, SampleIndex(b, x, y, c))
  }

  /** Vertical offset of channel `c`'s label when a cell stacks several. */
  function YOffset(channels: int, c: int): real
    requires 2 <= channels <= 4
  {
    if channels == 2 then (0.5 - c as real) / 3.0
    else if channels == 3 then (1.0 - c as real) / 5.0
    else (1.5 - c as real) / 4.0
  }

  /** Stacked labels go down with the channel index, stay inside the cell,
      and are centred on it as a group. */
  lemma YOffsetsStack(channels: int)
    requires 2 <= channels <= 4
    ensures forall c :: 0 <= c < channels - 1 ==> YOffset(channels, c + 1) < YOffset(channels, c)
    ensures forall c :: 0 <= c < channels ==> -0.5 < YOffset(channels, c) < 0.5
    ensures SumOffsets(channels, channels) == 0.0
  {
    assert SumOffsets(channels, 1) == YOffset(channels, 0);
    assert SumOffsets(channels, 2) == YOffset(channels, 0) + YOffset(channels, 1);
    if channels >= 3 {
      assert SumOffsets(channels, 3) == SumOffsets(channels, 2) + YOffset(channels, 2);
    }
  }

  function SumOffsets(channels: int, n: int): real
    requires 2 <= channels <= 4
    decreases n
  {
    if n <= 0 then 0.0 else SumOffsets(channels, n - 1) + YOffset(channels, n - 1)
  }

  /** The request for channel `c` of cell `(x, y)`. */
  function ChannelLabel(b: BufferView, fmt: FloatFormatters, x: int, y: int, c: int): (l: LabelRequest)
    requires WellFormed(b) && InBuffer(b, x, y) && 0 <= c < LabelsPerCell(b.channels)
    ensures l.x == x && l.y == y && l.channel == c
    ensures l.text == LabelText(Sample(b, x, y, c), b.channels == 1, fmt)
    ensures b.channels == 1 ==> l.yOffset == 0.0 && l.scale == DefaultScale
    ensures b.channels > 1 ==> l.yOffset == YOffset(b.channels, c)
    ensures b.channels > 1 && b.data.UnsignedByteData? ==> l.scale == Scale(0.5)
    ensures b.channels > 1 && !b.data.UnsignedByteData? ==> l.scale == DefaultScale
  {
    var e := Sample(b, x, y, c);
    if b.channels == 1 then
      LabelRequest(LabelText(e, true, fmt), x, y, 0, 0.0, DefaultScale)
    else
      var scale := if b.data.UnsignedByteData? then Scale(0.5) else DefaultScale;
      LabelRequest(LabelText(e, false, fmt), x, y, c, YOffset(b.channels, c), scale)
  }

  /** The requests of one cell, channel by channel. */
  function CellLabels(b: BufferView, fmt: FloatFormatters, x: int, y: int): (ls: seq<LabelRequest>)
    requires WellFormed(b) && InBuffer(b, x, y)
    ensures && |ls| == LabelsPerCell(b.channels)
            && forall c :: 0 <= c < |ls| ==> ls[c] == ChannelLabel(b, fmt, x, y, c)
  {
    seq(LabelsPerCell(b.channels),
        c requires 0 <= c < LabelsPerCell(b.channels) => ChannelLabel(b, fmt, x, y, c))
  }

  /** The blocks `f(lo), ..., f(hi - 1)` one after another: what a loop
      over `[lo, hi)` emits when step `k` emits `f(k)`. */
  function Concat<T>(f: int -> seq<T>, lo: int, hi: int): seq<T>
    decreases hi - lo
  {
    if hi <= lo then [] else Concat(f, lo, hi - 1) + f(hi - 1)
  }

  /** Row `y` of a nested loop over the columns `[lowerX, upperX)`. */
  function Row<T>(cell: int -> int -> seq<T>, lowerX: int, upperX: int): int -> seq<T>
  {
    y => Concat(cell(y), lowerX, upperX)
  }

  /** A row-major nested loop over the range: rows outside, columns inside. */
  function Grid<T>(cell: int -> int -> seq<T>, r: CellRange): seq<T>
  {
    Concat(Row(cell, r.lowerX, r.upperX), r.lowerY, r.upperY)
  }

  /** The labels cell `(x, y)` emits. Only cells inside the buffer are ever
      visited; outside it the block is empty so that the block is a total
      function of the cell. */
  function Cells(b: BufferView, fmt: FloatFormatters): int -> int -> seq<LabelRequest>
    requires WellFormed(b)
  {
    y => x => if InBuffer(b, x, y) then CellLabels(b, fmt, x, y) else []
  }

  /** One frame's label requests: the nested loop of `draw` over the visible
      range, when zoomed in past the threshold. Below it the buffer is never
      read. */
  function Draw(zoom: real, k: Corners, b: BufferView, fmt: FloatFormatters): (labels: seq<LabelRequest>)
    requires zoom > ZoomThreshold ==> WellFormed(b)
    ensures zoom <= ZoomThreshold ==> labels == []
  {
    if zoom > ZoomThreshold then Grid(Cells(b, fmt), VisibleRange(k, b.width, b.height)) else []
  }

  /** Number of indices in `[lo, hi)`. */
  function Span(lo: int, hi: int): nat
  {
    if lo < hi then hi - lo else 0
  }

  /** Position of entry `c` of cell `(x, y)` in the row-major output, with
      `perCell` entries per cell. */
  function LabelIndex(r: CellRange, perCell: nat, x: int, y: int, c: int): int
  {
    (y - r.lowerY) * (Span(r.lowerX, r.upperX) * perCell) + (x - r.lowerX) * perCell + c
  }

  lemma Distribute(a: int, b: int, n: int)
    ensures (a + b) * n == a * n + b * n
  {
  }

  lemma MulNonNegative(a: int, n: int)
    requires 0 <= a && 0 <= n
    ensures 0 <= a * n
  {
  }

  /** Entry `c` of block `q`, in blocks of `n` entries, lies before the end
      of that block, which lies inside `m` blocks. */
  lemma BlockBound(q: int, c: int, n: int, m: int)
    requires 0 <= q < m && 0 <= c < n
    ensures 0 <= q * n + c && q * n + n <= m * n
  {
    Distribute(q, m - q, n);
    MulNonNegative(q, n);
    MulNonNegative(m - q - 1, n);
    Distribute(m - q - 1, 1, n);
  }

  /** Where entry `c` of block `q` lands when one block of `n` entries is
      appended to `q0` blocks. */
  lemma AppendedBlockAt<T>(front: seq<T>, back: seq<T>, n: int, q0: int, q: int, c: int)
    requires 0 <= q <= q0 && 0 <= c < n && |front| == q0 * n && |back| == n
    ensures 0 <= q * n + c < |front + back|
    ensures q < q0 ==> q * n + c < |front| && (front + back)[q * n + c] == front[q * n + c]
    ensures q == q0 ==> q * n + c == |front| + c && (front + back)[q * n + c] == back[c]
  {
    BlockBound(q, c, n, q0 + 1);
    Distribute(q0, 1, n);
    if q < q0 {
      BlockBound(q, c, n, q0);
    }
  }

  /** Blocks of `m` entries each make `m` entries per step of the loop. */
  lemma {:induction false} ConcatLength<T>(f: int -> seq<T>, lo: int, hi: int, m: nat)
    requires forall k :: lo <= k < hi ==> |f(k)| == m
    ensures |Concat(f, lo, hi)| == Span(lo, hi) * m
    decreases hi - lo
  {
    if lo < hi {
      ConcatLength(f, lo, hi - 1, m);
      Distribute(hi - 1 - lo, 1, m);
    }
  }

  /** Entry `j` of block `k` sits at `(k - lo) * m + j`. */
  lemma {:induction false} ConcatAt<T>(f: int -> seq<T>, lo: int, hi: int, m: nat, k: int, j: int)
    requires forall k :: lo <= k < hi ==> |f(k)| == m
    requires lo <= k < hi && 0 <= j < m
    ensures 0 <= (k - lo) * m + j < |Concat(f, lo, hi)|
    ensures Concat(f, lo, hi)[(k - lo) * m + j] == f(k)[j]
    decreases hi - lo
  {
    ConcatLength(f, lo, hi - 1, m);
    assert Span(lo, hi - 1) == hi - 1 - lo;
    AppendedBlockAt(Concat(f, lo, hi - 1), f(hi - 1), m, hi - 1 - lo, k - lo, j);
    if k < hi - 1 {
      ConcatAt(f, lo, hi - 1, m, k, j);
    }
  }

  /** Whatever the loop emits, some step emitted. */
  lemma {:induction false} ConcatMember<T>(f: int -> seq<T>, lo: int, hi: int, v: T)
    requires v in Concat(f, lo, hi)
    ensures exists k :: lo <= k < hi && v in f(k)
    decreases hi - lo
  {
    if v !in f(hi - 1) {
      ConcatMember(f, lo, hi - 1, v);
    }
  }

  /** Every cell of the range emits `n` entries. */
  predicate Uniform<T>(cell: int -> int -> seq<T>, r: CellRange, n: nat)
  {
    forall y, x :: r.lowerY <= y < r.upperY && r.lowerX <= x < r.upperX ==> |cell(y)(x)| == n
  }

  lemma RowIndexBound(r: CellRange, n: nat, x: int, c: int)
    requires r.lowerX <= x < r.upperX && 0 <= c < n
    ensures 0 <= (x - r.lowerX) * n + c < Span(r.lowerX, r.upperX) * n
  {
    BlockBound(x - r.lowerX, c, n, r.upperX - r.lowerX);
  }

  lemma LabelIndexSplit(r: CellRange, n: nat, x: int, y: int, c: int)
    ensures LabelIndex(r, n, x, y, c) == (y - r.lowerY) * (Span(r.lowerX, r.upperX) * n) + ((x - r.lowerX) * n + c)
  {
  }

  lemma RowsUniform<T>(cell: int -> int -> seq<T>, r: CellRange, n: nat)
    requires Uniform(cell, r, n)
    ensures forall y :: r.lowerY <= y < r.upperY ==> |Row(cell, r.lowerX, r.upperX)(y)| == Span(r.lowerX, r.upperX) * n
  {
    forall y | r.lowerY <= y < r.upperY
      ensures |Row(cell, r.lowerX, r.upperX)(y)| == Span(r.lowerX, r.upperX) * n
    {
      ConcatLength(cell(y), r.lowerX, r.upperX, n);
    }
  }

  /** A nested loop whose cells emit `n` entries each emits `n` per cell. */
  lemma GridLength<T>(cell: int -> int -> seq<T>, r: CellRange, n: nat)
    requires Uniform(cell, r, n)
    ensures |Grid(cell, r)| == Span(r.lowerY, r.upperY) * (Span(r.lowerX, r.upperX) * n)
  {
    RowsUniform(cell, r, n);
    ConcatLength(Row(cell, r.lowerX, r.upperX), r.lowerY, r.upperY, Span(r.lowerX, r.upperX) * n);
  }

  /** Entry `c` of cell `(xx, yy)` sits at its row-major position. */
  lemma GridAt<T>(cell: int -> int -> seq<T>, r: CellRange, n: nat, xx: int, yy: int, c: int)
    requires Uniform(cell, r, n)
    requires r.lowerX <= xx < r.upperX && r.lowerY <= yy < r.upperY && 0 <= c < n
    ensures 0 <= LabelIndex(r, n, xx, yy, c) < |Grid(cell, r)|
    ensures Grid(cell, r)[LabelIndex(r, n, xx, yy, c)] == cell(yy)(xx)[c]
  {
    RowsUniform(cell, r, n);
    RowIndexBound(r, n, xx, c);
    ConcatAt(cell(yy), r.lowerX, r.upperX, n, xx, c);
    ConcatAt(Row(cell, r.lowerX, r.upperX), r.lowerY, r.upperY, Span(r.lowerX, r.upperX) * n, yy, (xx - r.lowerX) * n + c);
    LabelIndexSplit(r, n, xx, yy, c);
  }

  /** Whatever a nested loop emits, some cell of the range emitted. */
  lemma GridMember<T>(cell: int -> int -> seq<T>, r: CellRange, v: T)
    requires v in Grid(cell, r)
    ensures exists y, x :: r.lowerY <= y < r.upperY && r.lowerX <= x < r.upperX && v in cell(y)(x)
  {
    ConcatMember(Row(cell, r.lowerX, r.upperX), r.lowerY, r.upperY, v);
    var y :| r.lowerY <= y < r.upperY && v in Row(cell, r.lowerX, r.upperX)(y);
    ConcatMember(cell(y), r.lowerX, r.upperX, v);
  }

  predicate RangeInBuffer(b: BufferView, r: CellRange)
  {
    0 <= r.lowerX && r.upperX <= b.width && 0 <= r.lowerY && r.upperY <= b.height
  }

  /** Every cell of a range inside the buffer emits one label per channel. */
  lemma CellsUniform(b: BufferView, fmt: FloatFormatters, r: CellRange)
    requires WellFormed(b) && RangeInBuffer(b, r)
    ensures Uniform(Cells(b, fmt), r, LabelsPerCell(b.channels))
  {
    forall y, x | r.lowerY <= y < r.upperY && r.lowerX <= x < r.upperX
      ensures |Cells(b, fmt)(y)(x)| == LabelsPerCell(b.channels)
    {
      assert Cells(b, fmt)(y)(x) == CellLabels(b, fmt, x, y);
    }
  }

  /** Above the zoom threshold there is exactly one request per channel of
      every visited cell, at its row-major position; below it there is none. */
  lemma DrawOnePerChannel(zoom: real, k: Corners, b: BufferView, fmt: FloatFormatters)
    requires WellFormed(b)
    ensures var labels := Draw(zoom, k, b, fmt);
            var r := VisibleRange(k, b.width, b.height);
            var n := LabelsPerCell(b.channels);
            && |labels| == (if zoom > ZoomThreshold
                            then Span(r.lowerY, r.upperY) * (Span(r.lowerX, r.upperX) * n) else 0)
            && (zoom > ZoomThreshold ==>
                  forall x, y, c :: r.lowerX <= x < r.upperX && r.lowerY <= y < r.upperY && 0 <= c < n ==>
                    var i := LabelIndex(r, n, x, y, c);
                    0 <= i < |labels| && labels[i] == ChannelLabel(b, fmt, x, y, c))
  {
    if zoom > ZoomThreshold {
      var r := VisibleRange(k, b.width, b.height);
      var n := LabelsPerCell(b.channels);
      CellsUniform(b, fmt, r);
      GridLength(Cells(b, fmt), r, n);
      forall x, y, c | r.lowerX <= x < r.upperX && r.lowerY <= y < r.upperY && 0 <= c < n
        ensures 0 <= LabelIndex(r, n, x, y, c) < |Grid(Cells(b, fmt), r)|
        ensures Grid(Cells(b, fmt), r)[LabelIndex(r, n, x, y, c)] == ChannelLabel(b, fmt, x, y, c)
      {
        DrawLabelAt(b, fmt, r, x, y, c);
      }
    }
  }

  /** Channel `c` of cell `(x, y)` of a range inside the buffer is labelled
      at its row-major position. */
  lemma DrawLabelAt(b: BufferView, fmt: FloatFormatters, r: CellRange, x: int, y: int, c: int)
    requires WellFormed(b) && RangeInBuffer(b, r)
    requires r.lowerX <= x < r.upperX && r.lowerY <= y < r.upperY && 0 <= c < LabelsPerCell(b.channels)
    ensures 0 <= LabelIndex(r, LabelsPerCell(b.channels), x, y, c) < |Grid(Cells(b, fmt), r)|
    ensures Grid(Cells(b, fmt), r)[LabelIndex(r, LabelsPerCell(b.channels), x, y, c)] == ChannelLabel(b, fmt, x, y, c)
  {
    CellsUniform(b, fmt, r);
    GridAt(Cells(b, fmt), r, LabelsPerCell(b.channels), x, y, c);
    assert Cells(b, fmt)(y)(x) == CellLabels(b, fmt, x, y);
  }

  /** Every request is for a cell inside the buffer and for one of its
      channels, and is that channel's label. */
  lemma DrawLabelsInBuffer(zoom: real, k: Corners, b: BufferView, fmt: FloatFormatters)
    requires WellFormed(b)
    ensures forall l :: l in Draw(zoom, k, b, fmt) ==>
              && InBuffer(b, l.x, l.y) && 0 <= l.channel < LabelsPerCell(b.channels)
              && l == ChannelLabel(b, fmt, l.x, l.y, l.channel)
  {
    if zoom > ZoomThreshold {
      var r := VisibleRange(k, b.width, b.height);
      forall l | l in Draw(zoom, k, b, fmt)
        ensures InBuffer(b, l.x, l.y) && 0 <= l.channel < LabelsPerCell(b.channels)
        ensures l == ChannelLabel(b, fmt, l.x, l.y, l.channel)
      {
        GridMember(Cells(b, fmt), r, l);
        var y, x :| r.lowerY <= y < r.upperY && r.lowerX <= x < r.upperX && l in Cells(b, fmt)(y)(x);
        var cell := CellLabels(b, fmt, x, y);
        assert Cells(b, fmt)(y)(x) == cell;
        var c :| 0 <= c < |cell| && cell[c] == l;
      }
    }
  }

  /** Above the zoom threshold every channel of every buffer cell between
      the view corners is labelled. */
  lemma DrawCoversView(zoom: real, k: Corners, b: BufferView, fmt: FloatFormatters, x: int, y: int, c: int)
    requires WellFormed(b) && zoom > ZoomThreshold
    requires InBuffer(b, x, y) && k.truncLeft <= x <= k.ceilRight && k.truncTop <= y <= k.ceilBottom
    requires 0 <= c < LabelsPerCell(b.channels)
    ensures ChannelLabel(b, fmt, x, y, c) in Draw(zoom, k, b, fmt)
  {
    var r := VisibleRange(k, b.width, b.height);
    VisitedColumns(k, b.width, b.height, x);
    VisitedRows(k, b.width, b.height, y);
    DrawLabelAt(b, fmt, r, x, y, c);
  }
}
