/** The rectangle of buffer cells `draw` visits: the truncated top-left and
    ceiled bottom-right view corners, clamped to the buffer, with the upper
    bounds one past the bottom-right cell. The inverse view-projection that
    yields the corners is not modelled; the corners are inputs. */
module Visible {

  /** Half-open cell bounds `[lowerX, upperX) x [lowerY, upperY)`. */
  datatype CellRange = CellRange(lowerX: int, upperX: int, lowerY: int, upperY: int)

  /** The view corners after `truncf` (top-left) and `ceilf` (bottom-right). */
  datatype Corners = Corners(truncLeft: int, truncTop: int, ceilRight: int, ceilBottom: int)

  /** `std::clamp`, whose bounds must be ordered. */
  function Clamp(v: int, lo: int, hi: int): (r: int)
    requires lo <= hi
    ensures lo <= r <= hi
    ensures lo <= v <= hi ==> r == v
    ensures v < lo ==> r == lo
    ensures hi < v ==> r == hi
  {
    if v < lo then lo else if hi < v then hi else v
  }

  /** The visited range; the buffer must have at least one row and column. */
  function VisibleRange(k: Corners, width: int, height: int): (r: CellRange)
    requires 1 <= width && 1 <= height
    ensures 0 <= r.lowerX <= width - 1 && 1 <= r.upperX <= width
    ensures 0 <= r.lowerY <= height - 1 && 1 <= r.upperY <= height
  {
    CellRange(Clamp(k.truncLeft, 0, width - 1), Clamp(k.ceilRight + 1, 1, width),
              Clamp(k.truncTop, 0, height - 1), Clamp(k.ceilBottom + 1, 1, height))
  }

  /** A column is visited exactly when it is inside the buffer and between
      the corners, except that the clamp keeps the last column when the view
      lies right of the buffer and the first column when it lies left. */
  lemma VisitedColumns(k: Corners, width: int, height: int, x: int)
    requires 1 <= width && 1 <= height
    ensures var r := VisibleRange(k, width, height);
            r.lowerX <= x < r.upperX <==>
              && 0 <= x < width
              && (k.truncLeft <= x || x == width - 1)
              && (x <= k.ceilRight || x == 0)
  {
  }

  lemma VisitedRows(k: Corners, width: int, height: int, y: int)
    requires 1 <= width && 1 <= height
    ensures var r := VisibleRange(k, width, height);
            r.lowerY <= y < r.upperY <==>
              && 0 <= y < height
              && (k.truncTop <= y || y == height - 1)
              && (y <= k.ceilBottom || y == 0)
  {
  }
}
