/** Rectangles of the layout: rooms and corridor segments. */
module Geometry {

  /** A room or corridor segment: columns [x, x + w), rows [y, y + h). */
  datatype Rect = Rect(x: int, y: int, w: int, h: int)
  {
    predicate Contains(px: int, py: int) {
      x <= px < x + w && y <= py < y + h
    }

    /** The column of the centre cell, `x + (w >> 1)`. */
    function CenterX(): int { x + Half(w) }

    /** The row of the centre cell, `y + (h >> 1)`. */
    function CenterY(): int { y + Half(h) }
  }

  /**
   * `n >> 1` for the small integers of a layout: an arithmetic shift by one
   * rounds towards minus infinity, which is Euclidean division by 2.
   */
  function Half(n: int): int { n / 2 }

  /** The centre of a non-empty rectangle lies inside it. */
  lemma CenterInside(r: Rect)
    requires r.w >= 1 && r.h >= 1
    ensures r.Contains(r.CenterX(), r.CenterY())
  {
  }

  /**
   * What the layout provider guarantees of every rectangle it returns: it is
   * non-empty and keeps a margin of two cells to each edge of a
   * `width` by `height` grid, so every wall the filler and the stitcher
   * write or read around it lies on the grid.
   */
  predicate Fits(r: Rect, width: int, height: int) {
    r.w >= 1 && r.h >= 1 &&
    2 <= r.x && r.x + r.w + 2 <= width &&
    2 <= r.y && r.y + r.h + 2 <= height
  }

  predicate AllFit(rs: seq<Rect>, width: int, height: int) {
    forall i | 0 <= i < |rs| :: Fits(rs[i], width, height)
  }
}
