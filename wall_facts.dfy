/**
 * What the room filler and the stitchers promise, proved about the per-cell
 * functions their methods are verified against.
 */
module WallFacts {
  import opened Wrappers
  import opened Tiles
  import opened Geometry
  import opened Walls

  // ------------------------------------------------------------ rule table

  /**
   * A junction's `default` arm is taken exactly for the tiles its `switch`
   * does not name.
   */
  lemma UnhandledIffUnnamed(j: Junction, t: Tile)
    ensures Rule(j, t) == Unhandled <==> t !in RuleKeys(j)
  {
    match j
    case HTopLeft2 =>
    case HTopLeft1 =>
    case HMidLeft =>
    case HBottomLeft0 =>
    case HBottomLeft1 =>
    case HTopRight2 =>
    case HTopRight1 =>
    case HMidRight =>
    case HBottomRight0 =>
    case HBottomRight1 =>
    case VTopLeft1 =>
    case VTopLeft0 =>
    case VTopMid1 =>
    case VTopMid0 =>
    case VTopRight1 =>
    case VTopRight0 =>
    case VBottomLeft2 =>
    case VBottomLeft1 =>
    case VBottomMid2 =>
    case VBottomMid1 =>
    case VBottomRight2 =>
    case VBottomRight1 =>
  }

  /** Stitching changes a cell only when the `switch` names its tile. */
  lemma StitchOnlyNamed(j: Junction, cur: Option<Tile>)
    ensures Stitch(j, cur) != cur ==> cur.Some? && cur.value in RuleKeys(j)
  {
    if cur.Some? { UnhandledIffUnnamed(j, cur.value); }
  }

  // ----------------------------------------------------------------- rooms

  /** Cells `fillRoom` may change: the room's columns, from two rows above it to one row below. */
  lemma RoomWallFootprint(r: Rect, x: int, y: int, prev: Option<Tile>)
    requires r.w >= 1 && r.h >= 1
    ensures RoomWall(r, x, y, prev) != prev ==>
      r.x <= x < r.x + r.w && r.y - 2 <= y <= r.y + r.h
  {
  }

  /**
   * A one-column room gets no `wall_top_mid`/`wall_mid` run and no
   * right-hand corner: each of its wall rows holds only the left piece.
   */
  lemma NarrowRoomCaps(r: Rect, x: int, y: int, prev: Option<Tile>)
    requires r.w == 1 && r.h >= 1
    ensures RoomWall(r, x, y, prev) != prev ==> x == r.x
    ensures RoomWall(r, x, y, prev) == prev ||
      RoomWall(r, x, y, prev).value !in
        {WallTopMid, WallMid, WallCornerTopRight, WallCornerRight, WallCornerBottomRight, WallRight}
  {
  }

  /**
   * The side columns: for rows y .. y + h - 2 the column x + w - 1 ends as
   * `wall_side_mid_left` and the column x as `wall_side_mid_right`, except
   * that in a one-column room the second loop overwrites the first.
   */
  lemma RoomSideColumns(r: Rect, y: int, prev: Option<Tile>)
    requires r.w >= 1 && r.y <= y < r.y + r.h - 1
    ensures RoomWall(r, r.x + r.w - 1, y, prev) == Some(WallSideMidLeft)
    ensures RoomWall(r, r.x, y, prev) == Some(if r.w == 1 then WallSideMidLeft else WallSideMidRight)
  {
  }

  /** The four wall rows of a room of width two or more: corners at both ends, a straight run between. */
  lemma RoomWallRows(r: Rect, x: int, prev: Option<Tile>)
    requires r.w > 1 && r.h >= 1 && r.x < x < r.x + r.w - 1
    ensures RoomWall(r, r.x, r.y - 2, prev) == Some(WallCornerTopLeft)
    ensures RoomWall(r, r.x + r.w - 1, r.y - 2, prev) == Some(WallCornerTopRight)
    ensures RoomWall(r, x, r.y - 2, prev) == Some(WallTopMid)
    ensures RoomWall(r, x, r.y - 1, prev) == Some(WallMid)
    ensures RoomWall(r, x, r.y + r.h - 1, prev) == Some(WallTopMid)
    ensures RoomWall(r, x, r.y + r.h, prev) == Some(WallMid)
    ensures RoomWall(r, r.x, r.y + r.h, prev) == Some(WallLeft)
    ensures RoomWall(r, r.x + r.w - 1, r.y + r.h, prev) == Some(WallRight)
  {
  }

  // --------------------------------------------------- horizontal corridors

  /** A side wall along a horizontal corridor's long edge is removed, opening the room into it. */
  lemma HCorridorOpensSides(c: Rect, ly: int)
    requires c.w >= 1 && c.y <= ly < c.y + c.h - 1
    ensures HWallAfter(c, c.x - 1, ly, Some(WallSideMidLeft)) == None
    ensures HWallAfter(c, c.x + c.w, ly, Some(WallSideMidRight)) == None
  {
  }

  /** After `fillCorridorH`, the straight walls above and below span the corridor's columns. */
  lemma HCorridorRuns(c: Rect, x: int, prev: Option<Tile>)
    requires c.h >= 1 && c.x <= x < c.x + c.w
    ensures HWallAfter(c, x, c.y - 2, prev) == Some(WallTopMid)
    ensures HWallAfter(c, x, c.y - 1, prev) == Some(WallMid)
    ensures HWallAfter(c, x, c.y + c.h - 1, prev) == Some(WallTopMid)
    ensures HWallAfter(c, x, c.y + c.h, prev) == Some(WallMid)
  {
  }

  /** Cells `fillCorridorH` may change: one column beyond each end, from two rows above to one below. */
  lemma HWallFootprint(c: Rect, x: int, y: int, prev: Option<Tile>)
    requires c.w >= 1 && c.h >= 1
    ensures HWallAfter(c, x, y, prev) != prev ==>
      c.x - 1 <= x <= c.x + c.w && c.y - 2 <= y <= c.y + c.h
  {
  }

  /** A junction cell whose tile no rule of its position names keeps it. */
  lemma HJunctionUnnamedKept(c: Rect, x: int, y: int, t: Tile)
    requires c.w >= 1 && c.h >= 1
    requires HJunction(c, x, y).Some? && t !in RuleKeys(HJunction(c, x, y).value)
    ensures HWallAfter(c, x, y, Some(t)) == Some(t)
  {
    UnhandledIffUnnamed(HJunction(c, x, y).value, t);
  }

  // ----------------------------------------------------- vertical corridors

  /**
   * The walls a vertical corridor cuts through are removed across its
   * columns, at its top end and at its bottom end, for every height: when
   * the two ends overlap (h < 3), the second rule finds the cell already
   * emptied or finds the tile it names.
   */
  lemma VCorridorOpensEnds(c: Rect, rx: int)
    requires c.h >= 1 && c.x <= rx < c.x + c.w
    ensures VWallAfter(c, rx, c.y - 1, Some(WallTopMid)) == None
    ensures VWallAfter(c, rx, c.y, Some(WallMid)) == None
    ensures VWallAfter(c, rx, c.y + c.h - 2, Some(WallTopMid)) == None
    ensures VWallAfter(c, rx, c.y + c.h - 1, Some(WallMid)) == None
  {
  }

  /** Side walls are written at x - 1 and x + w for the rows y + 1 .. y + h - 3. */
  lemma VCorridorSides(c: Rect, ry: int, prev: Option<Tile>)
    requires c.w >= 1 && c.y + 1 <= ry < c.y + c.h - 2
    ensures VWallAfter(c, c.x - 1, ry, prev) == Some(WallSideMidLeft)
    ensures VWallAfter(c, c.x + c.w, ry, prev) == Some(WallSideMidRight)
  {
  }

  /** Cells `fillCorridorV` may change: columns x - 1 .. x + w, rows y - 1 .. y + h - 1. */
  lemma VWallFootprint(c: Rect, x: int, y: int, prev: Option<Tile>)
    requires c.w >= 1 && c.h >= 1
    ensures VWallAfter(c, x, y, prev) != prev ==>
      c.x - 1 <= x <= c.x + c.w && c.y - 1 <= y <= c.y + c.h - 1
  {
  }

  /**
   * The top-right arm of `fillCorridorV` names `wall_top_mid` without its
   * suffix, so it leaves the `wall_top_mid.png` a room writes there as it is.
   */
  lemma VTopRightIgnoresPng(c: Rect)
    requires c.w >= 1 && c.h >= 2
    ensures VWallAfter(c, c.x + c.w, c.y - 1, Some(WallTopMid)) == Some(WallTopMid)
  {
  }

  // ------------------------------------------------------------------ fill

  /** A `wall_mid` at row `y` lies strictly inside a grid of `height` rows. */
  predicate MidInside(t: Option<Tile>, y: int, height: int) {
    t == Some(WallMid) ==> 1 <= y < height - 1
  }

  /** A room that fits writes `wall_mid` only on its rows y - 1 and y + h. */
  lemma RoomWallMidInside(r: Rect, x: int, y: int, prev: Option<Tile>, width: int, height: int)
    requires Fits(r, width, height) && MidInside(prev, y, height)
    ensures MidInside(RoomWall(r, x, y, prev), y, height)
  {
  }

  /** A horizontal corridor writes or stitches `wall_mid` only on its rows y - 1 and y + h. */
  lemma HWallMidInside(c: Rect, x: int, y: int, prev: Option<Tile>, width: int, height: int)
    requires Fits(c, width, height) && MidInside(prev, y, height)
    ensures MidInside(HWallAfter(c, x, y, prev), y, height)
  {
  }

  /** A vertical corridor never writes `wall_mid`. */
  lemma VWallMidInside(c: Rect, x: int, y: int, prev: Option<Tile>, height: int)
    requires MidInside(prev, y, height)
    ensures MidInside(VWallAfter(c, x, y, prev), y, height)
  {
    VTopKeepsMid(c, x, y, prev);
    VBottomKeepsMid(c, x, y, VTopAfter(c, x, y, prev));
  }

  /** The top stitch of a vertical corridor leaves `wall_mid` only where it was. */
  lemma VTopKeepsMid(c: Rect, x: int, y: int, prev: Option<Tile>)
    ensures VTopAfter(c, x, y, prev) == Some(WallMid) ==> prev == Some(WallMid)
  {
  }

  /** The bottom stitch of a vertical corridor leaves `wall_mid` only where it was. */
  lemma VBottomKeepsMid(c: Rect, x: int, y: int, cur: Option<Tile>)
    ensures StitchAt(VBottomJunction(c, x, y), cur) == Some(WallMid) ==> cur == Some(WallMid)
  {
  }

  lemma {:induction false} RoomsMidInside(rs: seq<Rect>, x: int, y: int, prev: Option<Tile>, width: int, height: int)
    requires AllFit(rs, width, height) && MidInside(prev, y, height)
    ensures MidInside(RoomsWall(rs, x, y, prev), y, height)
    decreases |rs|
  {
    if rs != [] {
      RoomsMidInside(rs[..|rs| - 1], x, y, prev, width, height);
      RoomWallMidInside(rs[|rs| - 1], x, y, RoomsWall(rs[..|rs| - 1], x, y, prev), width, height);
    }
  }

  lemma {:induction false} CorridorsHMidInside(cs: seq<Rect>, x: int, y: int, prev: Option<Tile>, width: int, height: int)
    requires AllFit(cs, width, height) && MidInside(prev, y, height)
    ensures MidInside(CorridorsHWall(cs, x, y, prev), y, height)
    decreases |cs|
  {
    if cs != [] {
      CorridorsHMidInside(cs[..|cs| - 1], x, y, prev, width, height);
      HWallMidInside(cs[|cs| - 1], x, y, CorridorsHWall(cs[..|cs| - 1], x, y, prev), width, height);
    }
  }

  lemma {:induction false} CorridorsVMidInside(cs: seq<Rect>, x: int, y: int, prev: Option<Tile>, height: int)
    requires MidInside(prev, y, height)
    ensures MidInside(CorridorsVWall(cs, x, y, prev), y, height)
    decreases |cs|
  {
    if cs != [] {
      CorridorsVMidInside(cs[..|cs| - 1], x, y, prev, height);
      VWallMidInside(cs[|cs| - 1], x, y, CorridorsVWall(cs[..|cs| - 1], x, y, prev), height);
    }
  }

  /**
   * Filling an empty grid with a layout that fits leaves no `wall_mid` on
   * the first or the last row, so the wall pass always finds the cells
   * above and below each one on the grid.
   */
  lemma FillMidInside(rooms: seq<Rect>, hs: seq<Rect>, vs: seq<Rect>, x: int, y: int, width: int, height: int)
    requires AllFit(rooms, width, height) && AllFit(hs, width, height)
    ensures MidInside(FillWall(rooms, hs, vs, x, y, None), y, height)
  {
    RoomsMidInside(rooms, x, y, None, width, height);
    CorridorsHMidInside(hs, x, y, RoomsWall(rooms, x, y, None), width, height);
    CorridorsVMidInside(vs, x, y, CorridorsHWall(hs, x, y, RoomsWall(rooms, x, y, None)), height);
  }

  /** No stitching rule writes the suffix-less `wall_top_mid`. */
  lemma StitchNeverBare(j: Option<Junction>, cur: Option<Tile>)
    requires cur != Some(WallTopMidBare)
    ensures StitchAt(j, cur) != Some(WallTopMidBare)
  {
    if j.Some? && cur.Some? {
      assert Rule(j.value, cur.value) != Put(WallTopMidBare);
    }
  }

  /** Neither half of `fillCorridorV` writes the suffix-less `wall_top_mid`. */
  lemma VWallNeverBare(c: Rect, x: int, y: int, prev: Option<Tile>)
    requires prev != Some(WallTopMidBare)
    ensures VWallAfter(c, x, y, prev) != Some(WallTopMidBare)
  {
    StitchNeverBare(VTopJunction(c, x, y), prev);
    StitchNeverBare(VBottomJunction(c, x, y), VTopAfter(c, x, y, prev));
  }

  /** No filler or stitcher writes the suffix-less `wall_top_mid`. */
  lemma {:induction false} FillNeverBare(rooms: seq<Rect>, hs: seq<Rect>, vs: seq<Rect>, x: int, y: int, prev: Option<Tile>)
    requires prev != Some(WallTopMidBare)
    ensures FillWall(rooms, hs, vs, x, y, prev) != Some(WallTopMidBare)
    decreases |rooms| + |hs| + |vs|
  {
    if vs != [] {
      FillNeverBare(rooms, hs, vs[..|vs| - 1], x, y, prev);
      VWallNeverBare(vs[|vs| - 1], x, y, FillWall(rooms, hs, vs[..|vs| - 1], x, y, prev));
    } else if hs != [] {
      FillNeverBare(rooms, hs[..|hs| - 1], [], x, y, prev);
      StitchNeverBare(HJunction(hs[|hs| - 1], x, y), FillWall(rooms, hs[..|hs| - 1], [], x, y, prev));
    } else if rooms != [] {
      FillNeverBare(rooms[..|rooms| - 1], [], [], x, y, prev);
    }
  }

  /**
   * Hence the top-right arm of `fillCorridorV` never fires during `fill`:
   * whatever wall the k-th vertical corridor finds at any cell, that arm's
   * `switch` falls to its default.
   */
  lemma VTopRightNeverFires(rooms: seq<Rect>, hs: seq<Rect>, vs: seq<Rect>, k: int, x: int, y: int)
    requires 0 <= k <= |vs|
    ensures var t := FillWall(rooms, hs, vs[..k], x, y, None);
      t.Some? ==> Rule(VTopRight1, t.value) == Unhandled
  {
    FillNeverBare(rooms, hs, vs[..k], x, y, None);
  }
}
