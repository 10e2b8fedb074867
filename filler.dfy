/**
 * `fillRoom`, `fillCorridorH` and `fillCorridorV`: each writes floor tiles
 * over its rectangle and then walls around it, in place, in the order the
 * generator does. Every method is proved against the per-cell functions of
 * module Walls.
 */
module Filler {
  import opened Wrappers
  import opened Tiles
  import opened Geometry
  import opened Walls
  import opened Dungeon

  /** The floor every cell of a room or corridor gets first. */
  method FillFloor(d: DungeonLevel, r: Rect)
    requires d.Valid() && Fits(r, d.width, d.height)
    modifies d.floorMap
    ensures forall yy, xx | 0 <= yy < d.height && 0 <= xx < d.width ::
      d.floorMap[yy, xx] == if r.Contains(xx, yy) then Some(Floor1) else old(d.floorMap[yy, xx])
  {
    var ry := r.y;
    while ry < r.y + r.h
      invariant r.y <= ry <= r.y + r.h
      invariant forall yy, xx | 0 <= yy < d.height && 0 <= xx < d.width ::
        d.floorMap[yy, xx] ==
          if r.x <= xx < r.x + r.w && r.y <= yy < ry then Some(Floor1) else old(d.floorMap[yy, xx])
    {
      var rx := r.x;
      while rx < r.x + r.w
        invariant r.x <= rx <= r.x + r.w
        invariant forall yy, xx | 0 <= yy < d.height && 0 <= xx < d.width ::
          d.floorMap[yy, xx] ==
            if r.x <= xx < r.x + r.w && (r.y <= yy < ry || (yy == ry && xx < rx)) then Some(Floor1)
            else old(d.floorMap[yy, xx])
      {
        d.SetFloor(rx, ry, Some(Floor1));
        rx := rx + 1;
      }
      ry := ry + 1;
    }
  }

  /** A straight wall strip: `wall_top_mid` on row `top`, `wall_mid` below it, for x0 <= x < x1. */
  method WallRun(d: DungeonLevel, x0: int, x1: int, top: int)
    requires d.Valid() && 0 <= x0 && x1 <= d.width && 0 <= top && top + 1 < d.height
    modifies d.wallMap
    ensures forall yy, xx | 0 <= yy < d.height && 0 <= xx < d.width ::
      d.wallMap[yy, xx] ==
        if x0 <= xx < x1 && yy == top then Some(WallTopMid)
        else if x0 <= xx < x1 && yy == top + 1 then Some(WallMid)
        else old(d.wallMap[yy, xx])
  {
    var rx := x0;
    while rx < x1
      invariant x0 <= rx <= x1 || (x1 < x0 && rx == x0)
      invariant forall yy, xx | 0 <= yy < d.height && 0 <= xx < d.width ::
        d.wallMap[yy, xx] ==
          if x0 <= xx < rx && yy == top then Some(WallTopMid)
          else if x0 <= xx < rx && yy == top + 1 then Some(WallMid)
          else old(d.wallMap[yy, xx])
    {
      d.SetWall(rx, top, Some(WallTopMid));
      d.SetWall(rx, top + 1, Some(WallMid));
      rx := rx + 1;
    }
  }

  /** One tile down a column: `t` at (x, y) for y0 <= y < y1. */
  method SideColumn(d: DungeonLevel, x: int, y0: int, y1: int, t: Tile)
    requires d.Valid() && 0 <= x < d.width && 0 <= y0 && y1 <= d.height
    modifies d.wallMap
    ensures forall yy, xx | 0 <= yy < d.height && 0 <= xx < d.width ::
      d.wallMap[yy, xx] == if xx == x && y0 <= yy < y1 then Some(t) else old(d.wallMap[yy, xx])
  {
    var ry := y0;
    while ry < y1
      invariant y0 <= ry <= y1 || (y1 < y0 && ry == y0)
      invariant forall yy, xx | 0 <= yy < d.height && 0 <= xx < d.width ::
        d.wallMap[yy, xx] == if xx == x && y0 <= yy < ry then Some(t) else old(d.wallMap[yy, xx])
    {
      d.SetWall(x, ry, Some(t));
      ry := ry + 1;
    }
  }

  /** One `switch` of a stitcher: look up the wall at (x, y) in the rule table. */
  method StitchCell(d: DungeonLevel, x: int, y: int, j: Junction)
    requires d.Valid() && d.InGrid(x, y)
    modifies d.wallMap
    ensures d.wallMap[y, x] == Stitch(j, old(d.wallMap[y, x]))
    ensures forall yy, xx | 0 <= yy < d.height && 0 <= xx < d.width && (yy != y || xx != x) ::
      d.wallMap[yy, xx] == old(d.wallMap[yy, xx])
  {
    var cur := d.wallMap[y, x];
    if cur.Some? {
      match Rule(j, cur.value)
      case Put(t) => d.SetWall(x, y, Some(t));
      case Remove => d.SetWall(x, y, None);
      case Keep =>
      case Unhandled =>
        // the source logs the tile name here and leaves it
    }
  }

  /**
   * The part of a pair of a room's wall rows right of its first column:
   * the `wall_top_mid` / `wall_mid` runs, then `r1` over `r2` in the last
   * column.
   */
  method EdgeRight(d: DungeonLevel, r: Rect, top: int, r1: Tile, r2: Tile)
    requires d.Valid() && r.w > 1 && 0 <= r.x && r.x + r.w <= d.width && 0 <= top && top + 1 < d.height
    modifies d.wallMap
    ensures forall yy, xx | 0 <= yy < d.height && 0 <= xx < d.width ::
      d.wallMap[yy, xx] ==
        if r.x < xx < r.x + r.w - 1 && yy == top then Some(WallTopMid)
        else if r.x < xx < r.x + r.w - 1 && yy == top + 1 then Some(WallMid)
        else if xx == r.x + r.w - 1 && yy == top then Some(r1)
        else if xx == r.x + r.w - 1 && yy == top + 1 then Some(r2)
        else old(d.wallMap[yy, xx])
  {
    WallRun(d, r.x + 1, r.x + r.w - 1, top);
    d.SetWall(r.x + r.w - 1, top, Some(r1));
    d.SetWall(r.x + r.w - 1, top + 1, Some(r2));
  }

  /**
   * A pair of a room's wall rows: `l1`, `wall_top_mid`, `r1` on row `top`
   * and `l2`, `wall_mid`, `r2` on the row below, the right-hand pieces and
   * the middle runs only when the room is wider than one cell.
   */
  method EdgeRows(d: DungeonLevel, r: Rect, top: int, l1: Tile, r1: Tile, l2: Tile, r2: Tile)
    requires d.Valid() && r.w >= 1 && 0 <= r.x && r.x + r.w <= d.width && 0 <= top && top + 1 < d.height
    modifies d.wallMap
    ensures forall yy, xx | 0 <= yy < d.height && 0 <= xx < d.width ::
      d.wallMap[yy, xx] ==
        if yy == top then EdgeRow(r, xx, l1, WallTopMid, r1, old(d.wallMap[yy, xx]))
        else if yy == top + 1 then EdgeRow(r, xx, l2, WallMid, r2, old(d.wallMap[yy, xx]))
        else old(d.wallMap[yy, xx])
  {
    SideColumn(d, r.x, top, top + 1, l1);
    SideColumn(d, r.x, top + 1, top + 2, l2);
    if r.w > 1 {
      EdgeRight(d, r, top, r1, r2);
      assert forall yy, xx | 0 <= yy < d.height && 0 <= xx < d.width && (yy == top || yy == top + 1) ::
        d.wallMap[yy, xx] == EdgeRow(r, xx, if yy == top then l1 else l2, if yy == top then WallTopMid else WallMid,
                                     if yy == top then r1 else r2, old(d.wallMap[yy, xx]));
    }
  }

  /** `fillRoom`: floor over the room, then its wall perimeter. */
  method FillRoom(d: DungeonLevel, r: Rect)
    requires d.Valid() && Fits(r, d.width, d.height)
    modifies d.floorMap, d.wallMap
    ensures forall yy, xx | 0 <= yy < d.height && 0 <= xx < d.width ::
      d.floorMap[yy, xx] == if r.Contains(xx, yy) then Some(Floor1) else old(d.floorMap[yy, xx])
    ensures forall yy, xx | 0 <= yy < d.height && 0 <= xx < d.width ::
      d.wallMap[yy, xx] == RoomWall(r, xx, yy, old(d.wallMap[yy, xx]))
  {
    var x, y, w, h := r.x, r.y, r.w, r.h;
    FillFloor(d, r);
    EdgeRows(d, r, y - 2, WallCornerTopLeft, WallCornerTopRight, WallCornerLeft, WallCornerRight);
    EdgeRows(d, r, y + h - 1, WallCornerBottomLeft, WallCornerBottomRight, WallLeft, WallRight);
    assert forall yy, xx | 0 <= yy < d.height && 0 <= xx < d.width ::
      d.wallMap[yy, xx] ==
        if yy == y - 2 || yy == y - 1 || yy == y + h - 1 || yy == y + h
        then RoomWall(r, xx, yy, old(d.wallMap[yy, xx]))
        else old(d.wallMap[yy, xx]);

    // side walls: the column x first, then the column x + w - 1
    SideColumn(d, x, y, y + h - 1, WallSideMidRight);
    SideColumn(d, x + w - 1, y, y + h - 1, WallSideMidLeft);
  }

  /**
   * A column part way through a horizontal corridor's stitching: the cells
   * of column `col` above row `k` have been through their rule, every other
   * cell is untouched. The junction rows are visited top to bottom.
   */
  ghost predicate ColumnStitched(c: Rect, col: int, k: int, x: int, y: int, cur: Option<Tile>, prev: Option<Tile>) {
    cur == if x == col && y < k then StitchAt(HJunction(c, x, y), prev) else prev
  }

  /** The left half of `fillCorridorH`'s junction rules: the column x - 1. */
  method StitchLeftH(d: DungeonLevel, c: Rect)
    requires d.Valid() && Fits(c, d.width, d.height)
    modifies d.wallMap
    ensures forall yy, xx | 0 <= yy < d.height && 0 <= xx < d.width ::
      d.wallMap[yy, xx] ==
        if xx == c.x - 1 then StitchAt(HJunction(c, xx, yy), old(d.wallMap[yy, xx]))
        else old(d.wallMap[yy, xx])
  {
    var x, y, h := c.x, c.y, c.h;
    StitchCell(d, x - 1, y - 2, HTopLeft2);
    StitchCell(d, x - 1, y - 1, HTopLeft1);
    assert forall yy, xx | 0 <= yy < d.height && 0 <= xx < d.width ::
      ColumnStitched(c, x - 1, y, xx, yy, d.wallMap[yy, xx], old(d.wallMap[yy, xx]));
    if h > 1 {
      var ly := y;
      while ly < y + h - 1
        invariant y <= ly <= y + h - 1
        invariant forall yy, xx | 0 <= yy < d.height && 0 <= xx < d.width ::
          ColumnStitched(c, x - 1, ly, xx, yy, d.wallMap[yy, xx], old(d.wallMap[yy, xx]))
      {
        StitchCell(d, x - 1, ly, HMidLeft);
        ly := ly + 1;
      }
    }
    StitchCell(d, x - 1, y + h - 1, HBottomLeft0);
    StitchCell(d, x - 1, y + h, HBottomLeft1);
    assert forall yy, xx | 0 <= yy < d.height && 0 <= xx < d.width ::
      ColumnStitched(c, x - 1, y + h + 1, xx, yy, d.wallMap[yy, xx], old(d.wallMap[yy, xx]));
  }

  /** The right half of `fillCorridorH`'s junction rules: the column x + w. */
  method StitchRightH(d: DungeonLevel, c: Rect)
    requires d.Valid() && Fits(c, d.width, d.height)
    modifies d.wallMap
    ensures forall yy, xx | 0 <= yy < d.height && 0 <= xx < d.width ::
      d.wallMap[yy, xx] ==
        if xx == c.x + c.w then StitchAt(HJunction(c, xx, yy), old(d.wallMap[yy, xx]))
        else old(d.wallMap[yy, xx])
  {
    var x, y, w, h := c.x, c.y, c.w, c.h;
    StitchCell(d, x + w, y - 2, HTopRight2);
    StitchCell(d, x + w, y - 1, HTopRight1);
    assert forall yy, xx | 0 <= yy < d.height && 0 <= xx < d.width ::
      ColumnStitched(c, x + w, y, xx, yy, d.wallMap[yy, xx], old(d.wallMap[yy, xx]));
    if h > 1 {
      var ly := y;
      while ly < y + h - 1
        invariant y <= ly <= y + h - 1
        invariant forall yy, xx | 0 <= yy < d.height && 0 <= xx < d.width ::
          ColumnStitched(c, x + w, ly, xx, yy, d.wallMap[yy, xx], old(d.wallMap[yy, xx]))
      {
        StitchCell(d, x + w, ly, HMidRight);
        ly := ly + 1;
      }
    }
    StitchCell(d, x + w, y + h - 1, HBottomRight0);
    StitchCell(d, x + w, y + h, HBottomRight1);
    assert forall yy, xx | 0 <= yy < d.height && 0 <= xx < d.width ::
      ColumnStitched(c, x + w, y + h + 1, xx, yy, d.wallMap[yy, xx], old(d.wallMap[yy, xx]));
  }

  /** `fillCorridorH`: floor over the corridor, the junction rules on both sides, then the straight walls. */
  method FillCorridorH(d: DungeonLevel, c: Rect)
    requires d.Valid() && Fits(c, d.width, d.height)
    modifies d.floorMap, d.wallMap
    ensures forall yy, xx | 0 <= yy < d.height && 0 <= xx < d.width ::
      d.floorMap[yy, xx] == if c.Contains(xx, yy) then Some(Floor1) else old(d.floorMap[yy, xx])
    ensures forall yy, xx | 0 <= yy < d.height && 0 <= xx < d.width ::
      d.wallMap[yy, xx] == HWallAfter(c, xx, yy, old(d.wallMap[yy, xx]))
  {
    FillFloor(d, c);
    StitchLeftH(d, c);
    StitchRightH(d, c);
    // the straight walls above the corridor, then below it
    WallRun(d, c.x, c.x + c.w, c.y - 2);
    WallRun(d, c.x, c.x + c.w, c.y + c.h - 1);
  }

  /**
   * A half of a vertical corridor's stitching part way through: the cells
   * left of column `k` have been through their rule (`j` gives the
   * junction), every other cell is untouched. Columns are visited left to
   * right.
   */
  ghost predicate RowsStitched(j: Option<Junction>, k: int, x: int, cur: Option<Tile>, prev: Option<Tile>) {
    cur == if x < k then StitchAt(j, prev) else prev
  }

  /** The top half of `fillCorridorV`: rows y - 1 and y, from column x - 1 to x + w. */
  method StitchTopV(d: DungeonLevel, c: Rect)
    requires d.Valid() && Fits(c, d.width, d.height)
    modifies d.wallMap
    ensures forall yy, xx | 0 <= yy < d.height && 0 <= xx < d.width ::
      d.wallMap[yy, xx] == VTopAfter(c, xx, yy, old(d.wallMap[yy, xx]))
  {
    var x, y, w := c.x, c.y, c.w;
    StitchCell(d, x - 1, y - 1, VTopLeft1);
    StitchCell(d, x - 1, y, VTopLeft0);
    var rx := x;
    while rx < x + w
      invariant x <= rx <= x + w
      invariant forall yy, xx | 0 <= yy < d.height && 0 <= xx < d.width ::
        RowsStitched(VTopJunction(c, xx, yy), rx, xx, d.wallMap[yy, xx], old(d.wallMap[yy, xx]))
    {
      StitchCell(d, rx, y - 1, VTopMid1);
      StitchCell(d, rx, y, VTopMid0);
      rx := rx + 1;
    }
    StitchCell(d, x + w, y - 1, VTopRight1);
    StitchCell(d, x + w, y, VTopRight0);
    assert forall yy, xx | 0 <= yy < d.height && 0 <= xx < d.width ::
      RowsStitched(VTopJunction(c, xx, yy), x + w + 1, xx, d.wallMap[yy, xx], old(d.wallMap[yy, xx]));
  }

  /** The bottom half of `fillCorridorV`: rows y + h - 2 and y + h - 1, from column x - 1 to x + w. */
  method StitchBottomV(d: DungeonLevel, c: Rect)
    requires d.Valid() && Fits(c, d.width, d.height)
    modifies d.wallMap
    ensures forall yy, xx | 0 <= yy < d.height && 0 <= xx < d.width ::
      d.wallMap[yy, xx] == StitchAt(VBottomJunction(c, xx, yy), old(d.wallMap[yy, xx]))
  {
    var x, y, w, h := c.x, c.y, c.w, c.h;
    StitchCell(d, x - 1, y + h - 2, VBottomLeft2);
    StitchCell(d, x - 1, y + h - 1, VBottomLeft1);
    var rx := x;
    while rx < x + w
      invariant x <= rx <= x + w
      invariant forall yy, xx | 0 <= yy < d.height && 0 <= xx < d.width ::
        RowsStitched(VBottomJunction(c, xx, yy), rx, xx, d.wallMap[yy, xx], old(d.wallMap[yy, xx]))
    {
      StitchCell(d, rx, y + h - 2, VBottomMid2);
      StitchCell(d, rx, y + h - 1, VBottomMid1);
      rx := rx + 1;
    }
    StitchCell(d, x + w, y + h - 2, VBottomRight2);
    StitchCell(d, x + w, y + h - 1, VBottomRight1);
    assert forall yy, xx | 0 <= yy < d.height && 0 <= xx < d.width ::
      RowsStitched(VBottomJunction(c, xx, yy), x + w + 1, xx, d.wallMap[yy, xx], old(d.wallMap[yy, xx]));
  }

  /** `fillCorridorV`: floor over the corridor, the junction rules at both ends, then the side walls. */
  method FillCorridorV(d: DungeonLevel, c: Rect)
    requires d.Valid() && Fits(c, d.width, d.height)
    modifies d.floorMap, d.wallMap
    ensures forall yy, xx | 0 <= yy < d.height && 0 <= xx < d.width ::
      d.floorMap[yy, xx] == if c.Contains(xx, yy) then Some(Floor1) else old(d.floorMap[yy, xx])
    ensures forall yy, xx | 0 <= yy < d.height && 0 <= xx < d.width ::
      d.wallMap[yy, xx] == VWallAfter(c, xx, yy, old(d.wallMap[yy, xx]))
  {
    var x, y, w, h := c.x, c.y, c.w, c.h;
    FillFloor(d, c);
    StitchTopV(d, c);
    StitchBottomV(d, c);
    assert forall yy, xx | 0 <= yy < d.height && 0 <= xx < d.width ::
      d.wallMap[yy, xx] == StitchAt(VBottomJunction(c, xx, yy), VTopAfter(c, xx, yy, old(d.wallMap[yy, xx])));

    // side walls
    var ry := y + 1;
    while ry < y + h - 2
      modifies d.wallMap
      invariant y + 1 <= ry <= y + h - 2 || (h < 3 && ry == y + 1)
      invariant forall yy, xx | 0 <= yy < d.height && 0 <= xx < d.width ::
        d.wallMap[yy, xx] ==
          if yy < ry then VWallAfter(c, xx, yy, old(d.wallMap[yy, xx]))
          else StitchAt(VBottomJunction(c, xx, yy), VTopAfter(c, xx, yy, old(d.wallMap[yy, xx])))
    {
      d.SetWall(x - 1, ry, Some(WallSideMidLeft));
      d.SetWall(x + w, ry, Some(WallSideMidRight));
      ry := ry + 1;
    }
  }

  /** `fill`: every room, then every horizontal corridor, then every vertical one. */
  method Fill(d: DungeonLevel)
    requires d.Valid() && d.LayoutFits()
    modifies d.floorMap, d.wallMap
    ensures forall yy, xx | 0 <= yy < d.height && 0 <= xx < d.width ::
      d.floorMap[yy, xx] ==
        if Covered(d.rooms, xx, yy) || Covered(d.corridorsH, xx, yy) || Covered(d.corridorsV, xx, yy)
        then Some(Floor1) else old(d.floorMap[yy, xx])
    ensures forall yy, xx | 0 <= yy < d.height && 0 <= xx < d.width ::
      d.wallMap[yy, xx] == FillWall(d.rooms, d.corridorsH, d.corridorsV, xx, yy, old(d.wallMap[yy, xx]))
  {
    var i := 0;
    while i < |d.rooms|
      invariant 0 <= i <= |d.rooms|
      invariant forall yy, xx | 0 <= yy < d.height && 0 <= xx < d.width ::
        d.floorMap[yy, xx] == if Covered(d.rooms[..i], xx, yy) then Some(Floor1) else old(d.floorMap[yy, xx])
      invariant forall yy, xx | 0 <= yy < d.height && 0 <= xx < d.width ::
        d.wallMap[yy, xx] == RoomsWall(d.rooms[..i], xx, yy, old(d.wallMap[yy, xx]))
    {
      FillRoom(d, d.rooms[i]);
      assert d.rooms[..i + 1][..i] == d.rooms[..i];
      i := i + 1;
    }
    assert d.rooms[..i] == d.rooms;
    i := 0;
    while i < |d.corridorsH|
      invariant 0 <= i <= |d.corridorsH|
      invariant forall yy, xx | 0 <= yy < d.height && 0 <= xx < d.width ::
        d.floorMap[yy, xx] ==
          if Covered(d.rooms, xx, yy) || Covered(d.corridorsH[..i], xx, yy) then Some(Floor1)
          else old(d.floorMap[yy, xx])
      invariant forall yy, xx | 0 <= yy < d.height && 0 <= xx < d.width ::
        d.wallMap[yy, xx] == CorridorsHWall(d.corridorsH[..i], xx, yy, RoomsWall(d.rooms, xx, yy, old(d.wallMap[yy, xx])))
    {
      FillCorridorH(d, d.corridorsH[i]);
      assert d.corridorsH[..i + 1][..i] == d.corridorsH[..i];
      i := i + 1;
    }
    assert d.corridorsH[..i] == d.corridorsH;
    i := 0;
    while i < |d.corridorsV|
      invariant 0 <= i <= |d.corridorsV|
      invariant forall yy, xx | 0 <= yy < d.height && 0 <= xx < d.width ::
        d.floorMap[yy, xx] ==
          if Covered(d.rooms, xx, yy) || Covered(d.corridorsH, xx, yy) || Covered(d.corridorsV[..i], xx, yy)
          then Some(Floor1) else old(d.floorMap[yy, xx])
      invariant forall yy, xx | 0 <= yy < d.height && 0 <= xx < d.width ::
        d.wallMap[yy, xx] == FillWall(d.rooms, d.corridorsH, d.corridorsV[..i], xx, yy, old(d.wallMap[yy, xx]))
    {
      FillCorridorV(d, d.corridorsV[i]);
      assert d.corridorsV[..i + 1][..i] == d.corridorsV[..i];
      i := i + 1;
    }
    assert d.corridorsV[..i] == d.corridorsV;
  }
}
