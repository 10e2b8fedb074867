/**
 * The wall tile every cell ends up with after the room filler and the two
 * corridor stitchers, stated cell by cell as a function of the tile the
 * cell held before. The stitchers' `switch` statements are one rule table,
 * `Rule`, keyed by the junction position and the tile found there.
 */
module Walls {
  import opened Wrappers
  import opened Tiles
  import opened Geometry

  /**
   * The positions a stitcher probes. `H*` belong to a horizontal corridor,
   * `V*` to a vertical one; the trailing digit is the row offset the source
   * names the case after.
   */
  datatype Junction =
    | HTopLeft2 | HTopLeft1 | HMidLeft | HBottomLeft0 | HBottomLeft1
    | HTopRight2 | HTopRight1 | HMidRight | HBottomRight0 | HBottomRight1
    | VTopLeft1 | VTopLeft0 | VTopMid1 | VTopMid0 | VTopRight1 | VTopRight0
    | VBottomLeft2 | VBottomLeft1 | VBottomMid2 | VBottomMid1
    | VBottomRight2 | VBottomRight1

  /**
   * One arm of a stitcher's `switch`: write a tile, remove the tile, leave
   * it silently (an explicit `break` case), or leave it and log it (the
   * `default` arm).
   */
  datatype Action = Put(tile: Tile) | Remove | Keep | Unhandled

  /** The stitching rule table: a tile it writes always differs from the tile it found. */
  function Rule(j: Junction, t: Tile): (r: Action)
    ensures r.Put? ==> r.tile != t
  {
    match j
    case HTopLeft2 =>
      if t == WallCornerTopRight then Put(WallTopMid)
      else if t == WallSideMidLeft then Keep
      else Unhandled
    case HTopLeft1 =>
      if t == WallCornerRight then Put(WallMid)
      else if t == WallSideMidLeft then Put(WallSideFrontLeft)
      else Unhandled
    case HMidLeft =>
      if t == WallSideMidLeft then Remove else Unhandled
    case HBottomLeft0 =>
      if t == WallSideMidLeft then Put(WallSideTopLeft)
      else if t == WallCornerBottomRight then Put(WallTopMid)
      else Unhandled
    case HBottomLeft1 =>
      if t == WallSideMidLeft then Keep
      else if t == WallRight then Put(WallMid)
      else Unhandled
    case HTopRight2 =>
      if t == WallCornerTopLeft then Put(WallTopMid)
      else if t == WallSideMidRight then Keep
      else Unhandled
    case HTopRight1 =>
      if t == WallCornerLeft then Put(WallMid)
      else if t == WallSideMidRight then Put(WallSideFrontRight)
      else Unhandled
    case HMidRight =>
      if t == WallSideMidRight then Remove else Unhandled
    case HBottomRight0 =>
      if t == WallSideMidRight then Put(WallSideTopRight)
      else if t == WallCornerBottomLeft then Put(WallTopMid)
      else Unhandled
    case HBottomRight1 =>
      if t == WallSideMidRight then Keep
      else if t == WallLeft then Put(WallMid)
      else Unhandled
    case VTopLeft1 => if t == WallTopMid then Put(WallCornerTopRight) else Unhandled
    case VTopLeft0 => if t == WallMid then Put(WallCornerRight) else Unhandled
    case VTopMid1 => if t == WallTopMid then Remove else Unhandled
    case VTopMid0 => if t == WallMid then Remove else Unhandled
    // the source spells both names of this arm without the `.png` suffix
    case VTopRight1 => if t == WallTopMidBare then Put(WallCornerTopLeftBare) else Unhandled
    case VTopRight0 => if t == WallMid then Put(WallCornerLeft) else Unhandled
    case VBottomLeft2 => if t == WallTopMid then Put(WallCornerBottomRight) else Unhandled
    case VBottomLeft1 => if t == WallMid then Put(WallCornerFrontRight) else Unhandled
    case VBottomMid2 => if t == WallTopMid then Remove else Unhandled
    case VBottomMid1 => if t == WallMid then Remove else Unhandled
    case VBottomRight2 => if t == WallTopMid then Put(WallCornerBottomLeft) else Unhandled
    case VBottomRight1 => if t == WallMid then Put(WallCornerFrontLeft) else Unhandled
  }

  /** The tiles a junction's `switch` names in a `case`. */
  function RuleKeys(j: Junction): set<Tile> {
    match j
    case HTopLeft2 => {WallCornerTopRight, WallSideMidLeft}
    case HTopLeft1 => {WallCornerRight, WallSideMidLeft}
    case HMidLeft => {WallSideMidLeft}
    case HBottomLeft0 => {WallSideMidLeft, WallCornerBottomRight}
    case HBottomLeft1 => {WallSideMidLeft, WallRight}
    case HTopRight2 => {WallCornerTopLeft, WallSideMidRight}
    case HTopRight1 => {WallCornerLeft, WallSideMidRight}
    case HMidRight => {WallSideMidRight}
    case HBottomRight0 => {WallSideMidRight, WallCornerBottomLeft}
    case HBottomRight1 => {WallSideMidRight, WallLeft}
    case VTopLeft1 => {WallTopMid}
    case VTopLeft0 => {WallMid}
    case VTopMid1 => {WallTopMid}
    case VTopMid0 => {WallMid}
    case VTopRight1 => {WallTopMidBare}
    case VTopRight0 => {WallMid}
    case VBottomLeft2 => {WallTopMid}
    case VBottomLeft1 => {WallMid}
    case VBottomMid2 => {WallTopMid}
    case VBottomMid1 => {WallMid}
    case VBottomRight2 => {WallTopMid}
    case VBottomRight1 => {WallMid}
  }

  /**
   * The wall a junction cell holds after its `switch`. An empty cell takes
   * the default arm: the source reads the name of whatever object is there
   * without a guard, and this model does not follow it into that error.
   */
  function Stitch(j: Junction, cur: Option<Tile>): Option<Tile> {
    match cur
    case None => None
    case Some(t) =>
      match Rule(j, t)
      case Put(n) => Some(n)
      case Remove => None
      case Keep => cur
      case Unhandled => cur
  }

  function StitchAt(j: Option<Junction>, cur: Option<Tile>): Option<Tile> {
    match j
    case None => cur
    case Some(k) => Stitch(k, cur)
  }

  // ---------------------------------------------------------------- rooms

  /**
   * One of the four horizontal wall rows of a room: `left` at column x,
   * `right` at column x + w - 1 (only when w > 1) and `mid` strictly between.
   */
  function EdgeRow(r: Rect, x: int, left: Tile, mid: Tile, right: Tile, prev: Option<Tile>): Option<Tile> {
    if x == r.x then Some(left)
    else if x == r.x + r.w - 1 then Some(right)
    else if r.x < x < r.x + r.w - 1 then Some(mid)
    else prev
  }

  /** The wall at (x, y) after `fillRoom(r)`, given the wall before. */
  function RoomWall(r: Rect, x: int, y: int, prev: Option<Tile>): Option<Tile> {
    if y == r.y - 2 then EdgeRow(r, x, WallCornerTopLeft, WallTopMid, WallCornerTopRight, prev)
    else if y == r.y - 1 then EdgeRow(r, x, WallCornerLeft, WallMid, WallCornerRight, prev)
    else if y == r.y + r.h - 1 then EdgeRow(r, x, WallCornerBottomLeft, WallTopMid, WallCornerBottomRight, prev)
    else if y == r.y + r.h then EdgeRow(r, x, WallLeft, WallMid, WallRight, prev)
    else if r.y <= y < r.y + r.h - 1 then
      (if x == r.x + r.w - 1 then Some(WallSideMidLeft)
       else if x == r.x then Some(WallSideMidRight)
       else prev)
    else prev
  }

  // -------------------------------------------------- horizontal corridors

  /** The junction a horizontal corridor's stitcher probes at (x, y), if any. */
  function HJunction(c: Rect, x: int, y: int): Option<Junction> {
    if x == c.x - 1 then
      if y == c.y - 2 then Some(HTopLeft2)
      else if y == c.y - 1 then Some(HTopLeft1)
      else if c.y <= y < c.y + c.h - 1 then Some(HMidLeft)
      else if y == c.y + c.h - 1 then Some(HBottomLeft0)
      else if y == c.y + c.h then Some(HBottomLeft1)
      else None
    else if x == c.x + c.w then
      if y == c.y - 2 then Some(HTopRight2)
      else if y == c.y - 1 then Some(HTopRight1)
      else if c.y <= y < c.y + c.h - 1 then Some(HMidRight)
      else if y == c.y + c.h - 1 then Some(HBottomRight0)
      else if y == c.y + c.h then Some(HBottomRight1)
      else None
    else None
  }

  /** The straight wall a horizontal corridor draws above and below itself. */
  function HRun(c: Rect, x: int, y: int): Option<Tile> {
    if c.x <= x < c.x + c.w then
      if y == c.y - 2 || y == c.y + c.h - 1 then Some(WallTopMid)
      else if y == c.y - 1 || y == c.y + c.h then Some(WallMid)
      else None
    else None
  }

  /** The wall at (x, y) after `fillCorridorH(c)`, given the wall before. */
  function HWallAfter(c: Rect, x: int, y: int, prev: Option<Tile>): Option<Tile> {
    match HRun(c, x, y)
    case Some(t) => Some(t)
    case None => StitchAt(HJunction(c, x, y), prev)
  }

  // ---------------------------------------------------- vertical corridors

  /** The junction the first (top) half of `fillCorridorV` probes at (x, y). */
  function VTopJunction(c: Rect, x: int, y: int): Option<Junction> {
    if y == c.y - 1 then
      if x == c.x - 1 then Some(VTopLeft1)
      else if c.x <= x < c.x + c.w then Some(VTopMid1)
      else if x == c.x + c.w then Some(VTopRight1)
      else None
    else if y == c.y then
      if x == c.x - 1 then Some(VTopLeft0)
      else if c.x <= x < c.x + c.w then Some(VTopMid0)
      else if x == c.x + c.w then Some(VTopRight0)
      else None
    else None
  }

  /** The junction the second (bottom) half of `fillCorridorV` probes at (x, y). */
  function VBottomJunction(c: Rect, x: int, y: int): Option<Junction> {
    if y == c.y + c.h - 2 then
      if x == c.x - 1 then Some(VBottomLeft2)
      else if c.x <= x < c.x + c.w then Some(VBottomMid2)
      else if x == c.x + c.w then Some(VBottomRight2)
      else None
    else if y == c.y + c.h - 1 then
      if x == c.x - 1 then Some(VBottomLeft1)
      else if c.x <= x < c.x + c.w then Some(VBottomMid1)
      else if x == c.x + c.w then Some(VBottomRight1)
      else None
    else None
  }

  /** The side walls a vertical corridor draws left and right of itself. */
  function VSide(c: Rect, x: int, y: int): Option<Tile> {
    if c.y + 1 <= y < c.y + c.h - 2 then
      if x == c.x - 1 then Some(WallSideMidLeft)
      else if x == c.x + c.w then Some(WallSideMidRight)
      else None
    else None
  }

  /** The wall after the top half of `fillCorridorV`. */
  function VTopAfter(c: Rect, x: int, y: int, prev: Option<Tile>): Option<Tile> {
    StitchAt(VTopJunction(c, x, y), prev)
  }

  /**
   * The wall at (x, y) after `fillCorridorV(c)`: the bottom half reads what
   * the top half left (the two overlap when h < 3), and the side walls come
   * last.
   */
  function VWallAfter(c: Rect, x: int, y: int, prev: Option<Tile>): Option<Tile> {
    match VSide(c, x, y)
    case Some(t) => Some(t)
    case None => StitchAt(VBottomJunction(c, x, y), VTopAfter(c, x, y, prev))
  }

  // ----------------------------------------------------------------- fill

  /** The wall at (x, y) after `fillRoom` ran on each of `rs` in order. */
  function RoomsWall(rs: seq<Rect>, x: int, y: int, prev: Option<Tile>): Option<Tile>
    decreases |rs|
  {
    if rs == [] then prev
    else RoomWall(rs[|rs| - 1], x, y, RoomsWall(rs[..|rs| - 1], x, y, prev))
  }

  /** The wall at (x, y) after `fillCorridorH` ran on each of `cs` in order. */
  function CorridorsHWall(cs: seq<Rect>, x: int, y: int, prev: Option<Tile>): Option<Tile>
    decreases |cs|
  {
    if cs == [] then prev
    else HWallAfter(cs[|cs| - 1], x, y, CorridorsHWall(cs[..|cs| - 1], x, y, prev))
  }

  /** The wall at (x, y) after `fillCorridorV` ran on each of `cs` in order. */
  function CorridorsVWall(cs: seq<Rect>, x: int, y: int, prev: Option<Tile>): Option<Tile>
    decreases |cs|
  {
    if cs == [] then prev
    else VWallAfter(cs[|cs| - 1], x, y, CorridorsVWall(cs[..|cs| - 1], x, y, prev))
  }

  /** The wall at (x, y) after `fill`: rooms first, then horizontal, then vertical corridors. */
  function FillWall(rooms: seq<Rect>, hs: seq<Rect>, vs: seq<Rect>, x: int, y: int, prev: Option<Tile>): Option<Tile> {
    CorridorsVWall(vs, x, y, CorridorsHWall(hs, x, y, RoomsWall(rooms, x, y, prev)))
  }

  /** Some rectangle of `rs` holds the cell (x, y). */
  predicate Covered(rs: seq<Rect>, x: int, y: int) {
    exists k | 0 <= k < |rs| :: rs[k].Contains(x, y)
  }
}
