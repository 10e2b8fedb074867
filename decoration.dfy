/**
 * `replaceFloorRandomly`, `replaceLadder` and `replaceWallRandomly`: the
 * cosmetic sweeps over the finished grid and the exit ladder.
 */
module Decoration {
  import opened Wrappers
  import opened Tiles
  import opened Geometry
  import opened Random
  import opened Dungeon

  /** The floor of a cell after the floor pass changed the cells of `varied`. */
  function VariedFloor(varied: map<(int, int), Tile>, x: int, y: int, f0: Option<Tile>): Option<Tile> {
    if (x, y) in varied then Some(varied[(x, y)]) else f0
  }

  /**
   * `replaceFloorRandomly`: each floor cell, with one chance in five, becomes
   * a variant from `floor_2` .. `floor_8`. `varied` records the cells
   * changed: each held a floor before, and nothing else changed.
   */
  method ReplaceFloorRandomly(d: DungeonLevel, rng: Rng) returns (ghost varied: map<(int, int), Tile>)
    requires d.Valid()
    modifies d.floorMap, rng
    ensures forall k | k in varied ::
      0 <= k.0 < d.width && 0 <= k.1 < d.height && old(d.floorMap[k.1, k.0]).Some? && varied[k] in FloorVariants
    ensures forall yy, xx {:trigger d.floorMap[yy, xx]} | 0 <= yy < d.height && 0 <= xx < d.width ::
      d.floorMap[yy, xx] == VariedFloor(varied, xx, yy, old(d.floorMap[yy, xx]))
  {
    varied := map[];
    var y := 0;
    while y < d.height
      invariant 0 <= y <= d.height
      invariant forall k | k in varied ::
        0 <= k.0 < d.width && 0 <= k.1 < y && old(d.floorMap[k.1, k.0]).Some? && varied[k] in FloorVariants
      invariant forall yy, xx | 0 <= yy < d.height && 0 <= xx < d.width ::
        d.floorMap[yy, xx] == VariedFloor(varied, xx, yy, old(d.floorMap[yy, xx]))
    {
      var x := 0;
      while x < d.width
        invariant 0 <= x <= d.width
        invariant forall k | k in varied ::
          0 <= k.0 < d.width && 0 <= k.1 <= y && (k.1 < y || k.0 < x) &&
          old(d.floorMap[k.1, k.0]).Some? && varied[k] in FloorVariants
        invariant forall yy, xx | 0 <= yy < d.height && 0 <= xx < d.width ::
          d.floorMap[yy, xx] == VariedFloor(varied, xx, yy, old(d.floorMap[yy, xx]))
      {
        // the coin is drawn only for a cell that has a floor
        if d.floorMap[y, x].Some? {
          var coin := rng.Coin();
          if coin {
            var i := rng.Choice(|FloorVariants|);
            d.SetFloor(x, y, Some(FloorVariants[i]));
            varied := varied[(x, y) := FloorVariants[i]];
          }
        }
        x := x + 1;
      }
      y := y + 1;
    }
  }

  /** `replaceLadder`: the exit ladder at the centre of the last room. */
  method ReplaceLadder(d: DungeonLevel)
    requires d.Valid() && |d.rooms| > 0 && d.LayoutFits()
    modifies d.floorMap
    ensures var last := d.rooms[|d.rooms| - 1];
      last.Contains(last.CenterX(), last.CenterY()) &&
      d.floorMap[last.CenterY(), last.CenterX()] == Some(FloorLadder)
    ensures forall yy, xx | 0 <= yy < d.height && 0 <= xx < d.width ::
      var last := d.rooms[|d.rooms| - 1];
      (yy != last.CenterY() || xx != last.CenterX()) ==> d.floorMap[yy, xx] == old(d.floorMap[yy, xx])
  {
    var last := d.rooms[|d.rooms| - 1];
    CenterInside(last);
    d.SetFloor(last.CenterX(), last.CenterY(), Some(FloorLadder));
  }

  /** The palette for a `wall_mid`: the full one when a floor lies below it. */
  function Palette(floorBelow: bool): (p: seq<Tile>)
    ensures WallHole1 in p && WallHole2 in p
  {
    if floorBelow then WallMidTopFeatures else WallMidBottomFeatures
  }

  /** A feature `t` may replace a wall that was `w0` with a floor `below0` under it. */
  predicate FeatureAllowed(w0: Option<Tile>, below0: Option<Tile>, t: Tile) {
    w0 == Some(WallMid) && t in Palette(below0.Some?)
  }

  predicate IsFountain(t: Tile) {
    t == WallFountainMidRed || t == WallFountainMidBlue
  }

  /** The floor a feature puts below its wall: a goo base or a fountain basin. */
  function FeatureBase(f: Tile): (b: Option<Tile>)
    ensures b.Some? ==> f in WallMidTopFeatures && f !in WallMidBottomFeatures
    ensures b.Some? ==> b.value != FloorLadder && b.value !in FloorVariants
  {
    if f == WallGoo then Some(GooBase)
    else if f == WallFountainMidRed then Some(FountainBasinRed)
    else if f == WallFountainMidBlue then Some(FountainBasinBlue)
    else None
  }

  /** No `wall_mid` on the first or the last row, so the cells above and below each one exist. */
  ghost predicate MidRowsInside(d: DungeonLevel)
    reads d.wallMap
    requires d.Valid()
  {
    forall yy, xx | 0 <= yy < d.height && 0 <= xx < d.width ::
      d.wallMap[yy, xx] == Some(WallMid) ==> 1 <= yy < d.height - 1
  }

  /**
   * The wall of cell (`x`, `y`) after `replaceWallRandomly` placed the
   * features `placed`: a fountain below puts its top here, otherwise the
   * feature placed here, otherwise the wall before the pass.
   */
  function WallAfter(placed: map<(int, int), Tile>, x: int, y: int, w0: Option<Tile>): Option<Tile> {
    if (x, y + 1) in placed && IsFountain(placed[(x, y + 1)]) then Some(WallFountainTop)
    else if (x, y) in placed then Some(placed[(x, y)])
    else w0
  }

  /** The floor of cell (`x`, `y`) after the pass: the base of a feature placed just above, or the floor before. */
  function FloorAfter(placed: map<(int, int), Tile>, x: int, y: int, f0: Option<Tile>): Option<Tile> {
    if (x, y - 1) in placed && FeatureBase(placed[(x, y - 1)]).Some? then FeatureBase(placed[(x, y - 1)])
    else f0
  }

  /** The placement a single cell contributes: its feature, if one was placed. */
  function Placement(f: Option<Tile>, x: int, y: int): map<(int, int), Tile> {
    if f.Some? then map[(x, y) := f.value] else map[]
  }

  /** Puts feature `f` on the `wall_mid` at (`x`, `y`), with the base below and, for a fountain, the top above. */
  method PlaceFeature(d: DungeonLevel, x: int, y: int, f: Tile)
    requires d.Valid() && 0 <= x < d.width && 1 <= y < d.height - 1
    modifies d.wallMap, d.floorMap
    ensures forall yy, xx | 0 <= yy < d.height && 0 <= xx < d.width ::
      d.wallMap[yy, xx] == WallAfter(map[(x, y) := f], xx, yy, old(d.wallMap[yy, xx]))
    ensures forall yy, xx | 0 <= yy < d.height && 0 <= xx < d.width ::
      d.floorMap[yy, xx] == FloorAfter(map[(x, y) := f], xx, yy, old(d.floorMap[yy, xx]))
  {
    if IsFountain(f) {
      d.SetWall(x, y - 1, Some(WallFountainTop));
    }
    d.SetWall(x, y, Some(f));
    if FeatureBase(f).Some? {
      d.SetFloor(x, y + 1, FeatureBase(f));
    }
  }

  /**
   * One cell of `replaceWallRandomly`. `f` is the feature placed, if any:
   * only on a `wall_mid`, chosen from the palette the floor below selects.
   */
  method DecorateWall(d: DungeonLevel, rng: Rng, x: int, y: int) returns (f: Option<Tile>)
    requires d.Valid() && d.InGrid(x, y)
    requires d.wallMap[y, x] == Some(WallMid) ==> 1 <= y < d.height - 1
    modifies d.wallMap, d.floorMap, rng
    ensures f.Some? ==>
      1 <= y < d.height - 1 && FeatureAllowed(old(d.wallMap[y, x]), old(d.floorMap[y + 1, x]), f.value)
    ensures forall yy, xx | 0 <= yy < d.height && 0 <= xx < d.width ::
      d.wallMap[yy, xx] == WallAfter(Placement(f, x, y), xx, yy, old(d.wallMap[yy, xx]))
    ensures forall yy, xx | 0 <= yy < d.height && 0 <= xx < d.width ::
      d.floorMap[yy, xx] == FloorAfter(Placement(f, x, y), xx, yy, old(d.floorMap[yy, xx]))
  {
    f := None;
    if d.wallMap[y, x] == Some(WallMid) {
      var coin := rng.Coin();
      if coin {
        var isTop := d.floorMap[y + 1, x].Some?;
        var replacements := Palette(isTop);
        var i := rng.Choice(|replacements|);
        PlaceFeature(d, x, y, replacements[i]);
        f := Some(replacements[i]);
      }
    }
  }

  /**
   * Placing `later` after `earlier` is placing their union, provided they
   * share no cell and nothing of `later` sits just above a feature of
   * `earlier` (the pass goes down the rows, so a fountain's top is written
   * after the cell above it was visited).
   */
  lemma ComposePlacements(earlier: map<(int, int), Tile>, later: map<(int, int), Tile>, x: int, y: int, w0: Option<Tile>, f0: Option<Tile>)
    requires earlier.Keys !! later.Keys
    requires forall k | k in later :: (k.0, k.1 + 1) !in earlier
    ensures WallAfter(earlier + later, x, y, w0) == WallAfter(later, x, y, WallAfter(earlier, x, y, w0))
    ensures FloorAfter(earlier + later, x, y, f0) == FloorAfter(later, x, y, FloorAfter(earlier, x, y, f0))
  {
    if (x, y) in later {
      assert (x, y + 1) !in earlier;
    }
  }

  /** One row of `replaceWallRandomly`, left to right; `placed` holds the features placed on it. */
  method DecorateRow(d: DungeonLevel, rng: Rng, y: int) returns (ghost placed: map<(int, int), Tile>)
    requires d.Valid() && 0 <= y < d.height
    requires forall xx | 0 <= xx < d.width :: d.wallMap[y, xx] == Some(WallMid) ==> 1 <= y < d.height - 1
    modifies d.wallMap, d.floorMap, rng
    ensures forall k | k in placed ::
      0 <= k.0 < d.width && k.1 == y && 1 <= y < d.height - 1 &&
      FeatureAllowed(old(d.wallMap[k.1, k.0]), old(d.floorMap[k.1 + 1, k.0]), placed[k])
    ensures forall yy, xx | 0 <= yy < d.height && 0 <= xx < d.width ::
      d.wallMap[yy, xx] == WallAfter(placed, xx, yy, old(d.wallMap[yy, xx]))
    ensures forall yy, xx | 0 <= yy < d.height && 0 <= xx < d.width ::
      d.floorMap[yy, xx] == FloorAfter(placed, xx, yy, old(d.floorMap[yy, xx]))
  {
    placed := map[];
    var x := 0;
    while x < d.width
      invariant 0 <= x <= d.width
      invariant forall k | k in placed ::
        0 <= k.0 < x && k.1 == y && 1 <= y < d.height - 1 &&
        FeatureAllowed(old(d.wallMap[k.1, k.0]), old(d.floorMap[k.1 + 1, k.0]), placed[k])
      invariant forall yy, xx | 0 <= yy < d.height && 0 <= xx < d.width ::
        d.wallMap[yy, xx] == WallAfter(placed, xx, yy, old(d.wallMap[yy, xx]))
      invariant forall yy, xx | 0 <= yy < d.height && 0 <= xx < d.width ::
        d.floorMap[yy, xx] == FloorAfter(placed, xx, yy, old(d.floorMap[yy, xx]))
    {
      assert (x, y) !in placed && (x, y + 1) !in placed && (x, y - 1) !in placed;
      assert d.wallMap[y, x] == old(d.wallMap[y, x]);
      assert y + 1 < d.height ==> d.floorMap[y + 1, x] == old(d.floorMap[y + 1, x]);
      label before:
      var f := DecorateWall(d, rng, x, y);
      var step := Placement(f, x, y);
      assert forall k | k in step ::
        k == (x, y) && 1 <= y < d.height - 1 &&
        FeatureAllowed(old(d.wallMap[k.1, k.0]), old(d.floorMap[k.1 + 1, k.0]), step[k]);
      assert placed.Keys !! step.Keys;
      assert forall k | k in step :: (k.0, k.1 + 1) !in placed;
      forall yy, xx | 0 <= yy < d.height && 0 <= xx < d.width
        ensures d.wallMap[yy, xx] == WallAfter(placed + step, xx, yy, old(d.wallMap[yy, xx]))
        ensures d.floorMap[yy, xx] == FloorAfter(placed + step, xx, yy, old(d.floorMap[yy, xx]))
      {
        ComposePlacements(placed, step, xx, yy, old(d.wallMap[yy, xx]), old(d.floorMap[yy, xx]));
        assert old@before(d.wallMap[yy, xx]) == WallAfter(placed, xx, yy, old(d.wallMap[yy, xx]));
        assert old@before(d.floorMap[yy, xx]) == FloorAfter(placed, xx, yy, old(d.floorMap[yy, xx]));
      }
      placed := placed + step;
      x := x + 1;
    }
  }

  /**
   * `replaceWallRandomly`: each `wall_mid`, with one chance in five, becomes
   * a feature. `placed` records the features placed: only on cells that
   * held a `wall_mid`, each from the palette the floor below selected.
   */
  method ReplaceWallRandomly(d: DungeonLevel, rng: Rng) returns (ghost placed: map<(int, int), Tile>)
    requires d.Valid() && MidRowsInside(d)
    modifies d.wallMap, d.floorMap, rng
    ensures forall k | k in placed ::
      0 <= k.0 < d.width && 1 <= k.1 < d.height - 1 &&
      FeatureAllowed(old(d.wallMap[k.1, k.0]), old(d.floorMap[k.1 + 1, k.0]), placed[k])
    ensures forall yy, xx {:trigger d.wallMap[yy, xx]} | 0 <= yy < d.height && 0 <= xx < d.width ::
      d.wallMap[yy, xx] == WallAfter(placed, xx, yy, old(d.wallMap[yy, xx]))
    ensures forall yy, xx {:trigger d.floorMap[yy, xx]} | 0 <= yy < d.height && 0 <= xx < d.width ::
      d.floorMap[yy, xx] == FloorAfter(placed, xx, yy, old(d.floorMap[yy, xx]))
  {
    placed := map[];
    var y := 0;
    while y < d.height
      invariant 0 <= y <= d.height
      invariant forall k | k in placed ::
        0 <= k.0 < d.width && 1 <= k.1 < d.height - 1 && k.1 < y &&
        FeatureAllowed(old(d.wallMap[k.1, k.0]), old(d.floorMap[k.1 + 1, k.0]), placed[k])
      invariant forall yy, xx | 0 <= yy < d.height && 0 <= xx < d.width ::
        d.wallMap[yy, xx] == WallAfter(placed, xx, yy, old(d.wallMap[yy, xx]))
      invariant forall yy, xx | 0 <= yy < d.height && 0 <= xx < d.width ::
        d.floorMap[yy, xx] == FloorAfter(placed, xx, yy, old(d.floorMap[yy, xx]))
    {
      assert forall xx | 0 <= xx < d.width :: (xx, y) !in placed && (xx, y + 1) !in placed;
      assert forall xx | 0 <= xx < d.width ::
        d.wallMap[y, xx] == old(d.wallMap[y, xx]) &&
        (y + 1 < d.height ==> d.floorMap[y + 1, xx] == old(d.floorMap[y + 1, xx]));
      label before:
      var row := DecorateRow(d, rng, y);
      assert placed.Keys !! row.Keys;
      assert forall k | k in row :: (k.0, k.1 + 1) !in placed;
      forall yy, xx | 0 <= yy < d.height && 0 <= xx < d.width
        ensures d.wallMap[yy, xx] == WallAfter(placed + row, xx, yy, old(d.wallMap[yy, xx]))
        ensures d.floorMap[yy, xx] == FloorAfter(placed + row, xx, yy, old(d.floorMap[yy, xx]))
      {
        ComposePlacements(placed, row, xx, yy, old(d.wallMap[yy, xx]), old(d.floorMap[yy, xx]));
        assert old@before(d.wallMap[yy, xx]) == WallAfter(placed, xx, yy, old(d.wallMap[yy, xx]));
        assert old@before(d.floorMap[yy, xx]) == FloorAfter(placed, xx, yy, old(d.floorMap[yy, xx]));
      }
      placed := placed + row;
      y := y + 1;
    }
  }
}
