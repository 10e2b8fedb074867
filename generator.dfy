/**
 * `DungeonGenerator.generate` and `generateRooms`: a fresh 200 by 200 level
 * is laid out, filled, decorated, populated with monsters, a boss on every
 * fifth level and drops, and the hero is put in the centre of the first
 * room.
 */
module Generator {
  import opened Wrappers
  import opened Tiles
  import opened Geometry
  import opened Random
  import opened Dungeon
  import opened Walls
  import opened WallFacts
  import opened Filler
  import opened Decoration
  import opened Population

  /** The side of every generated level. */
  const LevelSize: nat := 200

  /** Tries for tiny monsters: three, and one more per level. */
  function MonstersTotal(level: nat): (n: nat)
    ensures n >= 3 && n - level == 3
  {
    3 + level
  }

  /** Tries for drops: five, and one more per level; always two more than for monsters. */
  function DropTotal(level: nat): (n: nat)
    ensures n >= 5 && n == MonstersTotal(level) + 2
  {
    5 + level
  }

  /** Boss levels: the multiples of five, level 0 included. */
  function IsBossLevel(level: nat): (b: bool)
    ensures b <==> level == 5 * (level / 5)
    ensures level == 0 ==> b
  {
    level % 5 == 0
  }

  /** The rooms and corridors the tunneling algorithm returns when it succeeds. */
  datatype Layout = Layout(rooms: seq<Rect>, corridorsH: seq<Rect>, corridorsV: seq<Rect>)

  /** What a successful layout guarantees: at least one room, every rectangle fitting the grid. */
  predicate LayoutFitsGrid(l: Layout, width: int, height: int) {
    |l.rooms| > 0 &&
    AllFit(l.rooms, width, height) && AllFit(l.corridorsH, width, height) && AllFit(l.corridorsV, width, height)
  }

  /** A floor, or a wall feature's base, lies exactly on the cells the layout's rectangles cover. */
  predicate CoveredAny(l: Layout, x: int, y: int) {
    Covered(l.rooms, x, y) || Covered(l.corridorsH, x, y) || Covered(l.corridorsV, x, y)
  }

  /** The floor of a cell after `replaceLadder` put the ladder on `ladder`. */
  function LadderFloor(ladder: (int, int), x: int, y: int, f: Option<Tile>): Option<Tile> {
    if (x, y) == ladder then Some(FloorLadder) else f
  }

  /** The floor of a cell after `replace`, from the floor `f0` before it. */
  function ReplacedFloor(varied: map<(int, int), Tile>, ladder: (int, int), placed: map<(int, int), Tile>, x: int, y: int, f0: Option<Tile>): Option<Tile> {
    FloorAfter(placed, x, y, LadderFloor(ladder, x, y, VariedFloor(varied, x, y, f0)))
  }

  /**
   * `replace`: the floor pass, the ladder on the centre of the last room,
   * then the wall pass, which picks each palette by the floor the first two
   * passes left below.
   */
  method Replace(d: DungeonLevel, rng: Rng) returns (ghost varied: map<(int, int), Tile>, ghost placed: map<(int, int), Tile>)
    requires d.Valid() && |d.rooms| > 0 && d.LayoutFits() && MidRowsInside(d)
    modifies d.floorMap, d.wallMap, rng
    ensures d.InGrid(Ladder(d.rooms).0, Ladder(d.rooms).1)
    ensures forall k | k in varied ::
      0 <= k.0 < d.width && 0 <= k.1 < d.height && old(d.floorMap[k.1, k.0]).Some? && varied[k] in FloorVariants
    ensures forall k | k in placed ::
      0 <= k.0 < d.width && 1 <= k.1 < d.height - 1 &&
      FeatureAllowed(old(d.wallMap[k.1, k.0]),
        LadderFloor(Ladder(d.rooms), k.0, k.1 + 1, VariedFloor(varied, k.0, k.1 + 1, old(d.floorMap[k.1 + 1, k.0]))),
        placed[k])
    ensures forall yy, xx {:trigger d.floorMap[yy, xx]} | 0 <= yy < d.height && 0 <= xx < d.width ::
      d.floorMap[yy, xx] == ReplacedFloor(varied, Ladder(d.rooms), placed, xx, yy, old(d.floorMap[yy, xx]))
    ensures forall yy, xx {:trigger d.wallMap[yy, xx]} | 0 <= yy < d.height && 0 <= xx < d.width ::
      d.wallMap[yy, xx] == WallAfter(placed, xx, yy, old(d.wallMap[yy, xx]))
  {
    varied := ReplaceFloorRandomly(d, rng);
    label floored:
    ReplaceLadder(d);
    label laddered:
    placed := ReplaceWallRandomly(d, rng);
    forall yy, xx | 0 <= yy < d.height && 0 <= xx < d.width
      ensures old@laddered(d.floorMap[yy, xx]) ==
        LadderFloor(Ladder(d.rooms), xx, yy, VariedFloor(varied, xx, yy, old(d.floorMap[yy, xx])))
      ensures old@laddered(d.wallMap[yy, xx]) == old(d.wallMap[yy, xx])
    {
      assert old@floored(d.floorMap[yy, xx]) == VariedFloor(varied, xx, yy, old(d.floorMap[yy, xx]));
    }
  }

  /** The cell of the exit ladder: the centre of the last room. */
  function Ladder(rooms: seq<Rect>): (c: (int, int))
    requires |rooms| > 0
    ensures rooms[|rooms| - 1].w >= 1 && rooms[|rooms| - 1].h >= 1 ==> rooms[|rooms| - 1].Contains(c.0, c.1)
  {
    var last := rooms[|rooms| - 1];
    (last.CenterX(), last.CenterY())
  }

  /** A feature that puts a base below itself is only ever chosen above a floor. */
  lemma BaseNeedsFloor(t: Tile, floorBelow: bool)
    requires t in Palette(floorBelow) && FeatureBase(t).Some?
    ensures floorBelow
  {
  }

  /**
   * After `replace` a cell has a floor exactly when it had one before or is
   * the ladder's cell: the floor pass only swaps floors, and a goo base or a
   * fountain basin is only put where a floor lies.
   */
  lemma ReplacedFloorPresence(varied: map<(int, int), Tile>, ladder: (int, int), placed: map<(int, int), Tile>, x: int, y: int, f0: Option<Tile>)
    requires (x, y) in varied ==> f0.Some?
    requires (x, y - 1) in placed ==>
      placed[(x, y - 1)] in Palette(LadderFloor(ladder, x, y, VariedFloor(varied, x, y, f0)).Some?)
    ensures ReplacedFloor(varied, ladder, placed, x, y, f0).Some? <==> f0.Some? || (x, y) == ladder
  {
    if (x, y - 1) in placed && FeatureBase(placed[(x, y - 1)]).Some? {
      BaseNeedsFloor(placed[(x, y - 1)], LadderFloor(ladder, x, y, VariedFloor(varied, x, y, f0)).Some?);
    }
  }

  /**
   * The ladder is on its cell unless a goo or a fountain put its base there,
   * and on no other cell: the floor variants and the bases are not ladders.
   */
  lemma ReplacedFloorLadder(varied: map<(int, int), Tile>, ladder: (int, int), placed: map<(int, int), Tile>, x: int, y: int, f0: Option<Tile>)
    requires f0 != Some(FloorLadder)
    requires (x, y) in varied ==> varied[(x, y)] in FloorVariants
    ensures (x, y) != ladder ==> ReplacedFloor(varied, ladder, placed, x, y, f0) != Some(FloorLadder)
    ensures (x, y) == ladder ==>
      (ReplacedFloor(varied, ladder, placed, x, y, f0) == Some(FloorLadder) <==>
       !((x, y - 1) in placed && FeatureBase(placed[(x, y - 1)]).Some?))
  {
  }

  /**
   * The ladder shows on no cell but `ladder`, and on that one exactly when
   * no goo base or basin was placed on it from the wall above.
   */
  predicate LadderOnlyAt(f: Option<Tile>, ladder: (int, int), placed: map<(int, int), Tile>, x: int, y: int) {
    ((x, y) != ladder ==> f != Some(FloorLadder)) &&
    ((x, y) == ladder ==>
      (f == Some(FloorLadder) <==> !((x, y - 1) in placed && FeatureBase(placed[(x, y - 1)]).Some?)))
  }

  /** The floor `fill` lays on a blank level: `floor_1` on the layout's rectangles, nothing elsewhere. */
  function FilledFloor(l: Layout, x: int, y: int): (f: Option<Tile>)
    ensures f.Some? <==> CoveredAny(l, x, y)
    ensures f != Some(FloorLadder)
  {
    if CoveredAny(l, x, y) then Some(Floor1) else None
  }

  /**
   * The floors `replace` leaves on a level that `fill` covered with
   * `floor_1` exactly on the layout's rectangles.
   */
  lemma ReplacedFloors(d: DungeonLevel, l: Layout, varied: map<(int, int), Tile>, placed: map<(int, int), Tile>)
    requires d.Valid() && |d.rooms| > 0 && d.rooms == l.rooms && AllFit(d.rooms, d.width, d.height)
    requires forall k | k in varied ::
      0 <= k.0 < d.width && 0 <= k.1 < d.height && CoveredAny(l, k.0, k.1) && varied[k] in FloorVariants
    requires forall k | k in placed ::
      0 <= k.0 < d.width && 1 <= k.1 < d.height - 1 &&
      placed[k] in Palette(LadderFloor(Ladder(d.rooms), k.0, k.1 + 1, VariedFloor(varied, k.0, k.1 + 1, FilledFloor(l, k.0, k.1 + 1))).Some?)
    requires forall yy, xx {:trigger d.floorMap[yy, xx]} | 0 <= yy < d.height && 0 <= xx < d.width ::
      d.floorMap[yy, xx] == ReplacedFloor(varied, Ladder(d.rooms), placed, xx, yy, FilledFloor(l, xx, yy))
    ensures forall yy, xx | 0 <= yy < d.height && 0 <= xx < d.width ::
      d.floorMap[yy, xx].Some? <==> CoveredAny(l, xx, yy)
    ensures forall yy, xx | 0 <= yy < d.height && 0 <= xx < d.width ::
      LadderOnlyAt(d.floorMap[yy, xx], Ladder(d.rooms), placed, xx, yy)
    ensures forall k | k in placed :: 0 <= k.0 < d.width && k.1 + 1 < d.height && placed[k] in Palette(d.floorMap[k.1 + 1, k.0].Some?)
  {
    var ladder := Ladder(d.rooms);
    var last := d.rooms[|d.rooms| - 1];
    assert Fits(last, d.width, d.height);
    assert last.Contains(ladder.0, ladder.1);
    assert CoveredAny(l, ladder.0, ladder.1);
    forall yy, xx | 0 <= yy < d.height && 0 <= xx < d.width
      ensures d.floorMap[yy, xx].Some? <==> CoveredAny(l, xx, yy)
      ensures LadderOnlyAt(d.floorMap[yy, xx], Ladder(d.rooms), placed, xx, yy)
    {
      var f0 := FilledFloor(l, xx, yy);
      ReplacedFloorPresence(varied, ladder, placed, xx, yy, f0);
      ReplacedFloorLadder(varied, ladder, placed, xx, yy, f0);
    }
    forall k | k in placed
      ensures placed[k] in Palette(d.floorMap[k.1 + 1, k.0].Some?)
    {
      ReplacedFloorPresence(varied, ladder, placed, k.0, k.1 + 1, FilledFloor(l, k.0, k.1 + 1));
    }
  }

  /** Every cell of the level has neither a floor nor a wall. */
  ghost predicate Blank(d: DungeonLevel)
    reads d.floorMap, d.wallMap
    requires d.Valid()
  {
    forall yy, xx | 0 <= yy < d.height && 0 <= xx < d.width :: d.floorMap[yy, xx] == None && d.wallMap[yy, xx] == None
  }

  /**
   * The level after `generateRooms` succeeded with layout `l`: its
   * rectangles are the layout's; a cell has a floor exactly when a
   * rectangle covers it; the ladder is where `LadderOnlyAt` says; every wall
   * is the one `fill` built, changed only by the features in `placed`; and
   * each feature hangs on a plain mid wall and comes from the palette its
   * final floor below selects.
   */
  ghost predicate Laid(d: DungeonLevel, l: Layout, placed: map<(int, int), Tile>)
    reads d`rooms, d`corridorsH, d`corridorsV, d.floorMap, d.wallMap
    requires d.Valid()
  {
    d.rooms == l.rooms && |l.rooms| > 0 && d.corridorsH == l.corridorsH && d.corridorsV == l.corridorsV &&
    (forall yy, xx | 0 <= yy < d.height && 0 <= xx < d.width ::
      d.floorMap[yy, xx].Some? <==> CoveredAny(l, xx, yy)) &&
    (forall yy, xx | 0 <= yy < d.height && 0 <= xx < d.width ::
      LadderOnlyAt(d.floorMap[yy, xx], Ladder(d.rooms), placed, xx, yy)) &&
    (forall yy, xx | 0 <= yy < d.height && 0 <= xx < d.width ::
      d.wallMap[yy, xx] == WallAfter(placed, xx, yy, FillWall(d.rooms, d.corridorsH, d.corridorsV, xx, yy, None))) &&
    (forall k | k in placed ::
      0 <= k.0 < d.width && 1 <= k.1 < d.height - 1 &&
      FillWall(d.rooms, d.corridorsH, d.corridorsV, k.0, k.1, None) == Some(WallMid) &&
      placed[k] in Palette(d.floorMap[k.1 + 1, k.0].Some?))
  }

  /**
   * `generateRooms`: when the tunneling algorithm produced a layout, takes
   * its rectangles, fills and decorates the level and answers true;
   * otherwise leaves the level as it was and answers false. `placed`
   * records the wall features.
   */
  method GenerateRooms(d: DungeonLevel, layout: Option<Layout>, rng: Rng) returns (ok: bool, ghost placed: map<(int, int), Tile>)
    requires d.Valid() && Blank(d) && d.rooms == [] && d.corridorsH == [] && d.corridorsV == []
    requires layout.Some? ==> LayoutFitsGrid(layout.value, d.width, d.height)
    modifies d`rooms, d`corridorsH, d`corridorsV, d.floorMap, d.wallMap, rng
    ensures ok <==> layout.Some?
    ensures !ok ==> d.rooms == [] && d.corridorsH == [] && d.corridorsV == [] && Blank(d)
    ensures ok ==> Laid(d, layout.value, placed)
  {
    if layout.None? {
      return false, map[];
    }
    var l := layout.value;
    d.corridorsH := d.corridorsH + l.corridorsH;
    d.corridorsV := d.corridorsV + l.corridorsV;
    d.rooms := d.rooms + l.rooms;
    assert d.rooms == l.rooms && d.corridorsH == l.corridorsH && d.corridorsV == l.corridorsV;
    Fill(d);
    forall yy, xx | 0 <= yy < d.height && 0 <= xx < d.width
      ensures d.wallMap[yy, xx] == Some(WallMid) ==> 1 <= yy < d.height - 1
    {
      FillMidInside(d.rooms, d.corridorsH, d.corridorsV, xx, yy, d.width, d.height);
    }
    assert forall yy, xx | 0 <= yy < d.height && 0 <= xx < d.width :: d.floorMap[yy, xx] == FilledFloor(l, xx, yy);
    label filled:
    ghost var varied;
    varied, placed := Replace(d, rng);
    forall yy, xx | 0 <= yy < d.height && 0 <= xx < d.width
      ensures d.floorMap[yy, xx] == ReplacedFloor(varied, Ladder(d.rooms), placed, xx, yy, FilledFloor(l, xx, yy))
    {
      assert old@filled(d.floorMap[yy, xx]) == FilledFloor(l, xx, yy);
    }
    ReplacedFloors(d, l, varied, placed);
    ok := true;
  }

  /**
   * The second half of `generate(level)`: `MonstersTotal(level)` tries for
   * tiny monsters, on a boss level one boss, `DropTotal(level)` tries for
   * drops, and the hero in the centre of the first room.
   */
  method Populate(d: DungeonLevel, rng: Rng, tinyNames: seq<string>, bossNames: seq<string>)
    requires d.Valid() && d.LayoutFits() && |d.rooms| > 0 && |tinyNames| > 0 && |bossNames| > 0
    requires d.monsters == [] && d.boss == None && d.drops == {}
    modifies d`monsters, d.monsterMap, d`boss, d`drops, d`heroX, d`heroY, rng
    ensures |d.monsters| <= MonstersTotal(d.level)
    ensures forall i | 0 <= i < |d.monsters| ::
      d.InGrid(d.monsters[i].x, d.monsters[i].y) && d.monsters[i].name in tinyNames &&
      InRooms(d.rooms, 1, MaxRoom(|d.rooms|, IsBossLevel(d.level)), d.monsters[i].x, d.monsters[i].y) &&
      ((d.monsters[i].x, d.monsters[i].y) != (d.heroX, d.heroY) ==>
        d.monsterMap[d.monsters[i].y, d.monsters[i].x] == TinyAt(i))
    ensures forall i, j | 0 <= i < j < |d.monsters| ::
      (d.monsters[i].x, d.monsters[i].y) != (d.monsters[j].x, d.monsters[j].y)
    ensures (d.heroX, d.heroY) == (d.rooms[0].CenterX(), d.rooms[0].CenterY()) && d.rooms[0].Contains(d.heroX, d.heroY)
    ensures d.InGrid(d.heroX, d.heroY) && d.monsterMap[d.heroY, d.heroX] == HeroHere
    ensures d.boss.Some? ==>
      IsBossLevel(d.level) && d.boss.value.name == bossNames[(d.level / 5) % |bossNames|] &&
      BossInLastRoom(d.rooms, d.boss.value) &&
      forall i | 0 <= i < |d.monsters| :: !BossBlock(d.boss.value, d.monsters[i].x, d.monsters[i].y)
    ensures |d.drops| <= DropTotal(d.level)
    ensures forall c | c in d.drops :: InRooms(d.rooms, 0, |d.rooms|, c.0, c.1)
  {
    var isBoss := IsBossLevel(d.level);
    PlaceMonsters(d, rng, MonstersTotal(d.level), isBoss, tinyNames);
    if isBoss {
      GenerateBoss(d, rng, bossNames);
    }
    PlaceDrops(d, rng, DropTotal(d.level));
    label populated:

    var first := d.rooms[0];
    assert Fits(first, d.width, d.height);
    CenterInside(first);
    d.heroX, d.heroY := first.CenterX(), first.CenterY();
    d.monsterMap[d.heroY, d.heroX] := HeroHere;
    forall i | 0 <= i < |d.monsters| && (d.monsters[i].x, d.monsters[i].y) != (d.heroX, d.heroY)
      ensures d.monsterMap[d.monsters[i].y, d.monsters[i].x] == TinyAt(i)
    {
      assert old@populated(d.monsterMap[d.monsters[i].y, d.monsters[i].x]) == TinyAt(i);
    }
  }

  /**
   * `generate(level)`: a fresh level of `LevelSize` by `LevelSize` cells
   * with the layout the tunneling algorithm returned for `level + 1`
   * rooms, filled and decorated; up to `MonstersTotal(level)` tiny monsters
   * outside the first room (and, on a boss level, outside the last), no two
   * on one cell; a boss named after the level, only on a boss level and
   * clear of every tiny monster; up to `DropTotal(level)` drops in the
   * rooms; and the hero in the centre of the first room.
   */
  method Generate(level: nat, layout: Option<Layout>, rng: Rng, tinyNames: seq<string>, bossNames: seq<string>)
    returns (d: DungeonLevel, ghost placed: map<(int, int), Tile>)
    requires layout.Some? && LayoutFitsGrid(layout.value, LevelSize, LevelSize)
    requires |tinyNames| > 0 && |bossNames| > 0
    modifies rng
    ensures fresh(d) && d.Valid() && d.level == level && d.width == LevelSize && d.height == LevelSize
    ensures Laid(d, layout.value, placed)
    ensures |d.monsters| <= MonstersTotal(level)
    ensures forall i | 0 <= i < |d.monsters| ::
      d.InGrid(d.monsters[i].x, d.monsters[i].y) && d.monsters[i].name in tinyNames &&
      InRooms(d.rooms, 1, MaxRoom(|d.rooms|, IsBossLevel(level)), d.monsters[i].x, d.monsters[i].y) &&
      ((d.monsters[i].x, d.monsters[i].y) != (d.heroX, d.heroY) ==>
        d.monsterMap[d.monsters[i].y, d.monsters[i].x] == TinyAt(i))
    ensures forall i, j | 0 <= i < j < |d.monsters| ::
      (d.monsters[i].x, d.monsters[i].y) != (d.monsters[j].x, d.monsters[j].y)
    ensures (d.heroX, d.heroY) == (d.rooms[0].CenterX(), d.rooms[0].CenterY()) && d.rooms[0].Contains(d.heroX, d.heroY)
    ensures d.InGrid(d.heroX, d.heroY) && d.monsterMap[d.heroY, d.heroX] == HeroHere
    ensures d.boss.Some? ==>
      IsBossLevel(level) && d.boss.value.name == bossNames[(level / 5) % |bossNames|] &&
      BossInLastRoom(d.rooms, d.boss.value) &&
      forall i | 0 <= i < |d.monsters| :: !BossBlock(d.boss.value, d.monsters[i].x, d.monsters[i].y)
    ensures |d.drops| <= DropTotal(level)
    ensures forall c | c in d.drops :: InRooms(d.rooms, 0, |d.rooms|, c.0, c.1)
  {
    d := new DungeonLevel(level, LevelSize, LevelSize);
    var ok;
    ok, placed := GenerateRooms(d, layout, rng);
    Populate(d, rng, tinyNames, bossNames);
  }
}
