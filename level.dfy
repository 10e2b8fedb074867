/**
 * The level state the generator fills in place: the floor, wall and monster
 * maps, the layout's rectangles, the placed monsters, the boss, the drops
 * and the hero's cell. The level class of the game holds much more (sprites,
 * lighting, a scene graph); only what the generator reads or writes is kept.
 */
module Dungeon {
  import opened Wrappers
  import opened Tiles
  import opened Geometry

  /** What the monster map holds at a cell. */
  datatype Occupant = Vacant | HeroHere | TinyAt(index: nat)

  datatype Monster = Monster(x: int, y: int, name: string)
  datatype Boss = Boss(x: int, y: int, name: string)

  class DungeonLevel {
    const level: nat
    const width: nat
    const height: nat
    /** `floorMap[y, x]` and `wallMap[y, x]`: row-major, `None` is no tile. */
    const floorMap: array2<Option<Tile>>
    const wallMap: array2<Option<Tile>>
    const monsterMap: array2<Occupant>

    var rooms: seq<Rect>
    var corridorsH: seq<Rect>
    var corridorsV: seq<Rect>
    var monsters: seq<Monster>
    var boss: Option<Boss>
    /** The cells that hold a drop. */
    var drops: set<(int, int)>
    var heroX: int
    var heroY: int

    ghost predicate Valid()
    {
      floorMap.Length0 == height && floorMap.Length1 == width &&
      wallMap.Length0 == height && wallMap.Length1 == width &&
      monsterMap.Length0 == height && monsterMap.Length1 == width &&
      floorMap != wallMap
    }

    predicate InGrid(x: int, y: int) {
      0 <= x < width && 0 <= y < height
    }

    /** Every rectangle of the layout fits the grid with its walls. */
    ghost predicate LayoutFits()
      reads this
    {
      AllFit(rooms, width, height) &&
      AllFit(corridorsH, width, height) &&
      AllFit(corridorsV, width, height)
    }

    /** A fresh level: every map empty, no layout, nothing placed. */
    constructor (level: nat, width: nat, height: nat)
      ensures this.level == level && this.width == width && this.height == height
      ensures Valid()
      ensures fresh(floorMap) && fresh(wallMap) && fresh(monsterMap)
      ensures forall y, x | 0 <= y < height && 0 <= x < width ::
        floorMap[y, x] == None && wallMap[y, x] == None && monsterMap[y, x] == Vacant
      ensures rooms == [] && corridorsH == [] && corridorsV == []
      ensures monsters == [] && boss == None && drops == {}
    {
      this.level := level;
      this.width := width;
      this.height := height;
      floorMap := new Option<Tile>[height, width]((_, _) => None);
      wallMap := new Option<Tile>[height, width]((_, _) => None);
      monsterMap := new Occupant[height, width]((_, _) => Vacant);
      rooms, corridorsH, corridorsV := [], [], [];
      monsters, boss, drops := [], None, {};
      heroX, heroY := 0, 0;
    }

    /** `setFloor(x, y, name)`: one cell of the floor map, nothing else. */
    method SetFloor(x: int, y: int, t: Option<Tile>)
      requires Valid() && InGrid(x, y)
      modifies floorMap
      ensures floorMap[y, x] == t
      ensures forall yy, xx | 0 <= yy < height && 0 <= xx < width && (yy != y || xx != x) ::
        floorMap[yy, xx] == old(floorMap[yy, xx])
    {
      floorMap[y, x] := t;
    }

    /** `setWall(x, y, name)`: one cell of the wall map, nothing else. */
    method SetWall(x: int, y: int, t: Option<Tile>)
      requires Valid() && InGrid(x, y)
      modifies wallMap
      ensures wallMap[y, x] == t
      ensures forall yy, xx | 0 <= yy < height && 0 <= xx < width && (yy != y || xx != x) ::
        wallMap[yy, xx] == old(wallMap[yy, xx])
    {
      wallMap[y, x] := t;
    }
  }
}
