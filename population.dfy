/**
 * `generateMonster`, `generateBoss` and `generateDrop`: placing tiny
 * monsters, the boss and drops into the rooms of a filled level, each with a
 * bounded number of random tries.
 */
module Population {
  import opened Wrappers
  import opened Geometry
  import opened Random
  import opened Dungeon

  /** Some room with index in [lo, hi) holds the cell (x, y). */
  predicate InRooms(rs: seq<Rect>, lo: int, hi: int, x: int, y: int) {
    exists r | 0 <= lo <= r < hi <= |rs| :: rs[r].Contains(x, y)
  }

  /** How many rooms a tiny monster may be placed in: the boss keeps the last room to itself. */
  function MaxRoom(rooms: nat, isBoss: bool): (m: int)
    ensures rooms - 1 <= m <= rooms && (isBoss <==> m < rooms)
  {
    rooms - (if isBoss then 1 else 0)
  }

  /**
   * `generateMonster`: when there are at least two candidate rooms, picks a
   * room other than the first (and, on a boss level, other than the last)
   * and tries ten random cells of it; the first vacant one gets a tiny
   * monster with a name from `names`.
   */
  method GenerateMonster(d: DungeonLevel, rng: Rng, isBoss: bool, names: seq<string>)
    requires d.Valid() && d.LayoutFits() && |names| > 0
    modifies d`monsters, d.monsterMap, rng
    ensures MaxRoom(|d.rooms|, isBoss) <= 1 ==> d.monsters == old(d.monsters)
    ensures d.monsters == old(d.monsters) ==>
      forall yy, xx | 0 <= yy < d.height && 0 <= xx < d.width :: d.monsterMap[yy, xx] == old(d.monsterMap[yy, xx])
    ensures d.monsters == old(d.monsters) || |d.monsters| == |old(d.monsters)| + 1
    ensures |d.monsters| == |old(d.monsters)| + 1 ==>
      var m := d.monsters[|d.monsters| - 1];
      d.monsters == old(d.monsters) + [m] && m.name in names &&
      InRooms(d.rooms, 1, MaxRoom(|d.rooms|, isBoss), m.x, m.y) && d.InGrid(m.x, m.y) &&
      old(d.monsterMap[m.y, m.x]) == Vacant && d.monsterMap[m.y, m.x] == TinyAt(|old(d.monsters)|) &&
      forall yy, xx | 0 <= yy < d.height && 0 <= xx < d.width && (yy != m.y || xx != m.x) ::
        d.monsterMap[yy, xx] == old(d.monsterMap[yy, xx])
    ensures rng.pos <= old(rng.pos) + 22
  {
    var maxRoom := MaxRoom(|d.rooms|, isBoss);
    if maxRoom > 1 {
      var r := rng.NextRange(1, maxRoom);
      var room := d.rooms[r];
      assert Fits(room, d.width, d.height);
      var t := 0;
      while t < 10
        invariant 0 <= t <= 10
        invariant d.monsters == old(d.monsters)
        invariant forall yy, xx | 0 <= yy < d.height && 0 <= xx < d.width ::
          d.monsterMap[yy, xx] == old(d.monsterMap[yy, xx])
        invariant rng.pos == old(rng.pos) + 1 + 2 * t
      {
        var dx := rng.NextRange(0, room.w);
        var dy := rng.NextRange(0, room.h);
        var x, y := room.x + dx, room.y + dy;
        if d.monsterMap[y, x] == Vacant {
          var i := rng.Choice(|names|);
          d.monsters := d.monsters + [Monster(x, y, names[i])];
          d.monsterMap[y, x] := TinyAt(|d.monsters| - 1);
          assert room.Contains(x, y);
          return;
        }
        t := t + 1;
      }
    }
  }

  /**
   * Each tiny monster stands on a cell of a room with index in [1, hi),
   * and the monster map names it there.
   */
  ghost predicate MonstersTracked(d: DungeonLevel, names: seq<string>, hi: int)
    reads d, d.monsterMap
    requires d.Valid()
  {
    forall i | 0 <= i < |d.monsters| ::
      d.InGrid(d.monsters[i].x, d.monsters[i].y) &&
      d.monsterMap[d.monsters[i].y, d.monsters[i].x] == TinyAt(i) &&
      d.monsters[i].name in names && InRooms(d.rooms, 1, hi, d.monsters[i].x, d.monsters[i].y)
  }

  /**
   * The monster loop of `generate`: `count` calls of `generateMonster`.
   * Every call that places a monster adds it on a cell that was vacant, so
   * no two monsters share a cell.
   */
  method PlaceMonsters(d: DungeonLevel, rng: Rng, count: nat, isBoss: bool, names: seq<string>)
    requires d.Valid() && d.LayoutFits() && |names| > 0
    requires MonstersTracked(d, names, MaxRoom(|d.rooms|, isBoss))
    modifies d`monsters, d.monsterMap, rng
    ensures |d.monsters| <= |old(d.monsters)| + count
    ensures MaxRoom(|d.rooms|, isBoss) <= 1 ==> d.monsters == old(d.monsters)
    ensures MonstersTracked(d, names, MaxRoom(|d.rooms|, isBoss))
    ensures forall i, j | 0 <= i < j < |d.monsters| ::
      (d.monsters[i].x, d.monsters[i].y) != (d.monsters[j].x, d.monsters[j].y)
  {
    var hi := MaxRoom(|d.rooms|, isBoss);
    var m := 0;
    while m < count
      invariant 0 <= m <= count
      invariant |d.monsters| <= |old(d.monsters)| + m
      invariant hi <= 1 ==> d.monsters == old(d.monsters)
      invariant MonstersTracked(d, names, hi)
    {
      GenerateMonster(d, rng, isBoss, names);
      m := m + 1;
    }
    forall i, j | 0 <= i < j < |d.monsters|
      ensures (d.monsters[i].x, d.monsters[i].y) != (d.monsters[j].x, d.monsters[j].y)
    {
      assert d.monsterMap[d.monsters[i].y, d.monsters[i].x] == TinyAt(i);
      assert d.monsterMap[d.monsters[j].y, d.monsters[j].x] == TinyAt(j);
    }
  }

  /** The 2 by 2 block a boss takes: its cell, the one to the right and the two above. */
  predicate BossBlock(b: Boss, x: int, y: int) {
    (x == b.x || x == b.x + 1) && (y == b.y || y == b.y - 1)
  }

  /**
   * Where `generateBoss` puts a boss in the last room: away from its left
   * and top edges; with the block's two columns inside the room when it is
   * at least three cells wide; with the block's two rows inside the room
   * when it is at least two cells high, and clear of its bottom row when it
   * is at least three.
   */
  predicate BossInLastRoom(rooms: seq<Rect>, b: Boss)
    requires |rooms| > 0
  {
    var room := rooms[|rooms| - 1];
    room.x + 1 <= b.x && room.y + 1 <= b.y &&
    (room.w >= 3 ==> b.x + 1 < room.x + room.w) &&
    (room.h >= 2 ==> b.y < room.y + room.h) &&
    (room.h >= 3 ==> b.y < room.y + room.h - 1)
  }

  /**
   * `generateBoss`: tries ten random cells of the last room, away from its
   * left and top edges, for a 2 by 2 block that no monster holds; the boss
   * found there is named after the level, `names[(level / 5) % |names|]`.
   */
  method GenerateBoss(d: DungeonLevel, rng: Rng, names: seq<string>)
    requires d.Valid() && d.LayoutFits() && |d.rooms| > 0 && |names| > 0
    modifies d`boss, rng
    ensures d.boss == old(d.boss) || d.boss.Some?
    ensures d.boss != old(d.boss) && d.boss.Some? ==>
      var b := d.boss.value;
      b.name == names[(d.level / 5) % |names|] && BossInLastRoom(d.rooms, b) &&
      forall yy, xx | 0 <= yy < d.height && 0 <= xx < d.width && BossBlock(b, xx, yy) ::
        d.monsterMap[yy, xx] == Vacant
    ensures d.boss != old(d.boss) && d.boss.Some? ==>
      var b := d.boss.value;
      d.InGrid(b.x, b.y) && d.InGrid(b.x + 1, b.y - 1)
    ensures rng.pos <= old(rng.pos) + 20
  {
    var room := d.rooms[|d.rooms| - 1];
    assert Fits(room, d.width, d.height);
    var t := 0;
    while t < 10
      invariant 0 <= t <= 10
      invariant d.boss == old(d.boss)
      invariant rng.pos == old(rng.pos) + 2 * t
    {
      var dx := rng.NextRange(1, room.w - 1);
      var dy := rng.NextRange(1, room.h - 1);
      var x, y := room.x + dx, room.y + dy;
      if d.monsterMap[y, x] == Vacant && d.monsterMap[y, x + 1] == Vacant &&
         d.monsterMap[y - 1, x] == Vacant && d.monsterMap[y - 1, x + 1] == Vacant
      {
        d.boss := Some(Boss(x, y, names[(d.level / 5) % |names|]));
        return;
      }
      t := t + 1;
    }
  }

  /**
   * `generateDrop`: picks a random room and tries 64 random cells of it;
   * the first one without a drop gets one.
   */
  method GenerateDrop(d: DungeonLevel, rng: Rng)
    requires d.Valid() && d.LayoutFits() && |d.rooms| > 0
    modifies d`drops, rng
    ensures old(d.drops) <= d.drops && |d.drops| <= |old(d.drops)| + 1
    ensures forall c | c in d.drops - old(d.drops) :: InRooms(d.rooms, 0, |d.rooms|, c.0, c.1)
    ensures rng.pos <= old(rng.pos) + 129
  {
    var r := rng.Choice(|d.rooms|);
    var room := d.rooms[r];
    var t := 0;
    while t < 64
      invariant 0 <= t <= 64
      invariant d.drops == old(d.drops)
      invariant rng.pos == old(rng.pos) + 1 + 2 * t
    {
      var dx := rng.NextRange(0, room.w);
      var dy := rng.NextRange(0, room.h);
      var x, y := room.x + dx, room.y + dy;
      if (x, y) !in d.drops {
        d.drops := d.drops + {(x, y)};
        assert room.Contains(x, y);
        assert d.drops - old(d.drops) == {(x, y)};
        return;
      }
      t := t + 1;
    }
  }

  /** The drop loop of `generate`: `count` calls of `generateDrop`. */
  method PlaceDrops(d: DungeonLevel, rng: Rng, count: nat)
    requires d.Valid() && d.LayoutFits() && |d.rooms| > 0
    modifies d`drops, rng
    ensures old(d.drops) <= d.drops && |d.drops| <= |old(d.drops)| + count
    ensures forall c | c in d.drops - old(d.drops) :: InRooms(d.rooms, 0, |d.rooms|, c.0, c.1)
  {
    var t := 0;
    while t < count
      invariant 0 <= t <= count
      invariant old(d.drops) <= d.drops && |d.drops| <= |old(d.drops)| + t
      invariant forall c | c in d.drops - old(d.drops) :: InRooms(d.rooms, 0, |d.rooms|, c.0, c.1)
    {
      GenerateDrop(d, rng);
      t := t + 1;
    }
  }
}
