# Dungeon generation, inventory and key bindings of a tile roguelike

This project models three parts of a browser roguelike written in TypeScript and proves properties of them in Dafny.

- **Level generator** (`src/dungeon.generator.ts`). It runs in this order:
  1. It takes the rooms and horizontal and vertical corridors of a layout.
  2. `fill` paints floor tiles into them. It also paints the wall ring of each room and each corridor, and stitches corridor walls onto the room walls they meet.
  3. `replace` does three things:
     - it swaps some floors for variants;
     - it puts the ladder at the centre of the last room;
     - it decorates some `wall_mid` tiles with holes, banners, goo and fountains. Goo and fountains also write a base tile on the floor below.
  4. It places tiny monsters, a boss on every fifth level and drops. Each gets a bounded number of random tries.
  5. It puts the hero at the centre of the first room.

  The level is the class `Dungeon.DungeonLevel`. Its floor, wall and monster maps are arrays updated in place.
  - Every fill and stitch method says what every cell of the grid holds afterwards. It does so through the pure per-cell functions of `Walls`, such as `RoomWall`, `HWallAfter` and `VWallAfter`.
  - `Generator.Generate` ends in `Generator.Laid`. This predicate states the final maps in terms of the layout and of the decorations that were placed:
    - a floor is present exactly where the layout covers the cell;
    - the ladder appears only at its cell;
    - every wall is the filled wall with the placed decorations applied;
    - every decoration came from the palette its floor allows.
- **Inventory** (`src/inventory.ts`).
  - An inventory cell holds an item and a count. Its methods are `stack`, `set`, `clear`, `decrease`, `drop`, `equip`, `toBelt` and `toBackpack`.
  - The belt has 10 cells and the backpack has 10 by 5 cells, scanned row by row. `stack`, `set`, `add` and `hasSpace` scan them first-fit.
  - The `Inventory` tries the belt before the backpack.
  - The containers are classes whose methods are proved against the first-fit functions of `Slots`, taken over the sequence of their cells' contents. Lemmas about those functions prove the rest:
    - `add` succeeds exactly when some cell has space;
    - it stores one more unit of the item and changes no other item's count;
    - it never opens a new cell while a matching stack has room;
    - every cell stays within its capacity.
- **Key bindings** (`src/input.ts`).
  - `KeyBind` is a two-state machine, Await and Pressed, with `triggered` and `processed` flags. Its `once()` is a consume-once read.
  - `Input.Run` runs a sequence of events. The lemmas about it prove these properties:
    - `once()` answers true at most once per press;
    - a reset while the key is held cannot retrigger it before the key is released;
    - events for other keys change nothing.
  - `Joystick.digit` maps 0..9 to the binding of `Digit<n>`.

The random source is an explicit stream of draws (`Random.Rng`):
- `nextRange(a, b)` draws from the half-open range [a, b);
- `nextFloat() < 0.2` is a draw divisible by 5;
- `choice` of n items is a draw modulo n.

All properties hold for every stream.

One curiosity of the code is kept as written. The top-right stitch of a vertical corridor looks for the name `wall_top_mid` without `.png`. The generator never writes that name, so the stitch never fires (`WallFacts.VTopRightNeverFires`).

## Model

| member | source | states |
|---|---|---|
| Geometry.CenterInside | src/dungeon.generator.ts:49-51 | the centre `x + (w >> 1)`, `y + (h >> 1)` of a non-empty room lies inside it |
| Random.Pick | src/dungeon.generator.ts:80-81 | `nextRange(a, b)` lies in [a, b) when the range is non-empty |
| Random.Rng.NextRange | src/dungeon.generator.ts:77 | consumes one draw and returns a value of the half-open range |
| Random.Rng.Coin | src/dungeon.generator.ts:464 | consumes one draw for the 20% test |
| Random.Rng.Choice | src/dungeon.generator.ts:465 | consumes one draw and returns an index below the number of choices |
| Dungeon.DungeonLevel.constructor | src/dungeon.generator.ts:34 | a new level of the given size has empty maps, no rooms, no monsters, no boss and no drops |
| Dungeon.DungeonLevel.SetFloor | src/dungeon.generator.ts:136 | writes one floor cell and leaves every other cell unchanged |
| Dungeon.DungeonLevel.SetWall | src/dungeon.generator.ts:141 | writes one wall cell and leaves every other cell unchanged |
| Tiles.NameRoundTrip | src/dungeon.generator.ts:133-534 | reading a tile's sprite name back gives the same tile, so the model's tiles stand for distinct sprite names |
| Tiles.NameInjective | src/dungeon.generator.ts:372-375 | two tiles have the same name exactly when they are the same tile; for example `wall_top_mid` and `wall_top_mid.png` are different tiles |
| Walls.Rule | src/dungeon.generator.ts:188-444 | the stitch `switch` tables of both corridor kinds: a tile a rule writes always differs from the tile it found |
| Filler.FillFloor | src/dungeon.generator.ts:133-138 | exactly the cells of the rectangle become `floor_1.png` |
| Filler.WallRun | src/dungeon.generator.ts:145-148 | a run of `wall_top_mid.png` over `wall_mid.png` across the given columns, nothing else changed |
| Filler.EdgeRight | src/dungeon.generator.ts:144-152 | for a room wider than one cell: the middle runs and the right-hand corner pieces of a pair of wall rows, nothing else changed |
| Filler.EdgeRows | src/dungeon.generator.ts:140-163 | a pair of a room's wall rows equals `EdgeRow` of the old walls, and every other row is unchanged |
| Filler.SideColumn | src/dungeon.generator.ts:164-171 | one column segment becomes the given side wall, nothing else changed |
| Filler.StitchCell | src/dungeon.generator.ts:188-197 | one stitch `switch`: the cell is rewritten by the junction's rule, all others are unchanged |
| Filler.FillRoom | src/dungeon.generator.ts:127-172 | the room's floor is painted and every wall cell equals `RoomWall` of its old value |
| Filler.StitchLeftH | src/dungeon.generator.ts:187-245 | the column left of a horizontal corridor is stitched by the left junction rules, no other column changes |
| Filler.StitchRightH | src/dungeon.generator.ts:247-305 | the column right of a horizontal corridor is stitched by the right junction rules, no other column changes |
| Filler.FillCorridorH | src/dungeon.generator.ts:174-318 | floor painted, and every wall cell equals `HWallAfter` of its old value |
| Filler.StitchTopV | src/dungeon.generator.ts:333-388 | the two rows above a vertical corridor are stitched by the top junction rules |
| Filler.StitchBottomV | src/dungeon.generator.ts:390-444 | the two bottom rows of a vertical corridor are stitched by the bottom junction rules |
| Filler.FillCorridorV | src/dungeon.generator.ts:320-451 | floor painted, and every wall cell equals `VWallAfter` of its old value |
| Filler.Fill | src/dungeon.generator.ts:121-125 | floor exactly on covered cells, and every wall is the fold of rooms, then horizontal, then vertical corridors |
| WallFacts.UnhandledIffUnnamed | src/dungeon.generator.ts:188-197 | a stitch falls to its logging `default` arm exactly when the tile is not one of the names the `switch` lists |
| WallFacts.StitchOnlyNamed | src/dungeon.generator.ts:188-197 | a stitch changes a cell only when the cell holds a listed name |
| WallFacts.RoomWallFootprint | src/dungeon.generator.ts:140-171 | `fillRoom` writes walls only from two rows above the room to one row below it, inside its columns |
| WallFacts.NarrowRoomCaps | src/dungeon.generator.ts:144-163 | a one-column room gets only the left pieces, because the `w > 1` branches are skipped |
| WallFacts.RoomSideColumns | src/dungeon.generator.ts:164-171 | the side columns hold the side walls, and in a one-column room the later left pass wins |
| WallFacts.RoomWallRows | src/dungeon.generator.ts:140-163 | the corner, top and bottom pieces of a room wider than one cell |
| WallFacts.HCorridorOpensSides | src/dungeon.generator.ts:210-222 | a horizontal corridor removes the side walls of the rooms it joins |
| WallFacts.HCorridorRuns | src/dungeon.generator.ts:307-317 | a horizontal corridor's top and bottom wall runs |
| WallFacts.HWallFootprint | src/dungeon.generator.ts:174-318 | `fillCorridorH` writes walls only in the frame one column beyond each end |
| WallFacts.HJunctionUnnamedKept | src/dungeon.generator.ts:194-196 | a junction cell whose tile the `switch` does not list keeps that tile |
| WallFacts.VCorridorOpensEnds | src/dungeon.generator.ts:351-427 | a vertical corridor opens the room walls at both ends of its columns |
| WallFacts.VCorridorSides | src/dungeon.generator.ts:446-450 | the side walls of a vertical corridor |
| WallFacts.VWallFootprint | src/dungeon.generator.ts:320-451 | `fillCorridorV` writes walls only within one column of the corridor and one row above it |
| WallFacts.VTopRightIgnoresPng | src/dungeon.generator.ts:372-375 | the top-right stitch leaves `wall_top_mid.png` in place, because it looks for the suffix-less name |
| WallFacts.RoomWallMidInside | src/dungeon.generator.ts:147 | a room wall leaves no `wall_mid.png` on the grid's first or last row |
| WallFacts.HWallMidInside | src/dungeon.generator.ts:310 | a horizontal corridor leaves no `wall_mid.png` on the grid's first or last row |
| WallFacts.VWallMidInside | src/dungeon.generator.ts:320-451 | a vertical corridor leaves no `wall_mid.png` on the grid's first or last row |
| WallFacts.RoomsMidInside | src/dungeon.generator.ts:122 | the room pass keeps `wall_mid.png` off the grid's first and last row |
| WallFacts.CorridorsHMidInside | src/dungeon.generator.ts:123 | the horizontal corridor pass keeps `wall_mid.png` off the grid's first and last row |
| WallFacts.CorridorsVMidInside | src/dungeon.generator.ts:124 | the vertical corridor pass keeps `wall_mid.png` off the grid's first and last row |
| WallFacts.FillMidInside | src/dungeon.generator.ts:502 | after `fill`, every `wall_mid.png` has a row above and below it, so the decoration reads `y - 1` and `y + 1` inside the grid |
| WallFacts.StitchNeverBare | src/dungeon.generator.ts:188-197 | no stitching rule writes the suffix-less `wall_top_mid` |
| WallFacts.VWallNeverBare | src/dungeon.generator.ts:320-451 | `fillCorridorV` never writes the suffix-less `wall_top_mid` |
| WallFacts.FillNeverBare | src/dungeon.generator.ts:372-373 | `fill` never writes the suffix-less `wall_top_mid` |
| WallFacts.VTopRightNeverFires | src/dungeon.generator.ts:372-378 | at every step of the vertical corridor pass, the top-right stitch falls to its `default` arm |
| Decoration.ReplaceFloorRandomly | src/dungeon.generator.ts:459-469 | only floor-bearing cells change, and each becomes one of `floor_2`..`floor_8` |
| Decoration.ReplaceLadder | src/dungeon.generator.ts:471-477 | the centre of the last room, which lies inside it, becomes `floor_ladder.png` and nothing else changes |
| Decoration.PlaceFeature | src/dungeon.generator.ts:510-528 | a decoration writes the wall, the fountain top above it and the base on the floor below it |
| Decoration.DecorateWall | src/dungeon.generator.ts:498-534 | only `wall_mid.png` is decorated, with a feature from the palette its floor below allows |
| Decoration.ComposePlacements | src/dungeon.generator.ts:496-497 | decorating cell by cell equals applying all the placements at once |
| Decoration.DecorateRow | src/dungeon.generator.ts:497-536 | one row of decoration, each placement allowed by the cell's wall and floor before the pass |
| Decoration.ReplaceWallRandomly | src/dungeon.generator.ts:479-538 | final walls and floors are the old ones with the allowed placements applied |
| Decoration.Palette | src/dungeon.generator.ts:480-508 | the replacement list chosen by the floor below; both lists offer the two holes |
| Decoration.FeatureBase | src/dungeon.generator.ts:510-528 | the floor a goo or fountain writes below its wall; only features of the list for walls with a floor below have one, and it is never the ladder or a floor variant |
| Generator.Replace | src/dungeon.generator.ts:453-457 | floors, then ladder, then walls; final maps in terms of the variants and placements |
| Generator.Ladder | src/dungeon.generator.ts:473-475 | the ladder cell lies in the last room |
| Generator.BaseNeedsFloor | src/dungeon.generator.ts:502-508 | goo and fountains, which write a base below, are offered only above a floor |
| Generator.ReplacedFloorPresence | src/dungeon.generator.ts:453-457 | `replace` adds a floor only at the ladder and removes none |
| Generator.ReplacedFloorLadder | src/dungeon.generator.ts:471-477 | the ladder tile appears only at its cell, and survives unless a goo or fountain base overwrites it |
| Generator.FilledFloor | src/dungeon.generator.ts:121-125 | after `fill`, a floor is present exactly on the covered cells and is never the ladder |
| Generator.ReplacedFloors | src/dungeon.generator.ts:453-457 | after `replace`: floor iff covered, the ladder only at its cell, each placement from its floor's palette |
| Generator.GenerateRooms | src/dungeon.generator.ts:59-72 | succeeds iff the layout exists; on success the maps are `Laid`, on failure the level is untouched |
| Population.MaxRoom | src/dungeon.generator.ts:75 | the bound on monster rooms is the number of rooms, one less on a boss level |
| Population.GenerateMonster | src/dungeon.generator.ts:74-91 | at most one tiny monster, in a vacant cell of a room other than the first (and the boss's), with a listed name; at most 22 draws (a room, ten tries of two, a name) |
| Population.PlaceMonsters | src/dungeon.generator.ts:38-40 | at most `count` monsters, all tracked in the monster map, on pairwise distinct cells |
| Population.GenerateBoss | src/dungeon.generator.ts:93-107 | a boss, if placed, stands on a vacant 2x2 block away from the last room's left and top edges, with its two columns inside the last room when that room is at least 3 wide and its two rows inside when it is at least 2 high, and is named by `level / 5`; at most 20 draws (ten tries of two) |
| Population.GenerateDrop | src/dungeon.generator.ts:109-119 | at most one new drop, inside a room; at most 129 draws (a room, 64 tries of two) |
| Population.PlaceDrops | src/dungeon.generator.ts:45-47 | at most `count` new drops, all inside rooms |
| Generator.MonstersTotal | src/dungeon.generator.ts:30 | the tries for tiny monsters: three more than the level |
| Generator.DropTotal | src/dungeon.generator.ts:31 | the tries for drops: five more than the level, two more than the monster tries |
| Generator.IsBossLevel | src/dungeon.generator.ts:32 | the boss levels are the multiples of five, level 0 included |
| Generator.Populate | src/dungeon.generator.ts:38-53 | monster, boss, drop and hero placement with their bounds, rooms and distinct cells; the boss placed as `generateBoss` places it in the last room |
| Generator.Generate | src/dungeon.generator.ts:29-57 | the whole level: `Laid` maps, at most `3 + level` monsters, at most `5 + level` drops, a boss only on boss levels and placed in the last room as `generateBoss` places it, the hero at the first room's centre |
| Slots.Decreased | src/inventory.ts:227-233 | `decrease` removes one unit and empties the cell at zero |
| Slots.FirstStackable | src/inventory.ts:72-79 | the index of the first cell that can stack, or none can |
| Slots.FirstSettable | src/inventory.ts:81-88 | the index of the first cell that can take the item, or none can |
| Slots.StackFirst | src/inventory.ts:72-79 | a container's `stack`: the container keeps its size, and a failed `stack` leaves it unchanged |
| Slots.SetFirst | src/inventory.ts:81-88 | a container's `set`: the container keeps its size, and a failed `set` leaves it unchanged |
| Slots.AddFirst | src/inventory.ts:90-92 | a container's `add`, which is `stack` and then `set`: the container keeps its size, and a failed `add` leaves it unchanged |
| Slots.InventoryStack | src/inventory.ts:32-34 | `Inventory.stack`: at most one of belt and backpack changes, and a failure changes neither |
| Slots.InventorySet | src/inventory.ts:36-38 | `Inventory.set`: at most one of belt and backpack changes, and a failure changes neither |
| Slots.InventoryAdd | src/inventory.ts:40-42 | `Inventory.add`: at most one of belt and backpack changes, and a failure changes neither |
| Slots.StackFirstAt | src/inventory.ts:72-79 | a scan that finds cell `i` first stacks exactly there |
| Slots.StackFirstNone | src/inventory.ts:72-79 | a scan that finds no cell leaves the container unchanged and fails |
| Slots.SetFirstAt | src/inventory.ts:81-88 | a scan that finds cell `i` first sets exactly there |
| Slots.SetFirstNone | src/inventory.ts:81-88 | a scan that finds no cell leaves the container unchanged and fails |
| Slots.SameTotal | src/inventory.ts:204 | `same` drops are counted alike even when they are different drop objects |
| Slots.HasSpaceIffStackOrSet | src/inventory.ts:193-197 | a valid cell has space exactly when it could `stack` or `set` |
| Slots.TotalUpdate | src/inventory.ts:205 | changing one cell changes the container's unit count by that cell's difference |
| Slots.StackFirstSpec | src/inventory.ts:72-79 | `stack` succeeds iff some cell can stack, and keeps every cell within capacity |
| Slots.StackFirstTotals | src/inventory.ts:72-79 | a successful `stack` adds one unit of the item and no other |
| Slots.SetFirstSpec | src/inventory.ts:81-88 | `set` succeeds iff some cell is empty and accepts, and keeps every cell within capacity |
| Slots.SetFirstTotals | src/inventory.ts:81-88 | a successful `set` adds one unit of the item and no other |
| Slots.AddFirstSpec | src/inventory.ts:90-92 | a container's `add` succeeds iff it `hasSpace`, adds exactly one unit, and keeps cells valid |
| Slots.AddFirstTotals | src/inventory.ts:90-92 | after `add`, every item's count is unchanged except one more of the added kind |
| Slots.InventoryAddSpec | src/inventory.ts:40-42 | `Inventory.add` succeeds iff the belt or the backpack has space, and keeps both valid |
| Slots.InventoryStackSpec | src/inventory.ts:32-34 | `Inventory.stack` succeeds iff some belt or backpack cell can stack the unit, and when a belt cell can, the backpack is unchanged |
| Slots.InventorySetSpec | src/inventory.ts:36-38 | `Inventory.set` succeeds iff some belt or backpack cell is empty, and when a belt cell is, the backpack is unchanged |
| Slots.InventoryAddTotals | src/inventory.ts:40-42 | `Inventory.add` stores exactly one more unit across belt and backpack, and changes no other item |
| Slots.InventoryAddPrefers | src/inventory.ts:32-42 | `add` succeeds by stacking whenever a matching stack has room, on the belt's stack if there is one; when nothing can stack and the belt has an empty cell, the unit goes to the belt's first empty cell and the backpack is unchanged |
| Inventories.StackCell | src/inventory.ts:74 | one cell's `stack` after the earlier cells failed: on success the row is the container's `stack`, otherwise it is unchanged; the row stays valid |
| Inventories.SetCell | src/inventory.ts:83 | one cell's `set` after the earlier cells failed: on success the row is the container's `set`, otherwise it is unchanged; the row stays valid |
| Inventories.InventoryCell.constructor | src/inventory.ts:179-191 | a new cell is empty with the given capacity, accept predicate and parent |
| Inventories.InventoryCell.IsEmpty | src/inventory.ts:235-237 | empty iff there is no item, i.e. the count is zero on a valid cell |
| Inventories.InventoryCell.Supports | src/inventory.ts:199-201 | belt and backpack cells take anything, the weapon cell only weapons |
| Inventories.InventoryCell.HasSpace | src/inventory.ts:193-197 | has space iff the cell could `stack` or `set` the item |
| Inventories.InventoryCell.Stack | src/inventory.ts:203-209 | adds one unit iff it holds a `same` item below capacity |
| Inventories.InventoryCell.Clear | src/inventory.ts:211-216 | empties the cell |
| Inventories.InventoryCell.Set | src/inventory.ts:218-225 | stores one unit iff the cell is empty and accepts the item |
| Inventories.InventoryCell.Decrease | src/inventory.ts:227-233 | the cell's contents become `Decreased` of the old |
| Inventories.InventoryCell.Drop | src/inventory.ts:284-292 | sends the held item and count, and empties the cell |
| Inventories.InventoryCell.Equip | src/inventory.ts:248-260 | a weapon moves to the weapon cell and the previous weapon comes back to this cell; anything else changes nothing |
| Inventories.InventoryCell.ToBelt | src/inventory.ts:262-271 | units move to the belt one by one until the cell is empty or the belt is full; the total is conserved |
| Inventories.InventoryCell.ToBackpack | src/inventory.ts:273-282 | units move to the backpack one by one until the cell is empty or the backpack is full; the total is conserved |
| Inventories.EquipmentInventory.constructor | src/inventory.ts:49-55 | one empty weapon cell holding one weapon at most |
| Inventories.BeltInventory.constructor | src/inventory.ts:57-66 | ten empty cells of capacity 3 |
| Inventories.BeltInventory.Stack | src/inventory.ts:72-79 | equals the first-fit `StackFirst` on the belt |
| Inventories.BeltInventory.Set | src/inventory.ts:81-88 | equals the first-fit `SetFirst` on the belt |
| Inventories.BeltInventory.Add | src/inventory.ts:90-92 | equals `AddFirst` on the belt |
| Inventories.BeltInventory.HasSpace | src/inventory.ts:94-101 | true iff some belt cell has space |
| Inventories.BackpackInventory.constructor | src/inventory.ts:109-117 | fifty empty cells of capacity 3, in row-major order |
| Inventories.BackpackInventory.Cell | src/inventory.ts:119-121 | `cell(x, y)` is the cell at position `y * 10 + x` of the row-major order that `stack`, `set` and `Slots` scan |
| Inventories.BackpackInventory.Stack | src/inventory.ts:123-132 | the row-by-row scan equals `StackFirst` on the row-major slots |
| Inventories.BackpackInventory.Set | src/inventory.ts:134-143 | the row-by-row scan equals `SetFirst` on the row-major slots |
| Inventories.BackpackInventory.Add | src/inventory.ts:145-147 | equals `AddFirst` on the backpack |
| Inventories.BackpackInventory.HasSpace | src/inventory.ts:149-158 | true iff some backpack cell has space |
| Inventories.Inventory.constructor | src/inventory.ts:26-30 | an empty weapon cell, belt and backpack |
| Inventories.Inventory.Stack | src/inventory.ts:32-34 | the belt's `stack`, else the backpack's |
| Inventories.Inventory.Set | src/inventory.ts:36-38 | the belt's `set`, else the backpack's |
| Inventories.Inventory.Add | src/inventory.ts:40-42 | equals `InventoryAdd`, whose properties the `Slots` lemmas prove |
| Inventories.Inventory.HasSpace | src/inventory.ts:44-46 | true iff the belt or the backpack has space |
| Input.Step | src/input.ts:13-51 | one event on a binding: `once()` answers true exactly when a press is pending and then consumes it; key events with another code change nothing |
| Input.Run | src/input.ts:13-51 | every event adds at most one press or one true `once()` |
| Input.OncePerPress | src/input.ts:13-36 | over any run, true answers of `once()` never outnumber presses plus one already pending |
| Input.Consumed | src/input.ts:13-18 | a consumed binding answers false until the next press |
| Input.FreshOnce | src/input.ts:20-25 | a fresh binding answers `once()` false before the first press |
| Input.ForeignIgnored | src/input.ts:27-46 | key events with another code change nothing |
| Input.HeldAfterReset | src/input.ts:48-51 | a reset while held leaves the key pressed; it cannot retrigger before a release |
| Input.HeldQuiet | src/input.ts:27-36 | a held and consumed binding ignores repeated key-downs until released |
| Input.KeyBind.constructor | src/input.ts:20-25 | Await, not triggered, processed |
| Input.KeyBind.Once | src/input.ts:13-18 | true iff a press was pending; afterwards none is |
| Input.KeyBind.Keydown | src/input.ts:27-36 | one `Step` with a key-down event |
| Input.KeyBind.Keyup | src/input.ts:38-46 | one `Step` with a key-up event; `processed` is untouched |
| Input.KeyBind.Reset | src/input.ts:48-51 | clears `triggered`, sets `processed`, keeps the press state |
| Input.DigitCode | src/input.ts:86-95 | the key code `Digit<n>` |
| Input.Joystick.constructor | src/input.ts:77-95 | the bindings' key codes, every binding starting released, not triggered and with nothing to consume |
| Input.Joystick.Digit | src/input.ts:110-133 | `digit(n)` is the binding for `Digit<n>` |

## Left out

- Randomness is an explicit stream of draws. The TunnelingAlgorithm, which produces the layout, is not part of this model: the layout is an input that is assumed to fit the grid with a margin of two cells. It also runs on the generator's RNG before any of the modelled draws. The room count `generateRooms` asks it for, `1 + level` (src/dungeon.generator.ts:60), is passed only to that algorithm, so it has no member here.
- The game's RNG class is not part of this model. `nextFloat() < 0.2` is modelled as a draw divisible by 5, and a degenerate `nextRange(a, b)` with `b <= a` returns `a`.
- Generator.Generate: requires a layout to exist. When layout generation fails, the room list is empty and `generate` goes on anyway. `generateMonster` then does nothing, because `max_room` is at most 0. On a boss level `generateBoss` reads `x` of the missing last room and throws. Otherwise the first `generateDrop`, which always runs because there are at least five drop tries, throws on `x` of `choice` of the empty list. The failure path is modelled only in `GenerateRooms`.
- The stitch `switch` statements call `.name` on the wall under the corridor end. An empty cell there would throw in the game; the model keeps such a cell as it is, like the logging `default` arm.
- Population.GenerateBoss: the boss is not written into the monster map, because the boss constructor, not the generator, does that.
- Population.GenerateBoss: in a last room narrower than 3 cells, or lower than 2, the source draws from an empty range, which the model takes as its lower end, so the 2x2 block reaches past the room's right edge (or its bottom edge) onto the wall; the contract states the block's columns inside the room only for rooms at least 3 wide, and its rows only for rooms at least 2 high.
- Generator.ReplacedFloorLadder: the ladder can be overwritten by a goo or fountain base placed just above it. The model keeps this, as the code does.
- The draw order follows the code: `replace` runs inside `generateRooms`, before any monster, boss or drop draws.
- `hasDrop` and `randomDrop` live in the level class, which is not part of this model. A drop is modelled as a cell in a set, and the drop's kind is not modelled.
- Sprites, lighting, `sortChildren`, `light.loadMap` and `console.log` are left out: they are rendering and logging.
- Slots.Same: `same` of a drop is not part of this model. It is taken to be equality of name and weapon class, whichever drop objects are compared.
- Inventories.InventoryCell.Set: the optional `count` argument is fixed at its default of 1, because every modelled caller uses the default.
- Inventories.InventoryCell.Equip: it requires a cell other than the weapon cell, as every caller passes one. A weapon stacked more than once is moved as a single unit and the extra units are lost, as in the code.
- Inventories.InventoryCell.ToBelt: it requires a cell that is not on the belt (Inventories.InventoryCell.ToBackpack likewise), as every caller passes one. On a cell of the target container the source can loop forever: `add` may stack the unit back onto the cell itself and `decrease` then removes it, so the count never falls.
- `use`, the drop event publisher (`drop` returns the sent pair instead), the views and the sell and buy controllers of the inventory are left out: they are rendering and trade logic outside this core.
- The `Joystick` key routing (`keydown`, `keyup` and `reset` over its bindings map, built by reflection), `window.addEventListener` and `preventDefault` are left out: they are browser plumbing.
