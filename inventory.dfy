/**
 * The hero's inventory: stack cells, the 10-cell belt, the 10 by 5
 * backpack, the weapon slot, and the moves between them (`equip`, `toBelt`,
 * `toBackpack`, `drop`). Each container is proved against the first-fit
 * functions of `Slots` on the sequence of its cells' contents.
 */
module Inventories {
  import opened Wrappers
  import opened Slots

  /** The container a cell belongs to (its `parent`). */
  datatype Owner = Equipment | Belt | Backpack

  const BeltLength := 10
  const BackpackWidth := 10
  const BackpackHeight := 5
  /** The stack size of belt and backpack cells. */
  const MaxInStack := 3

  /** The contents of a row of cells, in order. */
  ghost function SlotsOf(cs: seq<InventoryCell>): (r: seq<Slot>)
    reads cs
    ensures |r| == |cs| && forall i | 0 <= i < |cs| :: r[i] == cs[i].Contents()
  {
    seq(|cs|, i requires 0 <= i < |cs| reads cs => cs[i].Contents())
  }

  /**
   * The cells of a belt or backpack: distinct, each valid, each holding up
   * to `MaxInStack` units of anything, each tagged with the container.
   */
  ghost predicate RowValid(cs: seq<InventoryCell>, owner: Owner)
    reads cs
  {
    (forall i, j | 0 <= i < j < |cs| :: cs[i] != cs[j]) &&
    (forall c | c in cs :: c.parent == owner) &&
    forall i | 0 <= i < |cs| ::
      cs[i].maxInStack == MaxInStack && cs[i].accept == AnyItem && cs[i].parent == owner && cs[i].Valid()
  }

  /**
   * `stack` on cell `i` of a row whose earlier cells cannot take the unit:
   * on success the row's contents are the container's `stack` of its old
   * contents, otherwise they are unchanged and cell `i` cannot take it either.
   */
  method StackCell(cs: seq<InventoryCell>, owner: Owner, i: nat, it: Item) returns (ok: bool)
    requires RowValid(cs, owner) && i < |cs|
    requires forall j | 0 <= j < i :: !CanStack(cs[j].Contents(), it, MaxInStack)
    modifies cs[i]
    ensures RowValid(cs, owner)
    ensures ok ==> (SlotsOf(cs), ok) == StackFirst(old(SlotsOf(cs)), it, MaxInStack)
    ensures !ok ==> SlotsOf(cs) == old(SlotsOf(cs)) && !CanStack(old(cs[i].Contents()), it, MaxInStack)
  {
    ghost var start := SlotsOf(cs);
    ok := cs[i].Stack(it);
    if ok {
      StackFirstAt(start, it, MaxInStack, i);
      assert SlotsOf(cs) == start[i := Slot(start[i].item, start[i].count + 1)];
    } else {
      assert SlotsOf(cs) == start;
    }
  }

  /**
   * `set` on cell `i` of a row whose earlier cells cannot take the item:
   * on success the row's contents are the container's `set` of its old
   * contents, otherwise they are unchanged and cell `i` cannot take it either.
   */
  method SetCell(cs: seq<InventoryCell>, owner: Owner, i: nat, it: Item) returns (ok: bool)
    requires RowValid(cs, owner) && i < |cs|
    requires forall j | 0 <= j < i :: !CanSet(cs[j].Contents(), it, AnyItem)
    modifies cs[i]
    ensures RowValid(cs, owner)
    ensures ok ==> (SlotsOf(cs), ok) == SetFirst(old(SlotsOf(cs)), it, AnyItem)
    ensures !ok ==> SlotsOf(cs) == old(SlotsOf(cs)) && !CanSet(old(cs[i].Contents()), it, AnyItem)
  {
    ghost var start := SlotsOf(cs);
    ok := cs[i].Set(it);
    if ok {
      SetFirstAt(start, it, AnyItem, i);
      assert SlotsOf(cs) == start[i := Slot(Some(it), 1)];
    } else {
      assert SlotsOf(cs) == start;
    }
  }

  /** A stack cell: an optional item, its count, a maximum and an accept predicate. */
  class InventoryCell {
    const maxInStack: int
    const accept: Accept
    const parent: Owner
    var item: Option<Item>
    var count: int

    function Contents(): Slot
      reads this
    {
      Slot(item, count)
    }

    ghost predicate Valid()
      reads this
    {
      maxInStack >= 1 && SlotValid(Contents(), maxInStack, accept)
    }

    constructor(maxInStack: int, accept: Accept, parent: Owner)
      requires maxInStack >= 1
      ensures this.maxInStack == maxInStack && this.accept == accept && this.parent == parent
      ensures Valid() && Contents() == EmptySlot
    {
      this.maxInStack := maxInStack;
      this.accept := accept;
      this.parent := parent;
      item := None;
      count := 0;
    }

    /** `isEmpty`: no item. On a valid cell that is the same as a count of 0. */
    function IsEmpty(): (r: bool)
      reads this
      ensures Valid() ==> (r <==> count == 0)
      ensures r <==> Contents().item.None?
    {
      item.None?
    }

    /** `supports`: the weapon cell accepts exactly the weapons, every other cell anything. */
    function Supports(it: Item): (r: bool)
      ensures accept == AnyItem ==> r
      ensures accept == WeaponsOnly ==> (r <==> it.weapon)
    {
      Slots.Supports(accept, it)
    }

    /**
     * `hasSpace`: on a valid cell it holds exactly when `stack` or `set`
     * with the same item would succeed.
     */
    function HasSpace(it: Item): (r: bool)
      reads this
      ensures Valid() ==> (r <==> CanStack(Contents(), it, maxInStack) || CanSet(Contents(), it, accept))
    {
      Supports(it) && (IsEmpty() || (Same(item.value, it) && count < maxInStack))
    }

    /** `stack`: one more unit when the cell holds a `same` item below the maximum. */
    method Stack(it: Item) returns (ok: bool)
      modifies this
      ensures ok <==> old(CanStack(Contents(), it, maxInStack))
      ensures Contents() == if ok then Slot(old(item), old(count) + 1) else old(Contents())
      ensures old(Valid()) ==> Valid()
    {
      if item.Some? && Same(item.value, it) && count < maxInStack {
        count := count + 1;
        return true;
      }
      return false;
    }

    /** `clear`: empties a cell that holds an item. */
    method Clear()
      modifies this
      ensures Contents() == if old(item).Some? then EmptySlot else old(Contents())
      ensures old(Valid()) ==> Valid() && Contents() == EmptySlot
    {
      if item.Some? {
        item := None;
        count := 0;
      }
    }

    /** `set`: on an empty cell that accepts the item, one unit of it. */
    method Set(it: Item) returns (ok: bool)
      modifies this
      ensures ok <==> old(CanSet(Contents(), it, accept))
      ensures Contents() == if ok then Slot(Some(it), 1) else old(Contents())
      ensures old(Valid()) ==> Valid()
    {
      if item.None? && Supports(it) {
        item := Some(it);
        count := 1;
        return true;
      }
      return false;
    }

    /** `decrease`: one unit less, floored at 0; at 0 the cell is emptied. */
    method Decrease()
      modifies this
      ensures Contents() == Decreased(old(Contents()))
      ensures old(Valid()) ==> Valid()
    {
      count := if count - 1 > 0 then count - 1 else 0;
      if count <= 0 {
        item := None;
        count := 0;
      }
    }

    /**
     * `drop`: a cell that holds an item is emptied and the item with its
     * count is sent, once, to the drop listeners; an empty cell sends
     * nothing and stays as it is.
     */
    method Drop() returns (sent: Option<(Item, int)>)
      modifies this
      ensures old(item).Some? ==> sent == Some((old(item).value, old(count))) && Contents() == EmptySlot
      ensures old(item).None? ==> sent == None && Contents() == old(Contents())
    {
      sent := None;
      if item.Some? {
        var dropped := item.value;
        var n := count;
        item := None;
        count := 0;
        sent := Some((dropped, n));
      }
    }

    /**
     * `equip`: a weapon moves into the weapon cell, which ends up holding
     * one unit of it; the cell ends up with one unit of the weapon that was
     * equipped before, or empty. Further units of a stacked weapon in the
     * cell are not kept. Anything else leaves both cells unchanged.
     */
    method Equip(inv: Inventory)
      requires Valid() && inv.Valid() && parent != Equipment
      modifies this, inv.equipment.weapon
      ensures Valid() && inv.equipment.weapon.Valid()
      ensures old(item).Some? && old(item).value.weapon ==>
        inv.equipment.weapon.Contents() == Slot(old(item), 1) &&
        Contents() == if old(inv.equipment.weapon.item).Some? then Slot(old(inv.equipment.weapon.item), 1) else EmptySlot
      ensures !(old(item).Some? && old(item).value.weapon) ==>
        Contents() == old(Contents()) && inv.equipment.weapon.Contents() == old(inv.equipment.weapon.Contents())
    {
      var weapon := inv.equipment.weapon;
      var it := item;
      if it.Some? && weapon.Supports(it.value) {
        var prev := weapon.item;
        weapon.Clear();
        var _ := weapon.Set(it.value);
        Clear();
        if prev.Some? {
          var _ := Set(prev.value);
        }
      }
    }

    /** One round of `ToBelt`'s loop: add one unit to the belt and, when that worked, decrease the cell. */
    method StepToBelt(belt: BeltInventory, unit: Item) returns (ok: bool)
      requires Valid() && belt.Valid() && this !in belt.cells && item == Some(unit)
      modifies this, belt.cells
      ensures Valid() && belt.Valid()
      ensures Contents() == if ok then Decreased(old(Contents())) else old(Contents())
      ensures ok <==> old(HasSpaceAny(belt.Slots(), unit, MaxInStack, AnyItem))
      ensures !ok ==> belt.Slots() == old(belt.Slots())
      ensures forall other: Item ::
        Total(belt.Slots(), other) == old(Total(belt.Slots(), other)) + (if ok && Same(other, unit) then 1 else 0)
    {
      AddFirstSpec(belt.Slots(), unit, MaxInStack, AnyItem, unit);
      AddFirstTotals(belt.Slots(), unit, MaxInStack, AnyItem);
      ok := belt.Add(unit);
      if ok {
        Decrease();
      }
    }

    /**
     * `toBelt`: moves the cell's item to the belt one unit at a time until
     * the cell is empty or the belt has no space for it. The units of that
     * item in the cell and on the belt add up to the same number before and
     * after, and no other kind of item on the belt changes.
     */
    method ToBelt(inv: Inventory)
      requires Valid() && inv.belt.Valid() && parent != Belt
      modifies this, inv.belt.cells
      ensures Valid() && inv.belt.Valid()
      ensures old(item).None? ==> Contents() == old(Contents()) && inv.belt.Slots() == old(inv.belt.Slots())
      ensures old(item).Some? ==>
        count + Total(inv.belt.Slots(), old(item).value) == old(count + Total(inv.belt.Slots(), item.value)) &&
        (item.None? || (item == old(item) && !HasSpaceAny(inv.belt.Slots(), old(item).value, MaxInStack, AnyItem)))
      ensures forall other: Item | old(item).Some? && !Same(other, old(item).value) ::
        Total(inv.belt.Slots(), other) == old(Total(inv.belt.Slots(), other))
    {
      var belt := inv.belt;
      if item.None? {
        return;
      }
      var unit := item.value;
      ghost var start, n0 := belt.Slots(), count;
      assert this !in belt.cells;
      while !IsEmpty()
        invariant Valid() && belt.Valid()
        invariant item.Some? ==> item == Some(unit)
        invariant count + Total(belt.Slots(), unit) == n0 + Total(start, unit)
        invariant forall other: Item | !Same(other, unit) :: Total(belt.Slots(), other) == Total(start, other)
        decreases count
      {
        var ok := StepToBelt(belt, unit);
        if !ok {
          break;
        }
      }
    }

    /** One round of `ToBackpack`'s loop: add one unit to the backpack and, when that worked, decrease the cell. */
    method StepToBackpack(pack: BackpackInventory, unit: Item) returns (ok: bool)
      requires Valid() && pack.Valid() && this !in pack.cells && item == Some(unit)
      modifies this, pack.cells
      ensures Valid() && pack.Valid()
      ensures Contents() == if ok then Decreased(old(Contents())) else old(Contents())
      ensures ok <==> old(HasSpaceAny(pack.Slots(), unit, MaxInStack, AnyItem))
      ensures !ok ==> pack.Slots() == old(pack.Slots())
      ensures forall other: Item ::
        Total(pack.Slots(), other) == old(Total(pack.Slots(), other)) + (if ok && Same(other, unit) then 1 else 0)
    {
      AddFirstSpec(pack.Slots(), unit, MaxInStack, AnyItem, unit);
      AddFirstTotals(pack.Slots(), unit, MaxInStack, AnyItem);
      ok := pack.Add(unit);
      if ok {
        Decrease();
      }
    }

    /**
     * `toBackpack`: the same move as `toBelt`, into the backpack.
     */
    method ToBackpack(inv: Inventory)
      requires Valid() && inv.backpack.Valid() && parent != Backpack
      modifies this, inv.backpack.cells
      ensures Valid() && inv.backpack.Valid()
      ensures old(item).None? ==> Contents() == old(Contents()) && inv.backpack.Slots() == old(inv.backpack.Slots())
      ensures old(item).Some? ==>
        count + Total(inv.backpack.Slots(), old(item).value) == old(count + Total(inv.backpack.Slots(), item.value)) &&
        (item.None? || (item == old(item) && !HasSpaceAny(inv.backpack.Slots(), old(item).value, MaxInStack, AnyItem)))
      ensures forall other: Item | old(item).Some? && !Same(other, old(item).value) ::
        Total(inv.backpack.Slots(), other) == old(Total(inv.backpack.Slots(), other))
    {
      var pack := inv.backpack;
      if item.None? {
        return;
      }
      var unit := item.value;
      ghost var start, n0 := pack.Slots(), count;
      assert this !in pack.cells;
      while !IsEmpty()
        invariant Valid() && pack.Valid()
        invariant item.Some? ==> item == Some(unit)
        invariant count + Total(pack.Slots(), unit) == n0 + Total(start, unit)
        invariant forall other: Item | !Same(other, unit) :: Total(pack.Slots(), other) == Total(start, other)
        decreases count
      {
        var ok := StepToBackpack(pack, unit);
        if !ok {
          break;
        }
      }
    }
  }

  /** `EquipmentInventory`: the weapon cell, one unit, weapons only. */
  class EquipmentInventory {
    const weapon: InventoryCell

    ghost predicate Valid()
      reads this, weapon
    {
      weapon.maxInStack == 1 && weapon.accept == WeaponsOnly && weapon.parent == Equipment && weapon.Valid()
    }

    constructor()
      ensures Valid() && fresh(weapon) && weapon.Contents() == EmptySlot
    {
      weapon := new InventoryCell(1, WeaponsOnly, Equipment);
    }
  }

  /** `BeltInventory`: ten cells of three units each, scanned by index. */
  class BeltInventory {
    const cells: seq<InventoryCell>

    ghost predicate Valid()
      reads this, cells
    {
      |cells| == BeltLength &&
      RowValid(cells, Belt)
    }

    ghost function Slots(): seq<Slot>
      reads this, cells
    {
      SlotsOf(cells)
    }

    constructor()
      ensures Valid() && fresh(set c | c in cells) && Slots() == seq(BeltLength, _ => EmptySlot)
    {
      var cs: seq<InventoryCell> := [];
      for i := 0 to BeltLength
        invariant |cs| == i && (forall c | c in cs :: fresh(c))
        invariant forall a, b | 0 <= a < b < |cs| :: cs[a] != cs[b]
        invariant forall a | 0 <= a < |cs| ::
          cs[a].maxInStack == MaxInStack && cs[a].accept == AnyItem && cs[a].parent == Belt && cs[a].Contents() == EmptySlot
      {
        var c := new InventoryCell(MaxInStack, AnyItem, Belt);
        cs := cs + [c];
      }
      cells := cs;
    }

    /** `stack`: one more unit on the first cell, by index, that holds a `same` item below the maximum. */
    method Stack(it: Item) returns (ok: bool)
      requires Valid()
      modifies cells
      ensures Valid()
      ensures (Slots(), ok) == StackFirst(old(Slots()), it, MaxInStack)
    {
      ghost var start := Slots();
      var i := 0;
      while i < |cells|
        invariant 0 <= i <= |cells|
        invariant Valid() && Slots() == start
        invariant forall j | 0 <= j < i :: !CanStack(start[j], it, MaxInStack)
      {
        ok := StackCell(cells, Belt, i, it);
        if ok {
          return;
        }
        i := i + 1;
      }
      StackFirstNone(start, it, MaxInStack);
      ok := false;
    }

    /** `set`: one unit of the item on the first empty cell, by index. */
    method Set(it: Item) returns (ok: bool)
      requires Valid()
      modifies cells
      ensures Valid()
      ensures (Slots(), ok) == SetFirst(old(Slots()), it, AnyItem)
    {
      ghost var start := Slots();
      var i := 0;
      while i < |cells|
        invariant 0 <= i <= |cells|
        invariant Valid() && Slots() == start
        invariant forall j | 0 <= j < i :: !CanSet(start[j], it, AnyItem)
      {
        ok := SetCell(cells, Belt, i, it);
        if ok {
          return;
        }
        i := i + 1;
      }
      SetFirstNone(start, it, AnyItem);
      ok := false;
    }

    /** `add`: `stack`, else `set`. */
    method Add(it: Item) returns (ok: bool)
      requires Valid()
      modifies cells
      ensures Valid()
      ensures (Slots(), ok) == AddFirst(old(Slots()), it, MaxInStack, AnyItem)
    {
      ok := Stack(it);
      if !ok {
        ok := Set(it);
      }
    }

    /** `hasSpace`: some cell has space for the item. */
    method HasSpace(it: Item) returns (r: bool)
      requires Valid()
      ensures r == HasSpaceAny(Slots(), it, MaxInStack, AnyItem)
    {
      var i := 0;
      while i < |cells|
        invariant 0 <= i <= |cells|
        invariant forall j | 0 <= j < i :: !SlotHasSpace(Slots()[j], it, MaxInStack, AnyItem)
      {
        if cells[i].HasSpace(it) {
          assert SlotHasSpace(Slots()[i], it, MaxInStack, AnyItem);
          return true;
        }
        i := i + 1;
      }
      return false;
    }
  }

  /**
   * `BackpackInventory`: a grid of 10 columns and 5 rows of three-unit
   * cells, stored row by row (the cell at column x of row y is
   * `cells[y * BackpackWidth + x]`) and scanned row by row, y outer and x inner.
   */
  class BackpackInventory {
    const cells: seq<InventoryCell>

    ghost predicate Valid()
      reads this, cells
    {
      |cells| == BackpackWidth * BackpackHeight &&
      RowValid(cells, Backpack)
    }

    ghost function Slots(): seq<Slot>
      reads this, cells
    {
      SlotsOf(cells)
    }

    /**
     * `cell(x, y)`: the cell at column x of row y, which is the cell the
     * row-by-row scan reaches after `y` full rows and `x` more cells.
     */
    function Cell(x: int, y: int): (c: InventoryCell)
      requires |cells| == BackpackWidth * BackpackHeight
      requires 0 <= x < BackpackWidth && 0 <= y < BackpackHeight
      ensures y * BackpackWidth + x < |cells| && c == cells[y * BackpackWidth + x]
    {
      cells[y * BackpackWidth + x]
    }

    constructor()
      ensures Valid() && fresh(set c | c in cells) && Slots() == seq(BackpackWidth * BackpackHeight, _ => EmptySlot)
    {
      var cs: seq<InventoryCell> := [];
      for y := 0 to BackpackHeight
        invariant |cs| == y * BackpackWidth && (forall c | c in cs :: fresh(c))
        invariant forall a, b | 0 <= a < b < |cs| :: cs[a] != cs[b]
        invariant forall a | 0 <= a < |cs| ::
          cs[a].maxInStack == MaxInStack && cs[a].accept == AnyItem && cs[a].parent == Backpack && cs[a].Contents() == EmptySlot
      {
        for x := 0 to BackpackWidth
          invariant |cs| == y * BackpackWidth + x && (forall c | c in cs :: fresh(c))
          invariant forall a, b | 0 <= a < b < |cs| :: cs[a] != cs[b]
          invariant forall a | 0 <= a < |cs| ::
            cs[a].maxInStack == MaxInStack && cs[a].accept == AnyItem && cs[a].parent == Backpack && cs[a].Contents() == EmptySlot
        {
          var c := new InventoryCell(MaxInStack, AnyItem, Backpack);
          cs := cs + [c];
        }
      }
      cells := cs;
    }

    /** `stack`: one more unit on the first cell, row by row, that holds a `same` item below the maximum. */
    method Stack(it: Item) returns (ok: bool)
      requires Valid()
      modifies cells
      ensures Valid()
      ensures (Slots(), ok) == StackFirst(old(Slots()), it, MaxInStack)
    {
      ghost var start := Slots();
      for y := 0 to BackpackHeight
        invariant Valid() && Slots() == start
        invariant forall j | 0 <= j < y * BackpackWidth :: !CanStack(start[j], it, MaxInStack)
      {
        for x := 0 to BackpackWidth
          invariant Valid() && Slots() == start
          invariant forall j | 0 <= j < y * BackpackWidth + x :: !CanStack(start[j], it, MaxInStack)
        {
          var i := y * BackpackWidth + x;
          ok := StackCell(cells, Backpack, i, it);
          if ok {
            return;
          }
        }
      }
      StackFirstNone(start, it, MaxInStack);
      ok := false;
    }

    /** `set`: one unit of the item on the first empty cell, row by row. */
    method Set(it: Item) returns (ok: bool)
      requires Valid()
      modifies cells
      ensures Valid()
      ensures (Slots(), ok) == SetFirst(old(Slots()), it, AnyItem)
    {
      ghost var start := Slots();
      for y := 0 to BackpackHeight
        invariant Valid() && Slots() == start
        invariant forall j | 0 <= j < y * BackpackWidth :: !CanSet(start[j], it, AnyItem)
      {
        for x := 0 to BackpackWidth
          invariant Valid() && Slots() == start
          invariant forall j | 0 <= j < y * BackpackWidth + x :: !CanSet(start[j], it, AnyItem)
        {
          var i := y * BackpackWidth + x;
          ok := SetCell(cells, Backpack, i, it);
          if ok {
            return;
          }
        }
      }
      SetFirstNone(start, it, AnyItem);
      ok := false;
    }

    /** `add`: `stack`, else `set`. */
    method Add(it: Item) returns (ok: bool)
      requires Valid()
      modifies cells
      ensures Valid()
      ensures (Slots(), ok) == AddFirst(old(Slots()), it, MaxInStack, AnyItem)
    {
      ok := Stack(it);
      if !ok {
        ok := Set(it);
      }
    }

    /** `hasSpace`: some cell has space for the item. */
    method HasSpace(it: Item) returns (r: bool)
      requires Valid()
      ensures r == HasSpaceAny(Slots(), it, MaxInStack, AnyItem)
    {
      for y := 0 to BackpackHeight
        invariant forall j | 0 <= j < y * BackpackWidth :: !SlotHasSpace(Slots()[j], it, MaxInStack, AnyItem)
      {
        for x := 0 to BackpackWidth
          invariant forall j | 0 <= j < y * BackpackWidth + x :: !SlotHasSpace(Slots()[j], it, MaxInStack, AnyItem)
        {
          if Cell(x, y).HasSpace(it) {
            assert SlotHasSpace(Slots()[y * BackpackWidth + x], it, MaxInStack, AnyItem);
            return true;
          }
        }
      }
      return false;
    }
  }

  /** `Inventory`: the weapon cell, the belt and the backpack; the belt is always tried first. */
  class Inventory {
    const equipment: EquipmentInventory
    const belt: BeltInventory
    const backpack: BackpackInventory

    ghost predicate Valid()
      reads this, equipment, equipment.weapon, belt, belt.cells, backpack, backpack.cells
    {
      equipment.Valid() && belt.Valid() && backpack.Valid()
    }

    constructor()
      ensures Valid() && fresh(equipment) && fresh(belt) && fresh(backpack)
      ensures equipment.weapon.Contents() == EmptySlot
      ensures belt.Slots() == seq(BeltLength, _ => EmptySlot)
      ensures backpack.Slots() == seq(BackpackWidth * BackpackHeight, _ => EmptySlot)
    {
      equipment := new EquipmentInventory();
      belt := new BeltInventory();
      backpack := new BackpackInventory();
    }

    /** `stack`: on the belt, else in the backpack. */
    method Stack(it: Item) returns (ok: bool)
      requires Valid()
      modifies belt.cells, backpack.cells
      ensures Valid()
      ensures (belt.Slots(), backpack.Slots(), ok) == InventoryStack(old(belt.Slots()), old(backpack.Slots()), it, MaxInStack)
    {
      ok := belt.Stack(it);
      if !ok {
        ok := backpack.Stack(it);
      }
    }

    /** `set`: on the belt, else in the backpack. */
    method Set(it: Item) returns (ok: bool)
      requires Valid()
      modifies belt.cells, backpack.cells
      ensures Valid()
      ensures (belt.Slots(), backpack.Slots(), ok) == InventorySet(old(belt.Slots()), old(backpack.Slots()), it)
    {
      ok := belt.Set(it);
      if !ok {
        ok := backpack.Set(it);
      }
    }

    /** `add`: `stack`, else `set`. */
    method Add(it: Item) returns (ok: bool)
      requires Valid()
      modifies belt.cells, backpack.cells
      ensures Valid()
      ensures (belt.Slots(), backpack.Slots(), ok) == InventoryAdd(old(belt.Slots()), old(backpack.Slots()), it, MaxInStack)
    {
      ok := Stack(it);
      if !ok {
        ok := Set(it);
      }
    }

    /** `hasSpace`: the belt or the backpack has space. */
    method HasSpace(it: Item) returns (r: bool)
      requires Valid()
      ensures r == (HasSpaceAny(belt.Slots(), it, MaxInStack, AnyItem) || HasSpaceAny(backpack.Slots(), it, MaxInStack, AnyItem))
    {
      r := belt.HasSpace(it);
      if !r {
        r := backpack.HasSpace(it);
      }
    }
  }
}
