/**
 * The values behind the inventory: items, the contents of one inventory
 * cell (a slot), and the first-fit `stack` / `set` / `add` / `hasSpace`
 * scans of a belt or backpack, stated over the sequence of its slots in scan
 * order.
 */
module Slots {
  import opened Wrappers

  /**
   * A usable drop as far as the inventory sees it: its name, whether it is
   * a weapon (the equipment cell accepts weapons only), and which drop
   * object it is.  A stack keeps the object it was started with.
   */
  datatype Item = Item(name: string, weapon: bool, instance: nat)

  /**
   * `same`: two drops are interchangeable in a stack when they have the
   * same name and class, whichever objects they are.
   */
  predicate Same(a: Item, b: Item) {
    a.name == b.name && a.weapon == b.weapon
  }

  /** The accept predicate a cell was built with. */
  datatype Accept = AnyItem | WeaponsOnly

  predicate Supports(accept: Accept, it: Item) {
    accept == AnyItem || it.weapon
  }

  /** What one cell holds: an optional item and its count. */
  datatype Slot = Slot(item: Option<Item>, count: int)

  const EmptySlot := Slot(None, 0)

  /**
   * The cell invariant: an empty cell counts 0; a full one holds between 1
   * and `max` units of an item its predicate accepts.
   */
  predicate SlotValid(s: Slot, max: int, accept: Accept) {
    (s.item.None? ==> s.count == 0) &&
    (s.item.Some? ==> 1 <= s.count <= max && Supports(accept, s.item.value))
  }

  /** The condition under which `stack` adds a unit. */
  predicate CanStack(s: Slot, it: Item, max: int) {
    s.item.Some? && Same(s.item.value, it) && s.count < max
  }

  /** The condition under which `set` puts an item. */
  predicate CanSet(s: Slot, it: Item, accept: Accept) {
    s.item.None? && Supports(accept, it)
  }

  /** `hasSpace` of one cell. */
  predicate SlotHasSpace(s: Slot, it: Item, max: int, accept: Accept) {
    Supports(accept, it) && (s.item.None? || (Same(s.item.value, it) && s.count < max))
  }

  /** `decrease`: one unit less, floored at 0; at 0 the cell is emptied. */
  function Decreased(s: Slot): (r: Slot)
    ensures s.item.Some? && s.count >= 2 ==> r == Slot(s.item, s.count - 1)
    ensures s.count <= 1 ==> r == EmptySlot
  {
    var c := if s.count - 1 > 0 then s.count - 1 else 0;
    if c <= 0 then EmptySlot else Slot(s.item, c)
  }

  /** The units of items `same` as `it` a slot holds. */
  function Units(s: Slot, it: Item): int {
    if s.item.Some? && Same(s.item.value, it) then s.count else 0
  }

  /** The units of items `same` as `it` in a row of slots. */
  function Total(ss: seq<Slot>, it: Item): int {
    if |ss| == 0 then 0 else Total(ss[..|ss| - 1], it) + Units(ss[|ss| - 1], it)
  }

  predicate AllValid(ss: seq<Slot>, max: int, accept: Accept) {
    forall j | 0 <= j < |ss| :: SlotValid(ss[j], max, accept)
  }

  /** The first slot, in scan order, that `stack` would take. */
  function FirstStackable(ss: seq<Slot>, it: Item, max: int): (r: Option<nat>)
    ensures r.Some? ==>
      r.value < |ss| && CanStack(ss[r.value], it, max) &&
      forall j | 0 <= j < r.value :: !CanStack(ss[j], it, max)
    ensures r.None? ==> forall j | 0 <= j < |ss| :: !CanStack(ss[j], it, max)
  {
    if |ss| == 0 then None
    else if CanStack(ss[0], it, max) then Some(0)
    else match FirstStackable(ss[1..], it, max)
      case None => None
      case Some(j) => Some(j + 1)
  }

  /** The first slot, in scan order, that `set` would take. */
  function FirstSettable(ss: seq<Slot>, it: Item, accept: Accept): (r: Option<nat>)
    ensures r.Some? ==>
      r.value < |ss| && CanSet(ss[r.value], it, accept) &&
      forall j | 0 <= j < r.value :: !CanSet(ss[j], it, accept)
    ensures r.None? ==> forall j | 0 <= j < |ss| :: !CanSet(ss[j], it, accept)
  {
    if |ss| == 0 then None
    else if CanSet(ss[0], it, accept) then Some(0)
    else match FirstSettable(ss[1..], it, accept)
      case None => None
      case Some(j) => Some(j + 1)
  }

  /** A container's `stack`: one more unit on the first cell that can take it. */
  function StackFirst(ss: seq<Slot>, it: Item, max: int): (r: (seq<Slot>, bool))
    ensures |r.0| == |ss| && (!r.1 ==> r.0 == ss)
  {
    match FirstStackable(ss, it, max)
    case None => (ss, false)
    case Some(i) => (ss[i := Slot(ss[i].item, ss[i].count + 1)], true)
  }

  /** A container's `set`: the item, one unit of it, on the first empty cell that accepts it. */
  function SetFirst(ss: seq<Slot>, it: Item, accept: Accept): (r: (seq<Slot>, bool))
    ensures |r.0| == |ss| && (!r.1 ==> r.0 == ss)
  {
    match FirstSettable(ss, it, accept)
    case None => (ss, false)
    case Some(i) => (ss[i := Slot(Some(it), 1)], true)
  }

  /** A container's `add`: `stack`, and `set` only when nothing could be stacked. */
  function AddFirst(ss: seq<Slot>, it: Item, max: int, accept: Accept): (r: (seq<Slot>, bool))
    ensures |r.0| == |ss| && (!r.1 ==> r.0 == ss)
  {
    var (s1, ok1) := StackFirst(ss, it, max);
    if ok1 then (s1, true) else SetFirst(ss, it, accept)
  }

  /** A container's `hasSpace`: some cell has space. */
  predicate HasSpaceAny(ss: seq<Slot>, it: Item, max: int, accept: Accept) {
    exists j | 0 <= j < |ss| :: SlotHasSpace(ss[j], it, max, accept)
  }

  /** `Inventory.stack`: `stack` on the belt, else in the backpack. */
  function InventoryStack(belt: seq<Slot>, pack: seq<Slot>, it: Item, max: int): (r: (seq<Slot>, seq<Slot>, bool))
    ensures r.0 == belt || r.1 == pack
    ensures !r.2 ==> r.0 == belt && r.1 == pack
  {
    var (b, okBelt) := StackFirst(belt, it, max);
    if okBelt then (b, pack, true)
    else
      var (p, okPack) := StackFirst(pack, it, max);
      (belt, p, okPack)
  }

  /** `Inventory.set`: `set` on the belt, else in the backpack. */
  function InventorySet(belt: seq<Slot>, pack: seq<Slot>, it: Item): (r: (seq<Slot>, seq<Slot>, bool))
    ensures r.0 == belt || r.1 == pack
    ensures !r.2 ==> r.0 == belt && r.1 == pack
  {
    var (b, okBelt) := SetFirst(belt, it, AnyItem);
    if okBelt then (b, pack, true)
    else
      var (p, okPack) := SetFirst(pack, it, AnyItem);
      (belt, p, okPack)
  }

  /**
   * `Inventory.add`: the inventory's `stack`, and its `set` only when
   * nothing could be stacked.
   */
  function InventoryAdd(belt: seq<Slot>, pack: seq<Slot>, it: Item, max: int): (r: (seq<Slot>, seq<Slot>, bool))
    ensures r.0 == belt || r.1 == pack
    ensures !r.2 ==> r.0 == belt && r.1 == pack
  {
    var r := InventoryStack(belt, pack, it, max);
    if r.2 then r else InventorySet(belt, pack, it)
  }

  // ---------------------------------------------------------------------
  // Properties

  /**
   * A scan that finds cell `i` able to stack, after every earlier cell
   * failed, is the container's `stack`.
   */
  lemma StackFirstAt(ss: seq<Slot>, it: Item, max: int, i: nat)
    requires i < |ss| && CanStack(ss[i], it, max)
    requires forall j | 0 <= j < i :: !CanStack(ss[j], it, max)
    ensures StackFirst(ss, it, max) == (ss[i := Slot(ss[i].item, ss[i].count + 1)], true)
  {
    assert FirstStackable(ss, it, max) == Some(i);
  }

  /** A scan in which every cell fails to stack is a failed `stack`. */
  lemma StackFirstNone(ss: seq<Slot>, it: Item, max: int)
    requires forall j | 0 <= j < |ss| :: !CanStack(ss[j], it, max)
    ensures StackFirst(ss, it, max) == (ss, false)
  {
  }

  /**
   * A scan that finds cell `i` able to take the item, after every earlier
   * cell failed, is the container's `set`.
   */
  lemma SetFirstAt(ss: seq<Slot>, it: Item, accept: Accept, i: nat)
    requires i < |ss| && CanSet(ss[i], it, accept)
    requires forall j | 0 <= j < i :: !CanSet(ss[j], it, accept)
    ensures SetFirst(ss, it, accept) == (ss[i := Slot(Some(it), 1)], true)
  {
    assert FirstSettable(ss, it, accept) == Some(i);
  }

  /** A scan in which every cell fails to take the item is a failed `set`. */
  lemma SetFirstNone(ss: seq<Slot>, it: Item, accept: Accept)
    requires forall j | 0 <= j < |ss| :: !CanSet(ss[j], it, accept)
    ensures SetFirst(ss, it, accept) == (ss, false)
  {
  }

  /** `same` items are counted alike, although they may be different drop objects. */
  lemma {:induction false} SameTotal(ss: seq<Slot>, a: Item, b: Item)
    requires Same(a, b)
    ensures Total(ss, a) == Total(ss, b)
    decreases |ss|
  {
    if |ss| > 0 {
      SameTotal(ss[..|ss| - 1], a, b);
      assert Units(ss[|ss| - 1], a) == Units(ss[|ss| - 1], b);
    }
  }

  /** On a valid cell `hasSpace` holds exactly when `stack` or `set` would succeed. */
  lemma HasSpaceIffStackOrSet(s: Slot, it: Item, max: int, accept: Accept)
    requires SlotValid(s, max, accept)
    ensures SlotHasSpace(s, it, max, accept) <==> CanStack(s, it, max) || CanSet(s, it, accept)
  {
    if CanStack(s, it, max) {
      assert s.item.value.weapon == it.weapon;
    }
  }

  /** Replacing one slot changes the total by the difference of its units. */
  lemma {:induction false} TotalUpdate(ss: seq<Slot>, i: nat, s: Slot, it: Item)
    requires i < |ss|
    ensures Total(ss[i := s], it) == Total(ss, it) - Units(ss[i], it) + Units(s, it)
    decreases |ss|
  {
    var n := |ss| - 1;
    assert ss[i := s][..n] == if i == n then ss[..n] else ss[..n][i := s];
    if i < n {
      TotalUpdate(ss[..n], i, s, it);
    }
  }

  /**
   * A container's `stack` succeeds exactly when some cell holds a `same`
   * item below the maximum, and keeps every cell valid.
   */
  lemma StackFirstSpec(ss: seq<Slot>, it: Item, max: int, accept: Accept)
    requires AllValid(ss, max, accept)
    ensures StackFirst(ss, it, max).1 <==> exists j | 0 <= j < |ss| :: CanStack(ss[j], it, max)
    ensures AllValid(StackFirst(ss, it, max).0, max, accept)
  {
    match FirstStackable(ss, it, max)
    case None =>
    case Some(i) =>
      assert SlotValid(Slot(ss[i].item, ss[i].count + 1), max, accept);
  }

  /**
   * A successful `stack` adds one unit of `it` and leaves every other kind
   * of item as it was; a failed one changes nothing.
   */
  lemma StackFirstTotals(ss: seq<Slot>, it: Item, max: int, other: Item)
    ensures Total(StackFirst(ss, it, max).0, it) == Total(ss, it) + (if StackFirst(ss, it, max).1 then 1 else 0)
    ensures !Same(other, it) ==> Total(StackFirst(ss, it, max).0, other) == Total(ss, other)
  {
    match FirstStackable(ss, it, max)
    case None =>
    case Some(i) =>
      var s := Slot(ss[i].item, ss[i].count + 1);
      TotalUpdate(ss, i, s, it);
      TotalUpdate(ss, i, s, other);
  }

  /**
   * A container's `set` succeeds exactly when some cell is empty and
   * accepts the item, and keeps every cell valid.
   */
  lemma SetFirstSpec(ss: seq<Slot>, it: Item, max: int, accept: Accept)
    requires AllValid(ss, max, accept) && max >= 1
    ensures SetFirst(ss, it, accept).1 <==> exists j | 0 <= j < |ss| :: CanSet(ss[j], it, accept)
    ensures AllValid(SetFirst(ss, it, accept).0, max, accept)
  {
  }

  /**
   * A successful `set` adds one unit of `it` and leaves every other kind of
   * item as it was; a failed one changes nothing.
   */
  lemma SetFirstTotals(ss: seq<Slot>, it: Item, accept: Accept, other: Item)
    ensures Total(SetFirst(ss, it, accept).0, it) == Total(ss, it) + (if SetFirst(ss, it, accept).1 then 1 else 0)
    ensures !Same(other, it) ==> Total(SetFirst(ss, it, accept).0, other) == Total(ss, other)
  {
    match FirstSettable(ss, it, accept)
    case None =>
    case Some(i) =>
      var s := Slot(Some(it), 1);
      TotalUpdate(ss, i, s, it);
      TotalUpdate(ss, i, s, other);
  }

  /**
   * A container's `add` succeeds exactly when its `hasSpace` holds, and then
   * stores one more unit of `it` and nothing else.
   */
  lemma AddFirstSpec(ss: seq<Slot>, it: Item, max: int, accept: Accept, other: Item)
    requires AllValid(ss, max, accept) && max >= 1
    ensures AddFirst(ss, it, max, accept).1 <==> HasSpaceAny(ss, it, max, accept)
    ensures Total(AddFirst(ss, it, max, accept).0, it) == Total(ss, it) + (if AddFirst(ss, it, max, accept).1 then 1 else 0)
    ensures !Same(other, it) ==> Total(AddFirst(ss, it, max, accept).0, other) == Total(ss, other)
    ensures AllValid(AddFirst(ss, it, max, accept).0, max, accept)
  {
    StackFirstSpec(ss, it, max, accept);
    StackFirstTotals(ss, it, max, other);
    SetFirstSpec(ss, it, max, accept);
    SetFirstTotals(ss, it, accept, other);
    if HasSpaceAny(ss, it, max, accept) {
      var j :| 0 <= j < |ss| && SlotHasSpace(ss[j], it, max, accept);
      HasSpaceIffStackOrSet(ss[j], it, max, accept);
    } else {
      forall j | 0 <= j < |ss|
        ensures !CanStack(ss[j], it, max) && !CanSet(ss[j], it, accept)
      {
        HasSpaceIffStackOrSet(ss[j], it, max, accept);
      }
    }
  }

  /**
   * The totals after a container's `add`, for every kind of item at once:
   * one more of `it` when it succeeded, the same for everything else.
   */
  lemma AddFirstTotals(ss: seq<Slot>, it: Item, max: int, accept: Accept)
    requires AllValid(ss, max, accept) && max >= 1
    ensures forall other: Item ::
      Total(AddFirst(ss, it, max, accept).0, other) ==
      Total(ss, other) + (if AddFirst(ss, it, max, accept).1 && Same(other, it) then 1 else 0)
  {
    forall other: Item
      ensures Total(AddFirst(ss, it, max, accept).0, other) ==
        Total(ss, other) + (if AddFirst(ss, it, max, accept).1 && Same(other, it) then 1 else 0)
    {
      AddFirstSpec(ss, it, max, accept, other);
      if Same(other, it) {
        SameTotal(ss, other, it);
        SameTotal(AddFirst(ss, it, max, accept).0, other, it);
      }
    }
  }

  /**
   * `Inventory.add` succeeds exactly when `Inventory.hasSpace` holds, and
   * keeps every cell of the belt and the backpack valid.
   */
  lemma InventoryAddSpec(belt: seq<Slot>, pack: seq<Slot>, it: Item, max: int)
    requires AllValid(belt, max, AnyItem) && AllValid(pack, max, AnyItem) && max >= 1
    ensures InventoryAdd(belt, pack, it, max).2 <==> HasSpaceAny(belt, it, max, AnyItem) || HasSpaceAny(pack, it, max, AnyItem)
    ensures AllValid(InventoryAdd(belt, pack, it, max).0, max, AnyItem)
    ensures AllValid(InventoryAdd(belt, pack, it, max).1, max, AnyItem)
  {
    AddFirstSpec(belt, it, max, AnyItem, it);
    AddFirstSpec(pack, it, max, AnyItem, it);
    StackFirstSpec(belt, it, max, AnyItem);
    StackFirstSpec(pack, it, max, AnyItem);
    SetFirstSpec(belt, it, max, AnyItem);
    SetFirstSpec(pack, it, max, AnyItem);
  }

  /**
   * `Inventory.stack` succeeds exactly when some belt or backpack cell can
   * stack the unit, and when a belt cell can, the backpack is unchanged.
   */
  lemma InventoryStackSpec(belt: seq<Slot>, pack: seq<Slot>, it: Item, max: int)
    ensures var (b, p, ok) := InventoryStack(belt, pack, it, max);
      (ok <==> (exists j | 0 <= j < |belt| :: CanStack(belt[j], it, max)) ||
               (exists j | 0 <= j < |pack| :: CanStack(pack[j], it, max))) &&
      ((exists j | 0 <= j < |belt| :: CanStack(belt[j], it, max)) ==>
        p == pack && b == StackFirst(belt, it, max).0)
  {
    if exists j | 0 <= j < |belt| :: CanStack(belt[j], it, max) {
      assert FirstStackable(belt, it, max).Some?;
    } else if exists j | 0 <= j < |pack| :: CanStack(pack[j], it, max) {
      assert FirstStackable(belt, it, max).None?;
      assert FirstStackable(pack, it, max).Some?;
    }
  }

  /**
   * `Inventory.set` succeeds exactly when some belt or backpack cell is
   * empty, and when a belt cell is, the backpack is unchanged.
   */
  lemma InventorySetSpec(belt: seq<Slot>, pack: seq<Slot>, it: Item)
    ensures var (b, p, ok) := InventorySet(belt, pack, it);
      (ok <==> (exists j | 0 <= j < |belt| :: CanSet(belt[j], it, AnyItem)) ||
               (exists j | 0 <= j < |pack| :: CanSet(pack[j], it, AnyItem))) &&
      ((exists j | 0 <= j < |belt| :: CanSet(belt[j], it, AnyItem)) ==>
        p == pack && b == SetFirst(belt, it, AnyItem).0)
  {
    if exists j | 0 <= j < |belt| :: CanSet(belt[j], it, AnyItem) {
      assert FirstSettable(belt, it, AnyItem).Some?;
    } else if exists j | 0 <= j < |pack| :: CanSet(pack[j], it, AnyItem) {
      assert FirstSettable(belt, it, AnyItem).None?;
      assert FirstSettable(pack, it, AnyItem).Some?;
    }
  }

  /**
   * A successful `Inventory.add` stores one more unit of `it` on the belt
   * or in the backpack and leaves every other kind of item where it was.
   */
  lemma InventoryAddTotals(belt: seq<Slot>, pack: seq<Slot>, it: Item, max: int, other: Item)
    ensures var r := InventoryAdd(belt, pack, it, max);
      Total(r.0, it) + Total(r.1, it) == Total(belt, it) + Total(pack, it) + (if r.2 then 1 else 0)
    ensures var r := InventoryAdd(belt, pack, it, max);
      !Same(other, it) ==> Total(r.0, other) == Total(belt, other) && Total(r.1, other) == Total(pack, other)
  {
    if StackFirst(belt, it, max).1 {
      StackFirstTotals(belt, it, max, other);
    } else if StackFirst(pack, it, max).1 {
      StackFirstTotals(pack, it, max, other);
    } else if SetFirst(belt, it, AnyItem).1 {
      SetFirstTotals(belt, it, AnyItem, other);
    } else {
      SetFirstTotals(pack, it, AnyItem, other);
    }
  }

  /**
   * Preference order of `Inventory.add`: a unit that can be stacked anywhere
   * is stacked, so it never opens a new cell while a `same` stack has room,
   * and the backpack is touched only when the belt cannot take the unit the
   * same way: when nothing can be stacked and the belt has an empty cell,
   * the unit goes to the belt's first empty cell.
   */
  lemma InventoryAddPrefers(belt: seq<Slot>, pack: seq<Slot>, it: Item, max: int)
    ensures var (b, p, ok) := InventoryAdd(belt, pack, it, max);
      ((exists j | 0 <= j < |belt| :: CanStack(belt[j], it, max)) ==>
        ok && p == pack && b == StackFirst(belt, it, max).0) &&
      ((exists j | 0 <= j < |pack| :: CanStack(pack[j], it, max)) ==>
        ok && ((b, p) == (StackFirst(belt, it, max).0, pack) || (b, p) == (belt, StackFirst(pack, it, max).0)))
    ensures var (b, p, ok) := InventoryAdd(belt, pack, it, max);
      (forall j | 0 <= j < |belt| :: !CanStack(belt[j], it, max)) &&
      (forall j | 0 <= j < |pack| :: !CanStack(pack[j], it, max)) &&
      (exists j | 0 <= j < |belt| :: CanSet(belt[j], it, AnyItem)) ==>
        ok && p == pack && b == SetFirst(belt, it, AnyItem).0
  {
    if (forall j | 0 <= j < |belt| :: !CanStack(belt[j], it, max)) &&
       (forall j | 0 <= j < |pack| :: !CanStack(pack[j], it, max)) &&
       (exists j | 0 <= j < |belt| :: CanSet(belt[j], it, AnyItem))
    {
      assert FirstStackable(belt, it, max).None?;
      assert FirstStackable(pack, it, max).None?;
      assert FirstSettable(belt, it, AnyItem).Some?;
    }
  }
}
