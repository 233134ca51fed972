/**
 * Items, the bag that holds them and the weapon hooks: `Item` and `Bag` (core.py:811-899),
 * `Weapon` (items/weapon.py) and `NormalSword` (items/weapons/normal_sword.py).
 *
 * The bag's owner is represented by the owner's `Board`, which is all the item hooks of
 * this module touch. Item kinds other than the sword keep the default hooks here; the
 * activation of books and drugs needs the skills and the scheduler and lives with the
 * item actions.
 */
module Inventory {

  import opened Util
  import opened Stats

  /** `MAX_MONEY`. */
  const MaxMoney: int := 99999999
  /** `Bag.max_capacity`. */
  const DefaultCapacity: int := 100

  datatype BookKind = PasterBook | RudiFireBook

  /** The concrete item classes. A drug is known by the effect its `use` returns. */
  datatype ItemKind = Sword(level: int) | Book(book: BookKind) | Drug(effect: nat) | Trinket

  /** `NormalSword.weight = 1 + level // 2`, with Python's flooring division. */
  function SwordWeight(level: int): (r: int)
    ensures 2 * (r - 1) <= level < 2 * (r - 1) + 2
  {
    1 + level / 2
  }

  class Item {
    const kind: ItemKind
    const weight: int
    /** `Weapon.is_equipped`; never set on items that are not weapons. */
    var isEquipped: bool
    /** `NormalSword.previous_ATK_DIST`. */
    var previousAttackDist: real

    /** `NormalSword(level)`. */
    constructor Sword(level: int)
      ensures kind == ItemKind.Sword(level) && weight == SwordWeight(level)
      ensures !isEquipped && previousAttackDist == 0.0
    {
      kind := ItemKind.Sword(level);
      weight := SwordWeight(level);
      isEquipped := false;
      previousAttackDist := 0.0;
    }

    /** Any other item, with the class default weight or its own. */
    constructor Other(kind: ItemKind, weight: int)
      requires !kind.Sword?
      ensures this.kind == kind && this.weight == weight && !isEquipped
    {
      this.kind := kind;
      this.weight := weight;
      isEquipped := false;
      previousAttackDist := 0.0;
    }
  }

  /** The statistics a sword changes. */
  datatype Gear = Gear(str: real, dex: real, attackDist: real)

  function GearOf(b: Board): Gear
    reads b`STR, b`DEX, b`attackDist
  {
    Gear(b.STR, b.DEX, b.attackDist)
  }

  function StrBonus(level: int): real { 2.0 + 0.9 * level as real }

  function DexBonus(level: int): real { 0.1 * level as real }

  /** `NormalSword.on_equipped` on values: the bonuses are added and the attack distance is kept. */
  function Equip(g: Gear, level: int): (r: Gear)
    ensures r.attackDist == g.attackDist
    ensures r.str - g.str == StrBonus(level) && r.dex - g.dex == DexBonus(level)
  {
    Gear(g.str + StrBonus(level), g.dex + DexBonus(level), g.attackDist)
  }

  /** `NormalSword.on_unequipped` on values: the bonuses are taken off and the saved distance restored. */
  function Unequip(g: Gear, level: int, saved: real): (r: Gear)
    ensures r.attackDist == saved
    ensures g.str - r.str == StrBonus(level) && g.dex - r.dex == DexBonus(level)
  {
    Gear(g.str - StrBonus(level), g.dex - DexBonus(level), saved)
  }

  /** Equipping then unequipping a sword gives back the statistics exactly (in exact arithmetic). */
  lemma UnequipUndoesEquip(g: Gear, level: int)
    ensures Unequip(Equip(g, level), level, g.attackDist) == g
  {
  }

  /** Unequipping a second time without equipping in between takes the bonus off twice. */
  lemma UnequipTwiceLosesBonus(g: Gear, level: int)
    ensures Unequip(Unequip(Equip(g, level), level, g.attackDist), level, g.attackDist).str
            == g.str - StrBonus(level)
  {
  }

  /** `NormalSword.on_equipped`. */
  method OnEquipped(sword: Item, board: Board)
    requires sword.kind.Sword?
    modifies board`STR, board`DEX, sword`previousAttackDist
    ensures GearOf(board) == Equip(old(GearOf(board)), sword.kind.level)
    ensures sword.previousAttackDist == old(board.attackDist)
  {
    var level := sword.kind.level;
    board.ApplySTR(board.STR + 2.0 + 0.9 * level as real);
    board.ApplyDEX(board.DEX + 0.1 * level as real);
    sword.previousAttackDist := board.attackDist;
  }

  /** `NormalSword.on_unequipped`. */
  method OnUnequipped(sword: Item, board: Board)
    requires sword.kind.Sword?
    modifies board`STR, board`DEX, board`attackDist
    ensures GearOf(board) == Unequip(old(GearOf(board)), sword.kind.level, sword.previousAttackDist)
  {
    var level := sword.kind.level;
    board.ApplySTR(board.STR - 2.0 - 0.9 * level as real);
    board.ApplyDEX(board.DEX - 0.1 * level as real);
    board.ApplyAttackDist(sword.previousAttackDist);
  }

  /** The total weight of a set of items. */
  ghost function TotalWeight(s: set<Item>): int
  {
    if s == {} then 0 else var x :| x in s; x.weight + TotalWeight(s - {x})
  }

  /** Any element may be taken out first: the total does not depend on the choice. */
  lemma {:induction false} TotalWeightRemove(s: set<Item>, x: Item)
    requires x in s
    ensures TotalWeight(s) == x.weight + TotalWeight(s - {x})
    decreases |s|
  {
    var y :| y in s && TotalWeight(s) == y.weight + TotalWeight(s - {y});
    if y != x {
      TotalWeightRemove(s - {y}, x);
      TotalWeightRemove(s - {x}, y);
      assert s - {y} - {x} == s - {x} - {y};
    }
  }

  /** Adding a new item adds its weight to the total. */
  lemma TotalWeightAdd(s: set<Item>, x: Item)
    requires x !in s
    ensures TotalWeight(s + {x}) == TotalWeight(s) + x.weight
  {
    TotalWeightRemove(s + {x}, x);
    assert s + {x} - {x} == s;
  }

  /** No item of the set has a negative weight. */
  ghost predicate NonNegativeWeights(s: set<Item>)
  {
    forall i <- s :: i.weight >= 0
  }

  /** With no negative weights, a subset never weighs more than the whole. */
  lemma {:induction false} TotalWeightGrows(a: set<Item>, b: set<Item>)
    requires a <= b && NonNegativeWeights(b)
    ensures TotalWeight(a) <= TotalWeight(b)
    decreases |b|
  {
    if a != b {
      assert b == a + (b - a);
      var x :| x in b - a;
      TotalWeightRemove(b, x);
      TotalWeightGrows(a, b - {x});
    }
  }

  /** An item that has not arrived still fits within the weight of the whole set. */
  lemma RoomFor(arrived: set<Item>, all: set<Item>, i: Item)
    requires arrived <= all && i in all && NonNegativeWeights(all)
    ensures i !in arrived ==> TotalWeight(arrived) + i.weight <= TotalWeight(all)
  {
    if i !in arrived {
      TotalWeightAdd(arrived, i);
      TotalWeightGrows(arrived + {i}, all);
    }
  }

  class Bag {
    /** The owner's board, which the weapon hooks update. */
    const board: Board
    var maxCapacity: int
    var curCapacity: int
    var money: int
    var items: set<Item>

    /** `init` with the class defaults. */
    constructor (board: Board)
      ensures this.board == board && maxCapacity == DefaultCapacity && curCapacity == 0
      ensures money == 0 && items == {}
    {
      this.board := board;
      maxCapacity := DefaultCapacity;
      curCapacity := 0;
      money := 0;
      items := {};
    }

    /** `cur_capacity` is the weight of what the bag holds, and the money is in range. */
    ghost predicate Valid()
      reads this
    {
      curCapacity == TotalWeight(items) && 0 <= money <= MaxMoney
    }

    predicate HasItem(item: Item)
      reads this
    {
      item in items
    }

    /** `add_money`: the new balance is clamped to [0, MAX_MONEY]. */
    method AddMoney(value: int)
      modifies this`money
      ensures money == ClampInt(old(money) + value, 0, MaxMoney)
      ensures 0 <= money <= MaxMoney
    {
      money := ClampInt(money + value, 0, MaxMoney);
    }

    /** `remove_money`: the new balance is clamped to [0, MAX_MONEY]. */
    method RemoveMoney(value: int)
      modifies this`money
      ensures money == ClampInt(old(money) - value, 0, MaxMoney)
      ensures 0 <= money <= MaxMoney
    {
      money := ClampInt(money - value, 0, MaxMoney);
    }

    /**
     * `add_item`: refused for an item already held or one that would overflow the capacity;
     * the weight bookkeeping stays exact and the capacity is never exceeded by an addition.
     */
    method AddItem(item: Item) returns (ok: bool)
      modifies this`items, this`curCapacity
      ensures ok <==> item !in old(items) && old(curCapacity) + item.weight <= maxCapacity
      ensures items == if ok then old(items) + {item} else old(items)
      ensures curCapacity == if ok then old(curCapacity) + item.weight else old(curCapacity)
      ensures ok ==> curCapacity <= maxCapacity
      ensures old(Valid()) ==> Valid()
    {
      if item in items {
        return false;
      }
      if curCapacity + item.weight > maxCapacity {
        return false;
      }
      TotalWeightAdd(items, item);
      items := items + {item};
      curCapacity := curCapacity + item.weight;
      return true;
    }

    /**
     * `remove_item`: frees exactly the item's weight, then runs its `on_uninstall` hook,
     * which for a weapon is `on_deactivated`.
     */
    method RemoveItem(item: Item) returns (ok: bool)
      modifies this`items, this`curCapacity, board`STR, board`DEX, board`attackDist, item`isEquipped
      ensures ok <==> item in old(items)
      ensures items == old(items) - {item}
      ensures curCapacity == if ok then old(curCapacity) - item.weight else old(curCapacity)
      ensures old(Valid()) ==> Valid()
      ensures !ok ==> GearOf(board) == old(GearOf(board)) && item.isEquipped == old(item.isEquipped)
      ensures ok ==> Uninstalled(item, old(item.isEquipped), old(GearOf(board)), GearOf(board))
      ensures ok ==> !item.isEquipped || !item.kind.Sword?
      ensures !item.kind.Sword? ==> item.isEquipped == old(item.isEquipped)
    {
      if item !in items {
        return false;
      }
      TotalWeightRemove(items, item);
      items := items - {item};
      curCapacity := curCapacity - item.weight;
      OnUninstall(item, board);
      return true;
    }
  }

  /** What `on_uninstall` does to the owner's statistics: a weapon that was equipped comes off. */
  ghost predicate Uninstalled(item: Item, wasEquipped: bool, before: Gear, after: Gear)
    reads item
  {
    if item.kind.Sword? && wasEquipped then after == Unequip(before, item.kind.level, item.previousAttackDist)
    else after == before
  }

  /** `Item.on_uninstall`: calls `on_deactivated`, which only a weapon overrides. */
  method OnUninstall(item: Item, board: Board)
    modifies board`STR, board`DEX, board`attackDist, item`isEquipped
    ensures Uninstalled(item, old(item.isEquipped), old(GearOf(board)), GearOf(board))
    ensures item.kind.Sword? ==> !item.isEquipped
    ensures !item.kind.Sword? ==> item.isEquipped == old(item.isEquipped)
  {
    if item.kind.Sword? {
      var _ := OnDeactivated(item, board);
    }
  }

  /**
   * `Weapon.on_deactivated`: an equipped weapon is unflagged and unequipped once; otherwise
   * nothing changes, so a repeated call has no effect.
   */
  method OnDeactivated(weapon: Item, board: Board) returns (ok: bool)
    requires weapon.kind.Sword?
    modifies board`STR, board`DEX, board`attackDist, weapon`isEquipped
    ensures ok == old(weapon.isEquipped)
    ensures !weapon.isEquipped
    ensures ok ==> GearOf(board) == Unequip(old(GearOf(board)), weapon.kind.level, weapon.previousAttackDist)
    ensures !ok ==> GearOf(board) == old(GearOf(board))
  {
    if weapon.isEquipped {
      weapon.isEquipped := false;
      OnUnequipped(weapon, board);
      return true;
    }
    return false;
  }

  /** Another weapon of the bag that is flagged as equipped. */
  predicate EquippedOther(bag: Bag, weapon: Item, other: Item)
    reads bag, other
  {
    other in bag.items && other != weapon && other.kind.Sword? && other.isEquipped
  }

  ghost predicate NoOtherEquipped(bag: Bag, weapon: Item)
    reads bag, bag.items
  {
    forall o :: o in bag.items ==> !EquippedOther(bag, weapon, o)
  }

  /** The loop of `Weapon.on_activated` that looks for another equipped weapon in the bag. */
  method FindEquippedOther(bag: Bag, weapon: Item) returns (found: Option<Item>)
    ensures found.Some? ==> EquippedOther(bag, weapon, found.value)
    ensures found.None? ==> forall o :: !EquippedOther(bag, weapon, o)
    ensures found.None? ==> NoOtherEquipped(bag, weapon)
  {
    var rest := bag.items;
    while rest != {}
      invariant rest <= bag.items
      invariant forall o :: o in bag.items - rest ==> !EquippedOther(bag, weapon, o)
      decreases |rest|
    {
      var item :| item in rest;
      if item != weapon && item.kind.Sword? && item.isEquipped {
        return Some(item);
      }
      rest := rest - {item};
    }
    return None;
  }

  /** The statistics after the other weapon found, if any, came off. */
  function TakenOff(g: Gear, found: Option<Item>): Gear
    reads if found.Some? then {found.value} else {}
  {
    if found.Some? && found.value.kind.Sword? then Unequip(g, found.value.kind.level, found.value.previousAttackDist)
    else g
  }

  /** The statistics after this weapon went on, when it did. */
  function Activated(g: Gear, weapon: Item, ok: bool): Gear
  {
    if ok && weapon.kind.Sword? then Equip(g, weapon.kind.level) else g
  }

  /**
   * `Weapon.on_activated` as written: the first other equipped weapon met while iterating
   * over the bag (any one of them, since a set has no order here) gets `on_unequipped`
   * but keeps its `is_equipped` flag; then this weapon is equipped unless it already is.
   */
  method OnActivatedAsWritten(weapon: Item, bag: Bag) returns (ok: bool, found: Option<Item>)
    requires weapon.kind.Sword?
    modifies bag.board`STR, bag.board`DEX, bag.board`attackDist, weapon`isEquipped,
             weapon`previousAttackDist
    ensures ok == !old(weapon.isEquipped) && weapon.isEquipped
    ensures found.Some? ==> found.value in old(bag.items) && old(EquippedOther(bag, weapon, found.value)) && found.value.isEquipped
    ensures found.None? <==> old(NoOtherEquipped(bag, weapon))
    ensures forall o :: o in bag.items && o != weapon ==> o.isEquipped == old(o.isEquipped)
    ensures GearOf(bag.board) == Activated(TakenOff(old(GearOf(bag.board)), found), weapon, ok)
    ensures weapon.previousAttackDist ==
              if ok then TakenOff(old(GearOf(bag.board)), found).attackDist else old(weapon.previousAttackDist)
  {
    var board := bag.board;
    ghost var noneBefore := NoOtherEquipped(bag, weapon);
    found := FindEquippedOther(bag, weapon);
    assert found.None? ==> noneBefore;
    if found.Some? {
      OnUnequipped(found.value, board);
    }
    ok := !weapon.isEquipped;
    if ok {
      weapon.isEquipped := true;
      OnEquipped(weapon, board);
    }
  }

  /** At most one weapon of the bag is flagged as equipped. */
  ghost predicate AtMostOneEquipped(bag: Bag)
    reads bag, bag.items
  {
    forall a, b ::
      (a in bag.items && b in bag.items && a.kind.Sword? && b.kind.Sword? && a.isEquipped && b.isEquipped)
      ==> a == b
  }

  /**
   * `Weapon.on_activated` as evidently intended: the other equipped weapon is taken off
   * with `on_deactivated`, which also clears its flag, so at most one weapon stays flagged.
   */
  method OnActivated(weapon: Item, bag: Bag) returns (ok: bool, found: Option<Item>)
    requires weapon.kind.Sword? && weapon in bag.items
    modifies bag.board`STR, bag.board`DEX, bag.board`attackDist, bag.items`isEquipped,
             weapon`previousAttackDist
    ensures ok == !old(weapon.isEquipped) && weapon.isEquipped
    ensures found.Some? ==> found.value in old(bag.items) && old(EquippedOther(bag, weapon, found.value)) && !found.value.isEquipped
    ensures found.None? <==> old(NoOtherEquipped(bag, weapon))
    ensures forall o :: o in bag.items && o != weapon && found != Some(o) ==> o.isEquipped == old(o.isEquipped)
    ensures old(AtMostOneEquipped(bag)) ==> AtMostOneEquipped(bag)
    ensures old(AtMostOneEquipped(bag)) ==>
              forall o :: o in bag.items && o != weapon && o.kind.Sword? ==> !o.isEquipped
    ensures GearOf(bag.board) == Activated(TakenOff(old(GearOf(bag.board)), found), weapon, ok)
    ensures weapon.previousAttackDist ==
              if ok then TakenOff(old(GearOf(bag.board)), found).attackDist else old(weapon.previousAttackDist)
  {
    var board := bag.board;
    ghost var noneBefore := NoOtherEquipped(bag, weapon);
    found := FindEquippedOther(bag, weapon);
    assert found.None? ==> noneBefore;
    ghost var single := old(AtMostOneEquipped(bag));
    if found.Some? {
      var _ := OnDeactivated(found.value, board);
    }
    if single {
      forall o | o in bag.items && o != weapon && o.kind.Sword?
        ensures !o.isEquipped
      {
        if found.None? {
          assert !EquippedOther(bag, weapon, o);
        } else if o != found.value {
          assert old(found.value.isEquipped);
          assert old(AtMostOneEquipped(bag));
          assert o.isEquipped == old(o.isEquipped);
        }
      }
    }
    ok := !weapon.isEquipped;
    if ok {
      weapon.isEquipped := true;
      OnEquipped(weapon, board);
    }
  }

  /** A fresh board and bag holding two unequipped level-0 swords. */
  method TwoSwords() returns (board: Board, bag: Bag, first: Item, second: Item)
    ensures fresh(board) && fresh(bag) && fresh(first) && fresh(second) && first != second
    ensures bag.board == board && bag.items == {first, second}
    ensures first.kind == ItemKind.Sword(0) && second.kind == ItemKind.Sword(0)
    ensures !first.isEquipped && !second.isEquipped
    ensures GearOf(board) == Gear(0.0, 0.0, 4.0)
    ensures NoOtherEquipped(bag, first)
  {
    board := new Board();
    bag := new Bag(board);
    first := new Item.Sword(0);
    second := new Item.Sword(0);
    var added := bag.AddItem(first);
    added := bag.AddItem(second);
  }

  /** Two level-0 swords in a bag, the first equipped and the second not. */
  ghost predicate FirstOn(board: Board, bag: Bag, first: Item, second: Item)
    reads board, bag, first, second
  {
    && bag.board == board && bag.items == {first, second} && first != second
    && first.kind == ItemKind.Sword(0) && second.kind == ItemKind.Sword(0)
    && first.isEquipped && !second.isEquipped && first.previousAttackDist == 4.0
    && GearOf(board) == Gear(2.0, 0.0, 4.0)
  }

  /**
   * Two level-0 swords in a fresh bag: activate the first, activate the second, then
   * deactivate both. As written, the first sword's bonus is taken off twice and STR ends at
   * -2 instead of its starting 0.
   */
  method SwapSwordsAsWritten() returns (str: real)
    ensures str == -2.0
  {
    var board, bag, first, second := TwoSwords();
    var ok, found := OnActivatedAsWritten(first, bag);
    assert found == None && ok;
    str := SecondThenOffAsWritten(board, bag, first, second);
  }

  method SecondThenOffAsWritten(board: Board, bag: Bag, first: Item, second: Item) returns (str: real)
    requires FirstOn(board, bag, first, second)
    modifies board`STR, board`DEX, board`attackDist, first`isEquipped, second`isEquipped, second`previousAttackDist
    ensures str == -2.0
  {
    assert EquippedOther(bag, second, first);
    assert TakenOff(GearOf(board), Some(first)) == Unequip(Gear(2.0, 0.0, 4.0), 0, 4.0) == Gear(0.0, 0.0, 4.0);
    assert Activated(Gear(0.0, 0.0, 4.0), second, true) == Equip(Gear(0.0, 0.0, 4.0), 0) == Gear(2.0, 0.0, 4.0);
    var ok, found := OnActivatedAsWritten(second, bag);
    assert found == Some(first) && ok;
    assert GearOf(board) == Gear(2.0, 0.0, 4.0) && first.isEquipped && second.previousAttackDist == 4.0;
    ok := OnDeactivated(first, board);
    assert GearOf(board) == Gear(0.0, 0.0, 4.0);
    assert Unequip(Gear(0.0, 0.0, 4.0), 0, 4.0) == Gear(-2.0, 0.0, 4.0);
    ok := OnDeactivated(second, board);
    str := board.STR;
  }

  /** The same sequence with the intended activation leaves STR where it started. */
  method SwapSwords() returns (str: real)
    ensures str == 0.0
  {
    var board, bag, first, second := TwoSwords();
    var ok, found := OnActivated(first, bag);
    assert found == None && ok;
    str := SecondThenOff(board, bag, first, second);
  }

  method SecondThenOff(board: Board, bag: Bag, first: Item, second: Item) returns (str: real)
    requires FirstOn(board, bag, first, second)
    modifies board`STR, board`DEX, board`attackDist, bag.items`isEquipped, second`previousAttackDist
    ensures str == 0.0
  {
    assert EquippedOther(bag, second, first);
    assert TakenOff(GearOf(board), Some(first)) == Unequip(Gear(2.0, 0.0, 4.0), 0, 4.0) == Gear(0.0, 0.0, 4.0);
    assert Activated(Gear(0.0, 0.0, 4.0), second, true) == Equip(Gear(0.0, 0.0, 4.0), 0) == Gear(2.0, 0.0, 4.0);
    var ok, found := OnActivated(second, bag);
    assert found == Some(first) && ok;
    assert GearOf(board) == Gear(2.0, 0.0, 4.0) && !first.isEquipped && second.previousAttackDist == 4.0;
    ok := OnDeactivated(first, board);
    assert GearOf(board) == Gear(2.0, 0.0, 4.0);
    ok := OnDeactivated(second, board);
    str := board.STR;
  }
}
