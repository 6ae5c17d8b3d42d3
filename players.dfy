/** The player record and its potion drinking. */
module Players {
  import opened Items

  /** What drinking a potion yields: whether it worked, and the health and inventory afterwards. */
  datatype Draught = Draught(ok: bool, health: int, inventory: seq<Item>)

  /**
   * Drinking the potion the player picks. `pick` is the number typed at the
   * prompt, counted from 1 among the potions; a non-numeric answer is any
   * number outside that range.
   */
  function Quaff(health: int, maxHealth: int, inventory: seq<Item>, pick: int): (d: Draught)
    ensures !d.ok ==> d.health == health && d.inventory == inventory
    ensures d.ok ==> d.health <= maxHealth && |d.inventory| == |inventory| - 1
  {
    var potions := Potions(inventory);
    if |potions| == 0 then Draught(false, health, inventory)
    else if 0 <= pick - 1 < |potions| then
      var potion := potions[pick - 1];
      Draught(true, Min(maxHealth, health + potion.value), RemoveFirst(inventory, potion))
    else Draught(false, health, inventory)
  }

  /** Drinking fails exactly when there is no potion or the pick is out of range, and then changes nothing. */
  lemma QuaffFailure(health: int, maxHealth: int, inventory: seq<Item>, pick: int)
    ensures var d := Quaff(health, maxHealth, inventory, pick);
      && (d.ok <==> 1 <= pick <= |Potions(inventory)|)
      && (!d.ok ==> d.health == health && d.inventory == inventory)
  {
  }

  /** A successful drink heals by the picked potion's value, capped at the maximum. */
  lemma QuaffHeals(health: int, maxHealth: int, inventory: seq<Item>, pick: int)
    requires 1 <= pick <= |Potions(inventory)|
    ensures Quaff(health, maxHealth, inventory, pick).ok
    ensures Potions(inventory)[pick - 1].kind == Potion && Potions(inventory)[pick - 1] in inventory
    ensures Quaff(health, maxHealth, inventory, pick).health
         == Min(maxHealth, health + Potions(inventory)[pick - 1].value)
  {
    assert Potions(inventory)[pick - 1] in Potions(inventory);
  }

  /**
   * A successful drink removes exactly the first occurrence of the picked
   * potion; every other item keeps its place in order.
   */
  lemma QuaffRemovesFirst(health: int, maxHealth: int, inventory: seq<Item>, pick: int)
    requires 1 <= pick <= |Potions(inventory)|
    ensures var d := Quaff(health, maxHealth, inventory, pick);
      var potion := Potions(inventory)[pick - 1];
      var k := IndexOf(inventory, potion);
      && inventory[k] == potion && potion !in inventory[..k]
      && d.inventory == inventory[..k] + inventory[k + 1..]
      && multiset(d.inventory) + multiset{potion} == multiset(inventory)
  {
    var potion := Potions(inventory)[pick - 1];
    RemoveFirstCutsFirst(inventory, potion);
    RemoveFirstMultiset(inventory, potion);
  }

  /** Drinking never removes anything but potions, and loses no item it keeps. */
  lemma QuaffKeepsItems(health: int, maxHealth: int, inventory: seq<Item>, pick: int)
    ensures multiset(Quaff(health, maxHealth, inventory, pick).inventory) <= multiset(inventory)
    ensures forall x: Item :: x.kind != Potion ==>
      multiset(Quaff(health, maxHealth, inventory, pick).inventory)[x] == multiset(inventory)[x]
  {
    if 1 <= pick <= |Potions(inventory)| {
      QuaffHeals(health, maxHealth, inventory, pick);
      QuaffRemovesFirst(health, maxHealth, inventory, pick);
    }
  }

  class Player {
    const name: string
    var health: int
    const maxHealth: int
    var inventory: seq<Item>
    var equippedWeapon: Option<Item>
    var gold: int
    var location: string

    /** A new player: full health of 100, 50 gold, nothing carried, in the village. */
    constructor (name: string)
      ensures this.name == name && health == 100 && maxHealth == 100
      ensures inventory == [] && equippedWeapon == None && gold == 50 && location == "village"
    {
      this.name := name;
      health := 100;
      maxHealth := 100;
      inventory := [];
      equippedWeapon := None;
      gold := 50;
      location := "village";
    }

    /** Appends the item; duplicates are kept. */
    method AddItem(item: Item)
      modifies this`inventory
      ensures inventory == old(inventory) + [item]
    {
      inventory := inventory + [item];
    }

    /** Lets the player drink one of their potions (see `Quaff`). */
    method UsePotion(pick: int) returns (ok: bool)
      modifies this`health, this`inventory
      ensures Draught(ok, health, inventory) == Quaff(old(health), maxHealth, old(inventory), pick)
      ensures ok <==> 1 <= pick <= |Potions(old(inventory))|
    {
      var potions := Potions(inventory);
      if |potions| == 0 {
        return false;
      }
      var choice := pick - 1;
      if 0 <= choice < |potions| {
        var potion := potions[choice];
        health := Min(maxHealth, health + potion.value);
        inventory := RemoveFirst(inventory, potion);
        return true;
      }
      return false;
    }
  }
}
