/** Items, enemies and the inventory queries the game makes of them. */
module Items {

  datatype Option<T> = None | Some(value: T)

  /** The three kinds an item can have (its `item_type`). */
  datatype ItemKind = Weapon | Potion | Key

  datatype Item = Item(name: string, description: string, value: int, kind: ItemKind)

  // The item catalog of the game.
  const Sword := Item("Espada de Aço", "Uma espada confiável para batalhas", 15, Weapon)
  const HealingPotion := Item("Poção de Cura", "Restaura 30 pontos de saúde", 30, Potion)
  const OldKey := Item("Chave Antiga", "Abre portas trancadas", 0, Key)
  const Dragonslayer := Item("Espada Matadora de Dragões", "Lâmina lendária contra dragões", 40, Weapon)

  /** The name the dragon's lair looks for in the inventory. */
  const LegendaryName := "Espada Matadora de Dragões"

  /** An enemy of the catalog. Combat lowers `health` of the catalog object itself. */
  class Enemy {
    const name: string
    var health: int
    const damage: int
    const description: string

    constructor (name: string, health: int, damage: int, description: string)
      ensures this.name == name && this.health == health
      ensures this.damage == damage && this.description == description
    {
      this.name := name;
      this.health := health;
      this.damage := damage;
      this.description := description;
    }
  }

  function Min(a: int, b: int): (m: int)
    ensures m <= a && m <= b && (m == a || m == b)
  {
    if a <= b then a else b
  }

  /** The potions of an inventory, in inventory order. */
  function Potions(inventory: seq<Item>): (p: seq<Item>)
    ensures |p| <= |inventory|
    ensures forall i :: 0 <= i < |p| ==> p[i].kind == Potion && p[i] in inventory
  {
    if inventory == [] then []
    else (if inventory[0].kind == Potion then [inventory[0]] else []) + Potions(inventory[1..])
  }

  /** The potion list is empty exactly when no item of the inventory is a potion. */
  lemma {:induction false} PotionsEmpty(inventory: seq<Item>)
    ensures |Potions(inventory)| == 0 <==> forall i :: 0 <= i < |inventory| ==> inventory[i].kind != Potion
  {
    if inventory != [] {
      PotionsEmpty(inventory[1..]);
      if inventory[0].kind != Potion {
        assert forall i :: 1 <= i < |inventory| ==> inventory[i] == inventory[1..][i - 1];
      }
    }
  }

  /** The potion list holds every potion of the inventory, each as often as the inventory does, and nothing else. */
  lemma {:induction false} PotionsComplete(inventory: seq<Item>)
    ensures forall x: Item :: multiset(Potions(inventory))[x] == if x.kind == Potion then multiset(inventory)[x] else 0
  {
    if inventory != [] {
      PotionsComplete(inventory[1..]);
      assert inventory == [inventory[0]] + inventory[1..];
    }
  }

  /** The position of the first occurrence of `x` in `s`. */
  function IndexOf(s: seq<Item>, x: Item): (k: nat)
    requires x in s
    ensures k < |s| && s[k] == x && x !in s[..k]
  {
    if s[0] == x then 0
    else
      var k := 1 + IndexOf(s[1..], x);
      assert s[..k] == [s[0]] + s[1..][..k - 1];
      k
  }

  /** What a list's `remove` does: it drops the first element equal to `x`. */
  function RemoveFirst(s: seq<Item>, x: Item): (r: seq<Item>)
    requires x in s
    ensures |r| == |s| - 1
  {
    assert s == [s[0]] + s[1..];
    if s[0] == x then s[1..] else [s[0]] + RemoveFirst(s[1..], x)
  }

  /** The removal keeps every other element in its order: it cuts out exactly the first occurrence. */
  lemma {:induction false} RemoveFirstCutsFirst(s: seq<Item>, x: Item)
    requires x in s
    ensures RemoveFirst(s, x) == s[..IndexOf(s, x)] + s[IndexOf(s, x) + 1..]
  {
    if s[0] != x {
      RemoveFirstCutsFirst(s[1..], x);
      var k := IndexOf(s[1..], x);
      assert s[..k + 1] == [s[0]] + s[1..][..k];
      assert s[k + 2..] == s[1..][k + 1..];
    }
  }

  /** The removal takes out one copy of `x` and nothing else. */
  lemma {:induction false} RemoveFirstMultiset(s: seq<Item>, x: Item)
    requires x in s
    ensures multiset(RemoveFirst(s, x)) == multiset(s) - multiset{x}
  {
    assert s == [s[0]] + s[1..];
    if s[0] != x {
      RemoveFirstMultiset(s[1..], x);
    }
  }

  /** Whether some item of the inventory has the given name, scanning from the front as `any` does. */
  predicate HasItemNamed(inventory: seq<Item>, name: string)
    ensures HasItemNamed(inventory, name) <==> exists i :: 0 <= i < |inventory| && inventory[i].name == name
  {
    if inventory == [] then false
    else
      assert forall i :: 1 <= i < |inventory| ==> inventory[i] == inventory[1..][i - 1];
      inventory[0].name == name || HasItemNamed(inventory[1..], name)
  }

  /** Every item is one the location handlers hand out: sword, potion or key. */
  predicate Mundane(inventory: seq<Item>)
  {
    forall i :: 0 <= i < |inventory| ==> inventory[i] in [Sword, HealingPotion, OldKey]
  }

  /** No handed-out item carries the legendary name, so the lair's check fails. */
  lemma MundaneLacksLegendary(inventory: seq<Item>)
    requires Mundane(inventory)
    ensures !HasItemNamed(inventory, LegendaryName)
  {
  }
}
