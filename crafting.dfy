/**
 * Crafting: on a key press the first two items of the single inventory are
 * consumed and a Mercy Sword worth the first plus one and a half times the
 * second is added at the end.
 */
module Crafting {
  import opened Inventories

  const CRAFTED_NAME: string := "Mercy Sword"

  /** The item crafted from two inputs; its id is drawn at random. */
  function MercySword(first: Item, second: Item, id: nat): (sword: Item)
    ensures sword.name == CRAFTED_NAME && sword.rarity == Epic && sword.id == id
    ensures sword.mercyValue == first.mercyValue + second.mercyValue * 1.5
    ensures first.mercyValue >= 0.0 && second.mercyValue >= 0.0 ==> sword.mercyValue >= first.mercyValue
  {
    Item(id, CRAFTED_NAME, Epic, first.mercyValue + second.mercyValue * 1.5)
  }

  /** The inventory's items after a craft: two inputs gone, the sword last. */
  function Crafted(items: seq<Item>, id: nat): (r: seq<Item>)
    ensures |items| < 2 ==> r == items
    ensures |items| >= 2 ==>
      && |r| == |items| - 1
      && r[..|r| - 1] == items[2..]
      && r[|r| - 1] == MercySword(items[0], items[1], id)
      && multiset(r) == multiset(items) - multiset{items[0], items[1]} + multiset{MercySword(items[0], items[1], id)}
  {
    if |items| >= 2 then
      assert items == [items[0], items[1]] + items[2..];
      items[2..] + [MercySword(items[0], items[1], id)]
    else items
  }

  /** Crafting never grows the list, and shrinks it by one exactly when there were two inputs. */
  lemma CraftedLength(items: seq<Item>, id: nat)
    ensures |Crafted(items, id)| == if |items| >= 2 then |items| - 1 else |items|
  {
  }

  /**
   * `crafting_system`: with the key pressed and exactly one inventory in the
   * query, two `remove(0)` calls and a `push`.
   */
  method CraftingSystem(pressed: bool, query: array<Inventory>, craftedId: nat)
    modifies query
    ensures !(pressed && query.Length == 1) ==> query[..] == old(query[..])
    ensures pressed && query.Length == 1 ==>
      query[0] == old(query[0]).(items := Crafted(old(query[0]).items, craftedId))
  {
    if pressed && query.Length == 1 {
      var inv := query[0];
      if |inv.items| >= 2 {
        var item1 := inv.items[0];
        inv := inv.(items := inv.items[1..]);
        var item2 := inv.items[0];
        inv := inv.(items := inv.items[1..]);
        var crafted := Item(craftedId, CRAFTED_NAME, Epic, item1.mercyValue + item2.mercyValue * 1.5);
        inv := inv.(items := inv.items + [crafted]);
        query[0] := inv;
      }
    }
  }
}
