/**
 * Player inventories: items with a rarity and a mercy value, a capacity
 * set from the player's trust, value decay each frame, random item
 * generation while there is room, and the use of the last item on a key
 * press.
 */
module Inventories {
  import opened Wrappers
  import opened Numerics

  datatype Rarity = Common | Rare | Epic | Legendary

  datatype Item = Item(id: nat, name: string, rarity: Rarity, mercyValue: real)

  datatype Inventory = Inventory(items: seq<Item>, capacity: nat)

  /** `Inventory::default`: no items, room for ten. */
  function DefaultInventory(): (inv: Inventory)
    ensures inv.items == [] && inv.capacity == 10
  {
    Inventory([], 10)
  }

  // ─── Capacity ────────────────────────────────────────────────────────

  /** The capacity a trust score grants: ten slots per trust, truncated. */
  function CapacityFor(trust: real): (c: nat)
    ensures trust >= 0.0 ==> c as real <= trust * 10.0 < c as real + 1.0
    ensures trust < 0.1 ==> c == 0
  {
    AsUnsigned(trust * 10.0)
  }

  /** More trust never shrinks the capacity. */
  lemma CapacityMonotone(t1: real, t2: real)
    requires t1 <= t2
    ensures CapacityFor(t1) <= CapacityFor(t2)
  {
    AsUnsignedMonotone(t1 * 10.0, t2 * 10.0);
  }

  /** `inventory_capacity_system`: each row is an entity's trust and inventory. */
  method InventoryCapacitySystem(query: array<(real, Inventory)>)
    modifies query
    ensures forall k :: 0 <= k < query.Length ==>
      query[k] == (old(query[k]).0, old(query[k]).1.(capacity := CapacityFor(old(query[k]).0)))
  {
    for k := 0 to query.Length
      invariant forall j :: 0 <= j < k ==>
        query[j] == (old(query[j]).0, old(query[j]).1.(capacity := CapacityFor(old(query[j]).0)))
      invariant forall j :: k <= j < query.Length ==> query[j] == old(query[j])
    {
      var (trust, inv) := query[k];
      query[k] := (trust, inv.(capacity := CapacityFor(trust)));
    }
  }

  // ─── Decay ───────────────────────────────────────────────────────────

  /** The factor applied to every mercy value each frame. */
  const DECAY_FACTOR: real := 0.99
  /** Items whose decayed value does not exceed this are dropped. */
  const DECAY_FLOOR: real := 0.1

  function DecayItem(item: Item): (d: Item)
    ensures d.id == item.id && d.name == item.name && d.rarity == item.rarity
    ensures item.mercyValue > 0.0 ==> d.mercyValue < item.mercyValue
  {
    item.(mercyValue := item.mercyValue * DECAY_FACTOR)
  }

  /** The `retain_mut` of `item_decay_system`: decay each item, keep those still above the floor. */
  function DecayItems(items: seq<Item>): (r: seq<Item>)
    ensures |r| <= |items|
    ensures forall k :: 0 <= k < |r| ==> r[k].mercyValue > DECAY_FLOOR
    ensures forall x :: x in r ==> exists k :: 0 <= k < |items| && x == DecayItem(items[k])
    decreases |items|
  {
    if items == [] then []
    else
      var rest := DecayItems(items[..|items| - 1]);
      var last := DecayItem(items[|items| - 1]);
      if last.mercyValue > DECAY_FLOOR then rest + [last] else rest
  }

  /** An item survives exactly when its decayed value stays above the floor. */
  lemma {:induction false} DecaySurvivors(items: seq<Item>, k: nat)
    requires k < |items|
    ensures DecayItem(items[k]) in DecayItems(items) <==> DecayItem(items[k]).mercyValue > DECAY_FLOOR
    decreases |items|
  {
    if k < |items| - 1 {
      DecaySurvivors(items[..|items| - 1], k);
    }
  }

  /** Decay works item by item: the survivors of a list are those of its parts, in order. */
  lemma {:induction false} DecayAppend(a: seq<Item>, b: seq<Item>)
    ensures DecayItems(a + b) == DecayItems(a) + DecayItems(b)
    decreases |b|
  {
    if b == [] {
      assert a + b == a;
    } else {
      var b' := b[..|b| - 1];
      assert (a + b)[..|a + b| - 1] == a + b';
      assert (a + b)[|a + b| - 1] == b[|b| - 1];
      DecayAppend(a, b');
    }
  }

  /** A single item is kept, decayed, or dropped. */
  lemma DecaySingle(item: Item)
    ensures DecayItems([item]) == if DecayItem(item).mercyValue > DECAY_FLOOR then [DecayItem(item)] else []
  {
    assert [item][..0] == [];
  }

  /** `item_decay_system`. */
  method ItemDecaySystem(query: array<Inventory>)
    modifies query
    ensures forall k :: 0 <= k < query.Length ==>
      query[k] == old(query[k]).(items := DecayItems(old(query[k]).items))
  {
    for k := 0 to query.Length
      invariant forall j :: 0 <= j < k ==> query[j] == old(query[j]).(items := DecayItems(old(query[j]).items))
      invariant forall j :: k <= j < query.Length ==> query[j] == old(query[j])
    {
      query[k] := query[k].(items := DecayItems(query[k].items));
    }
  }

  // ─── Generation ──────────────────────────────────────────────────────

  /** The rarity a roll in 0..100 gives: 80 common, 15 rare, 4 epic, 1 legendary. */
  function RarityOf(roll: nat): (r: Rarity)
    ensures r == Common <==> roll < 80
    ensures r == Rare <==> 80 <= roll < 95
    ensures r == Epic <==> 95 <= roll < 99
    ensures r == Legendary <==> roll >= 99
  {
    if roll < 80 then Common
    else if roll < 95 then Rare
    else if roll < 99 then Epic
    else Legendary
  }

  /** Ordering of rarities: a higher roll never gives a lower rarity. */
  function RarityRank(r: Rarity): nat
  {
    match r
    case Common => 0
    case Rare => 1
    case Epic => 2
    case Legendary => 3
  }

  lemma RarityMonotone(r1: nat, r2: nat)
    requires r1 <= r2
    ensures RarityRank(RarityOf(r1)) <= RarityRank(RarityOf(r2))
  {
  }

  /**
   * The random draws `item_generation_system` makes for one inventory: the
   * 5%-per-second chance, the id, the name's number, the rarity roll and
   * the value.
   */
  datatype Draw = Draw(spawn: bool, id: nat, nameSuffix: string, rarityRoll: nat, value: real)

  function GeneratedItem(d: Draw): (item: Item)
    ensures item.id == d.id && item.rarity == RarityOf(d.rarityRoll) && item.mercyValue == d.value
  {
    Item(d.id, "Mercy Crystal " + d.nameSuffix, RarityOf(d.rarityRoll), d.value)
  }

  /** `item_generation_system`: one draw per inventory, the query's order. */
  method ItemGenerationSystem(query: array<Inventory>, draws: seq<Draw>)
    requires |draws| == query.Length
    modifies query
    ensures forall k :: 0 <= k < query.Length ==>
      query[k].capacity == old(query[k]).capacity
      && (if |old(query[k]).items| < old(query[k]).capacity && draws[k].spawn
          then query[k].items == old(query[k]).items + [GeneratedItem(draws[k])]
          else query[k].items == old(query[k]).items)
    ensures forall k :: 0 <= k < query.Length ==> |query[k].items| <= |old(query[k]).items| + 1
    ensures forall k :: 0 <= k < query.Length && |old(query[k]).items| >= old(query[k]).capacity ==>
      query[k] == old(query[k])
  {
    for k := 0 to query.Length
      invariant forall j :: 0 <= j < k ==>
        query[j].capacity == old(query[j]).capacity
        && (if |old(query[j]).items| < old(query[j]).capacity && draws[j].spawn
            then query[j].items == old(query[j]).items + [GeneratedItem(draws[j])]
            else query[j].items == old(query[j]).items)
      invariant forall j :: k <= j < query.Length ==> query[j] == old(query[j])
    {
      var inv := query[k];
      if |inv.items| < inv.capacity && draws[k].spawn {
        query[k] := inv.(items := inv.items + [GeneratedItem(draws[k])]);
      }
    }
  }

  // ─── Use ─────────────────────────────────────────────────────────────

  /**
   * `item_interaction_system`: with the key pressed and exactly one
   * inventory in the query, the last item is taken out and used.
   */
  method ItemInteractionSystem(pressed: bool, query: array<Inventory>) returns (used: Option<Item>)
    modifies query
    ensures !(pressed && query.Length == 1) ==> used == None && query[..] == old(query[..])
    ensures pressed && query.Length == 1 ==>
      if old(query[0]).items == [] then used == None && query[0] == old(query[0])
      else
        var items := old(query[0]).items;
        used == Some(items[|items| - 1]) && query[0] == old(query[0]).(items := items[..|items| - 1])
  {
    used := None;
    if pressed && query.Length == 1 {
      var inv := query[0];
      if |inv.items| > 0 {
        used := Some(inv.items[|inv.items| - 1]);
        query[0] := inv.(items := inv.items[..|inv.items| - 1]);
      }
    }
  }
}
