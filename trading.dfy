/**
 * Player-to-player trades: the sender's first item with the event's id is
 * taken out by swap-remove and appended to the recipient's inventory, and
 * a completed transfer multiplies both parties' trust by 1.1.
 */
module Trading {
  import opened Wrappers
  import opened Engine
  import opened Inventories

  const TRADE_TRUST_FACTOR: real := 1.1

  datatype TradeEvent = TradeEvent(from: Entity, to: Entity, item: Item)

  /** The inventories and trust credits the trade system reaches through its two queries. */
  datatype Ledger = Ledger(inventories: map<Entity, Inventory>, trust: map<Entity, real>)

  /** `Vec::swap_remove`: the last element moves into the hole. */
  function SwapRemove<T>(s: seq<T>, idx: nat): (r: seq<T>)
    requires idx < |s|
    ensures |r| == |s| - 1
    ensures idx < |r| ==> r[idx] == s[|s| - 1]
    ensures forall j :: 0 <= j < |r| && j != idx ==> r[j] == s[j]
    ensures multiset(r) + multiset{s[idx]} == multiset(s)
  {
    if idx == |s| - 1 then
      assert s == s[..idx] + [s[idx]];
      s[..idx]
    else
      var r := s[..idx] + [s[|s| - 1]] + s[idx + 1..|s| - 1];
      assert s == s[..idx] + [s[idx]] + s[idx + 1..|s| - 1] + [s[|s| - 1]];
      r
  }

  /** `iter().position(|i| i.id == id)`: the first index holding that id. */
  function Position(items: seq<Item>, id: nat): (p: Option<nat>)
    ensures p.None? <==> forall k :: 0 <= k < |items| ==> items[k].id != id
    ensures p.Some? ==>
      && p.value < |items| && items[p.value].id == id
      && forall k :: 0 <= k < p.value ==> items[k].id != id
    decreases |items|
  {
    if items == [] then None
    else if items[0].id == id then Some(0)
    else match Position(items[1..], id)
      case None => None
      case Some(k) => Some(k + 1)
  }

  /** Trust after a completed transfer credits one party. */
  function Credit(trust: map<Entity, real>, e: Entity): (t: map<Entity, real>)
    ensures t.Keys == trust.Keys
    ensures e in trust ==> t[e] == trust[e] * TRADE_TRUST_FACTOR
    ensures forall x :: x in trust && x != e ==> t[x] == trust[x]
  {
    if e in trust then trust[e := trust[e] * TRADE_TRUST_FACTOR] else trust
  }

  /**
   * One trade event, the borrowed records read and written in program order.
   * No inventory or trust record is created or removed, a non-negative trust
   * never falls, and only the two parties' inventories can change.
   */
  function Trade(l: Ledger, ev: TradeEvent): (r: Ledger)
    ensures r.inventories.Keys == l.inventories.Keys && r.trust.Keys == l.trust.Keys
    ensures forall e :: e in l.trust && l.trust[e] >= 0.0 ==> r.trust[e] >= l.trust[e]
    ensures forall e :: e in l.inventories && e != ev.from && e != ev.to ==> r.inventories[e] == l.inventories[e]
  {
    if ev.from !in l.inventories then l
    else
      var fromInv := l.inventories[ev.from];
      match Position(fromInv.items, ev.item.id)
      case None => l
      case Some(idx) =>
        var item := fromInv.items[idx];
        var afterRemove := l.inventories[ev.from := fromInv.(items := SwapRemove(fromInv.items, idx))];
        if ev.to !in afterRemove then Ledger(afterRemove, l.trust)
        else
          var toInv := afterRemove[ev.to];
          var afterPush := afterRemove[ev.to := toInv.(items := toInv.items + [item])];
          Ledger(afterPush, Credit(Credit(l.trust, ev.from), ev.to))
  }

  /**
   * The ledger after a frame's trade events, oldest first: no inventory or
   * trust record is created or removed, and a non-negative trust never falls.
   */
  function TradeAll(l: Ledger, events: seq<TradeEvent>): (r: Ledger)
    ensures r.inventories.Keys == l.inventories.Keys && r.trust.Keys == l.trust.Keys
    ensures forall e :: e in l.trust && l.trust[e] >= 0.0 ==> r.trust[e] >= l.trust[e]
    decreases |events|
  {
    if events == [] then l else Trade(TradeAll(l, events[..|events| - 1]), events[|events| - 1])
  }

  /** A sender without the item, or without an inventory, changes nothing. */
  lemma NoItemNoChange(l: Ledger, ev: TradeEvent)
    requires ev.from !in l.inventories || forall k :: 0 <= k < |l.inventories[ev.from].items| ==> l.inventories[ev.from].items[k].id != ev.item.id
    ensures Trade(l, ev) == l
  {
  }

  /**
   * Between two different players, a trade moves one item: the sender loses
   * exactly it, the recipient gains it at the end, the pair's item count and
   * the combined items are unchanged, and both trusts grow by the factor.
   */
  lemma TransferConserves(l: Ledger, ev: TradeEvent)
    requires ev.from != ev.to && ev.from in l.inventories && ev.to in l.inventories
    requires Position(l.inventories[ev.from].items, ev.item.id).Some?
    ensures var a := l.inventories[ev.from].items;
      var b := l.inventories[ev.to].items;
      var a' := Trade(l, ev).inventories[ev.from].items;
      var b' := Trade(l, ev).inventories[ev.to].items;
      && |a'| + |b'| == |a| + |b|
      && multiset(a') + multiset(b') == multiset(a) + multiset(b)
      && b' == b + [a[Position(a, ev.item.id).value]]
      && b'[|b'| - 1].id == ev.item.id
    ensures ev.from in l.trust ==> Trade(l, ev).trust[ev.from] == l.trust[ev.from] * TRADE_TRUST_FACTOR
    ensures ev.to in l.trust ==> Trade(l, ev).trust[ev.to] == l.trust[ev.to] * TRADE_TRUST_FACTOR
    ensures forall e :: e in l.inventories && e != ev.from && e != ev.to ==> Trade(l, ev).inventories[e] == l.inventories[e]
  {
  }

  /** With no recipient inventory the item leaves the sender and is not restored; no trust changes. */
  lemma MissingRecipientLosesItem(l: Ledger, ev: TradeEvent)
    requires ev.from in l.inventories && ev.to !in l.inventories
    requires Position(l.inventories[ev.from].items, ev.item.id).Some?
    ensures Trade(l, ev).inventories.Keys == l.inventories.Keys
    ensures |Trade(l, ev).inventories[ev.from].items| == |l.inventories[ev.from].items| - 1
    ensures Trade(l, ev).trust == l.trust
    ensures forall e :: e in l.inventories && e != ev.from ==> Trade(l, ev).inventories[e] == l.inventories[e]
  {
  }

  class TradeSystem {
    var inventories: map<Entity, Inventory>
    var trust: map<Entity, real>

    /** One event of `player_trade_system`, the records updated in program order. */
    method TradeOnce(ev: TradeEvent)
      modifies this
      ensures Ledger(inventories, trust) == Trade(Ledger(old(inventories), old(trust)), ev)
    {
      if ev.from in inventories {
        var fromInv := inventories[ev.from];
        var idx := Position(fromInv.items, ev.item.id);
        if idx.Some? {
          var item := fromInv.items[idx.value];
          inventories := inventories[ev.from := fromInv.(items := SwapRemove(fromInv.items, idx.value))];
          if ev.to in inventories {
            var toInv := inventories[ev.to];
            inventories := inventories[ev.to := toInv.(items := toInv.items + [item])];
            if ev.from in trust {
              trust := trust[ev.from := trust[ev.from] * TRADE_TRUST_FACTOR];
            }
            if ev.to in trust {
              trust := trust[ev.to := trust[ev.to] * TRADE_TRUST_FACTOR];
            }
          }
        }
      }
    }

    /** `player_trade_system`: the frame's events in order. */
    method PlayerTradeSystem(events: seq<TradeEvent>)
      modifies this
      ensures Ledger(inventories, trust) == TradeAll(Ledger(old(inventories), old(trust)), events)
    {
      ghost var l0 := Ledger(inventories, trust);
      for i := 0 to |events|
        invariant Ledger(inventories, trust) == TradeAll(l0, events[..i])
      {
        assert events[..i + 1][..i] == events[..i];
        TradeOnce(events[i]);
      }
      assert events[..|events|] == events;
    }
  }
}
