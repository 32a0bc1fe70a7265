/**
 * Auctions: a bid strictly above the current one takes the lead and earns
 * the bidder a 5% trust bonus; an auction whose timer finishes is
 * despawned, with or without a winner.
 */
module Auctions {
  import opened Wrappers
  import opened Engine
  import opened Inventories

  const BID_TRUST_FACTOR: real := 1.05

  datatype Auction = Auction(id: nat, item: Item, currentBid: real, highestBidder: Option<Entity>, timer: Timer)

  datatype BidEvent = BidEvent(auctionId: nat, bidder: Entity, amount: real)

  /** The auctions (looked up by the event's id) and the trust credits the bid system reaches. */
  datatype House = House(auctions: map<Entity, Auction>, trust: map<Entity, real>)

  /** One bid event. */
  function Bid(h: House, ev: BidEvent): (r: House)
    ensures r.auctions.Keys == h.auctions.Keys && r.trust.Keys == h.trust.Keys
    ensures forall a :: a in h.auctions ==> r.auctions[a].currentBid >= h.auctions[a].currentBid
  {
    if ev.auctionId !in h.auctions then h
    else
      var auction := h.auctions[ev.auctionId];
      if ev.amount > auction.currentBid then
        var auctions := h.auctions[ev.auctionId := auction.(currentBid := ev.amount, highestBidder := Some(ev.bidder))];
        var trust := if ev.bidder in h.trust then h.trust[ev.bidder := h.trust[ev.bidder] * BID_TRUST_FACTOR] else h.trust;
        House(auctions, trust)
      else h
  }

  /** The house after a frame's bids, oldest first. */
  function BidAll(h: House, events: seq<BidEvent>): House
    decreases |events|
  {
    if events == [] then h else Bid(BidAll(h, events[..|events| - 1]), events[|events| - 1])
  }

  /** A bid that does not beat the current one, or names no auction, changes nothing. */
  lemma LowBidIgnored(h: House, ev: BidEvent)
    requires ev.auctionId !in h.auctions || ev.amount <= h.auctions[ev.auctionId].currentBid
    ensures Bid(h, ev) == h
  {
  }

  /** A winning bid leads its auction and credits only its bidder. */
  lemma WinningBid(h: House, ev: BidEvent)
    requires ev.auctionId in h.auctions && ev.amount > h.auctions[ev.auctionId].currentBid
    ensures var a := Bid(h, ev).auctions[ev.auctionId];
      a.currentBid == ev.amount && a.highestBidder == Some(ev.bidder)
      && a.item == h.auctions[ev.auctionId].item && a.timer == h.auctions[ev.auctionId].timer
    ensures ev.bidder in h.trust ==> Bid(h, ev).trust[ev.bidder] == h.trust[ev.bidder] * BID_TRUST_FACTOR
    ensures forall e :: e in h.trust && e != ev.bidder ==> Bid(h, ev).trust[e] == h.trust[e]
    ensures forall a :: a in h.auctions && a != ev.auctionId ==> Bid(h, ev).auctions[a] == h.auctions[a]
  {
  }

  /** Over any sequence of bids no auction's current bid falls. */
  lemma {:induction false} BidsNeverLower(h: House, events: seq<BidEvent>)
    ensures BidAll(h, events).auctions.Keys == h.auctions.Keys
    ensures forall a :: a in h.auctions ==> BidAll(h, events).auctions[a].currentBid >= h.auctions[a].currentBid
    decreases |events|
  {
    if events != [] {
      BidsNeverLower(h, events[..|events| - 1]);
    }
  }

  /** The auctions whose timer finishes on this tick. */
  function Expiring(auctions: map<Entity, Auction>, delta: real): (s: set<Entity>)
    requires delta >= 0.0
    ensures s <= auctions.Keys
  {
    set e | e in auctions && auctions[e].timer.Tick(delta).Finished()
  }

  /** The auctions left after a tick: timers advanced, finished ones gone. */
  function AfterTick(auctions: map<Entity, Auction>, delta: real): (r: map<Entity, Auction>)
    requires delta >= 0.0
    ensures r.Keys == auctions.Keys - Expiring(auctions, delta)
  {
    map e | e in auctions && !auctions[e].timer.Tick(delta).Finished() :: auctions[e].(timer := auctions[e].timer.Tick(delta))
  }

  /** Whether an auction closes does not depend on its bids. */
  lemma ExpiryIgnoresBidder(auctions: map<Entity, Auction>, e: Entity, bidder: Option<Entity>, bid: real, delta: real)
    requires delta >= 0.0 && e in auctions
    ensures e in Expiring(auctions, delta)
        <==> e in Expiring(auctions[e := auctions[e].(highestBidder := bidder, currentBid := bid)], delta)
  {
  }

  class AuctionHouse {
    var auctions: map<Entity, Auction>
    var trust: map<Entity, real>

    /** `auction_bid_system`. */
    method AuctionBidSystem(events: seq<BidEvent>)
      modifies this
      ensures House(auctions, trust) == BidAll(House(old(auctions), old(trust)), events)
    {
      ghost var h0 := House(auctions, trust);
      for i := 0 to |events|
        invariant House(auctions, trust) == BidAll(h0, events[..i])
      {
        var ev := events[i];
        assert events[..i + 1][..i] == events[..i];
        if ev.auctionId in auctions {
          var auction := auctions[ev.auctionId];
          if ev.amount > auction.currentBid {
            auctions := auctions[ev.auctionId := auction.(currentBid := ev.amount, highestBidder := Some(ev.bidder))];
            if ev.bidder in trust {
              trust := trust[ev.bidder := trust[ev.bidder] * BID_TRUST_FACTOR];
            }
          }
        }
      }
      assert events[..|events|] == events;
    }

    /**
     * `auction_timer_system`: every timer ticks; the finished auctions are
     * despawned once the loop is over, as deferred commands are.
     */
    method AuctionTimerSystem(delta: real) returns (despawned: set<Entity>)
      requires delta >= 0.0
      modifies this`auctions
      ensures despawned == Expiring(old(auctions), delta)
      ensures auctions == AfterTick(old(auctions), delta)
    {
      var remaining := auctions.Keys;
      despawned := {};
      while remaining != {}
        invariant remaining <= auctions.Keys == old(auctions).Keys
        invariant forall e :: e in auctions && e !in remaining ==>
          auctions[e] == old(auctions)[e].(timer := old(auctions)[e].timer.Tick(delta))
        invariant forall e :: e in remaining ==> auctions[e] == old(auctions)[e]
        invariant despawned == set e | e in old(auctions) && e !in remaining && old(auctions)[e].timer.Tick(delta).Finished()
        decreases remaining
      {
        var e :| e in remaining;
        var auction := auctions[e];
        var timer := auction.timer.Tick(delta);
        auctions := auctions[e := auction.(timer := timer)];
        if timer.Finished() {
          despawned := despawned + {e};
        }
        remaining := remaining - {e};
      }
      auctions := map e | e in auctions && e !in despawned :: auctions[e];
    }
  }
}
