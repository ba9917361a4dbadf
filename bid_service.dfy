/**
 * BidService.java: the listings, the count, and `placeBid`, which checks six guards in order,
 * and on success stores one bid, raises the item's current price to the bid and broadcasts
 * the bid once to the item's topic. The clock reading `LocalDateTime.now()` is the parameter `now`.
 */
module BidService {
  import opened Wrappers
  import opened Domain
  import opened BidResponses
  import opened Sequences
  import opened Repositories

  datatype BidRequest = BidRequest(itemId: int, amount: real)

  const NotBidderMessage := "Only bidders can place bids"
  const ItemNotFoundMessage := "Item not found"
  const OwnItemMessage := "Sellers cannot bid on their own items"
  const NotActiveMessage := "Auction is not active"
  const OutsideWindowMessage := "Auction is not within the bidding period"
  const TooLowMessage := "Bid amount must be higher than current price"

  /** Every item has a seller (the column is `nullable = false`). */
  ghost predicate SellersPresent(items: map<int, Item>)
  {
    forall id :: id in items ==> items[id].seller.Some?
  }

  /** A bid the service accepts: all six conditions at once, in no particular order. */
  ghost predicate Admissible(items: map<int, Item>, req: BidRequest, bidder: User, now: int)
  {
    && bidder.role == BIDDER
    && req.itemId in items
    && items[req.itemId].seller.Some?
    && items[req.itemId].seller.value.id != bidder.id
    && items[req.itemId].status == ACTIVE
    && items[req.itemId].startTime <= now <= items[req.itemId].endTime
    && req.amount > items[req.itemId].currentPrice
  }

  /**
   * The guard chain of `placeBid`. The first guard that fails decides the message; the
   * window is closed at both ends (`isBefore(start) || isAfter(end)` rejects).
   */
  function CheckBid(items: map<int, Item>, req: BidRequest, bidder: User, now: int): (r: Result<Item>)
    requires SellersPresent(items)
    ensures r.Success? <==> Admissible(items, req, bidder, now)
    ensures r.Success? ==> r.value == items[req.itemId]
    ensures bidder.role != BIDDER ==> r == Failure(NotBidderMessage)
    ensures bidder.role == BIDDER && req.itemId !in items ==> r == Failure(ItemNotFoundMessage)
    ensures bidder.role == BIDDER && req.itemId in items ==>
              var item := items[req.itemId];
              (item.seller.value.id == bidder.id ==> r == Failure(OwnItemMessage))
              && (item.seller.value.id != bidder.id && item.status != ACTIVE ==> r == Failure(NotActiveMessage))
              && ((item.seller.value.id != bidder.id && item.status == ACTIVE
                   && (now < item.startTime || now > item.endTime)) ==> r == Failure(OutsideWindowMessage))
              && ((item.seller.value.id != bidder.id && item.status == ACTIVE
                   && item.startTime <= now <= item.endTime && req.amount <= item.currentPrice)
                  ==> r == Failure(TooLowMessage))
  {
    if bidder.role != BIDDER then Failure(NotBidderMessage)
    else if req.itemId !in items then Failure(ItemNotFoundMessage)
    else
      var item := items[req.itemId];
      if item.seller.value.id == bidder.id then Failure(OwnItemMessage)
      else if item.status != ACTIVE then Failure(NotActiveMessage)
      else if now < item.startTime || now > item.endTime then Failure(OutsideWindowMessage)
      else if req.amount <= item.currentPrice then Failure(TooLowMessage)
      else Success(item)
  }

  /** The bid `placeBid` builds and saves for an accepted request. */
  function NewBid(item: Item, req: BidRequest, bidder: User, now: int, id: int): Bid
  {
    Bid(id, Some(ItemRef(item.id, item.name)), Some(RefOf(bidder)), req.amount, now)
  }

  /**
   * Accepting a bid keeps the auction's ledger consistent: the item's price is raised to the
   * new bid, so the price still covers every stored bid, and the new bid is higher than every
   * earlier bid on the same item.
   */
  lemma AcceptKeepsLedger(items: map<int, Item>, bids: seq<Bid>, req: BidRequest, bidder: User, now: int, id: int)
    requires SellersPresent(items)
    requires forall k :: k in items ==> items[k].id == k
    requires PriceCoversBids(items, bids) && RisingPerItem(bids)
    requires CheckBid(items, req, bidder, now).Success?
    ensures var item := items[req.itemId];
            var items' := items[req.itemId := item.(currentPrice := req.amount)];
            var bids' := bids + [NewBid(item, req, bidder, now, id)];
            PriceCoversBids(items', bids') && RisingPerItem(bids')
            && item.currentPrice < items'[req.itemId].currentPrice
  {
    var item := items[req.itemId];
    var items' := items[req.itemId := item.(currentPrice := req.amount)];
    var nb := NewBid(item, req, bidder, now, id);
    var bids' := bids + [nb];
    forall i | 0 <= i < |bids'|
      ensures bids'[i].item.Some? && bids'[i].item.value.id in items'
              && bids'[i].amount <= items'[bids'[i].item.value.id].currentPrice
    {
      if i < |bids| {
        assert bids'[i] == bids[i];
      }
    }
    forall i, j | 0 <= i < j < |bids'| && bids'[i].item.Some? && bids'[j].item == bids'[i].item
      ensures bids'[i].amount < bids'[j].amount
    {
      if j == |bids| {
        assert bids'[i] == bids[i];
        assert bids[i].item.value.id == req.itemId;
      }
    }
  }

  /** Whatever the guards say, a request for an auction's first or last instant is not refused for timing. */
  lemma WindowIsInclusive(items: map<int, Item>, req: BidRequest, bidder: User)
    requires SellersPresent(items)
    requires bidder.role == BIDDER && req.itemId in items
    requires items[req.itemId].seller.value.id != bidder.id && items[req.itemId].status == ACTIVE
    requires items[req.itemId].startTime <= items[req.itemId].endTime
    ensures CheckBid(items, req, bidder, items[req.itemId].startTime) != Failure(OutsideWindowMessage)
    ensures CheckBid(items, req, bidder, items[req.itemId].endTime) != Failure(OutsideWindowMessage)
  {
  }

  /**
   * `placeBid`. On success the one new bid carries the request's amount, the bidder, the item
   * and `now`; the item's current price becomes the amount and nothing else of it changes; one
   * message carrying `fromBid` of the saved bid goes to the item's topic. On any failure
   * nothing is stored or sent.
   */
  method PlaceBid(store: Store, req: BidRequest, bidder: User, now: int) returns (r: Result<Bid>)
    requires store.Valid()
    modifies store
    ensures store.Valid()
    ensures r.Failure? <==> CheckBid(old(store.items), req, bidder, now).Failure?
    ensures r.Failure? ==> r == Failure(CheckBid(old(store.items), req, bidder, now).error)
                           && unchanged(store)
    ensures r.Success? ==>
              var item := old(store.items)[req.itemId];
              && r.value == NewBid(item, req, bidder, now, old(store.nextBidId))
              && store.bids == old(store.bids) + [r.value]
              && store.items == old(store.items)[req.itemId := item.(currentPrice := req.amount)]
              && store.broadcasts == old(store.broadcasts) + [Broadcast(AuctionBidsTopic(item.id), FromBid(r.value))]
              && store.users == old(store.users)
              && store.nextBidId == old(store.nextBidId) + 1
    ensures store.nextItemId == old(store.nextItemId) && store.nextUserId == old(store.nextUserId)
  {
    var check := CheckBid(store.items, req, bidder, now);
    if check.Failure? {
      return Failure(check.error);
    }
    var item := check.value;
    var bid := NewBid(item, req, bidder, now, store.nextBidId);
    AcceptKeepsLedger(store.items, store.bids, req, bidder, now, store.nextBidId);
    store.bids := store.bids + [bid];
    store.nextBidId := store.nextBidId + 1;
    store.items := store.items[req.itemId := item.(currentPrice := req.amount)];
    store.broadcasts := store.broadcasts + [Broadcast(AuctionBidsTopic(item.id), FromBid(bid))];
    r := Success(bid);
  }

  /** `getBidsByItemId`: exactly the item's bids, newest first. */
  function GetBidsByItemId(bids: seq<Bid>, itemId: int): (r: seq<Bid>)
    ensures forall b :: b in r <==> b in bids && OnItem(b, itemId)
    ensures SortedDesc(r, TimestampKey)
    ensures |r| == CountBidsByItemId(bids, itemId)
  {
    FindByItemIdOrderByTimestampDesc(bids, itemId)
  }

  /** `getBidsByUserId`: exactly the user's bids, newest first. */
  function GetBidsByUserId(bids: seq<Bid>, userId: int): (r: seq<Bid>)
    ensures forall b :: b in r <==> b in bids && ByBidder(b, userId)
    ensures SortedDesc(r, TimestampKey)
  {
    FindByBidderIdOrderByTimestampDesc(bids, userId)
  }

  /** `getBidCount`: the number of stored bids on the item. */
  function GetBidCount(bids: seq<Bid>, itemId: int): (n: nat)
    ensures n <= |bids|
    ensures n == 0 <==> forall b :: b in bids ==> !OnItem(b, itemId)
    ensures n == |GetBidsByItemId(bids, itemId)|
  {
    var listed := FindByItemIdOrderByTimestampDesc(bids, itemId);
    assert listed != [] ==> listed[0] in listed;
    CountBidsByItemId(bids, itemId)
  }

  function ToDtos(bids: seq<Bid>): (r: seq<BidResponse>)
    ensures |r| == |bids|
    ensures forall i :: 0 <= i < |bids| ==> r[i] == FromBid(bids[i])
  {
    seq(|bids|, i requires 0 <= i < |bids| => FromBid(bids[i]))
  }

  /** `getBidsByItemIdAsDto` and `getBidsByUserIdAsDto`: the listings mapped through `fromBid`, order kept. */
  function GetBidsByItemIdAsDto(bids: seq<Bid>, itemId: int): (r: seq<BidResponse>)
    ensures |r| == GetBidCount(bids, itemId) == |GetBidsByItemId(bids, itemId)|
    ensures forall i :: 0 <= i < |r| ==> r[i] == FromBid(GetBidsByItemId(bids, itemId)[i])
    ensures forall i :: 0 <= i < |r| ==> r[i].itemId == Some(itemId)
  {
    var listed := GetBidsByItemId(bids, itemId);
    assert forall i :: 0 <= i < |listed| ==> listed[i] in listed;
    ToDtos(listed)
  }

  function GetBidsByUserIdAsDto(bids: seq<Bid>, userId: int): (r: seq<BidResponse>)
    ensures |r| == |GetBidsByUserId(bids, userId)|
    ensures forall i :: 0 <= i < |r| ==> r[i] == FromBid(GetBidsByUserId(bids, userId)[i])
    ensures forall i :: 0 <= i < |r| ==> r[i].bidderId == Some(userId)
  {
    var listed := GetBidsByUserId(bids, userId);
    assert forall i :: 0 <= i < |listed| ==> listed[i] in listed;
    ToDtos(listed)
  }
}
