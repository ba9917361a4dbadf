/** `ItemResponse.fromItem` (ItemResponse.java): the flat item view the REST API returns. */
module ItemResponses {
  import opened Wrappers
  import opened Domain

  datatype ItemResponse = ItemResponse(
    id: int,
    name: string,
    description: string,
    startingPrice: real,
    currentPrice: real,
    imageUrl: Option<string>,
    startTime: int,
    endTime: int,
    status: AuctionStatus,
    sellerId: Option<int>,
    sellerUsername: Option<string>,
    winnerId: Option<int>,
    winnerUsername: Option<string>,
    bidCount: int)

  /**
   * `bids` is the item's bid association as loaded: `None` when the list is `null`, as on an
   * item built with the builder and not read back from the database.
   */
  function FromItem(item: Item, bids: Option<seq<Bid>>): (r: ItemResponse)
    ensures r.id == item.id && r.name == item.name && r.description == item.description
    ensures r.startingPrice == item.startingPrice && r.currentPrice == item.currentPrice
    ensures r.imageUrl == item.imageUrl && r.startTime == item.startTime && r.endTime == item.endTime
    ensures r.status == item.status
    ensures r.sellerId.None? <==> item.seller.None?
    ensures r.sellerUsername.None? <==> item.seller.None?
    ensures item.seller.Some? ==> r.sellerId == Some(item.seller.value.id)
                                  && r.sellerUsername == Some(item.seller.value.username)
    ensures r.winnerId.None? <==> item.winner.None?
    ensures r.winnerUsername.None? <==> item.winner.None?
    ensures item.winner.Some? ==> r.winnerId == Some(item.winner.value.id)
                                  && r.winnerUsername == Some(item.winner.value.username)
    ensures r.bidCount == if bids.Some? then |bids.value| else 0
  {
    ItemResponse(
      item.id, item.name, item.description, item.startingPrice, item.currentPrice,
      item.imageUrl, item.startTime, item.endTime, item.status,
      if item.seller.Some? then Some(item.seller.value.id) else None,
      if item.seller.Some? then Some(item.seller.value.username) else None,
      if item.winner.Some? then Some(item.winner.value.id) else None,
      if item.winner.Some? then Some(item.winner.value.username) else None,
      if bids.Some? then |bids.value| else 0)
  }
}

/** `BidResponse.fromBid` (BidResponse.java): a flat bid view with the item's id and name, no nested item. */
module BidResponses {
  import opened Wrappers
  import opened Domain

  datatype BidResponse = BidResponse(
    id: int,
    itemId: Option<int>,
    itemName: Option<string>,
    bidderId: Option<int>,
    bidderUsername: Option<string>,
    amount: real,
    timestamp: int)

  function FromBid(bid: Bid): (r: BidResponse)
    ensures r.id == bid.id && r.amount == bid.amount && r.timestamp == bid.timestamp
    ensures r.itemId.None? <==> bid.item.None?
    ensures r.itemName.None? <==> bid.item.None?
    ensures bid.item.Some? ==> r.itemId == Some(bid.item.value.id) && r.itemName == Some(bid.item.value.name)
    ensures r.bidderId.None? <==> bid.bidder.None?
    ensures r.bidderUsername.None? <==> bid.bidder.None?
    ensures bid.bidder.Some? ==> r.bidderId == Some(bid.bidder.value.id)
                                 && r.bidderUsername == Some(bid.bidder.value.username)
  {
    BidResponse(
      bid.id,
      if bid.item.Some? then Some(bid.item.value.id) else None,
      if bid.item.Some? then Some(bid.item.value.name) else None,
      if bid.bidder.Some? then Some(bid.bidder.value.id) else None,
      if bid.bidder.Some? then Some(bid.bidder.value.username) else None,
      bid.amount, bid.timestamp)
  }

  /** No information about a present item or bidder is lost: the bid's references can be rebuilt from the view. */
  lemma FromBidRecoversReferences(bid: Bid)
    ensures var r := FromBid(bid);
            bid.item == (if r.itemId.Some? then Some(ItemRef(r.itemId.value, r.itemName.value)) else None)
            && bid.bidder == (if r.bidderId.Some? then Some(UserRef(r.bidderId.value, r.bidderUsername.value)) else None)
  {
  }
}
