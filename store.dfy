/**
 * The Spring Data repositories the services share, as one mutable store: the item table as a
 * map from id to row, the bid and user tables as sequences in insertion order, the identity
 * counters that hand out new ids, and the messages sent to the STOMP broker.
 */
module Repositories {
  import opened Wrappers
  import opened Domain
  import opened BidResponses
  import opened Sequences

  /** The broker destination `/topic/auction/{itemId}/bids`. */
  datatype Destination = AuctionBidsTopic(itemId: int)

  datatype Broadcast = Broadcast(destination: Destination, payload: BidResponse)

  /** Each row is stored under its own identity, handed out from 1 below `nextId`, and has a seller. */
  ghost predicate RowsKeyed(items: map<int, Item>, nextId: int)
  {
    && 1 <= nextId
    && forall id :: id in items ==> items[id].id == id && 1 <= id < nextId && items[id].seller.Some?
  }

  /** Each stored bid is on a stored item and does not exceed that item's current price. */
  ghost predicate PriceCoversBids(items: map<int, Item>, bids: seq<Bid>)
  {
    forall i :: 0 <= i < |bids| ==>
      bids[i].item.Some? && bids[i].item.value.id in items
      && bids[i].amount <= items[bids[i].item.value.id].currentPrice
  }

  /** On each item, every bid is higher than all bids stored before it. */
  ghost predicate RisingPerItem(bids: seq<Bid>)
  {
    forall i, j :: 0 <= i < j < |bids| && bids[i].item.Some? && bids[j].item == bids[i].item ==>
      bids[i].amount < bids[j].amount
  }

  /** No two users share a username, and no two share an email. */
  ghost predicate UniqueUsers(users: seq<User>)
  {
    forall i, j :: 0 <= i < j < |users| ==>
      users[i].username != users[j].username && users[i].email != users[j].email
  }

  class Store {
    var items: map<int, Item>
    var bids: seq<Bid>
    var users: seq<User>
    var broadcasts: seq<Broadcast>
    var nextItemId: int
    var nextBidId: int
    var nextUserId: int

    ghost predicate Valid()
      reads this
    {
      && RowsKeyed(items, nextItemId)
      && (forall i :: 0 <= i < |bids| ==> bids[i].id < nextBidId)
      && (forall i :: 0 <= i < |users| ==> users[i].id < nextUserId)
      && PriceCoversBids(items, bids)
      && RisingPerItem(bids)
      && UniqueUsers(users)
    }

    constructor ()
      ensures Valid()
      ensures items == map[] && bids == [] && users == [] && broadcasts == []
    {
      items, bids, users, broadcasts := map[], [], [], [];
      nextItemId, nextBidId, nextUserId := 1, 1, 1;
    }
  }

  function TimestampKey(b: Bid): real
  {
    b.timestamp as real
  }

  /** `findByItemIdOrderByTimestampDesc`: the item's bids, newest first. */
  function FindByItemIdOrderByTimestampDesc(bids: seq<Bid>, itemId: int): (r: seq<Bid>)
    ensures forall b :: b in r <==> b in bids && OnItem(b, itemId)
    ensures multiset(r) == multiset(Filter(bids, b => OnItem(b, itemId)))
    ensures SortedDesc(r, TimestampKey)
  {
    var f := Filter(bids, b => OnItem(b, itemId));
    var r := SortDesc(f, TimestampKey);
    assert forall b :: b in r <==> b in multiset(f);
    r
  }

  /** `findByBidderIdOrderByTimestampDesc`: the user's bids, newest first. */
  function FindByBidderIdOrderByTimestampDesc(bids: seq<Bid>, userId: int): (r: seq<Bid>)
    ensures forall b :: b in r <==> b in bids && ByBidder(b, userId)
    ensures multiset(r) == multiset(Filter(bids, b => ByBidder(b, userId)))
    ensures SortedDesc(r, TimestampKey)
  {
    var f := Filter(bids, b => ByBidder(b, userId));
    var r := SortDesc(f, TimestampKey);
    assert forall b :: b in r <==> b in multiset(f);
    r
  }

  /**
   * `findByStatusAndEndTimeBefore`: the ids, in increasing order, of the rows among identities
   * `lo` to `hi - 1` that have the status and end strictly before `time`.
   */
  function FindByStatusAndEndTimeBefore(items: map<int, Item>, status: AuctionStatus, time: int, lo: int, hi: int): (r: seq<int>)
    ensures forall id :: id in r <==> lo <= id < hi && id in items && items[id].status == status && items[id].endTime < time
    ensures forall i, j :: 0 <= i < j < |r| ==> r[i] < r[j]
    decreases hi - lo
  {
    if hi <= lo then []
    else
      var rest := FindByStatusAndEndTimeBefore(items, status, time, lo + 1, hi);
      assert forall k :: 0 <= k < |rest| ==> rest[k] in rest && lo < rest[k];
      if lo in items && items[lo].status == status && items[lo].endTime < time then [lo] + rest else rest
  }

  /** `countBidsByItemId`. */
  function CountBidsByItemId(bids: seq<Bid>, itemId: int): (n: nat)
    ensures n <= |bids|
    ensures n == |FindByItemIdOrderByTimestampDesc(bids, itemId)|
  {
    |Filter(bids, b => OnItem(b, itemId))|
  }

  predicate ExistsByUsername(users: seq<User>, username: string)
  {
    exists i :: 0 <= i < |users| && users[i].username == username
  }

  predicate ExistsByEmail(users: seq<User>, email: string)
  {
    exists i :: 0 <= i < |users| && users[i].email == email
  }

  /** `findByUsername`: the user with that name, if any (the first one, should there be several). */
  function FindUser(users: seq<User>, username: string): (r: Option<User>)
    ensures r.None? <==> !ExistsByUsername(users, username)
    ensures r.Some? ==> r.value in users && r.value.username == username
  {
    if users == [] then None
    else if users[0].username == username then Some(users[0])
    else
      var r := FindUser(users[1..], username);
      assert forall i :: 1 <= i < |users| ==> users[i] == users[1..][i - 1];
      r
  }
}
