/**
 * ItemService.java: lookup by id, item creation, the seller's edit, and the once-a-minute
 * status job. The clock reading `LocalDateTime.now()` is the parameter `now`.
 */
module ItemService {
  import opened Wrappers
  import opened Domain
  import opened ItemResponses
  import opened Sequences
  import opened Repositories

  const ItemNotFoundMessage := "Item not found"

  /** The fields a seller supplies when listing an item (the rest is set by `createItem`). */
  datatype NewItem = NewItem(name: string, description: string, startingPrice: real,
                             imageUrl: Option<string>, endTime: int)

  /** The editable fields `updateItem` copies from the request body. */
  datatype ItemDetails = ItemDetails(name: string, description: string, startingPrice: real,
                                     imageUrl: Option<string>, startTime: int, endTime: int)

  /** The current price has not fallen below the starting price. */
  predicate Priced(item: Item)
  {
    item.currentPrice >= item.startingPrice
  }

  /** `getItemById`: the stored row, or "Item not found". */
  function GetItemById(items: map<int, Item>, id: int): (r: Result<Item>)
    ensures r.Success? <==> id in items
    ensures r.Success? ==> r.value == items[id]
    ensures r.Failure? ==> r.error == ItemNotFoundMessage
  {
    if id in items then Success(items[id]) else Failure(ItemNotFoundMessage)
  }

  /** The item's `bids` association: the stored bids that point at it. */
  function BidsOf(bids: seq<Bid>, itemId: int): (r: seq<Bid>)
    ensures forall b :: b in r <==> b in bids && OnItem(b, itemId)
    ensures |r| <= |bids|
  {
    Filter(bids, b => OnItem(b, itemId))
  }

  /** `getItemByIdAsDto`: the row through `fromItem`, with its loaded bids counted. */
  function GetItemByIdAsDto(items: map<int, Item>, bids: seq<Bid>, id: int): (r: Result<ItemResponse>)
    ensures r.Success? <==> id in items
    ensures r.Failure? ==> r.error == ItemNotFoundMessage
    ensures r.Success? ==>
              && r.value.id == items[id].id && r.value.status == items[id].status
              && r.value.currentPrice == items[id].currentPrice
              && r.value.bidCount == |BidsOf(bids, id)|
    ensures r.Success? ==> r.value == FromItem(items[id], Some(BidsOf(bids, id)))
  {
    match GetItemById(items, id)
    case Failure(e) => Failure(e)
    case Success(item) => Success(FromItem(item, Some(BidsOf(bids, id))))
  }

  /** The row `createItem` saves under identity `id`. */
  function Created(draft: NewItem, seller: User, now: int, id: int): Item
  {
    Item(id, draft.name, draft.description, draft.startingPrice, draft.startingPrice,
         draft.imageUrl, now, draft.endTime, PENDING, Some(RefOf(seller)), None)
  }

  /**
   * `createItem`: the seller is attached, bidding starts at the starting price, the auction is
   * PENDING and starts now; one row is added under the next identity.
   */
  method CreateItem(store: Store, draft: NewItem, seller: User, now: int) returns (item: Item)
    requires store.Valid()
    modifies store
    ensures store.Valid()
    ensures item == Created(draft, seller, now, old(store.nextItemId))
    ensures old(store.nextItemId) !in old(store.items)
    ensures store.items == old(store.items)[item.id := item]
    ensures store.bids == old(store.bids) && store.users == old(store.users)
    ensures store.broadcasts == old(store.broadcasts)
    ensures store.nextItemId == old(store.nextItemId) + 1
    ensures store.nextBidId == old(store.nextBidId) && store.nextUserId == old(store.nextUserId)
  {
    item := Created(draft, seller, now, store.nextItemId);
    store.items := store.items[item.id := item];
    store.nextItemId := store.nextItemId + 1;
  }

  /** What `updateItem` does to the row: the six editable fields are overwritten. */
  function ApplyUpdate(item: Item, d: ItemDetails): (r: Item)
    ensures r.name == d.name && r.description == d.description && r.startingPrice == d.startingPrice
    ensures r.imageUrl == d.imageUrl && r.startTime == d.startTime && r.endTime == d.endTime
    ensures r.id == item.id && r.currentPrice == item.currentPrice && r.status == item.status
    ensures r.seller == item.seller && r.winner == item.winner
  {
    item.(name := d.name, description := d.description, startingPrice := d.startingPrice,
          imageUrl := d.imageUrl, startTime := d.startTime, endTime := d.endTime)
  }

  /** `updateItem`: "Item not found" for an unknown id, otherwise the edited row replaces the old one. */
  method UpdateItem(store: Store, id: int, details: ItemDetails) returns (r: Result<Item>)
    requires store.Valid()
    modifies store
    ensures store.Valid()
    ensures r.Failure? <==> id !in old(store.items)
    ensures r.Failure? ==> r.error == ItemNotFoundMessage && unchanged(store)
    ensures r.Success? ==> r.value == ApplyUpdate(old(store.items)[id], details)
                           && store.items == old(store.items)[id := r.value]
    ensures store.bids == old(store.bids) && store.users == old(store.users)
    ensures store.broadcasts == old(store.broadcasts)
    ensures store.nextItemId == old(store.nextItemId) && store.nextBidId == old(store.nextBidId) && store.nextUserId == old(store.nextUserId)
  {
    var found := GetItemById(store.items, id);
    if found.Failure? {
      return Failure(found.error);
    }
    var item := ApplyUpdate(found.value, details);
    store.items := store.items[id := item];
    r := Success(item);
  }

  /** A new listing starts priced and pending, with no winner. */
  lemma CreatedStartsPricedAndPending(draft: NewItem, seller: User, now: int, id: int)
    ensures var item := Created(draft, seller, now, id);
            Priced(item) && item.status == PENDING && item.winner.None?
            && item.seller == Some(RefOf(seller)) && item.startTime == now
  {
  }

  /** An edit can lift the starting price above a price already reached, which `createItem` rules out. */
  lemma UpdateCanBreakPricing()
    ensures exists item: Item, d: ItemDetails :: Priced(item) && !Priced(ApplyUpdate(item, d))
  {
    var seller := User(1, "seller", "seller@example.com", "", SELLER);
    var item := Created(NewItem("Lamp", "", 10.0, None, 100), seller, 0, 1);
    var d := ItemDetails("Lamp", "", 50.0, None, 0, 100);
    assert Priced(item) && !Priced(ApplyUpdate(item, d));
  }

  // The status job, as written.

  /**
   * The first pass: rows found by `findByStatusAndEndTimeBefore(PENDING, now)` become ACTIVE when
   * their start is before `now`.
   */
  function Activate(item: Item, now: int): Item
  {
    if item.status == PENDING && item.endTime < now && item.startTime < now then item.(status := ACTIVE)
    else item
  }

  /** The second pass: rows found by `findByStatusAndEndTimeBefore(ACTIVE, now)` become CLOSED. */
  function Close(item: Item, now: int): Item
  {
    if item.status == ACTIVE && item.endTime < now then item.(status := CLOSED) else item
  }

  /** The first pass over the whole table. */
  function ActivationPass(items: map<int, Item>, now: int): (r: map<int, Item>)
    ensures r.Keys == items.Keys
  {
    map id | id in items :: Activate(items[id], now)
  }

  /** The second pass over the whole table. */
  function ClosingPass(items: map<int, Item>, now: int): (r: map<int, Item>)
    ensures r.Keys == items.Keys
  {
    map id | id in items :: Close(items[id], now)
  }

  /**
   * One run of `updateAuctionStatuses`. The second query runs after the first pass's saves in the
   * same transaction, so it also sees the rows the first pass activated.
   */
  function StatusJob(items: map<int, Item>, now: int): (r: map<int, Item>)
    ensures r.Keys == items.Keys
  {
    ClosingPass(ActivationPass(items, now), now)
  }

  /** Rewriting one row's status keeps the store's ledger invariant. */
  lemma SetStatusKeepsLedger(items: map<int, Item>, bids: seq<Bid>, nextId: int, id: int, status: AuctionStatus)
    requires id in items && PriceCoversBids(items, bids) && RowsKeyed(items, nextId)
    ensures PriceCoversBids(items[id := items[id].(status := status)], bids)
    ensures RowsKeyed(items[id := items[id].(status := status)], nextId)
  {
    var items' := items[id := items[id].(status := status)];
    forall i | 0 <= i < |bids|
      ensures bids[i].item.Some? && bids[i].item.value.id in items'
              && bids[i].amount <= items'[bids[i].item.value.id].currentPrice
    {
    }
  }

  /** After a run no auction whose end has passed is still open for bids. */
  lemma JobClosesExpiredAuctions(items: map<int, Item>, now: int)
    ensures forall id :: id in items && items[id].endTime < now ==> StatusJob(items, now)[id].status != ACTIVE
    ensures forall id :: id in items && items[id].status == ACTIVE && items[id].endTime < now ==>
              StatusJob(items, now)[id].status == CLOSED
  {
  }

  /**
   * The job writes the status column and nothing else: prices, times, seller and winner are kept,
   * CLOSED rows and rows whose end has not passed (including an end exactly at `now`) are kept whole.
   */
  lemma JobWritesOnlyStatus(items: map<int, Item>, now: int)
    ensures forall id :: id in items ==> StatusJob(items, now)[id] == items[id].(status := StatusJob(items, now)[id].status)
    ensures forall id :: id in items && items[id].status == CLOSED ==> StatusJob(items, now)[id] == items[id]
    ensures forall id :: id in items && items[id].endTime >= now ==> StatusJob(items, now)[id] == items[id]
  {
  }

  /**
   * As written, the job never leaves a PENDING row ACTIVE: the row is only picked up once its end
   * has passed, and the closing pass then closes it in the same run.
   */
  lemma JobNeverOpensPending(items: map<int, Item>, now: int)
    ensures forall id :: id in items && items[id].status == PENDING ==> StatusJob(items, now)[id].status != ACTIVE
  {
  }

  /** A listing created at `created` stays PENDING while its end is ahead and goes straight to CLOSED after. */
  lemma CreatedListingIsNeverBiddable(draft: NewItem, seller: User, created: int, id: int, now: int)
    requires created < now
    ensures var item := Created(draft, seller, created, id);
            var after := StatusJob(map[id := item], now)[id];
            (now <= draft.endTime ==> after.status == PENDING)
            && (draft.endTime < now ==> after.status == CLOSED)
  {
  }

  /**
   * `updateAuctionStatuses`: the two queries and the two passes over their results.
   */
  method UpdateAuctionStatuses(store: Store, now: int)
    requires store.Valid()
    modifies store
    ensures store.Valid()
    ensures store.items == StatusJob(old(store.items), now)
    ensures store.bids == old(store.bids) && store.users == old(store.users)
    ensures store.broadcasts == old(store.broadcasts)
    ensures store.nextItemId == old(store.nextItemId) && store.nextBidId == old(store.nextBidId) && store.nextUserId == old(store.nextUserId)
  {
    ActivatePending(store, now);
    CloseExpired(store, now);
  }

  /** `item.setStatus(status)` followed by `itemRepository.save(item)` on a stored row. */
  method SetStatus(store: Store, id: int, status: AuctionStatus)
    requires store.Valid() && id in store.items
    modifies store
    ensures store.Valid()
    ensures store.items == old(store.items)[id := old(store.items)[id].(status := status)]
    ensures store.bids == old(store.bids) && store.users == old(store.users)
    ensures store.broadcasts == old(store.broadcasts)
    ensures store.nextItemId == old(store.nextItemId) && store.nextBidId == old(store.nextBidId) && store.nextUserId == old(store.nextUserId)
  {
    SetStatusKeepsLedger(store.items, store.bids, store.nextItemId, id, status);
    store.items := store.items[id := store.items[id].(status := status)];
  }

  /** The two passes of the job, for the loop proofs below. */
  datatype Pass = Activation | Closing

  function Apply(pass: Pass, item: Item, now: int): Item
  {
    match pass
    case Activation => Activate(item, now)
    case Closing => Close(item, now)
  }

  /** The table after the rows in `done` have been through `pass` and the others not yet. */
  ghost function Swept(start: map<int, Item>, done: seq<int>, pass: Pass, now: int): (r: map<int, Item>)
    ensures r.Keys == start.Keys
  {
    map id | id in start :: if id in done then Apply(pass, start[id], now) else start[id]
  }

  lemma SweptNothing(start: map<int, Item>, pass: Pass, now: int)
    ensures Swept(start, [], pass, now) == start
  {
  }

  /**
   * One more row through the pass rewrites that row alone. A row met a second time is left as
   * it is, since each pass only moves rows out of the status it selects.
   */
  lemma SweptStep(start: map<int, Item>, query: seq<int>, i: int, pass: Pass, now: int)
    requires 0 <= i < |query| && query[i] in start
    ensures Swept(start, query[..i + 1], pass, now)
            == Swept(start, query[..i], pass, now)[query[i] := Apply(pass, start[query[i]], now)]
  {
    var id := query[i];
    assert query[..i + 1] == query[..i] + [id];
    var before := Swept(start, query[..i], pass, now);
    var after := Swept(start, query[..i + 1], pass, now);
    assert forall k :: k in start ==> after[k] == before[id := Apply(pass, start[id], now)][k];
  }

  /** Once every row the pass would change has been through it, the table is the whole pass. */
  lemma SweptAll(start: map<int, Item>, done: seq<int>, pass: Pass, now: int)
    requires forall id :: id in start && id !in done ==> Apply(pass, start[id], now) == start[id]
    ensures Swept(start, done, pass, now) == if pass == Activation then ActivationPass(start, now) else ClosingPass(start, now)
  {
    var whole := if pass == Activation then ActivationPass(start, now) else ClosingPass(start, now);
    assert forall id :: id in start ==> Swept(start, done, pass, now)[id] == Apply(pass, start[id], now) == whole[id];
  }

  /** The body of either loop: one row returned by the pass's query is rewritten and saved. */
  method SweepOne(store: Store, ghost start: map<int, Item>, query: seq<int>, i: int, pass: Pass, now: int)
    requires 0 <= i < |query| && store.Valid() && store.items == Swept(start, query[..i], pass, now)
    requires query[i] in start && start[query[i]].endTime < now
    requires start[query[i]].status == (if pass == Activation then PENDING else ACTIVE)
    modifies store
    ensures store.Valid() && store.items == Swept(start, query[..i + 1], pass, now)
    ensures store.bids == old(store.bids) && store.users == old(store.users)
    ensures store.broadcasts == old(store.broadcasts)
    ensures store.nextItemId == old(store.nextItemId) && store.nextBidId == old(store.nextBidId) && store.nextUserId == old(store.nextUserId)
  {
    var id := query[i];
    SweptStep(start, query, i, pass, now);
    if pass == Closing {
      SetStatus(store, id, CLOSED);
    } else if store.items[id].startTime < now {
      SetStatus(store, id, ACTIVE);
    }
  }

  /** The first half of `updateAuctionStatuses`: the PENDING query and its pass. */
  method ActivatePending(store: Store, now: int)
    requires store.Valid()
    modifies store
    ensures store.Valid()
    ensures store.items == ActivationPass(old(store.items), now)
    ensures store.bids == old(store.bids) && store.users == old(store.users)
    ensures store.broadcasts == old(store.broadcasts)
    ensures store.nextItemId == old(store.nextItemId) && store.nextBidId == old(store.nextBidId) && store.nextUserId == old(store.nextUserId)
  {
    ghost var start := store.items;
    var pending := FindByStatusAndEndTimeBefore(store.items, PENDING, now, 1, store.nextItemId);
    SweptNothing(start, Activation, now);
    for i := 0 to |pending|
      invariant store.items == Swept(start, pending[..i], Activation, now)
      invariant store.Valid()
      invariant store.bids == old(store.bids) && store.users == old(store.users)
      invariant store.broadcasts == old(store.broadcasts)
      invariant store.nextItemId == old(store.nextItemId) && store.nextBidId == old(store.nextBidId) && store.nextUserId == old(store.nextUserId)
    {
      assert pending[i] in pending;
      SweepOne(store, start, pending, i, Activation, now);
    }
    assert pending[..|pending|] == pending;
    SweptAll(start, pending, Activation, now);
  }

  /** The second half of `updateAuctionStatuses`: the ACTIVE query and its pass. */
  method CloseExpired(store: Store, now: int)
    requires store.Valid()
    modifies store
    ensures store.Valid()
    ensures store.items == ClosingPass(old(store.items), now)
    ensures store.bids == old(store.bids) && store.users == old(store.users)
    ensures store.broadcasts == old(store.broadcasts)
    ensures store.nextItemId == old(store.nextItemId) && store.nextBidId == old(store.nextBidId) && store.nextUserId == old(store.nextUserId)
  {
    ghost var start := store.items;
    var active := FindByStatusAndEndTimeBefore(store.items, ACTIVE, now, 1, store.nextItemId);
    SweptNothing(start, Closing, now);
    for i := 0 to |active|
      invariant store.items == Swept(start, active[..i], Closing, now)
      invariant store.Valid()
      invariant store.bids == old(store.bids) && store.users == old(store.users)
      invariant store.broadcasts == old(store.broadcasts)
      invariant store.nextItemId == old(store.nextItemId) && store.nextBidId == old(store.nextBidId) && store.nextUserId == old(store.nextUserId)
    {
      assert active[i] in active;
      SweepOne(store, start, active, i, Closing, now);
    }
    assert active[..|active|] == active;
    SweptAll(start, active, Closing, now);
  }

  // The status job as evidently intended.

  /**
   * Activation of the auctions whose start has passed and whose end is still ahead, the rows
   * `findByStatusAndEndTimeAfter(PENDING, now)` returns (that query is declared in ItemRepository.java).
   */
  function ActivateStarted(item: Item, now: int): Item
  {
    if item.status == PENDING && now < item.endTime && item.startTime < now then item.(status := ACTIVE)
    else item
  }

  function IntendedStatusJob(items: map<int, Item>, now: int): (r: map<int, Item>)
    ensures r.Keys == items.Keys
  {
    map id | id in items :: Close(ActivateStarted(items[id], now), now)
  }

  /**
   * With the intended query a PENDING auction opens exactly when its start has passed and its end
   * has not; expired auctions still end up closed and only the status column is written.
   */
  lemma IntendedJobOpensStartedAuctions(items: map<int, Item>, now: int)
    ensures forall id :: id in items && items[id].status == PENDING ==>
              (IntendedStatusJob(items, now)[id].status == ACTIVE <==> items[id].startTime < now < items[id].endTime)
    ensures forall id :: id in items && items[id].endTime < now ==> IntendedStatusJob(items, now)[id].status != ACTIVE
    ensures forall id :: id in items ==>
              IntendedStatusJob(items, now)[id] == items[id].(status := IntendedStatusJob(items, now)[id].status)
  {
  }

  /** With the intended job, a fresh listing is open for bids at any run strictly inside its lifetime. */
  lemma CreatedListingOpensWhenIntended(draft: NewItem, seller: User, created: int, id: int, now: int)
    requires created < now < draft.endTime
    ensures IntendedStatusJob(map[id := Created(draft, seller, created, id)], now)[id].status == ACTIVE
  {
  }
}
