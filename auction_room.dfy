/**
 * The bidding rules of the auction room page (AuctionRoom.jsx): how a pushed bid and the outcome
 * of the page's own bid change what the page shows, which error text it shows, when the submit
 * button and the form are available, and when the page says the auction is ending.
 */
module AuctionRoom {
  import opened Wrappers
  import opened Sequences
  import Domain
  import Countdown
  import BidService

  const NewBidMessage := "New bid placed! 🎉"
  const BidPlacedMessage := "Bid placed successfully! 🎉"
  const DefaultErrorMessage := "Failed to place bid. Please try again."
  const EndingSoonMs := 300000

  /**
   * What the page holds about the auction. `bidAmount` is the number the input field parses to,
   * `None` when `parseFloat` gives NaN.
   */
  datatype RoomState = RoomState(currentPrice: real, bidCount: int, bidAmount: Option<real>,
                                 success: string, error: string, bidding: bool)

  /** A bid pushed over the socket; `itemId` is absent when the payload has none. */
  datatype PushedBid = PushedBid(itemId: Option<int>, amount: real)

  /** `parseInt(id)` of the route parameter is `roomId` (`None` for NaN, which equals nothing). */
  predicate ForRoom(roomId: Option<int>, push: PushedBid)
  {
    push.itemId.Some? && roomId == push.itemId
  }

  /**
   * The bid-update callback: a push for this room takes its amount as the price, whatever the old
   * price was, and counts one more bid; any other push changes nothing.
   */
  function OnBidPush(st: RoomState, roomId: Option<int>, push: PushedBid): (r: RoomState)
    ensures !ForRoom(roomId, push) ==> r == st
    ensures ForRoom(roomId, push) ==> r.currentPrice == push.amount && r.bidCount == st.bidCount + 1
                                      && r.success == NewBidMessage
    ensures r.bidAmount == st.bidAmount && r.error == st.error && r.bidding == st.bidding
  {
    if ForRoom(roomId, push) then
      st.(currentPrice := push.amount, bidCount := st.bidCount + 1, success := NewBidMessage)
    else st
  }

  function OnBidPushes(st: RoomState, roomId: Option<int>, pushes: seq<PushedBid>): RoomState
    decreases pushes
  {
    if pushes == [] then st else OnBidPushes(OnBidPush(st, roomId, pushes[0]), roomId, pushes[1..])
  }

  /** Over a run of pushes, the count grows by exactly the number of pushes for this room. */
  lemma {:induction false} PushesCount(st: RoomState, roomId: Option<int>, pushes: seq<PushedBid>)
    ensures OnBidPushes(st, roomId, pushes).bidCount == st.bidCount + |Filter(pushes, p => ForRoom(roomId, p))|
    decreases pushes
  {
    if pushes != [] {
      var tail := pushes[1..];
      PushesCount(OnBidPush(st, roomId, pushes[0]), roomId, tail);
      assert pushes == [pushes[0]] + tail;
      FilterCountOfCons(pushes[0], tail, p => ForRoom(roomId, p));
    }
  }

  /**
   * A run with no push for this room changes nothing, and when the last push is for this room
   * the price is its amount, whatever came before.
   */
  lemma {:induction false} PushesPrice(st: RoomState, roomId: Option<int>, pushes: seq<PushedBid>)
    ensures (forall i :: 0 <= i < |pushes| ==> !ForRoom(roomId, pushes[i])) ==> OnBidPushes(st, roomId, pushes) == st
    ensures pushes != [] && ForRoom(roomId, pushes[|pushes| - 1]) ==>
              OnBidPushes(st, roomId, pushes).currentPrice == pushes[|pushes| - 1].amount
    decreases pushes
  {
    if pushes != [] {
      var tail := pushes[1..];
      PushesPrice(OnBidPush(st, roomId, pushes[0]), roomId, tail);
      assert forall i :: 0 <= i < |tail| ==> tail[i] == pushes[i + 1];
      if tail != [] {
        assert tail[|tail| - 1] == pushes[|pushes| - 1];
      }
    }
  }

  /** The price loaded with the item, and the suggested next bid one above it. */
  function OnItemLoaded(st: RoomState, currentPrice: real): (r: RoomState)
    ensures r.currentPrice == currentPrice && r.bidAmount == Some(currentPrice + 1.0)
  {
    st.(currentPrice := currentPrice, bidAmount := Some(currentPrice + 1.0))
  }

  /** What the failed request carries: the response body, if any, and the error's own message. */
  datatype Body = TextBody(text: string) | ObjectBody(error: Option<string>, message: Option<string>)

  datatype RequestError = RequestError(data: Option<Body>, message: Option<string>)

  /** JavaScript truthiness of an optional string: present and non-empty. */
  predicate Truthy(s: Option<string>)
  {
    s.Some? && s.value != ""
  }

  predicate TruthyBody(b: Option<Body>)
  {
    b.Some? && (b.value.TextBody? ==> b.value.text != "")
  }

  /**
   * The error text of `handleBid`: a string body, else the body's `error`, else its `message`;
   * only when there is no (truthy) body, the error's own message; otherwise the default.
   */
  function ErrorMessage(e: RequestError): (r: string)
    ensures r != ""
    ensures TruthyBody(e.data) && e.data.value.TextBody? ==> r == e.data.value.text
    ensures TruthyBody(e.data) && e.data.value.ObjectBody? ==>
              r == (if Truthy(e.data.value.error) then e.data.value.error.value
                    else if Truthy(e.data.value.message) then e.data.value.message.value
                    else DefaultErrorMessage)
    ensures !TruthyBody(e.data) ==> r == (if Truthy(e.message) then e.message.value else DefaultErrorMessage)
  {
    if TruthyBody(e.data) then
      match e.data.value
      case TextBody(text) => text
      case ObjectBody(error, message) =>
        if Truthy(error) then error.value
        else if Truthy(message) then message.value
        else DefaultErrorMessage
    else if Truthy(e.message) then e.message.value
    else DefaultErrorMessage
  }

  /** An object body without `error` or `message` hides the error's own message. */
  lemma BodyHidesTransportMessage(message: string)
    ensures ErrorMessage(RequestError(Some(ObjectBody(None, None)), Some(message))) == DefaultErrorMessage
    ensures ErrorMessage(RequestError(Some(TextBody("")), Some(message))) == (if message == "" then DefaultErrorMessage else message)
  {
  }

  /**
   * The server answers a refused bid with `{"error": <message>}` (AuctionController.java); the room
   * shows exactly the message of the guard that refused it.
   */
  lemma RefusalShowsGuardMessage(items: map<int, Domain.Item>, req: BidService.BidRequest,
                                 bidder: Domain.User, now: int, transport: Option<string>)
    requires BidService.SellersPresent(items)
    requires BidService.CheckBid(items, req, bidder, now).Failure?
    ensures var m := BidService.CheckBid(items, req, bidder, now).error;
            ErrorMessage(RequestError(Some(ObjectBody(Some(m), None)), transport)) == m
  {
  }

  /** The outcome of `bidService.placeBid`: the saved bid's amount, or the error thrown. */
  datatype Outcome = Accepted(amount: real) | Rejected(failure: RequestError)

  /**
   * `handleBid`, from the submit to the `finally`: nothing happens for a visitor; otherwise an
   * accepted bid becomes the price and suggests one more, and a refusal shows its error text.
   */
  function HandleBid(st: RoomState, authenticated: bool, outcome: Outcome): (r: RoomState)
    ensures !authenticated ==> r == st
    ensures authenticated ==> !r.bidding && r.bidCount == st.bidCount
    ensures authenticated && outcome.Accepted? ==>
              r.currentPrice == outcome.amount && r.bidAmount == Some(outcome.amount + 1.0)
              && r.success == BidPlacedMessage && r.error == ""
    ensures authenticated && outcome.Rejected? ==>
              r.currentPrice == st.currentPrice && r.bidAmount == st.bidAmount
              && r.error == ErrorMessage(outcome.failure) && r.success == ""
  {
    if !authenticated then st
    else
      var cleared := st.(bidding := true, error := "", success := "");
      var settled := match outcome
        case Accepted(amount) => cleared.(currentPrice := amount, bidAmount := Some(amount + 1.0),
                                          success := BidPlacedMessage)
        case Rejected(failure) => cleared.(error := ErrorMessage(failure));
      settled.(bidding := false)
  }

  /** The submit button is disabled while bidding or when the entered amount is at most the price. */
  predicate SubmitDisabled(bidding: bool, bidAmount: Option<real>, currentPrice: real)
  {
    bidding || (bidAmount.Some? && bidAmount.value <= currentPrice)
  }

  /**
   * An enabled button never sends a number at or below the shown price, but an entry that does
   * not parse (NaN) does not disable it.
   */
  lemma SubmitGate(bidding: bool, bidAmount: Option<real>, currentPrice: real)
    ensures !SubmitDisabled(bidding, bidAmount, currentPrice) && bidAmount.Some? ==> bidAmount.value > currentPrice
    ensures bidding ==> SubmitDisabled(bidding, bidAmount, currentPrice)
    ensures !SubmitDisabled(false, None, currentPrice)
  {
  }

  /** After the item loads or a bid is accepted, the suggested amount can be submitted as it is. */
  lemma SuggestionIsSubmittable(st: RoomState, currentPrice: real, amount: real)
    ensures !SubmitDisabled(false, OnItemLoaded(st, currentPrice).bidAmount, OnItemLoaded(st, currentPrice).currentPrice)
    ensures var r := HandleBid(st, true, Accepted(amount));
            !SubmitDisabled(r.bidding, r.bidAmount, r.currentPrice)
  {
  }

  /** The bid form is rendered only for a signed-in user on an ACTIVE auction. */
  predicate FormShown(authenticated: bool, status: string)
  {
    authenticated && status == "ACTIVE"
  }

  /**
   * The form tests the status the page loaded, so a submit from a shown form always reaches the
   * server; the server tests the stored row again. When the auction has stopped being ACTIVE
   * since the page loaded, the bidder's request is refused and the room shows "Auction is not
   * active" with the price unchanged.
   */
  lemma FormShownIsRechecked(st: RoomState, authenticated: bool, shownStatus: string,
                             items: map<int, Domain.Item>, req: BidService.BidRequest,
                             bidder: Domain.User, now: int, transport: Option<string>)
    requires FormShown(authenticated, shownStatus)
    requires BidService.SellersPresent(items)
    requires bidder.role == Domain.BIDDER && req.itemId in items
    requires items[req.itemId].seller.value.id != bidder.id && items[req.itemId].status != Domain.ACTIVE
    ensures BidService.CheckBid(items, req, bidder, now) == Failure(BidService.NotActiveMessage)
    ensures var failure := RequestError(Some(ObjectBody(Some(BidService.NotActiveMessage), None)), transport);
            var r := HandleBid(st, authenticated, Rejected(failure));
            r.error == BidService.NotActiveMessage && r.currentPrice == st.currentPrice && !r.bidding
  {
  }

  /** `isEnding`: less than five minutes left, measured in milliseconds. */
  predicate IsEnding(endMs: int, nowMs: int)
  {
    endMs - nowMs < EndingSoonMs
  }

  /**
   * The page's "Ending Soon!" and the countdown's urgent tier disagree on the last 999 ms of the
   * sixth minute: there the countdown is already urgent while the page is not ending. Elsewhere
   * above zero they agree, and after the end the page keeps saying it is ending.
   */
  lemma EndingVersusUrgent(prev: Countdown.TimerState, endMs: int, nowMs: int)
    ensures var t := Countdown.Tick(prev, endMs, nowMs);
            && (EndingSoonMs <= endMs - nowMs < EndingSoonMs + 1000 ==> t.isUrgent && !IsEnding(endMs, nowMs))
            && (0 < endMs - nowMs < EndingSoonMs ==> t.isUrgent && IsEnding(endMs, nowMs))
            && (endMs - nowMs >= EndingSoonMs + 1000 ==> !t.isUrgent && !IsEnding(endMs, nowMs))
            && (endMs - nowMs <= 0 ==> t.isExpired && IsEnding(endMs, nowMs))
  {
  }

  /** `recentBids`: the first three bids as fetched. */
  function RecentBids<T>(bids: seq<T>): (r: seq<T>)
    ensures |r| == if |bids| < 3 then |bids| else 3
    ensures r <= bids
  {
    if |bids| <= 3 then bids else bids[..3]
  }
}
