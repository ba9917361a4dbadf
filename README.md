# AuctionWeb core in Dafny

This project models the rules of AuctionWeb, an online auction site. The site has a Spring back end (items, bids, users) and a React front end (auction room, bid history, home listing, profile, countdown timer and two socket services). The model covers these parts:

- **Server rules.**
  - `BidService.placeBid`: the ordered guard chain, then "store the bid, raise the price, broadcast once".
  - `ItemService`: item creation defaults, the field-selective update, and the scheduled PENDING → ACTIVE → CLOSED job.
  - `UserService`: registration (duplicate checks, role parsing) and the auth response.
  - The null-safe `ItemResponse` and `BidResponse` mappers.
  - The repositories become one `Store` class that holds a `map<int, Item>`, `seq<Bid>`, `seq<User>`, a broadcast outbox and id counters. Its invariant `Valid()` holds on entry to and exit from every service method, each of which runs as one transaction with no other call in between. It says that rows are keyed by their id, every bid references a stored item whose current price covers it, bids on one item strictly rise, and user names and e-mails are unique.
- **Client state machines.**
  - `nativeSocket.js` is a class with the connected flag, the current socket's ready state, the reconnect counter (bounded by 5), the per-item callback map and an outbox of frames.
  - The mock `socket.js` is a class with its single "current subscription" slot.
  - Transport and timer callbacks become explicit event methods. Every method's new state is `Step(old state, event)`, and the lemmas are stated over `Step` and `Run`.
- **Client view rules.**
  - The countdown tick (`Timer.jsx`).
  - The auction room reducers, error-message chain and submit gate.
  - Time-ago buckets and rank labels in the bid history.
  - The home page filter, sort and counters. The in-place sort keeps the `array` and its aliasing.
  - The profile statistics, badge and achievements.

Money is `real`, so it is exact and no float arithmetic appears. Times are `int` milliseconds, and the wall clock is a `now` parameter. JavaScript `null`/`undefined` and Java `null` are `Option`. A thrown `RuntimeException` is `Failure(message)`, using the source's message text. The password encoder and the JWT service are function parameters.

## Model

| member | source | states |
|---|---|---|
| Countdown.Split | frontend/auction/src/components/Timer.jsx:18-21 | for a positive difference, the days/hours/minutes/seconds breakdown has hours < 24, minutes < 60, seconds < 60 and recombines to the difference minus its sub-second remainder |
| Countdown.Tick | frontend/auction/src/components/Timer.jsx:13-45 | expired iff end − now ≤ 0, and then "Expired" with neither urgent nor warning; otherwise totalSeconds is floor(difference / 1000), urgent iff ≤ 300 s, warning iff in (300, 3600] s; never both |
| Countdown.TierOfTick | frontend/auction/src/components/Timer.jsx:23-28 | the tier after a tick is expired / urgent / warning / normal exactly by the remaining whole seconds |
| Countdown.TierBoundaries | frontend/auction/src/components/Timer.jsx:27-28 | 300 s and 300.999 s are urgent, 301 s and 3600.999 s are warning, 3601 s is normal |
| Countdown.SubSecondIsUrgentZero | frontend/auction/src/components/Timer.jsx:17-37 | a remaining time in (0, 1000) ms shows "0s", is urgent and not expired |
| Countdown.FormatSelection | frontend/auction/src/components/Timer.jsx:30-38 | days > 0 selects "Dd Hh Mm", else hours > 0 "Hh Mm Ss", else minutes > 0 "Mm Ss", else "Ss" |
| Countdown.TimerStyle | frontend/auction/src/components/Timer.jsx:51-56 | the class list is determined by the urgency tier: expired and urgent both get the red list, warning the orange one, normal the grey one |
| Countdown.IconOf | frontend/auction/src/components/Timer.jsx:58-62 | the alert icon exactly when expired, the bolt exactly when urgent and not expired, the clock otherwise |
| Countdown.VisibleIgnoresHistory | frontend/auction/src/components/Timer.jsx:12-46 | what a tick shows (text, expired, urgent, warning) depends only on end and now, not on earlier ticks |
| Countdown.RunDependsOnLastTick | frontend/auction/src/components/Timer.jsx:5-15 | before the first interval the text is empty and not expired; afterwards the display is the last tick's |
| Countdown.TotalSecondsIsLastLiveTick | frontend/auction/src/components/Timer.jsx:23-45 | the expired branch does not reset totalSeconds, so it keeps the value of the last tick that still had time left |
| NativeSocket.Route | frontend/auction/src/websocket/nativeSocket.js:65-73 | a callback is invoked iff the frame parsed, its type is BID_UPDATE and its item id has a registered callback, and it is that callback |
| NativeSocket.StepKeepsValid | frontend/auction/src/websocket/nativeSocket.js:11-63 | every event keeps the reconnect counter in 0..5 |
| NativeSocket.RunKeepsValid | frontend/auction/src/websocket/nativeSocket.js:54-63 | any sequence of events keeps the reconnect counter in 0..5 |
| NativeSocket.ExhaustedNeverReschedules | frontend/auction/src/websocket/nativeSocket.js:54-63 | once the counter reaches 5 and no open occurs, it stays 5 and no further reconnect is scheduled |
| NativeSocket.SilentWhileDisconnected | frontend/auction/src/websocket/nativeSocket.js:117-121 | while not connected no event adds a frame to the outbox |
| NativeSocket.FramesWhileConnected | frontend/auction/src/websocket/nativeSocket.js:75-121 | while connected over an open socket, subscribe, unsubscribe, join and leave each append exactly their frame for that auction's topic, and joining does not throw |
| NativeSocket.StepKeepsReady | frontend/auction/src/websocket/nativeSocket.js:11-121 | as long as `connect` is not run again while connected, the flag stands only for an open socket and no operation throws |
| NativeSocket.ReconnectWhileConnectedThrows | frontend/auction/src/websocket/nativeSocket.js:11-14 | after connect, open and a second connect the flag is still up over a connecting socket, so joining an auction throws and sends nothing |
| NativeSocket.RegistrationTouchesOneKey | frontend/auction/src/websocket/nativeSocket.js:75-97 | registering sets exactly that item's callback (overwriting), unregistering removes only that key; other keys are unchanged |
| NativeSocket.OpenDoesNotReplay | frontend/auction/src/websocket/nativeSocket.js:16-20 | a callback registered while disconnected is kept, and the following open sends nothing |
| NativeSocket.DisconnectStillReconnects | frontend/auction/src/websocket/nativeSocket.js:31-63 | a manual disconnect followed by the close event still schedules a reconnect and counts an attempt while attempts < 5 |
| NativeSocket.NativeSocketService.constructor | frontend/auction/src/websocket/nativeSocket.js:2-9 | no socket, not connected, zero attempts, no subscriptions, nothing sent |
| NativeSocket.NativeSocketService.Connect | frontend/auction/src/websocket/nativeSocket.js:11-45 | the new state is the connect step: once creation succeeds a socket exists and is connecting, and the connected flag keeps its value; a failed creation is caught and changes nothing |
| NativeSocket.NativeSocketService.Disconnect | frontend/auction/src/websocket/nativeSocket.js:47-52 | the new state is the disconnect step: connected cleared, the close handler still attached |
| NativeSocket.NativeSocketService.OnOpen | frontend/auction/src/websocket/nativeSocket.js:16-20 | connected is set and the counter reset, nothing else changes |
| NativeSocket.NativeSocketService.OnClose | frontend/auction/src/websocket/nativeSocket.js:31-35 | connected is cleared and a reconnect is attempted |
| NativeSocket.NativeSocketService.OnError | frontend/auction/src/websocket/nativeSocket.js:37-40 | connected is cleared, nothing else changes |
| NativeSocket.NativeSocketService.AttemptReconnect | frontend/auction/src/websocket/nativeSocket.js:54-63 | below 5 attempts the counter rises by one and a timer is scheduled; at 5 nothing changes |
| NativeSocket.NativeSocketService.OnReconnectTimer | frontend/auction/src/websocket/nativeSocket.js:59-61 | the fired timer is consumed and connect runs again |
| NativeSocket.NativeSocketService.OnMessage | frontend/auction/src/websocket/nativeSocket.js:22-29 | the invoked callback is the routing of the parsed frame; a frame that fails to parse invokes nothing and the state is unchanged |
| NativeSocket.NativeSocketService.HandleMessage | frontend/auction/src/websocket/nativeSocket.js:65-73 | the invoked callback is the routing of the frame; the state is unchanged |
| NativeSocket.NativeSocketService.OnBidUpdate | frontend/auction/src/websocket/nativeSocket.js:75-85 | the callback is stored under the item and a subscribe frame is sent if connected; the call throws exactly when that send reaches a connecting socket |
| NativeSocket.NativeSocketService.OffBidUpdate | frontend/auction/src/websocket/nativeSocket.js:87-97 | the item's callback is removed and an unsubscribe frame is sent if connected |
| NativeSocket.NativeSocketService.JoinAuction | frontend/auction/src/websocket/nativeSocket.js:99-106 | a join frame is sent if connected over an open socket; the call throws exactly when the socket is still connecting |
| NativeSocket.NativeSocketService.LeaveAuction | frontend/auction/src/websocket/nativeSocket.js:108-115 | a leave frame is sent if connected |
| NativeSocket.NativeSocketService.Send | frontend/auction/src/websocket/nativeSocket.js:117-121 | with a socket and the flag up, the frame is appended when the socket is open, throws when it is connecting and is dropped when it is closing; nothing else changes |
| MockSocket.OffStep | frontend/auction/src/websocket/socket.js:45-52 | the slot is emptied; with a slot, only that slot's key is deleted; without one, nothing changes |
| MockSocket.Simulated | frontend/auction/src/websocket/socket.js:65-70 | a callback is invoked iff one is registered for the item, and it is that callback |
| MockSocket.RunKeepsValid | frontend/auction/src/websocket/socket.js:3-62 | no sequence of calls ever assigns a socket |
| MockSocket.DisconnectIsInert | frontend/auction/src/websocket/socket.js:28-33 | disconnect changes nothing, so after connect and disconnect the service still reports connected |
| MockSocket.OffIsIdempotent | frontend/auction/src/websocket/socket.js:45-52 | a second unsubscribe is a no-op |
| MockSocket.SlotEvictsEarlierRegistration | frontend/auction/src/websocket/socket.js:35-52 | after registering a then b, one unsubscribe removes b only; a's callback stays registered forever after, even after a second unsubscribe |
| MockSocket.OnThenOffKeepsOthers | frontend/auction/src/websocket/socket.js:35-52 | register-then-unregister leaves every other item's entry as it was |
| MockSocket.SocketService.constructor | frontend/auction/src/websocket/socket.js:3-11 | no socket, not connected, no subscriptions, empty slot |
| MockSocket.SocketService.Connect | frontend/auction/src/websocket/socket.js:13-26 | connected is set and no socket is assigned |
| MockSocket.SocketService.Disconnect | frontend/auction/src/websocket/socket.js:28-33 | the state is unchanged |
| MockSocket.SocketService.OnBidUpdate | frontend/auction/src/websocket/socket.js:35-43 | the callback is stored under the item, the slot is replaced with (item, callback), and that slot is returned |
| MockSocket.SocketService.OffBidUpdate | frontend/auction/src/websocket/socket.js:45-52 | the new state is the unsubscribe step |
| MockSocket.SocketService.JoinAuction | frontend/auction/src/websocket/socket.js:54-57 | the state is unchanged |
| MockSocket.SocketService.LeaveAuction | frontend/auction/src/websocket/socket.js:59-62 | the state is unchanged |
| MockSocket.SocketService.SimulateBidUpdate | frontend/auction/src/websocket/socket.js:65-70 | the invoked callback is the one registered for the item, if any |
| AuctionRoom.OnBidPush | frontend/auction/src/pages/AuctionRoom.jsx:65-72 | a push for another room changes nothing; one for this room sets the price to the pushed amount (no comparison), adds exactly one to the count and shows the success text |
| AuctionRoom.PushesCount | frontend/auction/src/pages/AuctionRoom.jsx:65-72 | over any sequence of pushes the bid count grows by exactly the number of pushes addressed to this room |
| AuctionRoom.PushesPrice | frontend/auction/src/pages/AuctionRoom.jsx:65-72 | pushes for other rooms leave the view unchanged, and when the last push is for this room the price is its amount whatever came before |
| AuctionRoom.OnItemLoaded | frontend/auction/src/pages/AuctionRoom.jsx:43-45 | after loading, the suggested amount is the current price plus one |
| AuctionRoom.ErrorMessage | frontend/auction/src/pages/AuctionRoom.jsx:109-121 | a string body wins, then body.error, then body.message; the transport message only when there is no body; else the default text; never empty |
| AuctionRoom.BodyHidesTransportMessage | frontend/auction/src/pages/AuctionRoom.jsx:111-121 | a body object without error or message yields the default text, even when the transport has a message |
| AuctionRoom.RefusalShowsGuardMessage | backend/auction/src/main/java/org/buddhi/auction/controller/AuctionController.java:161 | a bid refused by the server's guard chain reaches the user as exactly the guard's message |
| AuctionRoom.HandleBid | frontend/auction/src/pages/AuctionRoom.jsx:83-127 | unauthenticated does nothing; otherwise bidding ends cleared and the count is kept; success sets the price to the amount, suggests amount + 1 and shows the success text; failure keeps price and amount and shows the extracted error message |
| AuctionRoom.SubmitGate | frontend/auction/src/pages/AuctionRoom.jsx:360 | submit is disabled while bidding, and enabled only for an amount above the current price |
| AuctionRoom.SuggestionIsSubmittable | frontend/auction/src/pages/AuctionRoom.jsx:45 | the amount suggested at load and after a success is always submittable |
| AuctionRoom.FormShownIsRechecked | frontend/auction/src/pages/AuctionRoom.jsx:277 | the form tests the status loaded with the page; when the stored auction is no longer ACTIVE, a bidder's submit from the shown form is refused with "Auction is not active", which the room shows with the price unchanged |
| AuctionRoom.EndingVersusUrgent | frontend/auction/src/pages/AuctionRoom.jsx:167-168 | on [300000, 300999] ms the timer is urgent while the room does not yet report ending |
| AuctionRoom.RecentBids | frontend/auction/src/pages/AuctionRoom.jsx:51 | the recent bids are a prefix of the fetched list, of length min(3, its length) |
| BidHistory.ElapsedSeconds | frontend/auction/src/components/BidHistory.jsx:40-42 | the elapsed seconds are the floor of the elapsed milliseconds over 1000, negative for a future timestamp |
| BidHistory.FormatTimeAgo | frontend/auction/src/components/BidHistory.jsx:39-48 | seconds iff < 60, minutes iff < 3600, hours iff < 86400, days otherwise |
| BidHistory.AgoIsWholeUnits | frontend/auction/src/components/BidHistory.jsx:44-47 | each bucket shows elapsed seconds divided by its unit: minutes 1..59, hours 1..23, days ≥ 1 |
| BidHistory.FutureBidShowsNegativeSeconds | frontend/auction/src/components/BidHistory.jsx:42-44 | a future timestamp lands in the seconds bucket with a negative count |
| BidHistory.AgoBoundaries | frontend/auction/src/components/BidHistory.jsx:44-47 | 59.999 s is "59s", 60 s is "1m", 3599.999 s "59m", 3600 s "1h", 86399.999 s "23h", 86400 s "1d" |
| BidHistory.BidderRank | frontend/auction/src/components/BidHistory.jsx:50-55 | Leading iff index 0, second iff index 1 with more than one bid, third iff index 2 with more than two bids |
| BidHistory.ListedRowsRankedTopThree | frontend/auction/src/components/BidHistory.jsx:93-94 | for a listed row, a rank label appears iff the row is among the first three |
| Sequences.NewestFirst | frontend/auction/src/components/BidHistory.jsx:15 | the sorted list is a permutation of the fetched records with timestamps non-increasing; the profile page sorts its bids the same way |
| Sequences.NewestFirstIsStable | frontend/auction/src/components/BidHistory.jsx:15 | records with equal timestamps keep the order they were fetched in |
| Sequences.SortIsStable | frontend/auction/src/pages/Home.jsx:54-65 | the comparator sort is stable: the elements sharing a key come out in their input order |
| BidHistory.LeadingIsNewest | frontend/auction/src/components/BidHistory.jsx:133 | the row marked Leading is a bid at least as recent as every other |
| BidHistory.LeadingNeedNotBeHighest | frontend/auction/src/components/BidHistory.jsx:133 | a newer lower bid is marked Leading ahead of an older higher bid |
| Home.Activity | frontend/auction/src/pages/Home.jsx:59 | the bid count is bidCount when non-zero, else the bids length when present, else 0 |
| Home.Filtered | frontend/auction/src/pages/Home.jsx:40-51 | an item is kept iff the term is empty or matches, and the status is ALL or equal; the result is a subsequence of the items (their order, no repeats); no filter returns the list itself |
| Home.Arrange | frontend/auction/src/pages/Home.jsx:39-68 | the result is a permutation of the filtered items, ordered by the selected key |
| Home.ListedIffMatches | frontend/auction/src/pages/Home.jsx:42-51 | an item is listed iff it is in the input and passes both filters |
| Home.SortsByPrice | frontend/auction/src/pages/Home.jsx:56-57 | sorting by price gives non-increasing current prices |
| Home.SortsByBids | frontend/auction/src/pages/Home.jsx:58-59 | sorting by bids gives non-increasing bid counts |
| Home.SortsByEndTime | frontend/auction/src/pages/Home.jsx:60-61 | sorting by end time gives non-decreasing end times |
| Home.ArrangeIsStable | frontend/auction/src/pages/Home.jsx:54-65 | cards that compare equal keep the order the filters left them in (the sort is stable) |
| Home.UnsortedKeepsOrder | frontend/auction/src/pages/Home.jsx:62-63 | any other sort key keeps the filtered order |
| Home.SearchIgnoresTermCase | frontend/auction/src/pages/Home.jsx:43-45 | matching is the same for a term and its lower-cased form |
| Home.FilterAndSort | frontend/auction/src/pages/Home.jsx:39-68 | the displayed array holds the arranged items; with no filter it is the items array itself, sorted in place; otherwise a fresh array and items untouched |
| Home.ActiveAuctions | frontend/auction/src/pages/Home.jsx:70 | the count is at most the number of items, and zero iff no item is ACTIVE |
| Home.ActiveAuctionsIsActiveListing | frontend/auction/src/pages/Home.jsx:70 | the counter equals the length of the list shown with no search and the status filter set to ACTIVE |
| Home.ActiveAuctionsOfCons | frontend/auction/src/pages/Home.jsx:70 | each ACTIVE item adds exactly one to the counter and any other item nothing |
| Home.HotAuctionsBoundTotal | frontend/auction/src/pages/Home.jsx:71-72 | each hot auction carries more than five bids, so six times the hot count is at most the bid total |
| Text.ContainsIffOccurs | frontend/auction/src/pages/Home.jsx:44-45 | substring search holds iff the needle occurs at some position of the text |
| Profile.StatsOf | frontend/auction/src/pages/Profile.jsx:42-45 | totalBids is the number of bids, won and active are at most it; won is zero iff no bid is won, active zero iff no bid is on an ACTIVE item |
| Profile.StatsOfAppend | frontend/auction/src/pages/Profile.jsx:42-45 | one more bid adds one to the total, one to won exactly when the user won it, and one to active exactly when its item is ACTIVE |
| Profile.StatsIgnoreOrder | frontend/auction/src/pages/Profile.jsx:31-45 | sorting the bids does not change the statistics |
| Profile.FlatRecordsCountNothing | frontend/auction/src/pages/Profile.jsx:44-45 | on the flat bid records the server returns, no bid is active, and all or none count as won depending on whether the user id is missing |
| Profile.WinRate | frontend/auction/src/pages/Profile.jsx:46 | the rate is 0 with no bids, otherwise won × 100 / total, and lies in [0, 100] |
| Profile.AverageBid | frontend/auction/src/pages/Profile.jsx:47 | the average is 0 with no bids, otherwise the sum of the amounts divided by their number |
| Profile.BadgeOf | frontend/auction/src/pages/Profile.jsx:54-60 | Diamond iff wins ≥ 10, Gold iff 5..9, Silver iff 2..4, Bronze iff fewer wins and ≥ 5 bids, Newcomer otherwise |
| Profile.BadgeIsMonotone | frontend/auction/src/pages/Profile.jsx:54-60 | more wins and more bids never give a lower badge |
| Profile.AchievementsOf | frontend/auction/src/pages/Profile.jsx:296-351 | first bid at ≥ 1 bid, first win at ≥ 1 win, active bidder at ≥ 10 bids, champion at ≥ 5 wins, big spender iff the total spent is ≥ 1000 |
| Profile.AchievementsMatchBadge | frontend/auction/src/pages/Profile.jsx:54-60 | the champion tile is earned iff the badge is Gold or better; a first win or ten bids imply the first-bid tile |
| ItemResponses.FromItem | backend/auction/src/main/java/org/buddhi/auction/dto/ItemResponse.java:32-49 | the scalar fields are copied; seller and winner id/username are null exactly when the reference is; bidCount is the bid list's length or 0 when the list is null |
| BidResponses.FromBid | backend/auction/src/main/java/org/buddhi/auction/dto/BidResponse.java:25-35 | id, amount and timestamp are copied; item and bidder fields are null exactly when the reference is |
| BidResponses.FromBidRecoversReferences | backend/auction/src/main/java/org/buddhi/auction/dto/BidResponse.java:17-23 | the flat record loses nothing: the item and bidder references can be rebuilt from it |
| Repositories.FindByItemIdOrderByTimestampDesc | backend/auction/src/main/java/org/buddhi/auction/repository/BidRepository.java:13 | exactly the item's bids, as a permutation of them, newest first |
| Repositories.FindByBidderIdOrderByTimestampDesc | backend/auction/src/main/java/org/buddhi/auction/repository/BidRepository.java:14 | exactly the bidder's bids, as a permutation of them, newest first |
| Repositories.CountBidsByItemId | backend/auction/src/main/java/org/buddhi/auction/repository/BidRepository.java:19-20 | the count equals the length of the item's bid listing |
| Repositories.FindByStatusAndEndTimeBefore | backend/auction/src/main/java/org/buddhi/auction/repository/ItemRepository.java:15 | exactly the ids of stored items with that status and an end strictly before the time, in increasing order |
| BidService.CheckBid | backend/auction/src/main/java/org/buddhi/auction/service/BidService.java:54-80 | success iff the bid is admissible; otherwise the first failing guard in source order decides the message |
| BidService.AcceptKeepsLedger | backend/auction/src/main/java/org/buddhi/auction/service/BidService.java:83-94 | accepting a bid keeps every bid covered by its item's price and bids per item strictly rising, and raises the price |
| BidService.WindowIsInclusive | backend/auction/src/main/java/org/buddhi/auction/service/BidService.java:73 | a bid exactly at the start or the end time is not refused as outside the window |
| BidService.PlaceBid | backend/auction/src/main/java/org/buddhi/auction/service/BidService.java:51-101 | fails iff the guard chain fails, with its message and the store untouched; on success exactly one bid is appended, only the item's price changes, exactly one broadcast to the auction's topic carries the bid's DTO; the bid id counter advances by one, the other counters stay, and the store invariant holds |
| BidService.GetBidsByItemId | backend/auction/src/main/java/org/buddhi/auction/service/BidService.java:27-29 | exactly the item's bids, newest first, as many as the count |
| BidService.GetBidsByUserId | backend/auction/src/main/java/org/buddhi/auction/service/BidService.java:39-41 | exactly the user's bids, newest first |
| BidService.GetBidCount | backend/auction/src/main/java/org/buddhi/auction/service/BidService.java:115-117 | the count is the length of the item's bid listing; it is zero iff no bid is on the item |
| BidService.ToDtos | backend/auction/src/main/java/org/buddhi/auction/service/BidService.java:34-36 | the DTO list maps each bid in order |
| BidService.GetBidsByItemIdAsDto | backend/auction/src/main/java/org/buddhi/auction/service/BidService.java:31-37 | position by position, the `fromBid` view of the item's bid listing (newest first); as many DTOs as the bid count, each naming that item |
| BidService.GetBidsByUserIdAsDto | backend/auction/src/main/java/org/buddhi/auction/service/BidService.java:43-49 | position by position, the `fromBid` view of the user's bid listing (newest first), each naming that bidder |
| ItemService.GetItemById | backend/auction/src/main/java/org/buddhi/auction/service/ItemService.java:61-64 | succeeds iff the id is stored, with that item; otherwise "Item not found" |
| ItemService.BidsOf | backend/auction/src/main/java/org/buddhi/auction/model/Item.java:51-53 | the loaded bid association holds exactly the bids on the item |
| ItemService.GetItemByIdAsDto | backend/auction/src/main/java/org/buddhi/auction/service/ItemService.java:66-71 | succeeds iff the id is stored, with `fromItem` of the stored row and its loaded bids; otherwise "Item not found" |
| ItemService.CreateItem | backend/auction/src/main/java/org/buddhi/auction/service/ItemService.java:73-80 | a fresh id is used, the item is stored with the seller, price = starting price, PENDING, start = now, other fields as given; the item counter goes up by one, the bid and user counters, bids, users and broadcasts stay as they were |
| ItemService.CreatedStartsPricedAndPending | backend/auction/src/main/java/org/buddhi/auction/service/ItemService.java:75-78 | a created item is priced at least its starting price, PENDING and without winner |
| ItemService.ApplyUpdate | backend/auction/src/main/java/org/buddhi/auction/service/ItemService.java:97-102 | the six editable fields take the new values; id, current price, status, seller and winner are kept |
| ItemService.UpdateItem | backend/auction/src/main/java/org/buddhi/auction/service/ItemService.java:94-104 | unknown id fails with "Item not found" and no change; otherwise exactly that item is replaced by its update; bids, users, broadcasts and the three id counters stay as they were |
| ItemService.UpdateCanBreakPricing | backend/auction/src/main/java/org/buddhi/auction/service/ItemService.java:99 | an update can leave the current price below the new starting price |
| ItemService.StatusJob | backend/auction/src/main/java/org/buddhi/auction/service/ItemService.java:111-133 | the job keeps the set of stored items |
| ItemService.JobClosesExpiredAuctions | backend/auction/src/main/java/org/buddhi/auction/service/ItemService.java:127-132 | after the job no item whose end has passed is ACTIVE; each such ACTIVE item is CLOSED |
| ItemService.JobWritesOnlyStatus | backend/auction/src/main/java/org/buddhi/auction/service/ItemService.java:111-133 | the job changes only status, never touches CLOSED items, and leaves items ending at or after now unchanged |
| ItemService.SetStatusKeepsLedger | backend/auction/src/main/java/org/buddhi/auction/service/ItemService.java:121-130 | rewriting one item's status keeps the store invariant over items and bids |
| ItemService.SetStatus | backend/auction/src/main/java/org/buddhi/auction/service/ItemService.java:121-131 | saving one item with a new status changes only that item's status; bids, users, broadcasts and the three id counters stay as they were and the store invariant holds |
| ItemService.JobNeverOpensPending | backend/auction/src/main/java/org/buddhi/auction/service/ItemService.java:117-124 | as written, no PENDING item is ACTIVE after the job |
| ItemService.CreatedListingIsNeverBiddable | backend/auction/src/main/java/org/buddhi/auction/service/ItemService.java:117-132 | as written, a newly created listing is never ACTIVE after any run of the job |
| ItemService.UpdateAuctionStatuses | backend/auction/src/main/java/org/buddhi/auction/service/ItemService.java:111-133 | the stored items become the job's result (activation pass, then closing pass); bids, users, broadcasts and the three id counters are unchanged |
| ItemService.ActivatePending | backend/auction/src/main/java/org/buddhi/auction/service/ItemService.java:117-124 | the loop over the PENDING query activates exactly the items the activation pass does |
| ItemService.CloseExpired | backend/auction/src/main/java/org/buddhi/auction/service/ItemService.java:127-132 | the loop over the ACTIVE query closes exactly the items the closing pass does |
| ItemService.IntendedStatusJob | backend/auction/src/main/java/org/buddhi/auction/repository/ItemRepository.java:14 | the corrected job keeps the set of stored items |
| ItemService.IntendedJobOpensStartedAuctions | backend/auction/src/main/java/org/buddhi/auction/service/ItemService.java:116-132 | corrected: a PENDING item becomes ACTIVE iff it has started and not yet ended; expired items are not ACTIVE; only status changes |
| ItemService.CreatedListingOpensWhenIntended | backend/auction/src/main/java/org/buddhi/auction/service/ItemService.java:73-80 | corrected: a listing created before now and ending after now is ACTIVE after the job |
| UserService.RoleNamed | backend/auction/src/main/java/org/buddhi/auction/service/UserService.java:29 | a name parses iff it is BIDDER or SELLER, and the role parsed prints back as that name |
| UserService.RoleNameRoundTrip | backend/auction/src/main/java/org/buddhi/auction/service/UserService.java:29 | parsing a role's name gives the role back |
| UserService.UserTypeIgnoresCase | backend/auction/src/main/java/org/buddhi/auction/service/UserService.java:27-32 | "seller", "Bidder" and "SELLER" parse, "admin" and "" do not |
| UserService.CheckRegistration | backend/auction/src/main/java/org/buddhi/auction/service/UserService.java:20-32 | success iff the name and e-mail are new and the type parses; the username check comes first, then the e-mail, then the type |
| UserService.CreateAuthResponse | backend/auction/src/main/java/org/buddhi/auction/service/UserService.java:56-68 | role and userType are both the role's name, which parses back to the role; username, e-mail and both tokens come from the user |
| UserService.RegistrationKeepsUsersUnique | backend/auction/src/main/java/org/buddhi/auction/service/UserService.java:20-41 | saving an accepted registration keeps user names and e-mails unique |
| UserService.RegisteredUserIsFound | backend/auction/src/main/java/org/buddhi/auction/service/UserService.java:34-41 | after an accepted registration, looking the name up finds exactly the saved user |
| UserService.Register | backend/auction/src/main/java/org/buddhi/auction/service/UserService.java:19-54 | fails iff the checks fail, with their message and nothing saved; otherwise exactly one user is saved with the request's name, e-mail, encoded password and parsed role, the user id counter advances by one, the item and bid counters stay, and the response is built from it |
| UserService.FindByUsername | backend/auction/src/main/java/org/buddhi/auction/service/UserService.java:70-73 | succeeds iff the name is stored, with a user of that name; otherwise "User not found" |

## Left out

- Transport, timers and parsing: the real WebSocket, `setInterval`/`setTimeout` and JSON parsing become explicit events. React hooks and rendering become state records and functions over them.
- Floating point: `parseFloat`, `toFixed`, the price-increase percentage, `adjustBidAmount` and the bid-history average and difference are not modelled. Money is exact `real`.
- Profile.WinRate and Profile.AverageBid are exact quotients, without the one- and two-decimal rounding of `toFixed`. The average is not proved to lie between the smallest and largest amount.
- The wall clock is the `now` parameter. The `@PrePersist` timestamp overwrite in `Bid.java` is JPA lifecycle behaviour and is left out. The bid's timestamp is the `now` passed to `PlaceBid`.
- `findHighestBidForItem`, `getHighestBid` and `getHighestBidAsDto` depend on how Spring turns an unbounded ORDER BY into an Optional, so they are left out.
- `getAllItems`, `getActiveItems`, `getItemsBySeller` (with their DTO variants) and `deleteItem` are plain repository pass-throughs and are left out.
- Controllers, `WebSocketController` and the STOMP handler are left out. A broadcast is an append to the store's outbox. The controller's error body is used only to connect `CheckBid` messages to the room's error chain.
- The password encoder and the JWT service are function parameters. `UserRepository`, `JwtService` and `PasswordEncoder` are not part of this model.
- Text.ToLower and Text.ToUpper fold ASCII letters only. Unicode case mapping, and Java's locale-dependent `toUpperCase`, are not modelled.
- A null `userType` in a registration request raises `NullPointerException` at `toUpperCase`. Strings here are never null, so this case is not modelled.
- ItemService.UpdateItem does not model null fields in the update body. The setters copy them without checks. A null description or image URL is stored as null, and the model has no null strings. A null name, starting price, start time or end time breaks a NOT NULL column when the transaction commits, which the controller answers with 404. Neither outcome is modelled.
- Home.Arrange and Sequences.NewestFirst sort by insertion rather than with the engine's algorithm. Both are stable, as `Array.prototype.sort` must be since ES2019, so the resulting order is the same. Stability is proved by Sequences.SortIsStable, Home.ArrangeIsStable and Sequences.NewestFirstIsStable. Only the sequence of comparisons differs, and the comparators have no side effects.
- `BidHistory.jsx` passes one argument to `onBidUpdate` and reads `bid.bidder?.username`. Neither matches the service or the DTO, so this socket wiring and the bidder-name display are not modelled.
- Concurrency on the server: each service method is one serialized transaction. In the source, `placeBid` runs under a plain `@Transactional`, `Item` has no `@Version`, and no row is locked. Two concurrent bids can both pass the price guard, and the last commit then sets the price, possibly below a stored bid. The scheduled status job can also interleave with a bid. The store invariant (price covers bids, bids rise per item) is proved only for serialized calls.
- NativeSocket.Step treats every transport event as coming from the current socket. After `connect` replaces a socket, the old one keeps its handlers attached, and its `onopen`, `onclose` and `onerror` still update the service. The model does not separate the two sockets.
- NativeSocket.NativeSocketService.OnMessage models a frame that fails to parse as `None`. A callback that throws is not modelled, since callbacks are opaque ids.

## Findings

| source | as written | input that shows it | evidently intended | confidence | as-written member | corrected member |
|---|---|---|---|---|---|---|
| backend/auction/src/main/java/org/buddhi/auction/service/ItemService.java:117-124 | the activation pass selects PENDING items with `findByStatusAndEndTimeBefore(PENDING, now)`, so a pending item is picked only after its end has passed, and the closing pass then closes it in the same run | an item created at t0 with end time t1 > t0: every run with now ≤ t1 leaves it PENDING, and the first run with now > t1 turns it CLOSED, so it never accepts a bid | activate PENDING items that have started and not yet ended (`findByStatusAndEndTimeAfter`, declared at ItemRepository.java:14) | not executed | ItemService.CreatedListingIsNeverBiddable | ItemService.CreatedListingOpensWhenIntended |
