/**
 * The statistics on the profile page (Profile.jsx): the user's bids newest first, the counts
 * derived from them, the badge, the win rate and the achievement tiles.
 */
module Profile {
  import opened Wrappers
  import opened Sequences
  import opened BidResponses

  /** What the page reads through `bid.item`: its status and the id of its winner, if any. */
  datatype ItemView = ItemView(status: string, winnerId: Option<int>)

  /** A bid as the page reads it; `item` is absent when the record has no nested item. */
  datatype ProfileBid = ProfileBid(amount: real, timestamp: int, item: Option<ItemView>)

  /** `bid.item?.winner?.id`: absent as soon as one link is missing. */
  function WinnerIdOf(b: ProfileBid): Option<int>
  {
    if b.item.Some? then b.item.value.winnerId else None
  }

  /** `bid.item?.winner?.id === user?.id`: two absent ids compare equal. */
  predicate Won(b: ProfileBid, userId: Option<int>)
  {
    WinnerIdOf(b) == userId
  }

  predicate OnActiveItem(b: ProfileBid)
  {
    b.item.Some? && b.item.value.status == "ACTIVE"
  }

  function BidTime(b: ProfileBid): int
  {
    b.timestamp
  }

  /** `totalBids`, `wonAuctions` and `activeBids`. */
  datatype Stats = Stats(totalBids: nat, wonAuctions: nat, activeBids: nat)

  function StatsOf(bids: seq<ProfileBid>, userId: Option<int>): (r: Stats)
    ensures r.totalBids == |bids|
    ensures r.wonAuctions <= r.totalBids && r.activeBids <= r.totalBids
    ensures r.wonAuctions == 0 <==> forall b :: b in bids ==> !Won(b, userId)
    ensures r.activeBids == 0 <==> forall b :: b in bids ==> !OnActiveItem(b)
  {
    var won := Filter(bids, b => Won(b, userId));
    var active := Filter(bids, b => OnActiveItem(b));
    FilterEmptyIff(bids, b => Won(b, userId));
    FilterEmptyIff(bids, b => OnActiveItem(b));
    Stats(|bids|, |won|, |active|)
  }

  /**
   * Adding one bid adds one to the total, one to the won count exactly when the user won it, and
   * one to the active count exactly when its item is active.
   */
  lemma StatsOfAppend(bids: seq<ProfileBid>, b: ProfileBid, userId: Option<int>)
    ensures StatsOf(bids + [b], userId).totalBids == StatsOf(bids, userId).totalBids + 1
    ensures StatsOf(bids + [b], userId).wonAuctions
            == StatsOf(bids, userId).wonAuctions + (if Won(b, userId) then 1 else 0)
    ensures StatsOf(bids + [b], userId).activeBids
            == StatsOf(bids, userId).activeBids + (if OnActiveItem(b) then 1 else 0)
  {
    FilterCountOfSnoc(bids, b, b => Won(b, userId));
    FilterCountOfSnoc(bids, b, b => OnActiveItem(b));
  }

  /** The counts are the same before and after the newest-first sort. */
  lemma StatsIgnoreOrder(bids: seq<ProfileBid>, userId: Option<int>)
    ensures StatsOf(NewestFirst(bids, BidTime), userId) == StatsOf(bids, userId)
  {
    FilterCountOfSort(bids, StampKey(BidTime), b => Won(b, userId));
    FilterCountOfSort(bids, StampKey(BidTime), b => OnActiveItem(b));
  }

  /**
   * The list comes from `/bids/my-bids`, whose records are flat: they carry `itemId` and
   * `itemName` but no nested `item`. So no bid counts as active, and every bid counts as won
   * exactly when the user's id is absent.
   */
  function FromResponse(r: BidResponse): ProfileBid
  {
    ProfileBid(r.amount, r.timestamp, None)
  }

  /** The fetched list, record by record. */
  function FromResponses(responses: seq<BidResponse>): (r: seq<ProfileBid>)
    ensures |r| == |responses|
    ensures forall i :: 0 <= i < |r| ==> r[i] == FromResponse(responses[i])
  {
    if responses == [] then [] else [FromResponse(responses[0])] + FromResponses(responses[1..])
  }

  lemma FlatRecordsCountNothing(responses: seq<BidResponse>, userId: Option<int>)
    ensures StatsOf(FromResponses(responses), userId).activeBids == 0
    ensures StatsOf(FromResponses(responses), userId).wonAuctions == (if userId.None? then |responses| else 0)
  {
    var bids := FromResponses(responses);
    assert forall b :: b in bids ==> b.item.None?;
    if userId.None? {
      FilterAllPass(bids, b => Won(b, userId));
    }
  }

  /** `winRate`: the share of won bids in percent, zero when there are no bids (before `toFixed`). */
  function WinRate(s: Stats): (r: real)
    requires s.wonAuctions <= s.totalBids
    ensures 0.0 <= r <= 100.0
    ensures s.totalBids == 0 ==> r == 0.0
    ensures s.totalBids > 0 ==> r * (s.totalBids as real) == (s.wonAuctions as real) * 100.0
  {
    if s.totalBids > 0 then (s.wonAuctions as real) / (s.totalBids as real) * 100.0 else 0.0
  }

  /** `totalSpent`: the amounts added up. */
  function TotalSpent(bids: seq<ProfileBid>): real
  {
    if bids == [] then 0.0 else bids[0].amount + TotalSpent(bids[1..])
  }

  /** `avgBidAmount`: the mean amount, zero when there are no bids (before `toFixed`). */
  function AverageBid(bids: seq<ProfileBid>): (r: real)
    ensures bids == [] ==> r == 0.0
    ensures bids != [] ==> r * (|bids| as real) == TotalSpent(bids)
  {
    if |bids| > 0 then TotalSpent(bids) / (|bids| as real) else 0.0
  }

  datatype Badge = Newcomer | Bronze | Silver | Gold | Diamond

  /** `getBadgeLevel`: wins decide first, and only without two wins do five bids earn Bronze. */
  function BadgeOf(s: Stats): (b: Badge)
    ensures b == Diamond <==> s.wonAuctions >= 10
    ensures b == Gold <==> 5 <= s.wonAuctions < 10
    ensures b == Silver <==> 2 <= s.wonAuctions < 5
    ensures b == Bronze <==> s.wonAuctions < 2 && s.totalBids >= 5
    ensures b == Newcomer <==> s.wonAuctions < 2 && s.totalBids < 5
  {
    if s.wonAuctions >= 10 then Diamond
    else if s.wonAuctions >= 5 then Gold
    else if s.wonAuctions >= 2 then Silver
    else if s.totalBids >= 5 then Bronze
    else Newcomer
  }

  function BadgeRank(b: Badge): nat
  {
    match b
    case Newcomer => 0
    case Bronze => 1
    case Silver => 2
    case Gold => 3
    case Diamond => 4
  }

  /** More wins or more bids never lower the badge. */
  lemma BadgeIsMonotone(s: Stats, t: Stats)
    requires s.wonAuctions <= t.wonAuctions && s.totalBids <= t.totalBids
    ensures BadgeRank(BadgeOf(s)) <= BadgeRank(BadgeOf(t))
  {
  }

  /** The five achievement tiles: first bid, first win, ten bids, five wins, and big spender
      (`totalSpent`, passed in as `spent`, at least 1000). */
  datatype Achievements = Achievements(firstBid: bool, firstWin: bool, tenBids: bool, fiveWins: bool, bigSpender: bool)

  function AchievementsOf(s: Stats, spent: real): (a: Achievements)
    ensures a.firstBid <==> s.totalBids >= 1
    ensures a.firstWin <==> s.wonAuctions >= 1
    ensures a.tenBids <==> s.totalBids >= 10
    ensures a.fiveWins <==> s.wonAuctions >= 5
    ensures a.bigSpender <==> spent >= 1000.0
  {
    Achievements(s.totalBids >= 1, s.wonAuctions >= 1, s.totalBids >= 10, s.wonAuctions >= 5, spent >= 1000.0)
  }

  /** The tiles agree with the badge: five wins means Gold or better, and a win implies a bid. */
  lemma AchievementsMatchBadge(bids: seq<ProfileBid>, userId: Option<int>)
    ensures var s := StatsOf(bids, userId);
            var a := AchievementsOf(s, TotalSpent(bids));
            && (a.fiveWins <==> BadgeRank(BadgeOf(s)) >= BadgeRank(Gold))
            && (a.firstWin ==> a.firstBid)
            && (a.tenBids ==> a.firstBid)
  {
  }
}
