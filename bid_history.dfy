/**
 * The bid list beside the auction (BidHistory.jsx): the bids newest first, their age as a short
 * relative text, and the rank badges of the top three rows. Timestamps are milliseconds on the
 * browser's clock; `now` is a parameter.
 */
module BidHistory {
  import opened Wrappers
  import opened Sequences
  import opened BidResponses

  /** The relative age text: `Ns ago`, `Nm ago`, `Nh ago` or `Nd ago`. */
  datatype Ago = SecondsAgo(n: int) | MinutesAgo(n: int) | HoursAgo(n: int) | DaysAgo(n: int)

  /** `Math.floor((now - bidTime) / 1000)`; Dafny's division by a positive number is already the floor. */
  function ElapsedSeconds(nowMs: int, timestampMs: int): (s: int)
    ensures s * 1000 <= nowMs - timestampMs < (s + 1) * 1000
  {
    (nowMs - timestampMs) / 1000
  }

  /** `formatTimeAgo`: the first bucket whose bound the whole seconds stay under, counted in that unit. */
  function FormatTimeAgo(nowMs: int, timestampMs: int): (r: Ago)
    ensures var s := ElapsedSeconds(nowMs, timestampMs);
            && (s < 60 <==> r.SecondsAgo?)
            && (60 <= s < 3600 <==> r.MinutesAgo?)
            && (3600 <= s < 86400 <==> r.HoursAgo?)
            && (86400 <= s <==> r.DaysAgo?)
  {
    var s := ElapsedSeconds(nowMs, timestampMs);
    if s < 60 then SecondsAgo(s)
    else if s < 3600 then MinutesAgo(s / 60)
    else if s < 86400 then HoursAgo(s / 3600)
    else DaysAgo(s / 86400)
  }

  /** The seconds a bucket's unit stands for. */
  function UnitSeconds(a: Ago): int
  {
    match a
    case SecondsAgo(_) => 1
    case MinutesAgo(_) => 60
    case HoursAgo(_) => 3600
    case DaysAgo(_) => 86400
  }

  /**
   * The count is the whole number of units elapsed, rounded down, and is bounded by its bucket:
   * minutes 1 to 59, hours 1 to 23, days at least 1.
   */
  lemma AgoIsWholeUnits(nowMs: int, timestampMs: int)
    ensures var r := FormatTimeAgo(nowMs, timestampMs);
            var s := ElapsedSeconds(nowMs, timestampMs);
            && r.n * UnitSeconds(r) <= s < (r.n + 1) * UnitSeconds(r)
            && (r.MinutesAgo? ==> 1 <= r.n <= 59)
            && (r.HoursAgo? ==> 1 <= r.n <= 23)
            && (r.DaysAgo? ==> 1 <= r.n)
  {
  }

  /** A timestamp ahead of the browser's clock shows a negative count of seconds. */
  lemma FutureBidShowsNegativeSeconds(nowMs: int, timestampMs: int)
    requires timestampMs > nowMs
    ensures FormatTimeAgo(nowMs, timestampMs).SecondsAgo? && FormatTimeAgo(nowMs, timestampMs).n < 0
  {
  }

  /** The bucket edges: 59 s, 60 s, 3599 s, 3600 s, 86399 s and 86400 s. */
  lemma AgoBoundaries(nowMs: int)
    ensures FormatTimeAgo(nowMs, nowMs - 59999) == SecondsAgo(59)
    ensures FormatTimeAgo(nowMs, nowMs - 60000) == MinutesAgo(1)
    ensures FormatTimeAgo(nowMs, nowMs - 3599999) == MinutesAgo(59)
    ensures FormatTimeAgo(nowMs, nowMs - 3600000) == HoursAgo(1)
    ensures FormatTimeAgo(nowMs, nowMs - 86399999) == HoursAgo(23)
    ensures FormatTimeAgo(nowMs, nowMs - 86400000) == DaysAgo(1)
  {
  }

  datatype Rank = Leading | SecondPlace | ThirdPlace

  /** `getBidderRank`: the badge of the row at `index` in a list of `total` bids. */
  function BidderRank(index: int, total: int): (r: Option<Rank>)
    ensures r == Some(Leading) <==> index == 0
    ensures r == Some(SecondPlace) <==> index == 1 && total > 1
    ensures r == Some(ThirdPlace) <==> index == 2 && total > 2
  {
    if index == 0 then Some(Leading)
    else if index == 1 && total > 1 then Some(SecondPlace)
    else if index == 2 && total > 2 then Some(ThirdPlace)
    else None
  }

  /** For the rows actually listed, exactly the first three carry a badge. */
  lemma ListedRowsRankedTopThree(index: int, total: int)
    requires 0 <= index < total
    ensures BidderRank(index, total).Some? <==> index < 3
  {
  }

  function BidTime(b: BidResponse): int
  {
    b.timestamp
  }

  /** The bid marked Leading is the most recent one, not necessarily the highest. */
  lemma LeadingIsNewest(bids: seq<BidResponse>, b: BidResponse)
    requires b in bids
    ensures |NewestFirst(bids, BidTime)| > 0
    ensures BidderRank(0, |NewestFirst(bids, BidTime)|) == Some(Leading)
    ensures NewestFirst(bids, BidTime)[0].timestamp >= b.timestamp
  {
    SortHeadIsMaximal(bids, StampKey(BidTime), b);
  }

  /** An older but higher bid is listed below a newer, lower one. */
  lemma LeadingNeedNotBeHighest()
    ensures var older := BidResponse(1, None, None, None, None, 20.0, 1000);
            var newer := BidResponse(2, None, None, None, None, 10.0, 2000);
            NewestFirst([older, newer], BidTime)[0] == newer
  {
    var older := BidResponse(1, None, None, None, None, 20.0, 1000);
    var newer := BidResponse(2, None, None, None, None, 10.0, 2000);
    var r := NewestFirst([older, newer], BidTime);
    assert multiset(r) == multiset{older, newer};
    assert |r| == 2;
    assert r[0] in multiset(r) && r[1] in multiset(r);
  }
}
