/**
 * The auction list on the home page (Home.jsx): the search and status filters, the sort the user
 * picks, and the three counters above the list. Each item is the card the page reads from
 * `getAllItems`; `bidsLength` stands for `item.bids?.length`.
 */
module Home {
  import opened Wrappers
  import opened Sequences
  import opened Text

  datatype Card = Card(name: string, description: string, status: string, currentPrice: real,
                       endTime: int, bidCount: Option<int>, bidsLength: Option<nat>)

  /** The sort select: 'price', 'bids', 'endTime', or any other value, which keeps the order. */
  datatype SortBy = ByPrice | ByBids | ByEndTime | Unsorted

  const AllStatuses := "ALL"
  const HotThreshold := 5

  /** `item.bidCount || item.bids?.length || 0`: zero and absent both fall through. */
  function Activity(c: Card): (n: int)
    ensures c.bidCount.Some? && c.bidCount.value != 0 ==> n == c.bidCount.value
    ensures (c.bidCount.None? || c.bidCount.value == 0) ==> n == (if c.bidsLength.Some? then c.bidsLength.value else 0)
  {
    if c.bidCount.Some? && c.bidCount.value != 0 then c.bidCount.value
    else if c.bidsLength.Some? && c.bidsLength.value != 0 then c.bidsLength.value
    else 0
  }

  /** The search test: the lower-cased name or description contains the lower-cased term. */
  predicate MatchesTerm(c: Card, term: string)
  {
    Contains(ToLower(c.name), ToLower(term)) || Contains(ToLower(c.description), ToLower(term))
  }

  predicate MatchesStatus(c: Card, status: string)
  {
    c.status == status
  }

  /** The status test `item => item.status === status`. */
  function HasStatus(status: string): Card -> bool
  {
    c => MatchesStatus(c, status)
  }

  /** The two filters, each applied only when set. */
  function Filtered(cards: seq<Card>, term: string, status: string): (r: seq<Card>)
    ensures forall c :: c in r <==> c in cards && (term == "" || MatchesTerm(c, term))
                                    && (status == AllStatuses || MatchesStatus(c, status))
    ensures term == "" && status == AllStatuses ==> r == cards
    ensures multiset(r) <= multiset(cards)
    ensures IsSubsequence(r, cards)
  {
    var searched := if term == "" then cards else Filter(cards, c => MatchesTerm(c, term));
    assert forall c :: c in searched <==> c in cards && (term == "" || MatchesTerm(c, term));
    SubsequenceOfSelf(cards);
    FilterIsSubsequence(cards, c => MatchesTerm(c, term));
    var r := if status == AllStatuses then searched else Filter(searched, HasStatus(status));
    assert forall c :: HasStatus(status)(c) == MatchesStatus(c, status);
    assert forall c :: c in r <==> c in searched && (status == AllStatuses || MatchesStatus(c, status));
    FilterOfSubsequence(searched, cards, HasStatus(status));
    r
  }

  /**
   * The comparator as a key sorted high to low: price descending, activity descending, end time
   * ascending; any other choice compares everything equal.
   */
  function SortKey(sortBy: SortBy): Card -> real
  {
    match sortBy
    case ByPrice => (c: Card) => c.currentPrice
    case ByBids => (c: Card) => Activity(c) as real
    case ByEndTime => (c: Card) => -(c.endTime as real)
    case Unsorted => (c: Card) => 0.0
  }

  /** What the page lists: the filtered cards in the chosen order. */
  function Arrange(cards: seq<Card>, term: string, status: string, sortBy: SortBy): (r: seq<Card>)
    ensures multiset(r) == multiset(Filtered(cards, term, status))
    ensures |r| == |Filtered(cards, term, status)|
    ensures forall i, j :: 0 <= i < j < |r| ==> SortKey(sortBy)(r[i]) >= SortKey(sortBy)(r[j])
  {
    var r := SortDesc(Filtered(cards, term, status), SortKey(sortBy));
    assert SortedDesc(r, SortKey(sortBy));
    r
  }

  /** A card is listed exactly when it passes both filters that are set. */
  lemma ListedIffMatches(cards: seq<Card>, term: string, status: string, sortBy: SortBy, c: Card)
    ensures c in Arrange(cards, term, status, sortBy) <==>
            c in cards && (term == "" || MatchesTerm(c, term)) && (status == AllStatuses || MatchesStatus(c, status))
  {
    assert c in Arrange(cards, term, status, sortBy) <==> c in multiset(Arrange(cards, term, status, sortBy));
  }

  /** Sorting by price lists the highest current price first. */
  lemma SortsByPrice(cards: seq<Card>, term: string, status: string)
    ensures var r := Arrange(cards, term, status, ByPrice);
            forall i, j :: 0 <= i < j < |r| ==> r[i].currentPrice >= r[j].currentPrice
  {
  }

  /** Sorting by bids lists the most active card first. */
  lemma SortsByBids(cards: seq<Card>, term: string, status: string)
    ensures var r := Arrange(cards, term, status, ByBids);
            forall i, j :: 0 <= i < j < |r| ==> Activity(r[i]) >= Activity(r[j])
  {
  }

  /** Sorting by end time lists the auction that ends soonest first. */
  lemma SortsByEndTime(cards: seq<Card>, term: string, status: string)
    ensures var r := Arrange(cards, term, status, ByEndTime);
            forall i, j :: 0 <= i < j < |r| ==> r[i].endTime <= r[j].endTime
  {
  }

  /** Cards that compare equal under the chosen sort stay in the order the filters left them. */
  lemma ArrangeIsStable(cards: seq<Card>, term: string, status: string, sortBy: SortBy, k: real)
    ensures Filter(Arrange(cards, term, status, sortBy), KeyIs(SortKey(sortBy), k))
            == Filter(Filtered(cards, term, status), KeyIs(SortKey(sortBy), k))
  {
    SortIsStable(Filtered(cards, term, status), SortKey(sortBy), k);
  }

  /** With no recognised sort the filtered cards keep the order they came in. */
  lemma UnsortedKeepsOrder(cards: seq<Card>, term: string, status: string)
    ensures Arrange(cards, term, status, Unsorted) == Filtered(cards, term, status)
  {
    SortConstantKeyIsIdentity(Filtered(cards, term, status), SortKey(Unsorted));
  }

  /** The search does not depend on the letter case of the term. */
  lemma SearchIgnoresTermCase(c: Card, term: string)
    ensures MatchesTerm(c, ToLower(term)) == MatchesTerm(c, term)
  {
    LowerIsIdempotent(term);
  }

  /**
   * The filter-and-sort effect. With neither filter set, `filtered` is the `items` array itself
   * and the sort reorders it in place; otherwise the filters build a new array and `items` keeps
   * its order.
   */
  method FilterAndSort(items: array<Card>, term: string, status: string, sortBy: SortBy) returns (filtered: array<Card>)
    modifies items
    ensures filtered[..] == Arrange(old(items[..]), term, status, sortBy)
    ensures term == "" && status == AllStatuses ==> filtered == items
    ensures !(term == "" && status == AllStatuses) ==> fresh(filtered) && items[..] == old(items[..])
  {
    if term == "" && status == AllStatuses {
      filtered := items;
    } else {
      var kept := Filtered(items[..], term, status);
      filtered := new Card[|kept|](i requires 0 <= i < |kept| => kept[i]);
    }
    assert filtered[..] == Filtered(old(items[..]), term, status);
    var sorted := SortDesc(filtered[..], SortKey(sortBy));
    Overwrite(filtered, sorted);
  }

  /** Writes `s` over the array's elements, front to back, as the in-place sort leaves them. */
  method Overwrite(a: array<Card>, s: seq<Card>)
    requires a.Length == |s|
    modifies a
    ensures a[..] == s
  {
    var i := 0;
    while i < a.Length
      invariant 0 <= i <= a.Length
      invariant a[..i] == s[..i]
    {
      a[i] := s[i];
      i := i + 1;
    }
  }

  /** `activeAuctions`: the cards whose status is ACTIVE. */
  function ActiveAuctions(cards: seq<Card>): (n: nat)
    ensures n <= |cards|
    ensures n == 0 <==> forall c :: c in cards ==> c.status != "ACTIVE"
  {
    var active := Filter(cards, HasStatus("ACTIVE"));
    assert active != [] ==> active[0] in active;
    |active|
  }

  /** The counter is the length of the list shown with the status filter set to ACTIVE and no search. */
  lemma ActiveAuctionsIsActiveListing(cards: seq<Card>, sortBy: SortBy)
    ensures ActiveAuctions(cards) == |Arrange(cards, "", "ACTIVE", sortBy)|
  {
    assert "ACTIVE" != AllStatuses by {
      assert "ACTIVE"[1] != AllStatuses[1];
    }
    assert Filtered(cards, "", "ACTIVE") == Filter(cards, HasStatus("ACTIVE"));
  }

  /** Each ACTIVE card adds one to the counter and any other card adds nothing. */
  lemma ActiveAuctionsOfCons(c: Card, cards: seq<Card>)
    ensures ActiveAuctions([c] + cards) == ActiveAuctions(cards) + (if c.status == "ACTIVE" then 1 else 0)
  {
    FilterCountOfCons(c, cards, HasStatus("ACTIVE"));
  }

  /** `totalBids`: the activity of every card, added up. */
  function TotalBids(cards: seq<Card>): int
  {
    if cards == [] then 0 else Activity(cards[0]) + TotalBids(cards[1..])
  }

  /** `hotAuctions`: the cards with more than five bids. */
  function HotAuctions(cards: seq<Card>): int
  {
    |Filter(cards, c => Activity(c) > HotThreshold)|
  }

  /**
   * With bid counts that are never negative, every hot auction contributes at least six bids, so
   * the total is at least six times the number of hot auctions.
   */
  lemma {:induction false} HotAuctionsBoundTotal(cards: seq<Card>)
    requires forall c :: c in cards ==> c.bidCount.None? || c.bidCount.value >= 0
    ensures 0 <= (HotThreshold + 1) * HotAuctions(cards) <= TotalBids(cards)
    decreases cards
  {
    if cards != [] {
      HotAuctionsBoundTotal(cards[1..]);
      assert HotAuctions(cards) == HotAuctions(cards[1..]) + (if Activity(cards[0]) > HotThreshold then 1 else 0);
    }
  }
}
