/**
 * The backend's entities (Item.java, Bid.java, and the user they reference), as values.
 * Times are integers on one clock; money is an exact decimal (`real`), as BigDecimal is.
 */
module Domain {
  import opened Wrappers

  datatype Role = BIDDER | SELLER

  /** `Item.AuctionStatus`. */
  datatype AuctionStatus = PENDING | ACTIVE | CLOSED

  /** `Role.name()`. */
  function RoleName(r: Role): string
  {
    match r
    case BIDDER => "BIDDER"
    case SELLER => "SELLER"
  }

  datatype User = User(id: int, username: string, email: string, password: string, role: Role)

  /** What other entities see of a user through a `@ManyToOne` reference: its id and username. */
  datatype UserRef = UserRef(id: int, username: string)

  function RefOf(u: User): UserRef
  {
    UserRef(u.id, u.username)
  }

  /** An item row. `seller` and `winner` are nullable references in the Java object. */
  datatype Item = Item(
    id: int,
    name: string,
    description: string,
    startingPrice: real,
    currentPrice: real,
    imageUrl: Option<string>,
    startTime: int,
    endTime: int,
    status: AuctionStatus,
    seller: Option<UserRef>,
    winner: Option<UserRef>)

  /** What a bid sees of its item: its id and name. */
  datatype ItemRef = ItemRef(id: int, name: string)

  datatype Bid = Bid(id: int, item: Option<ItemRef>, bidder: Option<UserRef>, amount: real, timestamp: int)

  /** The bid belongs to the item with id `itemId`. */
  predicate OnItem(b: Bid, itemId: int)
  {
    b.item.Some? && b.item.value.id == itemId
  }

  /** The bid was placed by the user with id `userId`. */
  predicate ByBidder(b: Bid, userId: int)
  {
    b.bidder.Some? && b.bidder.value.id == userId
  }
}
