/**
 * The records of the auction marketplace store: accounts (users), auctions
 * and bids, the read-only projections the services hand back, and the
 * error outcomes the services raise.
 */
module Records {

  datatype Option<+T> = None | Some(value: T)

  /**
   * One column of an update body: `Keep` is a column the body leaves
   * undefined, which the store skips; `Set(v)` writes `v` (for a nullable
   * column `v` may be `None`, an explicit null).
   */
  datatype Field<+T> = Keep | Set(value: T) {
    function Apply(current: T): T {
      match this
      case Set(v) => v
      case Keep => current
    }
  }

  /** The failure conditions the two services can end in. */
  datatype Error =
    | Unauthorized     // UnauthorizedException
    | BadRequest       // BadRequestException
    | PlainError       // a plain `Error` (401/500 is decided by the HTTP layer)
    | RecordNotFound   // the store refuses to update or delete a row that is not there
    | UniqueViolation  // the store refuses a second row with the same unique email

  datatype Result<+T> = Ok(value: T) | Err(error: Error)

  type UserId = string
  type AuctionId = int
  /** Instants are milliseconds since the epoch. */
  type Time = int

  /** A stored auction; `currentPrice` is null until the first bid. */
  datatype Auction = Auction(
    id: AuctionId,
    title: string,
    description: string,
    startPrice: int,
    currentPrice: Option<int>,
    startTime: Option<Time>,
    endTime: Time,
    imageUrl: Option<string>,
    userId: UserId,
    createdAt: Time,
    updatedAt: Time)

  /** An auction as shown to one requesting user: the auction and whether that user has bid on it. */
  datatype AuctionWithUserBid = AuctionWithUserBid(auction: Auction, userHasBid: bool)

  /** One bid of one user on one auction. */
  datatype Bid = Bid(userId: UserId, auctionId: AuctionId, amount: int)

  /** An ended auction as the won list shows it: the auction and its one highest bid (`bids: [top]`). */
  datatype AuctionWithTopBid = AuctionWithTopBid(auction: Auction, topBid: Bid)

  /** A stored account. */
  datatype User = User(
    id: UserId,
    email: string,
    firstName: Option<string>,
    lastName: Option<string>,
    avatar: Option<string>,
    password: string,
    createdAt: Time,
    updatedAt: Time)

  /** The public view of an account returned by getUser and getMe: every column but the password. */
  datatype UserView = UserView(
    id: UserId,
    firstName: Option<string>,
    lastName: Option<string>,
    avatar: Option<string>,
    email: string,
    createdAt: Time,
    updatedAt: Time)

  /** What updateUser returns: neither id, updatedAt nor password. */
  datatype UpdatedUserView = UpdatedUserView(
    firstName: Option<string>,
    lastName: Option<string>,
    avatar: Option<string>,
    email: string,
    createdAt: Time)
}
