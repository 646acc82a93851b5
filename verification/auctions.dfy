/**
 * The auction service. The auction table is a sequence of rows in table
 * order (the order the store returns rows in when a query has no
 * `orderBy`); bids and users are tables this service only reads, so they
 * are parameters. The query methods are functions of the tables and of the
 * instant `now` at which the query reads the clock; create, update and
 * delete are methods of `AuctionTable`, which owns the auction rows.
 */
module Auctions {
  import opened Records
  import opened Ordering
  import opened Users

  /** The columns of a creation request (the starting price already a number). */
  datatype NewAuction = NewAuction(
    title: string,
    description: string,
    startPrice: int,
    startTime: Option<Time>,
    endTime: Time)

  /** The columns of an update request. */
  datatype AuctionPatch = AuctionPatch(
    title: Field<string>,
    description: Field<string>,
    startPrice: Field<int>,
    startTime: Field<Option<Time>>,
    endTime: Field<Time>,
    imageUrl: Field<Option<string>>)

  /** An auction is active while its end time is strictly after `now`. */
  predicate IsActive(a: Auction, now: Time) {
    a.endTime > now
  }

  /** The user has placed at least one bid on the auction. */
  predicate HasBid(bids: seq<Bid>, userId: UserId, auctionId: AuctionId) {
    exists b | b in bids :: b.userId == userId && b.auctionId == auctionId
  }

  ghost predicate IdsUnique(auctions: seq<Auction>) {
    forall j, k | 0 <= j < k < |auctions| :: auctions[j].id != auctions[k].id
  }

  /** The requester (by email) exists and is the owner of the auction with that id. */
  ghost predicate RequesterOwns(users: map<UserId, User>, auctions: seq<Auction>, email: string, id: AuctionId) {
    exists u, k | u in users && 0 <= k < |auctions| ::
      users[u].email == email && auctions[k].id == id && auctions[k].userId == u
  }

  /** The auction ids of the user's bids, one per bid, in bid-table order. */
  function UserBidAuctionIds(bids: seq<Bid>, userId: UserId): (ids: seq<AuctionId>)
    ensures forall id :: id in ids <==> HasBid(bids, userId, id)
  {
    if bids == [] then []
    else
      var rest := UserBidAuctionIds(bids[1..], userId);
      assert forall b | b in bids :: b == bids[0] || b in bids[1..];
      if bids[0].userId == userId then [bids[0].auctionId] + rest else rest
  }

  /** The auctions of a list of flagged results, without the flags. */
  function Unflagged(r: seq<AuctionWithUserBid>): seq<Auction> {
    seq(|r|, k requires 0 <= k < |r| => r[k].auction)
  }

  /**
   * The user's bid auction ids, then `auctions.map(...)`: each row, in place,
   * with a flag saying whether the user has bid on it.
   */
  function FlagBids(auctions: seq<Auction>, bids: seq<Bid>, userId: UserId): (r: seq<AuctionWithUserBid>)
    ensures Unflagged(r) == auctions
    ensures forall k | 0 <= k < |r| :: r[k].userHasBid <==> HasBid(bids, userId, r[k].auction.id)
  {
    var ids := UserBidAuctionIds(bids, userId);
    seq(|auctions|, k requires 0 <= k < |auctions| => AuctionWithUserBid(auctions[k], auctions[k].id in ids))
  }

  /** The position of the row with that id, or -1 when there is none. */
  function IndexOfId(auctions: seq<Auction>, id: AuctionId): (k: int)
    ensures -1 <= k < |auctions|
    ensures k >= 0 ==> auctions[k].id == id
    ensures k < 0 ==> forall j | 0 <= j < |auctions| :: auctions[j].id != id
  {
    if auctions == [] then -1
    else if auctions[0].id == id then 0
    else
      var k := IndexOfId(auctions[1..], id);
      if k < 0 then -1 else k + 1
  }

  /** findAuctionById: the row with that id, if any; no ownership check. */
  function FindAuctionById(auctions: seq<Auction>, id: AuctionId): (r: Option<Auction>)
    ensures r.Some? <==> exists k | 0 <= k < |auctions| :: auctions[k].id == id
    ensures r.Some? ==> r.value in auctions && r.value.id == id
  {
    var k := IndexOfId(auctions, id);
    if k < 0 then None else Some(auctions[k])
  }

  /** findAllAuctionsByUser: the rows the user owns, whatever their end time, in table order. */
  function FindAllAuctionsByUser(auctions: seq<Auction>, userId: UserId): (r: seq<Auction>)
    ensures forall a :: multiset(r)[a] == if a.userId == userId then multiset(auctions)[a] else 0
  {
    Filter(auctions, (a: Auction) => a.userId == userId)
  }

  /**
   * findAllAuctions: the active rows, ascending by end time, each flagged
   * with whether the requester has bid on it. Fails with a plain error when
   * no user has that email.
   */
  function FindAllAuctions(auctions: seq<Auction>, bids: seq<Bid>, users: map<UserId, User>, email: string, now: Time)
    : (r: Result<seq<AuctionWithUserBid>>)
    requires WellFormed(users)
    ensures r.Err? <==> !exists i | i in users :: users[i].email == email
    ensures r.Err? ==> r.error == PlainError
    ensures r.Ok? ==>
      var s := Unflagged(r.value);
      && SortedByEndTime(s)
      && (forall a :: multiset(s)[a] == if IsActive(a, now) then multiset(auctions)[a] else 0)
      && (forall a :: a in s <==> a in auctions && IsActive(a, now))
    ensures r.Ok? ==>
      var user := ByEmail(users, email).value;
      forall k | 0 <= k < |r.value| :: r.value[k].userHasBid <==> HasBid(bids, user.id, r.value[k].auction.id)
  {
    var active := SortByEndTime(Filter(auctions, (a: Auction) => IsActive(a, now)));
    match ByEmail(users, email)
    case None => Err(PlainError)
    case Some(user) =>
      Ok(FlagBids(active, bids, user.id))
  }

  /**
   * findAuctionsCreatedByUser: the owner's active rows ascending by end
   * time, then the owner's expired rows ascending by end time, both judged
   * against one `now`. Fails with Unauthorized for an unknown email.
   */
  function FindAuctionsCreatedByUser(auctions: seq<Auction>, users: map<UserId, User>, email: string, now: Time)
    : (r: Result<seq<Auction>>)
    requires WellFormed(users)
    ensures r.Err? <==> !exists i | i in users :: users[i].email == email
    ensures r.Err? ==> r.error == Unauthorized
    ensures r.Ok? ==>
      var owner := ByEmail(users, email).value.id;
      forall a :: multiset(r.value)[a] == if a.userId == owner then multiset(auctions)[a] else 0
    ensures r.Ok? ==> forall j, k | 0 <= j < k < |r.value| :: IsActive(r.value[k], now) ==> IsActive(r.value[j], now)
    ensures r.Ok? ==> forall j, k | 0 <= j < k < |r.value| ::
      IsActive(r.value[j], now) == IsActive(r.value[k], now) ==> r.value[j].endTime <= r.value[k].endTime
  {
    match ByEmail(users, email)
    case None => Err(Unauthorized)
    case Some(user) =>
      var active := SortByEndTime(Filter(auctions, (a: Auction) => a.userId == user.id && IsActive(a, now)));
      var expired := SortByEndTime(Filter(auctions, (a: Auction) => a.userId == user.id && !IsActive(a, now)));
      ActiveThenExpired(active, expired, now);
      Ok(active + expired)
  }

  /** Two sorted groups, all active then all expired, concatenate into a list with the order findAuctionsCreatedByUser promises. */
  lemma ActiveThenExpired(active: seq<Auction>, expired: seq<Auction>, now: Time)
    requires SortedByEndTime(active) && SortedByEndTime(expired)
    requires forall a :: multiset(active)[a] > 0 ==> IsActive(a, now)
    requires forall a :: multiset(expired)[a] > 0 ==> !IsActive(a, now)
    ensures var r := active + expired;
      && multiset(r) == multiset(active) + multiset(expired)
      && (forall j, k | 0 <= j < k < |r| :: IsActive(r[k], now) ==> IsActive(r[j], now))
      && (forall j, k | 0 <= j < k < |r| :: IsActive(r[j], now) == IsActive(r[k], now) ==> r[j].endTime <= r[k].endTime)
  {
  }

  /**
   * findBiddingAuctionsByUser: the active rows on which the user has bid,
   * in table order. Fails with Unauthorized for an unknown email.
   */
  function FindBiddingAuctionsByUser(auctions: seq<Auction>, bids: seq<Bid>, users: map<UserId, User>, email: string, now: Time)
    : (r: Result<seq<Auction>>)
    requires WellFormed(users)
    ensures r.Err? <==> !exists i | i in users :: users[i].email == email
    ensures r.Err? ==> r.error == Unauthorized
    ensures r.Ok? ==>
      var user := ByEmail(users, email).value;
      && (forall a :: multiset(r.value)[a] == if IsActive(a, now) && HasBid(bids, user.id, a.id) then multiset(auctions)[a] else 0)
      && (forall a :: a in r.value <==> a in auctions && IsActive(a, now) && HasBid(bids, user.id, a.id))
  {
    match ByEmail(users, email)
    case None => Err(Unauthorized)
    case Some(user) => Ok(Filter(auctions, (a: Auction) => IsActive(a, now) && HasBid(bids, user.id, a.id)))
  }

  /**
   * The bid the store returns for `bids: { orderBy: { amount: 'desc' }, take: 1 }`:
   * a bid of the highest amount on the auction, if it has any. Among equal
   * highest amounts this model takes the first in bid-table order.
   */
  function TopBid(bids: seq<Bid>, auctionId: AuctionId): (r: Option<Bid>)
    ensures r.Some? <==> exists b | b in bids :: b.auctionId == auctionId
    ensures r.Some? ==> r.value in bids && r.value.auctionId == auctionId
    ensures r.Some? ==> forall b | b in bids && b.auctionId == auctionId :: b.amount <= r.value.amount
  {
    if bids == [] then None
    else
      assert forall b | b in bids :: b == bids[0] || b in bids[1..];
      var rest := TopBid(bids[1..], auctionId);
      if bids[0].auctionId != auctionId then rest
      else if rest.Some? && rest.value.amount > bids[0].amount then rest
      else Some(bids[0])
  }

  /** The auction's top bid exists and is the user's. */
  predicate TopBidIsUsers(bids: seq<Bid>, userId: UserId, auctionId: AuctionId) {
    var top := TopBid(bids, auctionId);
    top.Some? && top.value.userId == userId
  }

  /** The user has a bid on the auction that every other user's bid on it is below. */
  ghost predicate OutbidsEveryone(bids: seq<Bid>, userId: UserId, auctionId: AuctionId) {
    exists b | b in bids && b.userId == userId && b.auctionId == auctionId ::
      forall c | c in bids && c.auctionId == auctionId && c.userId != userId :: c.amount < b.amount
  }

  /** A user who outbids every other bidder on an auction holds its top bid. */
  lemma OutbidderHoldsTopBid(bids: seq<Bid>, userId: UserId, auctionId: AuctionId)
    requires OutbidsEveryone(bids, userId, auctionId)
    ensures TopBidIsUsers(bids, userId, auctionId)
  {
    var b :| b in bids && b.userId == userId && b.auctionId == auctionId &&
      forall c | c in bids && c.auctionId == auctionId && c.userId != userId :: c.amount < b.amount;
    assert b.amount <= TopBid(bids, auctionId).value.amount;
  }

  /** The auctions of a won list, without their top bids. */
  function WithoutTopBids(r: seq<AuctionWithTopBid>): seq<Auction> {
    seq(|r|, k requires 0 <= k < |r| => r[k].auction)
  }

  /** Each auction, in place, with its top bid attached; every one of them has a top bid and it is the user's. */
  function WithTopBids(won: seq<Auction>, bids: seq<Bid>, userId: UserId): (r: seq<AuctionWithTopBid>)
    requires forall a | a in won :: TopBidIsUsers(bids, userId, a.id)
    ensures WithoutTopBids(r) == won
    ensures forall k | 0 <= k < |r| ::
      && r[k].topBid in bids
      && r[k].topBid.auctionId == r[k].auction.id
      && r[k].topBid.userId == userId
      && forall c | c in bids && c.auctionId == r[k].auction.id :: c.amount <= r[k].topBid.amount
  {
    assert forall k | 0 <= k < |won| :: TopBidIsUsers(bids, userId, won[k].id);
    seq(|won|, k requires 0 <= k < |won| => AuctionWithTopBid(won[k], TopBid(bids, won[k].id).value))
  }

  /**
   * findWonAuctionsByUser: the rows that ended strictly before `now` whose
   * highest bid is the user's, each with that bid attached. Fails with
   * Unauthorized for an unknown email.
   */
  function FindWonAuctionsByUser(auctions: seq<Auction>, bids: seq<Bid>, users: map<UserId, User>, email: string, now: Time)
    : (r: Result<seq<AuctionWithTopBid>>)
    requires WellFormed(users)
    ensures r.Err? <==> !exists i | i in users :: users[i].email == email
    ensures r.Err? ==> r.error == Unauthorized
    ensures r.Ok? ==> forall a | a in WithoutTopBids(r.value) :: a in auctions && a.endTime < now
    ensures r.Ok? ==>
      var user := ByEmail(users, email).value;
      forall k | 0 <= k < |r.value| ::
        && r.value[k].topBid in bids
        && r.value[k].topBid.auctionId == r.value[k].auction.id
        && r.value[k].topBid.userId == user.id
        && forall c | c in bids && c.auctionId == r.value[k].auction.id :: c.amount <= r.value[k].topBid.amount
    ensures r.Ok? ==>
      var user := ByEmail(users, email).value;
      forall a | a in auctions && a.endTime < now && OutbidsEveryone(bids, user.id, a.id) :: a in WithoutTopBids(r.value)
    ensures r.Ok? ==>
      var s := WithoutTopBids(r.value);
      forall a :: multiset(s)[a] == if a in s then multiset(auctions)[a] else 0
  {
    match ByEmail(users, email)
    case None => Err(Unauthorized)
    case Some(user) =>
      var ended := Filter(auctions, (a: Auction) => a.endTime < now);
      var won := Filter(ended, (a: Auction) => TopBidIsUsers(bids, user.id, a.id));
      forall a | a in auctions && a.endTime < now && OutbidsEveryone(bids, user.id, a.id)
        ensures a in won
      {
        OutbidderHoldsTopBid(bids, user.id, a.id);
      }
      Ok(WithTopBids(won, bids, user.id))
  }

  /** An auction nobody has bid on is in nobody's bidding list and won by no one. */
  lemma NoBidsNeverListed(auctions: seq<Auction>, bids: seq<Bid>, users: map<UserId, User>, email: string, now: Time, a: Auction)
    requires WellFormed(users)
    requires forall b | b in bids :: b.auctionId != a.id
    ensures var r := FindBiddingAuctionsByUser(auctions, bids, users, email, now); r.Ok? ==> a !in r.value
    ensures var r := FindWonAuctionsByUser(auctions, bids, users, email, now); r.Ok? ==> a !in WithoutTopBids(r.value)
  {
  }

  /**
   * For one requester and one `now`, the bidding list holds exactly the
   * auctions that findAllAuctions flags as bid on.
   */
  lemma BiddingAreTheFlagged(auctions: seq<Auction>, bids: seq<Bid>, users: map<UserId, User>, email: string, now: Time)
    requires WellFormed(users)
    ensures var all := FindAllAuctions(auctions, bids, users, email, now);
      var bidding := FindBiddingAuctionsByUser(auctions, bids, users, email, now);
      all.Ok? <==> bidding.Ok?
    ensures var all := FindAllAuctions(auctions, bids, users, email, now);
      var bidding := FindBiddingAuctionsByUser(auctions, bids, users, email, now);
      bidding.Ok? ==> forall a :: a in bidding.value <==>
        exists k | 0 <= k < |all.value| :: all.value[k].auction == a && all.value[k].userHasBid
  {
  }

  /**
   * findAuctionsCreatedByUser and findAllAuctionsByUser return the same
   * rows of the owner, only ordered differently.
   */
  lemma CreatedPermutesAllByUser(auctions: seq<Auction>, users: map<UserId, User>, email: string, now: Time)
    requires WellFormed(users)
    ensures var r := FindAuctionsCreatedByUser(auctions, users, email, now);
      r.Ok? ==> multiset(r.value) == multiset(FindAllAuctionsByUser(auctions, ByEmail(users, email).value.id))
  {
  }

  /** The auction table, with the counter the store draws new ids from. */
  class AuctionTable {
    var auctions: seq<Auction>
    var nextId: AuctionId

    ghost predicate Valid()
      reads this
    {
      IdsUnique(auctions) && forall k | 0 <= k < |auctions| :: auctions[k].id < nextId
    }

    constructor ()
      ensures Valid() && auctions == [] && nextId == 1
    {
      auctions := [];
      nextId := 1;
    }

    /**
     * createAuction: a new row owned by the user with that email, with the
     * uploaded image. The owner is attached by email; when no user has it
     * the store refuses the row, and that refusal reaches the caller as the
     * store's error, not as BadRequest.
     */
    method CreateAuction(input: NewAuction, email: string, imagePath: string, users: map<UserId, User>, now: Time)
      returns (r: Result<Auction>)
      requires Valid() && WellFormed(users)
      modifies this
      ensures Valid()
      ensures r.Err? <==> !exists i | i in users :: users[i].email == email
      ensures r.Err? ==> r.error == RecordNotFound && auctions == old(auctions) && nextId == old(nextId)
      ensures r.Ok? ==>
        && r.value == Auction(old(nextId), input.title, input.description, input.startPrice, None, input.startTime,
                              input.endTime, Some(imagePath), ByEmail(users, email).value.id, now, now)
        && auctions == old(auctions) + [r.value]
        && nextId == old(nextId) + 1
        && FindAuctionById(auctions, r.value.id) == Some(r.value)
    {
      var owner := ByEmail(users, email);
      if owner.None? {
        return Err(RecordNotFound);
      }
      var a := Auction(nextId, input.title, input.description, input.startPrice, None, input.startTime,
                       input.endTime, Some(imagePath), owner.value.id, now, now);
      auctions := auctions + [a];
      nextId := nextId + 1;
      r := Ok(a);
      assert auctions[|auctions| - 1] == a;
      assert IdsUnique(auctions);
    }

    /**
     * updateAuction: only the owner may change an auction. The body's
     * columns are written; a non-empty uploaded image path replaces the
     * image; the store stamps updatedAt.
     */
    method UpdateAuction(id: AuctionId, email: string, patch: AuctionPatch, imagePath: Option<string>,
                         users: map<UserId, User>, now: Time)
      returns (r: Result<Auction>)
      requires Valid() && WellFormed(users)
      modifies this
      ensures Valid() && nextId == old(nextId)
      ensures r.Ok? <==> RequesterOwns(users, old(auctions), email, id)
      ensures r.Err? ==> r.error == Unauthorized && auctions == old(auctions)
      ensures r.Ok? ==> exists k | 0 <= k < |old(auctions)| ::
        && old(auctions)[k].id == id
        && r.value == Patched(old(auctions)[k], patch, imagePath, now)
        && auctions == old(auctions)[k := r.value]
      ensures r.Ok? ==> FindAuctionById(auctions, id) == Some(r.value)
    {
      var user := ByEmail(users, email);
      if user.None? {
        return Err(Unauthorized);
      }
      var k := IndexOfId(auctions, id);
      if k < 0 || auctions[k].userId != user.value.id {
        return Err(Unauthorized);
      }
      var updated := Patched(auctions[k], patch, imagePath, now);
      auctions := auctions[k := updated];
      r := Ok(updated);
      assert auctions[k] == updated && updated.id == id;
      assert IdsUnique(auctions);
      assert IndexOfId(auctions, id) == k;
    }

    /** deleteAuction: only the owner may remove an auction; exactly that row goes. */
    method DeleteAuction(id: AuctionId, email: string, users: map<UserId, User>) returns (r: Result<Auction>)
      requires Valid() && WellFormed(users)
      modifies this
      ensures Valid() && nextId == old(nextId)
      ensures r.Ok? <==> RequesterOwns(users, old(auctions), email, id)
      ensures r.Err? ==> r.error == Unauthorized && auctions == old(auctions)
      ensures r.Ok? ==> exists k | 0 <= k < |old(auctions)| ::
        && old(auctions)[k].id == id
        && r.value == old(auctions)[k]
        && auctions == old(auctions)[..k] + old(auctions)[k + 1..]
      ensures r.Ok? ==> FindAuctionById(auctions, id) == None
      ensures r.Ok? ==> forall a | a in old(auctions) && a.id != id :: a in auctions
    {
      var user := ByEmail(users, email);
      if user.None? {
        return Err(Unauthorized);
      }
      var k := IndexOfId(auctions, id);
      if k < 0 || auctions[k].userId != user.value.id {
        return Err(Unauthorized);
      }
      r := Ok(auctions[k]);
      RemoveAtKeepsOthers(auctions, k);
      auctions := auctions[..k] + auctions[k + 1..];
    }
  }

  /** Removing the row at `k` of a table with unique ids removes exactly the rows with its id. */
  lemma RemoveAtKeepsOthers(before: seq<Auction>, k: int)
    requires IdsUnique(before) && 0 <= k < |before|
    ensures var after := before[..k] + before[k + 1..];
      && IdsUnique(after)
      && (forall a | a in after :: a in before && a.id != before[k].id)
      && (forall a | a in before && a.id != before[k].id :: a in after)
  {
  }

  /** JavaScript truthiness of an optional string: defined and not empty. */
  predicate Truthy(s: Option<string>) {
    s.Some? && s.value != ""
  }

  /** The row after updateAuction: the body's columns written, the image replaced by a truthy upload path. */
  function Patched(a: Auction, patch: AuctionPatch, imagePath: Option<string>, now: Time): (r: Auction)
    ensures r.id == a.id && r.userId == a.userId && r.currentPrice == a.currentPrice && r.createdAt == a.createdAt
    ensures r.updatedAt == now
    ensures r.title == patch.title.Apply(a.title) && r.description == patch.description.Apply(a.description)
    ensures r.startPrice == patch.startPrice.Apply(a.startPrice) && r.startTime == patch.startTime.Apply(a.startTime)
    ensures r.endTime == patch.endTime.Apply(a.endTime)
    ensures Truthy(imagePath) ==> r.imageUrl == Some(imagePath.value)
    ensures !Truthy(imagePath) ==> r.imageUrl == patch.imageUrl.Apply(a.imageUrl)
  {
    var image := if Truthy(imagePath) then Set(Some(imagePath.value)) else patch.imageUrl;
    a.(title := patch.title.Apply(a.title),
       description := patch.description.Apply(a.description),
       startPrice := patch.startPrice.Apply(a.startPrice),
       startTime := patch.startTime.Apply(a.startTime),
       endTime := patch.endTime.Apply(a.endTime),
       imageUrl := image.Apply(a.imageUrl),
       updatedAt := now)
  }
}
