# Auction marketplace back end: auction and account services in Dafny

This project models the two services of the auction marketplace back end
(`auction_bay-be`) that carry rules:

- the **auction service** (`src/modules/auctions/auction.service.ts`), which
  - creates, updates and deletes auctions; only the owner may change or
    remove an auction;
  - answers the lifecycle queries: all active auctions with a per-user "has
    bid" flag, an owner's auctions (active first, then expired), the auctions
    a user is bidding on, and the auctions a user has won.
- the **account service** (`src/modules/users/user.service.ts`), which
  registers, reads, updates and deletes users, and never shows the password
  on a read.

The store is three tables held in memory:

- the auction rows, a sequence in table order;
- the bid rows `(userId, auctionId, amount)`, which these services only read;
- the user rows, a map from id to record in which no two rows share an email.

An auction is **active** when `endTime > now`. `now` is a parameter: each
query receives the instant at which it reads the clock.

Files:

- `records.dfy` — the records (`Auction`, `Bid`, `User`) and the
  projections the services return (`AuctionWithUserBid`, `AuctionWithTopBid`,
  `UserView`, `UpdatedUserView`). Also the error outcomes, and `Field`, one column of an
  update body that is either left undefined (`Keep`) or written (`Set`).
- `ordering.dfy` — the two query shapes the auction service uses:
  - a `where` filter that keeps table order;
  - an ascending `orderBy endTime`, a stable insertion sort proved sorted and
    a permutation of its input.
- `users.dfy` — the account service:
  - the reads `GetUser` and `GetMe` are functions of the table;
  - the writes are methods of the class `UserTable`, whose invariant is the
    table's unique-email index.
- `auctions.dfy` — the auction service:
  - the queries are functions of the tables and `now`;
  - create, update and delete are methods of the class `AuctionTable`, whose
    invariant is that auction ids are unique and below the next id to hand
    out.

Behaviour that the code fixes and that is easy to miss, followed here:

- `findAllAuctions` raises a plain `Error` for an unknown email, not
  `UnauthorizedException` as the other queries do (`PlainError`).
- The two lifecycle cut-offs differ. "Expired" in `findAuctionsCreatedByUser`
  is `endTime <= now`, but "ended" in `findWonAuctionsByUser` is
  `endTime < now`. An auction whose end time equals `now` is therefore in
  neither the bidding list nor the won list.
- `createAuction` returns the store's promise without awaiting it, so its
  `catch` never runs. An unknown owner email reaches the caller as the
  store's own error (`RecordNotFound`), never as `BadRequest`.
- `createUser` awaits the store, so a store failure there does become
  `BadRequest`. A duplicate email is refused with `BadRequest`, not with a
  conflict status.
- `createUser` and `deleteUser` return the stored row as it is, password
  included. Only `getUser`, `getMe` and `updateUser` select columns.
- `updateUser` and `updateAuction` copy the body's columns. A column the body
  leaves undefined is skipped by the store, and an explicit null writes null
  (`Field`).
- `updateAuction` replaces the image only when the uploaded path is
  JavaScript-truthy, that is, present and not the empty string (`Truthy`).

## Model

| member | source | states |
|---|---|---|
| `Ordering.SortByEndTime` | src/modules/auctions/auction.service.ts:100-103 | `orderBy endTime asc` returns rows ascending by end time, and they are a permutation of the rows it was given |
| `Auctions.FindAllAuctions` | src/modules/auctions/auction.service.ts:99-121 | fails with a plain error exactly when no user has the email. Otherwise it holds exactly the active auctions, each as many times as in the table, ascending by end time. Each entry's flag is true iff the requester has a bid on that auction |
| `Auctions.FlagBids` | src/modules/auctions/auction.service.ts:117-120 | keeps every row in place, and flags a row true iff the requester has a bid on that auction |
| `Auctions.UserBidAuctionIds` | src/modules/auctions/auction.service.ts:111-115 | an auction id is among the requester's bid auction ids iff the requester has a bid on that auction |
| `Auctions.FindAuctionsCreatedByUser` | src/modules/auctions/auction.service.ts:132-165 | fails with Unauthorized exactly for an unknown email. Otherwise it holds every auction the user owns exactly as often as the table does. No expired auction comes before an active one, and within each group end times ascend |
| `Auctions.ActiveThenExpired` | src/modules/auctions/auction.service.ts:164 | concatenating a sorted all-active list with a sorted all-expired list puts every active row before every expired one, keeps each group sorted, and loses no row |
| `Auctions.CreatedPermutesAllByUser` | src/modules/auctions/auction.service.ts:132-164 | the owner's partitioned list and `findAllAuctionsByUser` for that owner hold the same rows |
| `Auctions.FindAllAuctionsByUser` | src/modules/auctions/auction.service.ts:91-97 | holds exactly the rows with that owner id, each as many times as in the table, with no filter on end time |
| `Auctions.FindAuctionById` | src/modules/auctions/auction.service.ts:123-130 | returns a row iff some row has that id, and the row returned has that id; no ownership check |
| `Auctions.FindBiddingAuctionsByUser` | src/modules/auctions/auction.service.ts:167-187 | fails with Unauthorized exactly for an unknown email. Otherwise an auction is in the list iff it is in the table, is active and the user has a bid on it; each appears as often as in the table |
| `Auctions.BiddingAreTheFlagged` | src/modules/auctions/auction.service.ts:111-120 | for one requester and one `now`, the bidding list succeeds iff `findAllAuctions` does, and holds exactly the auctions `findAllAuctions` flags as bid on |
| `Auctions.TopBid` | src/modules/auctions/auction.service.ts:202-208 | the top bid exists iff the auction has a bid, and it is a bid on that auction of an amount no other bid on it exceeds |
| `Auctions.FindWonAuctionsByUser` | src/modules/auctions/auction.service.ts:189-215 | fails with Unauthorized exactly for an unknown email. Every listed auction is in the table and ended strictly before `now`. Each carries its attached top bid, which is a bid of the user on that auction that no bid on it exceeds. Every ended auction on which the user outbids every other user is listed. Each listed auction appears exactly as often as in the table |
| `Auctions.WithTopBids` | src/modules/auctions/auction.service.ts:202-214 | keeps the won auctions in place and attaches to each the bid that `include: { bids: { orderBy amount desc, take 1 } }` returns: the user's bid on that auction, which no bid on it exceeds |
| `Auctions.OutbidderHoldsTopBid` | src/modules/auctions/auction.service.ts:202-214 | a user whose bid on an auction is above every other user's bid on it holds that auction's top bid, so the filter keeps the auction |
| `Auctions.NoBidsNeverListed` | src/modules/auctions/auction.service.ts:175-214 | an auction without bids is in nobody's bidding list and in nobody's won list |
| `Auctions.Patched` | src/modules/auctions/auction.service.ts:61-67 | the updated row keeps id, owner, current price and creation time, takes each column the body defines, and takes the uploaded image path exactly when that path is truthy |
| `Auctions.AuctionTable.CreateAuction` | src/modules/auctions/auction.service.ts:16-39 | fails, leaving the table unchanged, exactly when no user has the email. Otherwise it appends one row, with the next id, the owner's id, the image path and no current price, and that row is then found by id |
| `Auctions.AuctionTable.UpdateAuction` | src/modules/auctions/auction.service.ts:41-72 | succeeds iff the email belongs to a user who owns an auction with that id; otherwise Unauthorized with the table unchanged. On success only that row changes, to `Patched` of it, and it is found by id |
| `Auctions.AuctionTable.DeleteAuction` | src/modules/auctions/auction.service.ts:74-89 | succeeds iff the email belongs to a user who owns an auction with that id; otherwise Unauthorized with the table unchanged. On success exactly that row is removed and returned; every other row stays and the id is no longer found |
| `Users.ByEmail` | src/modules/auctions/auction.service.ts:48-53 | returns a user iff some row has that email, and the user returned is the stored row with that email |
| `Users.GetUser` | src/modules/users/user.service.ts:12-26 | returns a view iff the id is in the table (null otherwise), and the view is that row's passwordless projection |
| `Users.GetMe` | src/modules/users/user.service.ts:28-43 | returns a view iff some row has the email, and the view is that row's passwordless projection |
| `Users.ViewDropsOnlyPassword` | src/modules/users/user.service.ts:15-24 | the projection of getUser and getMe together with the password rebuilds the row: it drops the password and nothing else |
| `Users.UpdatedViewDropsOnlyIdStampAndPassword` | src/modules/users/user.service.ts:75-84 | updateUser's projection together with id, password and updatedAt rebuilds the row: it drops exactly those three |
| `Users.UserTable.CreateUser` | src/modules/users/user.service.ts:45-63 | fails with BadRequest, table unchanged, when the email is taken or the store refuses the id. Otherwise it adds exactly one row with the request's columns, found afterwards by getMe; the unique-email invariant holds |
| `Users.UserTable.UpdateUser` | src/modules/users/user.service.ts:65-87 | succeeds iff the id is in the table and the body does not set an email another row holds; every failure (RecordNotFound for an unknown id, UniqueViolation for a taken email) leaves the table unchanged. On success only that row changes, and only first name, last name, email and avatar (as the body defines them) and updatedAt. It keeps id, password and creation time and returns the view without id, updatedAt and password |
| `Users.UserTable.UpdateUserAvatarByEmail` | src/modules/users/user.service.ts:89-99 | refused with the table unchanged when no row has the email. Otherwise only that row's avatar (and updatedAt) changes, and getMe shows the new avatar |
| `Users.UserTable.DeleteUser` | src/modules/users/user.service.ts:101-105 | an unknown id is refused with the table unchanged. Otherwise exactly that row is removed and returned as stored, and getUser no longer finds it |

## Left out

- The persistence layer itself, async/await plumbing and the exception classes are not modelled. The tables are values in memory, and a failure is a `Result` with an `Error`.
- The clock is not modelled: `now` is a parameter. In the code, `findAllAuctions`, `findBiddingAuctionsByUser` and `findWonAuctionsByUser` each read the clock once, on their own.
- Floating point is left out. `startPrice` (parsed with `parseFloat` in `createAuction`) and bid amounts are integers, and auction ids are integers, so the `parseInt` of ids is not modelled.
- The database schema (`prisma/schema.prisma`) is not part of this model. Its defaults are assumed:
  - auction ids are handed out by a counter;
  - user ids come from the store, so the new id is a parameter of `CreateUser`;
  - `createdAt` and `updatedAt` are set to `now` on creation, and `updatedAt` is set to `now` on each update;
  - `currentPrice` starts as null.
- The creation and update DTOs of auctions are not part of this model. Their fields are taken to be the auction's editable columns (`NewAuction`, `AuctionPatch`).
- The unique index on email is a rule of the database, not of the service code. The user table keeps it, so an update to an email another row holds ends in `UniqueViolation` with the table unchanged.
- Cascades are left out because they depend on the schema:
  - deleting an auction does not remove its bids;
  - deleting a user is not refused when the user still owns auctions or bids.
- Bid placement is not in these services; the bid table is read-only input.
- Auctions.FindWonAuctionsByUser: its contract does not say which user wins when two bids share the top amount. The store's `orderBy amount desc, take 1` leaves that open. `TopBid` happens to take the first such bid in bid-table order, and nothing proved depends on that.
- Auctions.FindBiddingAuctionsByUser: its contract does not state the order of the rows, because the query has no `orderBy` and the store leaves the order open. The same holds for `FindAllAuctionsByUser` and the won list, and for the order of rows with equal end times in the sorted queries.
- The HTTP layer is not modelled: the user controller, the JWT guard, the upload interceptor and the `/uploads/users/` path prefix.
- File storage and the generation of uuid file names are not modelled.
- Module wiring and the Swagger decorators are not modelled.
- Concurrent requests are not modelled. The code has no coordination for two updates or deletes that race.
