# Auction house engine, modelled in Dafny

This project models the sequential core of an auction house written in Java.
The auction house keeps a catalogue of products, a list of clients, a list of
brokers and the active auctions. A client starts an auction for a product or
joins a running one. On joining, the client gets a broker, drawn at random, and
is either *active* (its bids come from the command line) or *passive* (its bids
come from a random min-max formula).

An auction runs in rounds:
- every registered client bids once, in roster order;
- the round's winner is the highest bid; ties go to the client with the most
  won auctions, and then to the first such pair;
- the winning bid becomes the new minimum bid;
- every client whose maximum is below the new minimum is disqualified.

The loop stops after `nrMaxSteps` rounds, or earlier when one client is left.
The product is then sold to the last winner if its bid exceeds the product's
minimum price. A sale does four things:
- the winner's count of won auctions goes up;
- its broker keeps a commission, whose rate depends on the kind of client and
  on how many auctions it has been involved in;
- the product's sale price is set;
- the product leaves the catalogue.

Modules:

- `Errors`: the exceptions of the core as one datatype, and `Option`, `Result`
  and `Outcome`.
- `JavaInt`: Java's truncating `/`, 32-bit wrap-around and `(int)` cast.
- `Seqs`: `removeIf`/`filter` and `findFirst` on sequences.
- `Bidding`: the two bidding strategies, `SimpleRandomFromMinMax` and
  `ConcreteBidFromCommand`.
- `Commission`: the broker's tier table and the split of a bid into fee and
  net amount.
- `Storage`: the `Product` class and its sale-price holder.
- `Resolution`: `getWinningBid` as a pure pipeline over (bid, wins, client)
  offers, proved equal to an independent definition of the round's winner.
- `Rounds`: the bidding rounds as pure functions of a snapshot of the roster:
  - `Accept` is `checkValidBid` together with its waits;
  - `Collect` is `auctionStep`;
  - `Affordable` is disqualification;
  - `Round` is one loop iteration;
  - `Run` is the whole round loop.

  The properties of the rounds are proved here: when every registered client
  can afford the starting minimum bid, the minimum bid never decreases and the
  winner survives disqualification; and the loop stops within `nrMaxSteps`.
  Without that condition the minimum bid can go down (see Findings).
- `Institution`: the mutable classes `Client`, `Broker`, `AuctionHouse` and
  `Auction`. Their fields are updated in place by methods. The methods of
  `Auction` are proved to compute exactly the `Rounds` functions on the
  roster's view (`Auction.View`). For example, `AuctionProcess` ensures
  `Auction.Processed`: its rounds are `Rounds.Run` on the roster as it stood
  at the start, and the sale or its absence follows from Run's result.

Nondeterminism and waiting are explicit inputs:
- the broker drawn by `subscribeClientToAuction` is a `brokerIndex`
  parameter;
- the `nextInt(10)` of the passive bid of the client at roster position `p` in
  round `k` is `draws(k, p)`;
- the values active clients submit are a finite sequence `input`, read in
  order by the auction's single-slot mailbox `sumToBid`;
- running out of `input` while waiting is the wait that never ends, and the
  auction ends `Blocked`.

The two waits before the bidding starts become the precondition of
`StartAuction`. Between them, `startAuction` reads every registered client's
broker for the log, which is a null dereference for a client without an entry
for the auction. So `StartAuction` requires the quorum of participants, and
the start flag only when every registered client has an entry: the null
dereference happens before the start-flag wait. Past that point every
registered client has an entry, and this is the precondition `Registered()`
of `AuctionProcess`.

Three points where the code decides and the model follows it:

- The code has no guard against setting a product's sale price twice.
  `setSalePrice` installs a new holder every time (`Storage.SalePriceScenario`).
  A later sale therefore overwrites an earlier price, although the design
  intends the price to be set once.
- The comment at `auctionProcess` says an emptied roster "should not be
  reached". `Rounds.EmptiedRosterExample` shows it can be reached: a passive
  client whose maximum is below the current minimum bids below it, then is
  disqualified by its own winning bid. `Rounds.RunKeepsFloor` proves the
  precondition under which it cannot happen: every registered client can
  afford the starting minimum bid.
- Auctions are never removed from `activeAuctions`, not even after a sale.

## Model

| member | source | states |
|---|---|---|
| `Bidding.MinMaxBid` | src/main/java/auction/institution/bidding_algorithm/algorithms/SimpleRandomFromMinMax.java:17-21 | the passive bid `min + (max - min) / (r + 1)`, with truncating division, lies in [min, max] when min <= max, and in [max, min] otherwise |
| `Bidding.SimpleRandomFromMinMax` | src/main/java/auction/institution/bidding_algorithm/algorithms/SimpleRandomFromMinMax.java:17-21 | a bid is produced exactly when at least two constraints are given; otherwise reading `constrains[1]` is out of bounds |
| `Bidding.MinMaxBidTopDraw` | src/main/java/auction/institution/bidding_algorithm/algorithms/SimpleRandomFromMinMax.java:20 | a draw of 0 bids the client's maximum |
| `Bidding.MinMaxBidAntitone` | src/main/java/auction/institution/bidding_algorithm/algorithms/SimpleRandomFromMinMax.java:20 | a larger draw never gives a larger bid |
| `Bidding.SimpleRandomReadsTwo` | src/main/java/auction/institution/bidding_algorithm/algorithms/SimpleRandomFromMinMax.java:18-20 | only the first two constraints reach the formula |
| `Bidding.ConcreteBidIsFirst` | src/main/java/auction/institution/bidding_algorithm/algorithms/ConcreteBidFromCommand.java:16-18 | the active bid is the first constraint, later constraints never matter, and an empty array is out of bounds |
| `Bidding.ConcreteBidFromCommand` | src/main/java/auction/institution/bidding_algorithm/algorithms/ConcreteBidFromCommand.java:16-18 | a bid exactly when at least one constraint is given; otherwise an out-of-bounds read |
| `Bidding.MinMaxBid32` | src/main/java/auction/institution/bidding_algorithm/algorithms/SimpleRandomFromMinMax.java:20 | the formula evaluated on 32-bit ints always yields an int |
| `Bidding.MinMaxBid32Agrees` | src/main/java/auction/institution/bidding_algorithm/algorithms/SimpleRandomFromMinMax.java:20 | when `max - min` fits in an int, the 32-bit bid equals the exact one |
| `Bidding.MinMaxBid32Overflow` | src/main/java/auction/institution/bidding_algorithm/algorithms/SimpleRandomFromMinMax.java:20 | with min = -1, max = INT_MAX and draw 2, the 32-bit bid is -715827883, below min |
| `Commission.Rate` | src/main/java/auction/institution/employee/broker/Broker.java:58-72 | no rate exactly for a kind other than juridical and physical person; every rate is strictly between 0 and 1 |
| `Commission.Fee` | src/main/java/auction/institution/employee/broker/Broker.java:87-90 | the broker's share of a non-negative bid is non-negative and, for a rate of at most 1, not above the bid |
| `Commission.Net` | src/main/java/auction/institution/employee/broker/Broker.java:87-90 | the client's truncated share of a non-negative bid lies in [0, bid] |
| `Commission.RateTiers` | src/main/java/auction/institution/employee/broker/Broker.java:58-72 | juridical persons pay 10% exactly when involved in more than 25 auctions and 25% otherwise; physical persons pay 15% exactly above 5 and 20% otherwise; exactly the other kinds have no rate |
| `Commission.RateIsFraction` | src/main/java/auction/institution/employee/broker/Broker.java:58-72 | every rate is strictly between 0 and 1, and more auctions involved never raise it |
| `Commission.SplitOfBid` | src/main/java/auction/institution/employee/broker/Broker.java:87-90 | for a non-negative bid, the fee is non-negative, the net is in [0, bid], and fee plus net fall short of the bid by less than one (the truncating cast) |
| `Commission.JuridicalExample` | src/main/java/auction/institution/employee/broker/Broker.java:59-64 | a juridical person involved in 30 auctions winning at 1000 pays 100 and nets 900 |
| `Commission.PhysicalExample` | src/main/java/auction/institution/employee/broker/Broker.java:65-70 | a physical person involved in 2 auctions winning at 1000 pays 200 and nets 800 |
| `Storage.Product.Built` | src/main/java/auction/storage/Product.java:32-34 | the no-argument constructor, used by the builders, gives an empty sale-price holder |
| `Storage.Product.constructor` | src/main/java/auction/storage/Product.java:40-45 | the four-argument constructor sets the fields and creates no holder |
| `Storage.Product.SetSalePrice` | src/main/java/auction/storage/Product.java:28-30 | a fresh holder with the price replaces any earlier one, so the price then reads back as set |
| `Storage.Product.GetSalePrice` | src/main/java/auction/storage/Product.java:36-38 | the held price (possibly null); a null dereference exactly when there is no holder |
| `Storage.Product.HashCode` | src/main/java/auction/storage/Product.java:11-18 | Lombok's hash over the id alone is a 32-bit int |
| `Storage.Product.Equals` | src/main/java/auction/storage/Product.java:11-18 | a product equals itself, and equal products hash alike |
| `Storage.EqualityByIdOnly` | src/main/java/auction/storage/Product.java:11-18 | product equality is an equivalence that looks at the id alone, and equal products hash alike |
| `Storage.SalePriceScenario` | src/main/java/auction/storage/Product.java:28-38 | a built product has no price; after two `setSalePrice` calls it reads the second price |
| `JavaInt.Wrap` | src/main/java/auction/institution/bidding_algorithm/algorithms/SimpleRandomFromMinMax.java:20 | the int a Java expression holds: in range, congruent to the exact value modulo 2^32, and the exact value whenever that fits |
| `JavaInt.Quot` | src/main/java/auction/institution/bidding_algorithm/algorithms/SimpleRandomFromMinMax.java:20 | Java's `/` by a positive divisor truncates toward zero |
| `JavaInt.DivAntitone` | src/main/java/auction/institution/bidding_algorithm/algorithms/SimpleRandomFromMinMax.java:20 | dividing by a larger divisor never gives a larger quotient |
| `JavaInt.Truncate` | src/main/java/auction/institution/employee/broker/Broker.java:89 | the `(int)` cast of a double truncates toward zero |
| `Seqs.Filter` | src/main/java/auction/institution/AuctionHouse.java:90 | `removeIf`'s survivors: never more elements than the input, and each one passes the test |
| `Seqs.FilterMembers` | src/main/java/auction/institution/AuctionHouse.java:90 | an element survives the filter exactly when it is in the list and passes the test |
| `Seqs.FilterConcat` | src/main/java/auction/institution/AuctionHouse.java:90 | filtering keeps relative order, so it distributes over concatenation |
| `Seqs.FilterKeepsAll` | src/main/java/auction/institution/AuctionHouse.java:90-91 | the filter leaves a list unchanged, and keeps its length, exactly when every element passes the test |
| `Seqs.FilterIdempotent` | src/main/java/auction/institution/Auction.java:217-226 | filtering twice by the same test is filtering once |
| `Seqs.FirstIndex` | src/main/java/auction/institution/AuctionHouse.java:103-104 | `filter(...).findFirst()`: the least index whose element passes the test, or none when no element passes |
| `Resolution.Max` | src/main/java/auction/institution/AuctionHouse.java:155-156 | the stream maximum is null exactly on an empty stream, and otherwise an element at least as large as every element |
| `Resolution.WithBidMembers` | src/main/java/auction/institution/AuctionHouse.java:157-158 | the first filter keeps exactly the pairs with the top bid |
| `Resolution.WithWinsMembers` | src/main/java/auction/institution/AuctionHouse.java:161-162 | the second filter keeps exactly the pairs with the most wins |
| `Resolution.BothFiltersHead` | src/main/java/auction/institution/AuctionHouse.java:157-162 | the head of the two filters is the first pair that passes both |
| `Resolution.TiedNonEmpty` | src/main/java/auction/institution/AuctionHouse.java:155-158 | on a non-empty round some pair reaches the top bid, and none exceeds it |
| `Resolution.BestNonEmpty` | src/main/java/auction/institution/AuctionHouse.java:159-162 | among the tied pairs some pair has the most wins, and none has more |
| `Resolution.WinningBid` | src/main/java/auction/institution/AuctionHouse.java:154-163 | null exactly for an empty round; otherwise a pair of the round whose bid no pair exceeds |
| `Resolution.WinnerIsHead` | src/main/java/auction/institution/AuctionHouse.java:154-163 | on a non-empty round getWinningBid is the head of the doubly filtered list |
| `Resolution.WinningBidSpec` | src/main/java/auction/institution/AuctionHouse.java:154-163 | getWinningBid is null exactly for an empty round; otherwise it returns a pair of the round with the highest bid, the most wins among that bid, and no earlier pair with that bid and count |
| `Resolution.RoundWinnerUnique` | src/main/java/auction/institution/AuctionHouse.java:154-163 | that description of the winner fits at most one pair |
| `Resolution.FirstIndexWith` | src/main/java/auction/institution/AuctionHouse.java:161-162 | a pair with a given bid and count has a first occurrence at or before it |
| `Resolution.HigherBidWins` | src/test/java/auction/institution/AuctionHouseTest.java:94-111 | 100 against 200 between clients with equal wins goes to the 200 bid |
| `Resolution.MoreWinsBreakTie` | src/test/java/auction/institution/AuctionHouseTest.java:113-130 | two bids of 300: the client with 3 wins beats the one with 2, bidding second |
| `Resolution.MoreWinsBreakTieFirst` | src/main/java/auction/institution/AuctionHouse.java:159-162 | the same tie goes to the client with 3 wins when it bids first |
| `Rounds.Affordable` | src/main/java/auction/institution/Auction.java:217-226 | the survivors of disqualification are never more than the roster, and each can afford the minimum bid |
| `Rounds.Round` | src/main/java/auction/institution/Auction.java:156-166 | one iteration of the loop; what it promises is stated by `Rounds.RoundOf`, `Rounds.RoundKeepsFloor` and `Rounds.RoundWinnerSurvives` |
| `Rounds.Run` | src/main/java/auction/institution/Auction.java:155-167 | the whole loop; what it promises is stated by `Rounds.RunBounds` and `Rounds.RunKeepsFloor` |
| `Rounds.AffordableSpec` | src/main/java/auction/institution/Auction.java:217-226 | disqualification removes exactly the clients whose maximum is below the minimum bid; every survivor can afford it; a second pass removes nothing; nobody is removed exactly when all can afford it |
| `Rounds.AffordableConcat` | src/main/java/auction/institution/Auction.java:218-225 | survivors keep their relative order |
| `Rounds.AffordableOne` | src/main/java/auction/institution/Auction.java:221-224 | one client survives exactly when it can afford the minimum bid |
| `Rounds.Accept` | src/main/java/auction/institution/Auction.java:261-277 | an accepted value lies in [minBid, maxBid], and what is left of the submissions is a suffix of them |
| `Rounds.FirstValid` | src/main/java/auction/institution/Auction.java:261-277 | the reference description of bid validation: the first submission reaching the minimum, lowered to the maximum; the result lies in [minBid, maxBid] |
| `Rounds.FirstValidSkips` | src/main/java/auction/institution/Auction.java:265-273 | the wait ends exactly when some submission reaches the minimum, and submissions below the minimum before it are discarded |
| `Rounds.AcceptIsFirstValid` | src/main/java/auction/institution/Auction.java:240-277 | for an affordable client, checkValidBid with its waits accepts exactly the first submission that reaches the minimum bid, lowered to the maximum |
| `Rounds.Collect` | src/main/java/auction/institution/Auction.java:234-259 | a completed round has one bid per client, and the bids of earlier positions are kept |
| `Rounds.CollectTurn` | src/main/java/auction/institution/Auction.java:236-256 | one client's turn of auctionStep: the round continues from the next position with the turn's bid, or starves with it |
| `Rounds.CollectBidAt` | src/main/java/auction/institution/Auction.java:239-254 | an active client's bid lies in [minBid, maxBid]; a passive one's is the min-max formula with its draw |
| `Rounds.CollectMailbox` | src/main/java/auction/institution/Auction.java:240-251 | the slot is empty after any active client; with only passive clients the mailbox is untouched; a round starves only on an active client |
| `Rounds.RoundBidsInRange` | src/main/java/auction/institution/Auction.java:234-259 | when every client can afford the minimum bid, every bid of the round lies between it and the bidder's maximum |
| `Rounds.Offers` | src/main/java/auction/institution/Auction.java:256 | the round's pairs in roster order, each with its client's count of won auctions |
| `Rounds.RoundWinnerSurvives` | src/main/java/auction/institution/Auction.java:158-161 | when every client of a non-empty roster can afford the minimum bid, the round has a winner, whose bid is not below the old minimum, and the winner survives disqualification |
| `Rounds.RoundOf` | src/main/java/auction/institution/Auction.java:158-166 | a round is its collected bids, then the winner of its offers, then disqualification at the winner's bid and the emptied-roster check |
| `Rounds.RoundKeepsFloor` | src/main/java/auction/institution/Auction.java:155-167 | from an affordable non-empty roster a round never throws; the new minimum is the winner's bid, not below the old one; every survivor can afford it; the winner is among them |
| `Rounds.RunBounds` | src/main/java/auction/institution/Auction.java:155-167 | the loop runs at most `nrMaxSteps` rounds, and ends before the last only when exactly one client is left |
| `Rounds.MinBidDropsRound` | src/main/java/auction/institution/Auction.java:156-161 | with two passive clients at maxima -100 and -50 and draws of 0, the first round's bids are the maxima, -50 wins and becomes the minimum, and only its client is kept |
| `Rounds.MinBidDropsExample` | src/main/java/auction/institution/Auction.java:155-167 | on that roster the loop finishes after one round with a minimum bid of -50, below the starting 0 |
| `Rounds.RunKeepsFloor` | src/main/java/auction/institution/Auction.java:155-169 | from an affordable non-empty roster the loop never throws; the minimum never decreases and stays affordable; after a round there is a last winner, whose bid is the minimum and who is still registered, so the null check before the sale passes |
| `Rounds.EmptiedRosterExample` | src/main/java/auction/institution/Auction.java:163-164 | the "should not be reached" IllegalStateException is reached by a single passive client with maximum -5 and draw 1 |
| `Institution.AffordableEntered` | src/main/java/auction/institution/Auction.java:217-226 | disqualification keeps every remaining client's entry for the auction |
| `Institution.AffordableClientsKept` | src/main/java/auction/institution/Auction.java:218-225 | every client the loop keeps comes from the roster and can afford the minimum bid |
| `Institution.WithoutId` | src/main/java/auction/institution/AuctionHouse.java:90 | `removeIf` by id: never more products than before, and no survivor has the id or comes from outside the list |
| `Institution.WithoutIdSpec` | src/main/java/auction/institution/AuctionHouse.java:89-94 | removal by id drops exactly the products with that id; the list is unchanged, and keeps its length, exactly when no product has it |
| `Institution.WithoutIdConcat` | src/main/java/auction/institution/AuctionHouse.java:90 | removal by id keeps relative order |
| `Institution.Client.constructor` | src/main/java/auction/institution/clients/Client.java:67-74 | a new client has no auctions, no wins and no assignments |
| `Institution.Client.Equals` | src/main/java/auction/institution/clients/PhysicalPerson.java:11-17 | two physical persons are equal exactly when their birthdays match; any other client is equal only to itself |
| `Institution.ClientEqualsEquivalence` | src/main/java/auction/institution/clients/PhysicalPerson.java:11-17 | client equality is reflexive, symmetric and transitive; a client in the roster, or equal to one in it, is found by the `contains` check of Auction.java:109 |
| `Institution.DetachedTwice` | src/main/java/auction/institution/Auction.java:210 | removing the auction's entry after a state that only lost that entry gives the old map without it |
| `Institution.Client.InvolveClientInAuction` | src/main/java/auction/institution/clients/Client.java:82-85 | the involvement count goes up by one, and the auction maps to (broker, isActive) |
| `Institution.Client.DisqualifyClientFromAuction` | src/main/java/auction/institution/clients/Client.java:91-93 | the auction's entry is removed and nothing else changes |
| `Institution.Client.GetBrokerForAuction` | src/main/java/auction/institution/clients/Client.java:100-102 | the entry's broker, or a null dereference exactly when there is no entry |
| `Institution.Client.GetStateOfClientInAuction` | src/main/java/auction/institution/clients/Client.java:109-111 | the entry's active flag, or a null dereference exactly when there is no entry |
| `Institution.Client.WinAuction` | src/main/java/auction/institution/clients/Client.java:116-118 | the count of won auctions goes up by one |
| `Institution.Client.PlaceBid` | src/main/java/auction/institution/clients/Client.java:185-195 | active: the first constraint, out of bounds without one; passive: the min-max formula on (minimumBid, maxBid); no entry: a null dereference |
| `Institution.Client.JoinActiveAuction` | src/main/java/auction/institution/clients/Client.java:155-175 | no such auction, or a full one: the matching exception and no change to the client, the auction or the broker. Otherwise maxBid is overwritten. A client already in the roster: ClientAlreadyInAuction, with the auction, the client's entries and count and the broker unchanged. Otherwise the client is appended to the roster and the counter rises; with no broker, IllegalArgument and no entry; with one, the client records (broker, isActive), its involvement rises by one and it joins the broker's list. Only these fields can change |
| `Institution.Client.CreateAuctionForProduct` | src/main/java/auction/institution/clients/Client.java:132-143 | no such product: no change to the client, the house's auctions or the broker. Otherwise a fresh auction for the product is appended, with the requested quorum and step count, minimum bid 0, an empty mailbox and no start flag, and this client as its only registered participant. With no broker, IllegalArgument and the client's entries and count unchanged; with one, the client records (broker, isActive), its involvement rises by one and it joins the broker's list. Only these fields can change |
| `Institution.Broker.constructor` | src/main/java/auction/institution/employee/broker/Broker.java:40-44 | a new broker has no money and no clients |
| `Institution.Broker.RequestClientForBid` | src/main/java/auction/institution/employee/broker/Broker.java:50-52 | the client's bid as placeBid computes it: active, the first constraint; passive, the min-max formula; no entry, a null dereference |
| `Institution.Broker.KeepCommission` | src/main/java/auction/institution/employee/broker/Broker.java:58-72 | the rate comes from the tier table; an unknown kind throws IllegalStateException and leaves the money alone; otherwise the fee is added and the net returned, and for a non-negative bid the money never decreases and the net is in [0, bid] |
| `Institution.Broker.KeepCommissionCalculate` | src/main/java/auction/institution/employee/broker/Broker.java:87-90 | adds `commission * bid` to the broker's money and returns the truncated `(1 - commission) * bid` |
| `Institution.Broker.RemoveProduct` | src/main/java/auction/institution/employee/broker/Broker.java:78-85 | the auction house's removal by id, with its failure |
| `Institution.AuctionHouse.constructor` | src/main/java/auction/institution/AuctionHouse.java:45-51 | all four lists start empty |
| `Institution.AuctionHouse.AddNewClient` | src/main/java/auction/institution/AuctionHouse.java:77-79 | the client is appended |
| `Institution.AuctionHouse.AddNewBroker` | src/main/java/auction/institution/AuctionHouse.java:81-83 | the broker is appended |
| `Institution.AuctionHouse.AddNewProduct` | src/main/java/auction/institution/AuctionHouse.java:85-87 | the product is appended |
| `Institution.AuctionHouse.RemoveProduct` | src/main/java/auction/institution/AuctionHouse.java:89-94 | every product with the id goes and the rest stay in order; the call fails with InvalidParameter, and the list is unchanged, exactly when no product had the id |
| `Institution.AuctionHouse.GetAuctionById` | src/main/java/auction/institution/AuctionHouse.java:102-105 | the first active auction with the id; null exactly when there is none |
| `Institution.AuctionHouse.GetProductById` | src/main/java/auction/institution/AuctionHouse.java:113-116 | the first product with the id; null exactly when there is none |
| `Institution.AuctionHouse.GetClientById` | src/main/java/auction/institution/AuctionHouse.java:124-128 | the first client with the id; `requireNonNull` fails exactly when there is none |
| `Institution.AuctionHouse.GetWinningBid` | src/main/java/auction/institution/AuctionHouse.java:154-163 | null exactly for an empty round; otherwise a pair of the round that is its winner as `Resolution.IsRoundWinner` defines it |
| `Institution.AuctionHouse.CreateAuctionForProduct` | src/main/java/auction/institution/AuctionHouse.java:130-145 | fails with NoSuchProduct, changing nothing, exactly when no product has the id. Otherwise it appends a fresh auction for that product: the product's id as its id, no participants, minimum bid 0 |
| `Institution.Auction.constructor` | src/main/java/auction/institution/Auction.java:76-88 | no participants, an empty roster, minimum bid 0, an empty mailbox |
| `Institution.Auction.InitializeStartFlag` | src/main/java/auction/institution/Auction.java:93-95 | the start flag is set |
| `Institution.Auction.SubscribeClientToAuction` | src/main/java/auction/institution/Auction.java:108-120 | a client equal to a registered one throws ClientAlreadyInAuction, changing neither the auction, the client nor the drawn broker. Otherwise the counter rises and the client is appended; then an empty broker list throws. With a broker, the client records (broker, isActive) and joins the broker's list |
| `Institution.Auction.AwaitSubmission` | src/main/java/auction/institution/Auction.java:240-246 | a pending value is kept; otherwise the next submission fills the slot; with none left, the wait never ends. At most one submission is read |
| `Institution.Auction.CheckValidBid` | src/main/java/auction/institution/Auction.java:261-277 | the loop computes `Rounds.Accept`: it succeeds exactly when Accept does, leaving the accepted value in the slot |
| `Institution.Auction.RequestBid` | src/main/java/auction/institution/Auction.java:237-256 | one client's turn of the round `Rounds.Collect` describes, through its broker |
| `Institution.Auction.AuctionStep` | src/main/java/auction/institution/Auction.java:234-259 | the pairs and the mailbox are exactly `Rounds.Collect` on the roster's view, one pair per registered client in order; it starves exactly when Collect does |
| `Institution.Auction.DisqualifyClientsFromAuction` | src/main/java/auction/institution/Auction.java:217-226 | the roster's view becomes `Rounds.Affordable` of the old one; exactly the clients below the minimum lose their entry; survivors come from the old roster and can afford the minimum |
| `Institution.Auction.Survivors` | src/main/java/auction/institution/Auction.java:218-225 | the iterator loop keeps the affordable clients in order and removes the others' entries |
| `Institution.Auction.AffordableView` | src/main/java/auction/institution/Auction.java:217-226 | the survivors' view is `Rounds.Affordable` of the roster's view |
| `Institution.Auction.SellTheProduct` | src/main/java/auction/institution/Auction.java:200-211 | the winner's wins go up, then the steps of a sale run in order, any of which can throw and stop the sale there. Without an entry: a null dereference. An unknown kind: IllegalStateException. The broker keeps the tier's fee, the price becomes the bid, the product leaves the list (InvalidParameter if it was gone), and every registered client loses its entry |
| `Institution.Auction.DetachRegistered` | src/main/java/auction/institution/Auction.java:210 | every registered client loses its entry for this auction |
| `Institution.Auction.OffersView` | src/main/java/auction/institution/Auction.java:158-159 | a round over the whole roster compares the offers the rounds compare |
| `Institution.Auction.WinnerAgrees` | src/main/java/auction/institution/Auction.java:158-159 | getWinningBid on such a round picks the winner the rounds' resolution picks |
| `Institution.Auction.ResolveRound` | src/main/java/auction/institution/Auction.java:159 | the round's winner is the one the rounds' resolution picks from the roster's view, and is registered |
| `Institution.Auction.Tighten` | src/main/java/auction/institution/Auction.java:160-161 | the winning bid becomes the minimum, and the roster's view becomes Affordable of the old one at that bid |
| `Institution.Auction.CollectRound` | src/main/java/auction/institution/Auction.java:158-159 | auctionStep, then getWinningBid: the round Collect computes and the winner of its offers |
| `Institution.Auction.PlayRound` | src/main/java/auction/institution/Auction.java:156-166 | one loop iteration is exactly `Rounds.Round` on the roster as it stood, including the null and IllegalState failures |
| `Institution.Auction.RunRounds` | src/main/java/auction/institution/Auction.java:155-167 | the round loop is exactly `Rounds.Run` from the starting roster; on a normal finish, the roster, minimum bid and last winner are Run's |
| `Institution.Auction.AuctionProcess` | src/main/java/auction/institution/Auction.java:153-180 | `Processed`: rounds as `Rounds.Run` on the starting roster, blocked or throwing exactly when Run does. On a normal finish the minimum bid is Run's and the roster keeps the clients Run leaves, also after a sale (it is not cleared). No winner: the null dereference. A winning bid not above the minimum price: not sold, the roster's view is Run's, and no count of wins, broker's money, price or catalogue changes. A bid above it: the winner's wins go up by one, and the sale completes or throws one of sellTheProduct's exceptions. A completed sale: the winner had an entry, its broker (the only broker that can change) gets the tier's fee, the price is the bid, the product leaves the catalogue, and every remaining client loses exactly this auction's entry. Every client of the starting roster keeps its other entries |
| `Institution.Auction.Settle` | src/main/java/auction/institution/Auction.java:169-179 | a bid not above the minimum price: not sold, and the roster, the winner's wins, its broker's money, the price and the catalogue are unchanged. Above it: the winner's wins go up and the sale completes or throws; a completed sale pays the broker the fee, sets the price, removes the product and removes every registered client's entry |
| `Institution.Auction.StartAuction` | src/main/java/auction/institution/Auction.java:139-147 | after the quorum: a registered client without an entry is a null dereference before the start-flag wait and before any round, changing nothing (no client, broker, price or catalogue); otherwise, once the flag is set, exactly what `AuctionProcess` ensures (`Processed`) |

## Left out

- Threads, `synchronized`, `wait`/`notifyAll` and the product-list lock are not modelled. The model is one auction thread at a time.
  - The quorum wait and the start-flag wait of `run` and `startAuction` (Auction.java:127-147) become the precondition of `StartAuction`: the quorum is reached, and the start flag is set whenever the broker reads before the flag wait do not throw.
  - The mailbox waits become the finite `input` sequence.
  - A second submission overwriting the slot before the auction reads it is not modelled.
- `java.util.Random` is not modelled: the broker index and the passive draws are parameters.
- The GUI is not modelled: `AuctionFrame` logging, `sellProductFromGui` and the frame and button calls.
- `BrokerProxy` is not modelled. It only logs, and the model calls the broker directly.
- Not part of this model: the `Administrator`, the product builders, JSON parsing, the command classes and `Main`.
- Floating point: prices, rates and broker money are exact reals, so the IEEE rounding of both products of Broker.java:88-89, `commission * bid` and `(1 - commission) * bid`, is not reproduced.
- The `(int)` cast is modelled as truncation, without Java's saturation for doubles outside the int range.
- Integer width is not modelled: bids, counters and `nrOfAuctionsInvolved` are unbounded integers.
  - The one place where wrap-around matters is proved separately (`Bidding.MinMaxBid32`, see Findings).
- `ConcurrentHashMap` keyed by an `Auction` is a Dafny map keyed by object identity; `Auction` has no overridden `equals`.
- Lombok's `hashCode` for clients is not modelled, and neither are the getters and setters beyond the fields the core reads.
- `Client.Equals` models only `PhysicalPerson` (equal by birthday) and identity for every other kind; the other Lombok-generated members are left out.
- Pairs of `org.javatuples` are the `BidEntry` datatype.
- AuctionProcess (Institution.Auction.AuctionProcess): through `Processed`, is weaker than the source in two places. When the last winning bid exceeds the minimum price and the sale throws, it says only that the exception is one of the three `SellTheProduct` can raise, not which one; `SellTheProduct`'s own contract says which. Clients that were disqualified during the rounds are described only up to `Detached` (unchanged, or with this auction's entry removed); `DisqualifyClientsFromAuction` says per round exactly which ones lose it. Brokers other than the winner's, and clients' fields other than their entries and the winner's count of wins, are kept by the `modifies` frame rather than by an `ensures`.
- The subclass equalities are not modelled. `Furniture`, `Jewelery` and `Painting` carry Lombok's `@EqualsAndHashCode(callSuper = false)` (Furniture.java:11, Jewelery.java:11, Painting.java:11), which compares only the subclass's own fields. The core never uses that equality: it finds and removes products by id (AuctionHouse.java:90, 115), which is what `Storage.Product.Equals` and `Institution.WithoutId` model.
- RunRounds (Institution.Auction.RunRounds): states each client's entries only up to `Detached` (unchanged, or with this auction's entry removed); the exact set of clients that lost their entry is given per round by `DisqualifyClientsFromAuction`.

## Findings

| source | as written | input that shows it | evidently intended | confidence | as-written member | corrected member |
|---|---|---|---|---|---|---|
| src/main/java/auction/institution/bidding_algorithm/algorithms/SimpleRandomFromMinMax.java:20 | `min + (max - min) / (nextInt(10) + 1)` evaluated in 32-bit `int`, so `max - min` can overflow | min = -1, max = 2147483647, draw 2: `max - min` wraps to -2147483648 and the bid is -715827883, below min although min <= max | a bid between min and max, as the formula computes on exact integers | not executed | `Bidding.MinMaxBid32Overflow` | `Bidding.MinMaxBid` |
| src/main/java/auction/institution/Auction.java:158-161 | the round's winning bid becomes `minBid` unconditionally, and a passive client whose maximum is below the current minimum bids `min + (max - min) / (r + 1)`, which is below that minimum | two passive clients with maxima -100 and -50 at the starting minimum 0, draws 0: the bids are -100 and -50, and the minimum bid becomes -50 | the minimum bid never decreases during an auction; this holds when every registered client can afford the starting minimum bid | not executed | `Rounds.MinBidDropsExample` | `Rounds.RunKeepsFloor` |
