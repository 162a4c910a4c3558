/**
  The auction institution: clients, brokers, the auction house registry and
  the auctions themselves (package auction.institution). The four classes
  refer to one another, so they share one module. The auction house is an
  explicit object passed to the operations that reach for the singleton.
 */
module Institution {
  import opened Errors
  import Bidding
  import Commission
  import Resolution
  import Rounds
  import Seqs
  import Storage

  /** A client's entry for one auction in `stateInAuction`: its broker and whether it bids actively. */
  datatype Assignment = Assignment(broker: Broker, isActive: bool)

  /** One `Pair<Integer, Client>` of a round. */
  datatype BidEntry = BidEntry(bid: int, client: Client)

  /** How one iteration of auctionProcess's loop ended: a winner, a wait that never ends, or an exception. */
  datatype RoundEnd = Played(winner: BidEntry) | Stalled | Threw(error: Error)

  /** The round a loop iteration amounts to, given the winner's count of won auctions and the state after it. */
  function StepOf(played: RoundEnd, wins: int, kept: seq<Rounds.Bidder<Client>>, minBid: int, slot: Option<int>,
                  rest: seq<int>): Rounds.Step<Client>
  {
    match played
    case Stalled => Rounds.StepStarved
    case Threw(e) => Rounds.StepFailed(e)
    case Played(w) => Rounds.Advanced(kept, minBid, slot, rest, Resolution.Offer(w.bid, wins, w.client))
  }

  /** Every client of the view has an entry for the auction. */
  predicate Entered(v: seq<Rounds.Bidder<Client>>) {
    forall j :: 0 <= j < |v| ==> v[j].entered
  }

  /** Disqualification keeps only clients of the roster, so it keeps them all entered. */
  lemma AffordableEntered(v: seq<Rounds.Bidder<Client>>, minBid: int)
    requires Entered(v)
    ensures Entered(Rounds.Affordable(v, minBid))
  {
    Rounds.AffordableSpec(v, minBid);
    var kept := Rounds.Affordable(v, minBid);
    forall j | 0 <= j < |kept|
      ensures kept[j].entered
    {
      assert kept[j] in kept;
    }
  }

  function BidValues(entries: seq<BidEntry>): (bids: seq<int>)
    ensures |bids| == |entries| && forall j :: 0 <= j < |entries| ==> bids[j] == entries[j].bid
  {
    if entries == [] then [] else BidValues(entries[..|entries| - 1]) + [entries[|entries| - 1].bid]
  }

  /** The clients of a round's pairs, in order. */
  function ClientsOf(entries: seq<BidEntry>): (cs: seq<Client>)
    ensures |cs| == |entries| && forall j :: 0 <= j < |entries| ==> cs[j] == entries[j].client
  {
    if entries == [] then [] else ClientsOf(entries[..|entries| - 1]) + [entries[|entries| - 1].client]
  }

  /** Appending a pair appends its bid and its client. */
  lemma EntriesSnoc(entries: seq<BidEntry>, e: BidEntry)
    ensures BidValues(entries + [e]) == BidValues(entries) + [e.bid]
    ensures ClientsOf(entries + [e]) == ClientsOf(entries) + [e.client]
  {
    Seqs.SnocPrefix(entries, e);
  }

  /** A round's pairs as the offers getWinningBid compares, with each client's current count of won auctions. */
  function OffersOf(entries: seq<BidEntry>): (os: seq<Resolution.Offer<Client>>)
    reads ClientsOf(entries)`nrOfWonAuctions
    ensures |os| == |entries|
    ensures forall j :: 0 <= j < |entries| ==>
      os[j] == Resolution.Offer(entries[j].bid, entries[j].client.nrOfWonAuctions, entries[j].client)
  {
    if entries == [] then []
    else [Resolution.Offer(entries[0].bid, entries[0].client.nrOfWonAuctions, entries[0].client)] + OffersOf(entries[1..])
  }

  /** A client's assignments are as before, or have lost the one for auction `a`. */
  ghost predicate Detached(before: map<Auction, Assignment>, after: map<Auction, Assignment>, a: Auction) {
    after == before || after == before - {a}
  }

  lemma DetachedTrans(m1: map<Auction, Assignment>, m2: map<Auction, Assignment>, m3: map<Auction, Assignment>, a: Auction)
    requires Detached(m1, m2, a) && Detached(m2, m3, a)
    ensures Detached(m1, m3, a)
  {
    assert m1 - {a} - {a} == m1 - {a};
  }

  /** Removing this auction's entry from assignments that may have lost it already. */
  lemma DetachedTwice(before: map<Auction, Assignment>, mid: map<Auction, Assignment>, a: Auction)
    requires Detached(before, mid, a)
    ensures mid - {a} == before - {a}
  {
    assert before - {a} - {a} == before - {a};
  }

  /** `roster.contains(client)`: some element that `client.equals` accepts. */
  predicate InRoster(roster: seq<Client>, client: Client) {
    exists j :: 0 <= j < |roster| && client.Equals(roster[j])
  }

  /**
    Client.equals is an equivalence relation, as `roster.contains` needs:
    reflexive, symmetric and transitive. So a client in the roster is always
    found there, and a client equal to one in the roster is found too.
   */
  lemma ClientEqualsEquivalence(a: Client, b: Client, c: Client, roster: seq<Client>)
    ensures a.Equals(a)
    ensures a.Equals(b) ==> b.Equals(a)
    ensures a.Equals(b) && b.Equals(c) ==> a.Equals(c)
    ensures a in roster ==> InRoster(roster, a)
    ensures a.Equals(b) && b in roster ==> InRoster(roster, a)
  {
    if b in roster {
      var j :| 0 <= j < |roster| && roster[j] == b;
      assert a.Equals(b) ==> a.Equals(roster[j]);
    }
    if a in roster {
      var j :| 0 <= j < |roster| && roster[j] == a;
      assert a.Equals(roster[j]);
    }
  }

  /** The clients disqualifyClientsFromAuction keeps: those whose maximum reaches `minBid`, in order. */
  function AffordableClients(cs: seq<Client>, minBid: int): (ks: seq<Client>)
    reads cs`maxBid
  {
    if cs == [] then []
    else
      var last := cs[|cs| - 1];
      AffordableClients(cs[..|cs| - 1], minBid) + (if last.maxBid >= minBid then [last] else [])
  }

  /** The clients AffordableClients keeps come from the roster and can afford the minimum. */
  lemma {:induction false} AffordableClientsKept(cs: seq<Client>, minBid: int)
    ensures forall k :: 0 <= k < |AffordableClients(cs, minBid)| ==>
      AffordableClients(cs, minBid)[k] in cs && AffordableClients(cs, minBid)[k].maxBid >= minBid
  {
    if cs != [] {
      var n := |cs| - 1;
      AffordableClientsKept(cs[..n], minBid);
      var front := AffordableClients(cs[..n], minBid);
      var ks := AffordableClients(cs, minBid);
      assert ks == front + (if cs[n].maxBid >= minBid then [cs[n]] else []);
      forall k | 0 <= k < |ks|
        ensures ks[k] in cs && ks[k].maxBid >= minBid
      {
        if k < |front| {
          assert ks[k] == front[k] && front[k] in cs[..n];
        }
      }
    }
  }

  /** The products that `removeIf(p -> p.getId().equals(id))` keeps. */
  function WithoutId(products: seq<Storage.Product>, id: int): (kept: seq<Storage.Product>)
    ensures |kept| <= |products|
    ensures forall j :: 0 <= j < |kept| ==> kept[j].id != id && kept[j] in products
  {
    Seqs.FilterMembers(products, (p: Storage.Product) => p.id != id);
    Seqs.Filter(products, (p: Storage.Product) => p.id != id)
  }

  /**
    removeIf by id removes exactly the products with that id, keeps the
    others in their order, and leaves the list as it was exactly when no
    product has the id.
   */
  lemma WithoutIdSpec(products: seq<Storage.Product>, id: int)
    ensures forall p :: p in WithoutId(products, id) ==> p in products && p.id != id
    ensures forall p :: p in products && p.id != id ==> p in WithoutId(products, id)
    ensures (forall p :: p in products ==> p.id != id) <==> WithoutId(products, id) == products
    ensures (forall p :: p in products ==> p.id != id) <==> |WithoutId(products, id)| == |products|
  {
    var keep := (p: Storage.Product) => p.id != id;
    Seqs.FilterMembers(products, keep);
    Seqs.FilterKeepsAll(products, keep);
  }

  /** Removal by id keeps relative order: it distributes over concatenation. */
  lemma WithoutIdConcat(a: seq<Storage.Product>, b: seq<Storage.Product>, id: int)
    ensures WithoutId(a + b, id) == WithoutId(a, id) + WithoutId(b, id)
  {
    Seqs.FilterConcat(a, b, (p: Storage.Product) => p.id != id);
  }

  class Client {
    const id: int
    const name: string
    const address: string
    /** The concrete subclass, with the fields the model needs of it. */
    const kind: Commission.ClientKind
    var nrOfAuctionsInvolved: int
    var nrOfWonAuctions: int
    /** Overwritten every time the client enters an auction. */
    var maxBid: int
    var stateInAuction: map<Auction, Assignment>

    /** A new client: no auctions, no wins, no assignments. */
    constructor (id: int, name: string, address: string, kind: Commission.ClientKind)
      ensures this.id == id && this.name == name && this.address == address && this.kind == kind
      ensures nrOfAuctionsInvolved == 0 && nrOfWonAuctions == 0 && maxBid == 0
      ensures stateInAuction == map[]
    {
      this.id := id;
      this.name := name;
      this.address := address;
      this.kind := kind;
      nrOfAuctionsInvolved := 0;
      nrOfWonAuctions := 0;
      maxBid := 0;
      stateInAuction := map[];
    }

    /**
      Client.equals: Lombok's equality for a physical person compares the
      birthday only; every other client is equal only to itself.
     */
    function Equals(other: Client): (r: bool)
      ensures r <==> (if kind.PhysicalPerson? then other.kind == kind else other == this)
    {
      match kind
      case PhysicalPerson(birthday) => other.kind.PhysicalPerson? && other.kind.birthdayDate == birthday
      case _ => this == other
    }

    method InvolveClientInAuction(auction: Auction, broker: Broker, isActive: bool)
      modifies this`nrOfAuctionsInvolved, this`stateInAuction
      ensures nrOfAuctionsInvolved == old(nrOfAuctionsInvolved) + 1
      ensures stateInAuction == old(stateInAuction)[auction := Assignment(broker, isActive)]
    {
      nrOfAuctionsInvolved := nrOfAuctionsInvolved + 1;
      stateInAuction := stateInAuction[auction := Assignment(broker, isActive)];
    }

    method DisqualifyClientFromAuction(auction: Auction)
      modifies this`stateInAuction
      ensures stateInAuction == old(stateInAuction) - {auction}
      ensures auction !in stateInAuction
    {
      stateInAuction := stateInAuction - {auction};
    }

    /** `stateInAuction.get(auction).getValue0()`: null dereference when there is no entry. */
    function GetBrokerForAuction(auction: Auction): (r: Result<Broker>)
      reads this`stateInAuction
      ensures r.Ok? <==> auction in stateInAuction
      ensures r.Ok? ==> r.value == stateInAuction[auction].broker
      ensures r.Err? ==> r.error == NullPointer
    {
      if auction in stateInAuction then Ok(stateInAuction[auction].broker) else Err(NullPointer)
    }

    /** `stateInAuction.get(auction).getValue1()`: null dereference when there is no entry. */
    function GetStateOfClientInAuction(auction: Auction): (r: Result<bool>)
      reads this`stateInAuction
      ensures r.Ok? <==> auction in stateInAuction
      ensures r.Ok? ==> r.value == stateInAuction[auction].isActive
      ensures r.Err? ==> r.error == NullPointer
    {
      if auction in stateInAuction then Ok(stateInAuction[auction].isActive) else Err(NullPointer)
    }

    method WinAuction()
      modifies this`nrOfWonAuctions
      ensures nrOfWonAuctions == old(nrOfWonAuctions) + 1
    {
      nrOfWonAuctions := nrOfWonAuctions + 1;
    }

    /**
      placeBid: an active client bids the first constraint; a passive one
      bids the min-max formula on (minimumBid, maxBid) with the draw `r`.
      Without an entry for the auction, a null dereference.
     */
    function PlaceBid(auction: Auction, minimumBid: int, constrains: seq<int>, r: Bidding.Digit): (bid: Result<int>)
      reads this`stateInAuction, this`maxBid
      ensures auction !in stateInAuction ==> bid == Err(NullPointer)
      ensures auction in stateInAuction && stateInAuction[auction].isActive ==>
        (bid.Ok? <==> |constrains| >= 1) && (bid.Ok? ==> bid.value == constrains[0])
      ensures auction in stateInAuction && !stateInAuction[auction].isActive ==>
        bid == Ok(Bidding.MinMaxBid(minimumBid, maxBid, r))
    {
      if auction !in stateInAuction then Err(NullPointer)
      else if stateInAuction[auction].isActive then Bidding.ConcreteBidFromCommand(constrains)
      else Bidding.SimpleRandomFromMinMax([minimumBid, maxBid], r)
    }

    /**
      joinActiveAuction: fails without effect when no auction has the id or
      when the auction is exactly full; otherwise overwrites `maxBid` and
      subscribes, so a failed subscription still leaves `maxBid` updated.
     */
    method JoinActiveAuction(house: AuctionHouse, id: int, maxBid: int, isActive: bool, brokerIndex: int)
      returns (r: Result<Auction>)
      requires |house.brokerList| > 0 ==> 0 <= brokerIndex < |house.brokerList|
      modifies this`maxBid, this`nrOfAuctionsInvolved, this`stateInAuction
      modifies (if house.GetAuctionById(id).Some? then {house.GetAuctionById(id).value} else {})`nrCurrentParticipants
      modifies (if house.GetAuctionById(id).Some? then {house.GetAuctionById(id).value} else {})`registeredClients
      modifies (if 0 <= brokerIndex < |house.brokerList| then {house.brokerList[brokerIndex]} else {})`clientList
      ensures old(house.GetAuctionById(id)).None? ==>
        r == Err(NoSuchAuction) && unchanged(this) && (0 <= brokerIndex < |house.brokerList| ==> unchanged(house.brokerList[brokerIndex]))
      ensures old(house.GetAuctionById(id)).Some? ==> var a := old(house.GetAuctionById(id)).value;
        && (old(a.nrRequiredParticipants == a.nrCurrentParticipants) ==>
              && r == Err(AuctionIsFull) && unchanged(this, a)
              && (0 <= brokerIndex < |house.brokerList| ==> unchanged(house.brokerList[brokerIndex])))
        && (old(a.nrRequiredParticipants != a.nrCurrentParticipants) ==> this.maxBid == maxBid)
        && (old(a.nrRequiredParticipants != a.nrCurrentParticipants) && old(InRoster(a.registeredClients, this)) ==>
              && r == Err(ClientAlreadyInAuction) && unchanged(a)
              && stateInAuction == old(stateInAuction) && nrOfAuctionsInvolved == old(nrOfAuctionsInvolved)
              && (0 <= brokerIndex < |house.brokerList| ==> unchanged(house.brokerList[brokerIndex])))
        && (old(a.nrRequiredParticipants != a.nrCurrentParticipants) && !old(InRoster(a.registeredClients, this)) ==>
              && a.registeredClients == old(a.registeredClients) + [this]
              && a.nrCurrentParticipants == old(a.nrCurrentParticipants) + 1
              && (|house.brokerList| == 0 ==>
                    && r == Err(IllegalArgument)
                    && stateInAuction == old(stateInAuction) && nrOfAuctionsInvolved == old(nrOfAuctionsInvolved))
              && (|house.brokerList| > 0 ==>
                    var broker := house.brokerList[brokerIndex];
                    && r == Ok(a)
                    && stateInAuction == old(stateInAuction)[a := Assignment(broker, isActive)]
                    && nrOfAuctionsInvolved == old(nrOfAuctionsInvolved) + 1
                    && broker.clientList == old(broker.clientList) + [this]))
    {
      var found := house.GetAuctionById(id);
      if found.None? {
        return Err(NoSuchAuction);
      }
      var auction := found.value;
      if auction.nrRequiredParticipants == auction.nrCurrentParticipants {
        return Err(AuctionIsFull);
      }
      this.maxBid := maxBid;
      var o := auction.SubscribeClientToAuction(house, this, isActive, brokerIndex);
      r := if o.Fail? then Err(o.error) else Ok(auction);
    }

    /**
      createAuctionForProduct: the auction house creates the auction (or
      reports that there is no such product), then this client's `maxBid` is
      set and it subscribes; being already enrolled in a brand-new auction
      would be an IllegalStateException, and it cannot happen.
     */
    method CreateAuctionForProduct(house: AuctionHouse, id: int, maxBid: int, nrParticipants: int, nrMaxSteps: int,
                                   isActive: bool, brokerIndex: int)
      returns (r: Result<Auction>)
      requires |house.brokerList| > 0 ==> 0 <= brokerIndex < |house.brokerList|
      modifies this`maxBid, this`nrOfAuctionsInvolved, this`stateInAuction, house`activeAuctions
      modifies (if 0 <= brokerIndex < |house.brokerList| then {house.brokerList[brokerIndex]} else {})`clientList
      ensures old(house.GetProductById(id)).None? ==>
        && r == Err(NoSuchProduct) && unchanged(this) && house.activeAuctions == old(house.activeAuctions)
        && (0 <= brokerIndex < |house.brokerList| ==> unchanged(house.brokerList[brokerIndex]))
      ensures old(house.GetProductById(id)).Some? ==>
        && |house.activeAuctions| == |old(house.activeAuctions)| + 1
        && var a := house.activeAuctions[|house.activeAuctions| - 1];
        && fresh(a) && house.activeAuctions == old(house.activeAuctions) + [a]
        && a.id == id && a.idProduct == id && a.productToSale == old(house.GetProductById(id)).value
        && a.nrRequiredParticipants == nrParticipants && a.nrMaxSteps == nrMaxSteps
        && a.minBid == 0 && a.sumToBid.None? && !a.startFlag
        && a.registeredClients == [this] && a.nrCurrentParticipants == 1
        && this.maxBid == maxBid
        && (|house.brokerList| == 0 ==>
              && r == Err(IllegalArgument)
              && stateInAuction == old(stateInAuction) && nrOfAuctionsInvolved == old(nrOfAuctionsInvolved))
        && (|house.brokerList| > 0 ==>
              var broker := house.brokerList[brokerIndex];
              && r == Ok(a) && a.Registered()
              && stateInAuction == old(stateInAuction)[a := Assignment(broker, isActive)]
              && nrOfAuctionsInvolved == old(nrOfAuctionsInvolved) + 1
              && broker.clientList == old(broker.clientList) + [this])
    {
      var created := house.CreateAuctionForProduct(id, nrParticipants, nrMaxSteps);
      if created.Err? {
        return Err(created.error);
      }
      var auction := created.value;
      assert auction.Registered();
      this.maxBid := maxBid;
      var o := auction.SubscribeClientToAuction(house, this, isActive, brokerIndex);
      assert house.activeAuctions == old(house.activeAuctions) + [auction];
      r := if o.Pass? then Ok(auction)
           else if o.error == ClientAlreadyInAuction then Err(IllegalState)
           else Err(o.error);
    }
  }

  class Broker {
    const name: string
    var clientList: seq<Client>
    var brokerMoney: real

    /** A new broker: no money and no clients. */
    constructor (name: string)
      ensures this.name == name && clientList == [] && brokerMoney == 0.0
    {
      this.name := name;
      clientList := [];
      brokerMoney := 0.0;
    }

    /** requestClientForBid hands the request to the client unchanged. */
    function RequestClientForBid(auction: Auction, client: Client, minimumBid: int, constrains: seq<int>,
                                 r: Bidding.Digit): (bid: Result<int>)
      reads client`stateInAuction, client`maxBid
      ensures auction !in client.stateInAuction ==> bid == Err(NullPointer)
      ensures auction in client.stateInAuction && client.stateInAuction[auction].isActive ==>
        (bid.Ok? <==> |constrains| >= 1) && (bid.Ok? ==> bid.value == constrains[0])
      ensures auction in client.stateInAuction && !client.stateInAuction[auction].isActive ==>
        bid == Ok(Bidding.MinMaxBid(minimumBid, client.maxBid, r))
    {
      client.PlaceBid(auction, minimumBid, constrains, r)
    }

    /**
      keepCommission: the tier table picks the rate from the client's kind
      and its number of auctions; an unknown kind is an
      IllegalStateException and the money is untouched. For a non-negative
      bid the broker's money never decreases and the net is between 0 and
      the bid.
     */
    method KeepCommission(bid: int, client: Client) returns (r: Result<int>)
      modifies this`brokerMoney
      ensures var rate := Commission.Rate(client.kind, client.nrOfAuctionsInvolved);
        && (rate.None? ==> r == Err(IllegalState) && brokerMoney == old(brokerMoney))
        && (rate.Some? ==>
              && r == Ok(Commission.Net(bid, rate.value))
              && brokerMoney == old(brokerMoney) + Commission.Fee(bid, rate.value))
      ensures bid >= 0 && r.Ok? ==> old(brokerMoney) <= brokerMoney && 0 <= r.value <= bid
    {
      var net;
      match client.kind {
      case JuridicalPerson =>
        if client.nrOfAuctionsInvolved > 25 {
          net := KeepCommissionCalculate(bid, 0.1);
        } else {
          net := KeepCommissionCalculate(bid, 0.25);
        }
      case PhysicalPerson(_) =>
        if client.nrOfAuctionsInvolved > 5 {
          net := KeepCommissionCalculate(bid, 0.15);
        } else {
          net := KeepCommissionCalculate(bid, 0.2);
        }
      case OtherKind =>
        return Err(IllegalState);
      }
      var rate := Commission.Rate(client.kind, client.nrOfAuctionsInvolved).value;
      Commission.RateIsFraction(client.kind, client.nrOfAuctionsInvolved, client.nrOfAuctionsInvolved);
      if bid >= 0 {
        Commission.SplitOfBid(bid, rate);
      }
      r := Ok(net);
    }

    /** keepCommissionCalculate: adds `commission * bid` and returns `(int) ((1 - commission) * bid)`. */
    method KeepCommissionCalculate(bid: int, commission: real) returns (net: int)
      modifies this`brokerMoney
      ensures brokerMoney == old(brokerMoney) + Commission.Fee(bid, commission)
      ensures net == Commission.Net(bid, commission)
    {
      brokerMoney := brokerMoney + commission * bid as real;
      net := Commission.Net(bid, commission);
    }

    /** removeProduct: the auction house's removal, under its product-list lock. */
    method RemoveProduct(house: AuctionHouse, product: Storage.Product) returns (o: Outcome)
      modifies house`productList
      ensures house.productList == WithoutId(old(house.productList), product.id)
      ensures o.Pass? <==> exists p :: p in old(house.productList) && p.id == product.id
      ensures o.Fail? ==> o.error == InvalidParameter && house.productList == old(house.productList)
    {
      o := house.RemoveProduct(product);
    }
  }

  class AuctionHouse {
    var productList: seq<Storage.Product>
    var clientList: seq<Client>
    var activeAuctions: seq<Auction>
    var brokerList: seq<Broker>

    constructor ()
      ensures productList == [] && clientList == [] && activeAuctions == [] && brokerList == []
    {
      productList := [];
      clientList := [];
      activeAuctions := [];
      brokerList := [];
    }

    method AddNewClient(client: Client)
      modifies this`clientList
      ensures clientList == old(clientList) + [client]
    {
      clientList := clientList + [client];
    }

    method AddNewBroker(broker: Broker)
      modifies this`brokerList
      ensures brokerList == old(brokerList) + [broker]
    {
      brokerList := brokerList + [broker];
    }

    method AddNewProduct(product: Storage.Product)
      modifies this`productList
      ensures productList == old(productList) + [product]
    {
      productList := productList + [product];
    }

    /**
      removeProduct: every product with the given id goes, the others stay
      in order; when none had the id, an InvalidParameterException and the
      list is as before.
     */
    method RemoveProduct(product: Storage.Product) returns (o: Outcome)
      modifies this`productList
      ensures productList == WithoutId(old(productList), product.id)
      ensures o.Pass? <==> exists p :: p in old(productList) && p.id == product.id
      ensures o.Fail? ==> o.error == InvalidParameter && productList == old(productList)
    {
      var before := productList;
      productList := WithoutId(before, product.id);
      WithoutIdSpec(before, product.id);
      if |productList| == |before| {
        o := Fail(InvalidParameter);
      } else {
        o := Pass;
      }
    }

    /** getAuctionById: the first active auction with the id, or null. */
    function GetAuctionById(id: int): (r: Option<Auction>)
      reads this`activeAuctions
      ensures r.None? <==> forall a :: a in activeAuctions ==> a.id != id
      ensures r.Some? ==> exists j :: 0 <= j < |activeAuctions| && activeAuctions[j] == r.value
                            && r.value.id == id && forall k :: 0 <= k < j ==> activeAuctions[k].id != id
    {
      match Seqs.FirstIndex(activeAuctions, (a: Auction) => a.id == id)
      case None => None
      case Some(j) => Some(activeAuctions[j])
    }

    /** getProductById: the first product with the id, or null. */
    function GetProductById(id: int): (r: Option<Storage.Product>)
      reads this`productList
      ensures r.None? <==> forall p :: p in productList ==> p.id != id
      ensures r.Some? ==> exists j :: 0 <= j < |productList| && productList[j] == r.value
                            && r.value.id == id && forall k :: 0 <= k < j ==> productList[k].id != id
    {
      match Seqs.FirstIndex(productList, (p: Storage.Product) => p.id == id)
      case None => None
      case Some(j) => Some(productList[j])
    }

    /** getClientById: the first client with the id; `requireNonNull` fails when there is none. */
    function GetClientById(id: int): (r: Result<Client>)
      reads this`clientList
      ensures r.Err? <==> forall c :: c in clientList ==> c.id != id
      ensures r.Err? ==> r.error == NullPointer
      ensures r.Ok? ==> exists j :: 0 <= j < |clientList| && clientList[j] == r.value
                          && r.value.id == id && forall k :: 0 <= k < j ==> clientList[k].id != id
    {
      match Seqs.FirstIndex(clientList, (c: Client) => c.id == id)
      case None => Err(NullPointer)
      case Some(j) => Ok(clientList[j])
    }

    /**
      getWinningBid: null for an empty round; otherwise the round's pair with
      the highest bid, among those the one whose client has won the most
      auctions, and among those the first.
     */
    function GetWinningBid(biddingResult: seq<BidEntry>): (r: Option<BidEntry>)
      reads ClientsOf(biddingResult)`nrOfWonAuctions
      ensures r.None? <==> biddingResult == []
      ensures r.Some? ==> r.value in biddingResult
      ensures r.Some? ==> Resolution.IsRoundWinner(OffersOf(biddingResult),
                            Resolution.Offer(r.value.bid, r.value.client.nrOfWonAuctions, r.value.client))
    {
      var os := OffersOf(biddingResult);
      Resolution.WinningBidSpec(os);
      match Resolution.WinningBid(os)
      case None => None
      case Some(w) =>
        var j :| 0 <= j < |os| && os[j] == w;
        assert biddingResult[j] == BidEntry(w.bid, w.client);
        Some(BidEntry(w.bid, w.client))
    }

    /**
      createAuctionForProduct: without a product of that id a
      NoSuchProductException and nothing changes; otherwise a new auction
      for that product, with the product's id as its own id, no participants
      and minimum bid 0, is appended to the active auctions.
     */
    method CreateAuctionForProduct(id: int, nrParticipants: int, nrMaxSteps: int) returns (r: Result<Auction>)
      modifies this`activeAuctions
      ensures old(GetProductById(id)).None? <==> r.Err?
      ensures r.Err? ==> r.error == NoSuchProduct && activeAuctions == old(activeAuctions)
      ensures r.Ok? ==>
        && fresh(r.value) && activeAuctions == old(activeAuctions) + [r.value]
        && r.value.id == id && r.value.idProduct == id
        && r.value.nrRequiredParticipants == nrParticipants && r.value.nrMaxSteps == nrMaxSteps
        && r.value.productToSale == old(GetProductById(id)).value
        && r.value.nrCurrentParticipants == 0 && r.value.minBid == 0 && r.value.registeredClients == []
        && r.value.sumToBid.None? && !r.value.startFlag
    {
      var product := GetProductById(id);
      if product.None? {
        return Err(NoSuchProduct);
      }
      var auction := new Auction(id, nrParticipants, id, nrMaxSteps, product.value);
      activeAuctions := activeAuctions + [auction];
      r := Ok(auction);
    }
  }

  class Auction {
    var nrCurrentParticipants: int
    const id: int
    const nrRequiredParticipants: int
    const idProduct: int
    const nrMaxSteps: int
    var registeredClients: seq<Client>
    const productToSale: Storage.Product
    /** The single-slot mailbox an active client's submitted value is written to. */
    var sumToBid: Option<int>
    var minBid: int
    /** Whether the start flag has been created (initializeStartFlag). */
    var startFlag: bool

    constructor (id: int, nrRequiredParticipants: int, idProduct: int, nrMaxSteps: int, productToSale: Storage.Product)
      ensures this.id == id && this.nrRequiredParticipants == nrRequiredParticipants
      ensures this.idProduct == idProduct && this.nrMaxSteps == nrMaxSteps && this.productToSale == productToSale
      ensures nrCurrentParticipants == 0 && registeredClients == [] && minBid == 0
      ensures sumToBid.None? && !startFlag
    {
      nrCurrentParticipants := 0;
      this.id := id;
      this.nrRequiredParticipants := nrRequiredParticipants;
      this.idProduct := idProduct;
      this.nrMaxSteps := nrMaxSteps;
      registeredClients := [];
      this.productToSale := productToSale;
      minBid := 0;
      sumToBid := None;
      startFlag := false;
    }

    method InitializeStartFlag()
      modifies this`startFlag
      ensures startFlag
    {
      startFlag := true;
    }

    /** Every registered client has an entry for this auction. */
    ghost predicate Registered()
      reads this`registeredClients, registeredClients`maxBid, registeredClients`stateInAuction
      reads registeredClients`nrOfWonAuctions
    {
      Entered(View())
    }

    /** What a round knows of client `c` in this auction. */
    ghost function BidderOf(c: Client): Rounds.Bidder<Client>
      reads c`maxBid, c`stateInAuction, c`nrOfWonAuctions
    {
      Rounds.Bidder(c, c.maxBid, this in c.stateInAuction && c.stateInAuction[this].isActive, c.nrOfWonAuctions,
                    this in c.stateInAuction)
    }

    ghost function ViewOf(cs: seq<Client>): (v: seq<Rounds.Bidder<Client>>)
      reads cs`maxBid, cs`stateInAuction, cs`nrOfWonAuctions
      ensures |v| == |cs|
    {
      if cs == [] then [] else ViewOf(cs[..|cs| - 1]) + [BidderOf(cs[|cs| - 1])]
    }

    lemma {:induction false} ViewOfAt(cs: seq<Client>)
      ensures forall j :: 0 <= j < |cs| ==> ViewOf(cs)[j] == BidderOf(cs[j])
    {
      if cs != [] {
        ViewOfAt(cs[..|cs| - 1]);
      }
    }

    /** The view keeps the clients and their order. */
    lemma ClientsOfView(cs: seq<Client>)
      ensures Rounds.Clients(ViewOf(cs)) == cs
    {
      ViewOfAt(cs);
    }

    lemma ViewOfIndex(cs: seq<Client>, i: nat)
      requires i < |cs|
      ensures ViewOf(cs)[i] == BidderOf(cs[i])
    {
      ViewOfAt(cs);
    }

    /** The registered clients as the rounds see them. */
    ghost function View(): seq<Rounds.Bidder<Client>>
      reads this`registeredClients, registeredClients`maxBid, registeredClients`stateInAuction
      reads registeredClients`nrOfWonAuctions
    {
      ViewOf(registeredClients)
    }

    lemma ViewOfSnoc(cs: seq<Client>, c: Client)
      ensures ViewOf(cs + [c]) == ViewOf(cs) + [BidderOf(c)]
    {
      Seqs.SnocPrefix(cs, c);
    }

    /** The brokers the registered clients have in this auction. */
    ghost function AssignedBrokers(): set<Broker>
      reads this`registeredClients, registeredClients`stateInAuction
    {
      set c | c in registeredClients && this in c.stateInAuction :: c.stateInAuction[this].broker
    }

    /**
      subscribeClientToAuction: a client equal to one already registered is
      refused with ClientAlreadyInAuction and nothing changes. Otherwise the
      counter goes up by one and the client is appended; then the broker is
      drawn (`nextInt(size)`, which throws on an empty broker list, after
      those two updates), the client records `(broker, isActive)` for this
      auction, and the broker appends the client to its own list.
     */
    method SubscribeClientToAuction(house: AuctionHouse, client: Client, isActive: bool, brokerIndex: int)
      returns (o: Outcome)
      requires |house.brokerList| > 0 ==> 0 <= brokerIndex < |house.brokerList|
      modifies this`nrCurrentParticipants, this`registeredClients, client`nrOfAuctionsInvolved, client`stateInAuction
      modifies (if 0 <= brokerIndex < |house.brokerList| then {house.brokerList[brokerIndex]} else {})`clientList
      ensures old(InRoster(registeredClients, client)) ==>
        && o == Fail(ClientAlreadyInAuction)
        && registeredClients == old(registeredClients) && nrCurrentParticipants == old(nrCurrentParticipants)
        && client.stateInAuction == old(client.stateInAuction)
        && client.nrOfAuctionsInvolved == old(client.nrOfAuctionsInvolved)
        && (0 <= brokerIndex < |house.brokerList| ==> unchanged(house.brokerList[brokerIndex]))
      ensures !old(InRoster(registeredClients, client)) ==>
        && registeredClients == old(registeredClients) + [client]
        && nrCurrentParticipants == old(nrCurrentParticipants) + 1
      ensures !old(InRoster(registeredClients, client)) && |house.brokerList| == 0 ==>
        && o == Fail(IllegalArgument)
        && client.stateInAuction == old(client.stateInAuction)
        && client.nrOfAuctionsInvolved == old(client.nrOfAuctionsInvolved)
      ensures !old(InRoster(registeredClients, client)) && |house.brokerList| > 0 ==>
        var broker := house.brokerList[brokerIndex];
        && o == Pass
        && client.stateInAuction == old(client.stateInAuction)[this := Assignment(broker, isActive)]
        && client.nrOfAuctionsInvolved == old(client.nrOfAuctionsInvolved) + 1
        && broker.clientList == old(broker.clientList) + [client]
        && broker.brokerMoney == old(broker.brokerMoney)
        && (old(Registered()) ==> Registered())
    {
      if InRoster(registeredClients, client) {
        return Fail(ClientAlreadyInAuction);
      }
      nrCurrentParticipants := nrCurrentParticipants + 1;
      registeredClients := registeredClients + [client];
      var brokerList := house.brokerList;
      if |brokerList| == 0 {
        return Fail(IllegalArgument);
      }
      var broker := brokerList[brokerIndex];
      client.InvolveClientInAuction(this, broker, isActive);
      broker.clientList := broker.clientList + [client];
      o := Pass;
    }

    /**
      The wait `while (sumToBid == null) wait()`: a pending value is kept;
      otherwise the next submission fills the slot, after which the loop's
      test fails, so the wait reads at most one submission. With no
      submission left the real thread would wait forever, which is
      `arrived == false`.
     */
    method AwaitSubmission(input: seq<int>) returns (arrived: bool, rest: seq<int>)
      modifies this`sumToBid
      ensures arrived <==> old(sumToBid).Some? || input != []
      ensures arrived ==> sumToBid.Some?
      ensures old(sumToBid).Some? ==> sumToBid == old(sumToBid) && rest == input
      ensures old(sumToBid).None? && input != [] ==> sumToBid == Some(input[0]) && rest == input[1..]
      ensures !arrived ==> sumToBid.None? && rest == []
    {
      rest := input;
      if sumToBid.None? {
        if rest == [] {
          return false, rest;
        }
        sumToBid := Some(rest[0]);
        rest := rest[1..];
      }
      arrived := true;
    }

    /**
      checkValidBid: a pending value above the client's maximum is lowered to
      it, one below the minimum bid is discarded and the next awaited, and
      any other value stays in the slot as the client's bid. The loop
      computes Accept: the accepted value is in the slot afterwards.
     */
    method CheckValidBid(client: Client, input: seq<int>) returns (accepted: bool, rest: seq<int>)
      requires sumToBid.Some?
      modifies this`sumToBid
      ensures var a := Rounds.Accept(old(sumToBid), input, minBid, client.maxBid);
        && (accepted <==> a.Some?)
        && (accepted ==> sumToBid == Some(a.value.0) && rest == a.value.1)
    {
      rest := input;
      while true
        invariant sumToBid.Some?
        invariant Rounds.Accept(sumToBid, rest, minBid, client.maxBid) == Rounds.Accept(old(sumToBid), input, minBid, client.maxBid)
        decreases |rest|, Rounds.Pending(sumToBid, client.maxBid)
      {
        if sumToBid.value > client.maxBid {
          sumToBid := Some(client.maxBid);
        } else if sumToBid.value < minBid {
          sumToBid := None;
          var arrived;
          arrived, rest := AwaitSubmission(rest);
          if !arrived {
            return false, rest;
          }
        } else {
          break;
        }
      }
      accepted := true;
    }

    /**
      The body of auctionStep's loop for one client: an active client's bid
      is the value checkValidBid accepts, after which the slot is emptied; a
      passive client's bid is drawn with this round's draw for its position.
      `None` is the wait that never ends.
     */
    method RequestBid(client: Client, position: nat, input: seq<int>, round: nat, draws: (nat, nat) -> Bidding.Digit,
                      ghost roster: seq<Rounds.Bidder<Client>>, ghost acc: seq<int>)
      returns (bid: Option<int>, rest: seq<int>)
      requires this in client.stateInAuction
      requires position < |roster| && roster[position] == BidderOf(client) && |acc| == position
      modifies this`sumToBid
      ensures Rounds.Collect(roster, position, minBid, old(sumToBid), input, round, draws, acc) ==
        if bid.None? then Rounds.Starved
        else Rounds.Collect(roster, position + 1, minBid, sumToBid, rest, round, draws, acc + [bid.value])
      ensures var b := BidderOf(client);
        b.active ==>
          var a := Rounds.Accept(old(sumToBid), input, minBid, b.maxBid);
          && (bid.None? <==> a.None?)
          && (bid.Some? ==> bid.value == a.value.0 && rest == a.value.1 && sumToBid.None?)
      ensures !BidderOf(client).active ==>
        bid == Some(Bidding.MinMaxBid(minBid, client.maxBid, draws(round, position)))
        && sumToBid == old(sumToBid) && rest == input
    {
      var broker := client.GetBrokerForAuction(this).value;
      if client.GetStateOfClientInAuction(this).value {
        var ready;
        ready, rest := AwaitSubmission(input);
        if ready {
          ready, rest := CheckValidBid(client, rest);
        }
        if !ready {
          return None, rest;
        }
        var clientBid := broker.RequestClientForBid(this, client, minBid, [sumToBid.value], 0).value;
        sumToBid := None;
        bid := Some(clientBid);
      } else {
        var clientBid := broker.RequestClientForBid(this, client, minBid, [], draws(round, position)).value;
        bid, rest := Some(clientBid), input;
      }
      Rounds.CollectTurn(roster, position, minBid, old(sumToBid), input, round, draws, acc, bid, sumToBid, rest);
    }

    /**
      auctionStep: one bid per registered client, in roster order, through
      the client's broker. The pairs are exactly the round Collect computes
      from the clients as they stand, and the mailbox is left as Collect
      says; `starved` is the round that would wait forever.
     */
    method AuctionStep(input: seq<int>, round: nat, draws: (nat, nat) -> Bidding.Digit, ghost v: seq<Rounds.Bidder<Client>>)
      returns (entries: seq<BidEntry>, starved: bool, rest: seq<int>)
      requires View() == v && Entered(v)
      modifies this`sumToBid
      ensures var c := Rounds.Collect(v, 0, minBid, old(sumToBid), input, round, draws, []);
        && (starved <==> c.Starved?)
        && (!starved ==> BidValues(entries) == c.bids && sumToBid == c.slot && rest == c.rest)
      ensures !starved ==> ClientsOf(entries) == registeredClients
      ensures View() == v
    {
      ghost var slot0 := sumToBid;
      var clients := registeredClients;
      entries, starved, rest := [], false, input;
      for i := 0 to |clients|
        invariant View() == v
        invariant |entries| == i && ClientsOf(entries) == clients[..i]
        invariant Rounds.Collect(v, 0, minBid, slot0, input, round, draws, []) ==
                  Rounds.Collect(v, i, minBid, sumToBid, rest, round, draws, BidValues(entries))
      {
        var client := clients[i];
        ViewOfIndex(clients, i);
        var bid;
        bid, rest := RequestBid(client, i, rest, round, draws, v, BidValues(entries));
        if bid.None? {
          return entries, true, rest;
        }
        EntriesSnoc(entries, BidEntry(bid.value, client));
        Seqs.PrefixSnoc(clients, i);
        entries := entries + [BidEntry(bid.value, client)];
      }
      assert clients[..|clients|] == clients;
    }

    /**
      disqualifyClientsFromAuction: every client whose maximum is below the
      minimum bid loses its entry for this auction and leaves the roster;
      the others stay, in order, with their entries untouched. Seen by the
      rounds, the roster becomes Affordable of the old roster.
     */
    method DisqualifyClientsFromAuction()
      modifies this`registeredClients, registeredClients`stateInAuction
      ensures View() == Rounds.Affordable(old(View()), minBid)
      ensures forall c :: c in old(registeredClients) ==>
        c.stateInAuction == if c.maxBid < minBid then old(c.stateInAuction) - {this} else old(c.stateInAuction)
      ensures forall i :: 0 <= i < |registeredClients| ==>
        registeredClients[i] in old(registeredClients) && registeredClients[i].maxBid >= minBid
      ensures old(Registered()) ==> Registered()
    {
      var clients := registeredClients;
      ghost var v0 := ViewOf(clients);
      assert v0 == old(View());
      ViewOfAt(clients);
      var kept := Survivors(clients);
      registeredClients := kept;
      assert kept == AffordableClients(clients, minBid);
      AffordableClientsKept(clients, minBid);
      forall j | 0 <= j < |clients| && clients[j].maxBid >= minBid
        ensures v0[j] == BidderOf(clients[j])
      {
        assert clients[j] in clients;
      }
      AffordableView(clients, v0, minBid);
      assert View() == Rounds.Affordable(v0, minBid);
      if Entered(v0) {
        AffordableEntered(v0, minBid);
      }
    }

    /** The loop of disqualifyClientsFromAuction over `clients`: the survivors, in order. */
    method Survivors(clients: seq<Client>) returns (kept: seq<Client>)
      modifies clients`stateInAuction
      ensures kept == AffordableClients(clients, minBid)
      ensures forall c :: c in clients ==>
        c.stateInAuction == if c.maxBid < minBid then old(c.stateInAuction) - {this} else old(c.stateInAuction)
    {
      kept := [];
      for i := 0 to |clients|
        modifies clients`stateInAuction
        invariant kept == AffordableClients(clients[..i], minBid)
        invariant forall c :: c in clients ==>
          c.stateInAuction == if c.maxBid < minBid && c in clients[..i] then old(c.stateInAuction) - {this} else old(c.stateInAuction)
      {
        var client := clients[i];
        Seqs.PrefixSnoc(clients, i);
        Seqs.PrefixOfPrefix(clients, i, i + 1);
        if client.maxBid < minBid {
          client.DisqualifyClientFromAuction(this);
        } else {
          kept := kept + [client];
        }
      }
      Seqs.PrefixOfPrefix(clients, 0, 0);
    }

    /** Disqualification seen by the rounds: the survivors' view is Affordable of the roster's view. */
    lemma {:induction false} AffordableView(cs: seq<Client>, v: seq<Rounds.Bidder<Client>>, minBid: int)
      requires |v| == |cs|
      requires forall j :: 0 <= j < |cs| ==> v[j].client == cs[j] && v[j].maxBid == cs[j].maxBid
      requires forall j :: 0 <= j < |cs| && cs[j].maxBid >= minBid ==> v[j] == BidderOf(cs[j])
      ensures ViewOf(AffordableClients(cs, minBid)) == Rounds.Affordable(v, minBid)
    {
      if cs != [] {
        var n := |cs| - 1;
        var front := AffordableClients(cs[..n], minBid);
        AffordableView(cs[..n], v[..n], minBid);
        assert v == v[..n] + [v[n]];
        Rounds.AffordableConcat(v[..n], [v[n]], minBid);
        Rounds.AffordableOne(v[n], minBid);
        if cs[n].maxBid >= minBid {
          assert AffordableClients(cs, minBid) == front + [cs[n]];
          ViewOfSnoc(front, cs[n]);
        } else {
          assert AffordableClients(cs, minBid) == front + [] == front;
        }
      }
    }

    /**
      sellTheProduct: the winner's count of won auctions goes up; its broker
      for this auction keeps the commission; the product's sale price
      becomes the winning bid; the broker removes the product from the
      auction house; and every registered client loses its entry for this
      auction (the roster itself is not emptied). Each step can throw and
      end the sale there: a winner without an entry (null broker), a client
      kind without a tier (IllegalStateException), a product no longer in
      the list (InvalidParameterException).
     */
    method SellTheProduct(house: AuctionHouse, winner: BidEntry) returns (o: Outcome)
      modifies winner.client`nrOfWonAuctions, productToSale`salePrice, house`productList, registeredClients`stateInAuction
      modifies (if this in winner.client.stateInAuction then {winner.client.stateInAuction[this].broker} else {})`brokerMoney
      ensures winner.client.nrOfWonAuctions == old(winner.client.nrOfWonAuctions) + 1
      ensures this !in old(winner.client.stateInAuction) ==>
        && o == Fail(NullPointer)
        && productToSale.salePrice == old(productToSale.salePrice) && house.productList == old(house.productList)
        && forall c :: c in registeredClients ==> c.stateInAuction == old(c.stateInAuction)
      ensures this in old(winner.client.stateInAuction) ==>
        var broker := old(winner.client.stateInAuction[this].broker);
        var rate := Commission.Rate(winner.client.kind, winner.client.nrOfAuctionsInvolved);
        && (rate.None? ==>
              && o == Fail(IllegalState) && broker.brokerMoney == old(broker.brokerMoney)
              && productToSale.salePrice == old(productToSale.salePrice) && house.productList == old(house.productList)
              && forall c :: c in registeredClients ==> c.stateInAuction == old(c.stateInAuction))
        && (rate.Some? ==>
              && broker.brokerMoney == old(broker.brokerMoney) + Commission.Fee(winner.bid, rate.value)
              && productToSale.salePrice == Storage.Holder(Some(winner.bid as real))
              && house.productList == WithoutId(old(house.productList), productToSale.id)
              && (o.Pass? <==> exists p :: p in old(house.productList) && p.id == productToSale.id)
              && (o.Fail? ==>
                    && o.error == InvalidParameter
                    && forall c :: c in registeredClients ==> c.stateInAuction == old(c.stateInAuction))
              && (o.Pass? ==> forall c :: c in registeredClients ==> c.stateInAuction == old(c.stateInAuction) - {this}))
    {
      winner.client.WinAuction();
      var found := winner.client.GetBrokerForAuction(this);
      if found.Err? {
        return Fail(NullPointer);
      }
      var broker := found.value;
      var net := broker.KeepCommission(winner.bid, winner.client);
      if net.Err? {
        return Fail(net.error);
      }
      productToSale.SetSalePrice(winner.bid as real);
      o := broker.RemoveProduct(house, productToSale);
      if o.Fail? {
        return;
      }
      DetachRegistered();
    }

    /** `registeredClients.forEach(client -> client.disqualifyClientFromAuction(this))`. */
    method DetachRegistered()
      modifies registeredClients`stateInAuction
      ensures forall c :: c in registeredClients ==> c.stateInAuction == old(c.stateInAuction) - {this}
    {
      var clients := registeredClients;
      for i := 0 to |clients|
        modifies clients`stateInAuction
        invariant forall c :: c in clients ==>
          c.stateInAuction == if c in clients[..i] then old(c.stateInAuction) - {this} else old(c.stateInAuction)
      {
        Seqs.PrefixSnoc(clients, i);
        clients[i].DisqualifyClientFromAuction(this);
      }
      assert clients[..|clients|] == clients;
    }

    /** A round's pairs over the whole roster are the offers the rounds compare. */
    lemma OffersView(entries: seq<BidEntry>)
      requires ClientsOf(entries) == registeredClients
      ensures OffersOf(entries) == Rounds.Offers(View(), BidValues(entries))
    {
      ViewOfAt(registeredClients);
    }

    /** getWinningBid on a round over the whole roster picks the winner the rounds pick. */
    lemma WinnerAgrees(house: AuctionHouse, entries: seq<BidEntry>)
      requires ClientsOf(entries) == registeredClients
      ensures var w := house.GetWinningBid(entries);
        var best := Resolution.WinningBid(Rounds.Offers(View(), BidValues(entries)));
        && (w.None? <==> best.None?)
        && (w.Some? ==> best.value == Resolution.Offer(w.value.bid, w.value.client.nrOfWonAuctions, w.value.client))
    {
      var os := OffersOf(entries);
      OffersView(entries);
      Resolution.WinningBidSpec(os);
      var w := house.GetWinningBid(entries);
      if w.Some? {
        Resolution.RoundWinnerUnique(os, Resolution.WinningBid(os).value,
          Resolution.Offer(w.value.bid, w.value.client.nrOfWonAuctions, w.value.client));
      }
    }

    /**
      The winner of a round over the whole roster, as getWinningBid picks it:
      none for an empty round, and otherwise the pair whose offer is the
      one the rounds' resolution picks over the roster's view.
     */
    method ResolveRound(house: AuctionHouse, entries: seq<BidEntry>, ghost v: seq<Rounds.Bidder<Client>>)
      returns (w: Option<BidEntry>)
      requires ClientsOf(entries) == registeredClients && View() == v
      ensures var best := Resolution.WinningBid(Rounds.Offers(v, BidValues(entries)));
        && (w.None? <==> best.None?)
        && (w.Some? ==> best.value == Resolution.Offer(w.value.bid, w.value.client.nrOfWonAuctions, w.value.client))
      ensures w.Some? ==> w.value.client in registeredClients
      ensures View() == v
    {
      WinnerAgrees(house, entries);
      w := house.GetWinningBid(entries);
    }

    /**
      The winning bid becomes the minimum bid, then disqualifyClientsFromAuction
      runs: the roster's view becomes Affordable of the old one at that bid.
     */
    method Tighten(bid: int, ghost v: seq<Rounds.Bidder<Client>>)
      requires View() == v
      modifies this`minBid, this`registeredClients, registeredClients`stateInAuction
      ensures minBid == bid
      ensures View() == Rounds.Affordable(v, bid)
      ensures forall i :: 0 <= i < |registeredClients| ==> registeredClients[i] in old(registeredClients)
      ensures forall c :: c in old(registeredClients) ==>
        Detached(old(c.stateInAuction), c.stateInAuction, this)
      ensures Entered(v) ==> Entered(View())
    {
      minBid := bid;
      DisqualifyClientsFromAuction();
      if Entered(v) {
        AffordableEntered(v, bid);
      }
    }

    /**
      The first half of a round: auctionStep, then getWinningBid on its
      pairs. The outcome is the round Collect computes from the roster's view
      and the winner the rounds' resolution picks from it.
     */
    method CollectRound(house: AuctionHouse, k: nat, input: seq<int>, draws: (nat, nat) -> Bidding.Digit,
                        ghost v: seq<Rounds.Bidder<Client>>)
      returns (w: Option<BidEntry>, starved: bool, rest: seq<int>)
      requires View() == v && Entered(v)
      modifies this`sumToBid
      ensures View() == v
      ensures var c := Rounds.Collect(v, 0, minBid, old(sumToBid), input, k, draws, []);
        && (starved <==> c.Starved?)
        && (!starved ==>
              && sumToBid == c.slot && rest == c.rest
              && var best := Resolution.WinningBid(Rounds.Offers(v, c.bids));
              && (w.None? <==> best.None?)
              && (w.Some? ==> best.value == Resolution.Offer(w.value.bid, w.value.client.nrOfWonAuctions, w.value.client)))
      ensures w.Some? ==> !starved && w.value.client in registeredClients
    {
      var entries;
      entries, starved, rest := AuctionStep(input, k, draws, v);
      if starved {
        return None, starved, rest;
      }
      w := ResolveRound(house, entries, v);
    }

    /**
      One iteration of auctionProcess's loop: auctionStep, getWinningBid,
      the winning bid as the new minimum, then disqualifyClientsFromAuction
      and the check for an emptied roster. The outcome is exactly Round on
      the roster as it stood, and on success the roster, minimum bid and
      mailbox become the ones Round gives.
     */
    method PlayRound(house: AuctionHouse, k: nat, input: seq<int>, draws: (nat, nat) -> Bidding.Digit,
                     ghost v: seq<Rounds.Bidder<Client>>)
      returns (played: RoundEnd, rest: seq<int>, ghost kept: seq<Rounds.Bidder<Client>>)
      requires View() == v && Entered(v)
      modifies this`minBid, this`sumToBid, this`registeredClients, registeredClients`stateInAuction
      ensures View() == kept
      ensures Rounds.Round(v, k, old(minBid), old(sumToBid), input, draws) ==
        StepOf(played, if played.Played? then played.winner.client.nrOfWonAuctions else 0, kept, minBid, sumToBid, rest)
      ensures played.Played? ==> played.winner.client in old(registeredClients) && Entered(kept)
      ensures forall i :: 0 <= i < |registeredClients| ==> registeredClients[i] in old(registeredClients)
      ensures forall c :: c in old(registeredClients) ==>
        Detached(old(c.stateInAuction), c.stateInAuction, this)
    {
      ghost var m0, s0 := minBid, sumToBid;
      ghost var c := Rounds.Collect(v, 0, m0, s0, input, k, draws, []);
      var w, starved;
      w, starved, rest := CollectRound(house, k, input, draws, v);
      kept := v;
      if starved {
        Rounds.RoundOf(v, k, m0, s0, input, draws, c, None);
        return Stalled, rest, kept;
      }
      ghost var best := Resolution.WinningBid(Rounds.Offers(v, c.bids));
      Rounds.RoundOf(v, k, m0, s0, input, draws, c, best);
      if w.None? {
        return Threw(NullPointer), rest, kept;
      }
      ghost var wins := w.value.client.nrOfWonAuctions;
      Tighten(w.value.bid, v);
      kept := Rounds.Affordable(v, w.value.bid);
      if registeredClients == [] {
        return Threw(IllegalState), rest, kept;
      }
      played := Played(w.value);
    }

    /**
      The round loop of auctionProcess: at most `nrMaxSteps` rounds, each
      collecting the bids, taking getWinningBid's pair, making its bid the
      new minimum and disqualifying the clients who cannot afford it; the
      loop stops early once one client is left. A round that waits forever
      blocks the auction, an empty round is a null dereference and an
      emptied roster the IllegalStateException (`stop`). The rounds are
      exactly Run on the roster as it stood when the loop began, and when
      the loop finishes the roster, the minimum bid and the last winner are
      the ones Run gives.
     */
    method RunRounds(house: AuctionHouse, input: seq<int>, draws: (nat, nat) -> Bidding.Digit)
      returns (stop: Option<Rounds.Verdict>, rounds: nat, winner: Option<BidEntry>)
      requires Registered()
      modifies this`minBid, this`sumToBid, this`registeredClients, registeredClients`stateInAuction
      ensures var r := Rounds.Run(old(View()), 0, nrMaxSteps, old(minBid), old(sumToBid), input, draws, None);
        && rounds == r.rounds
        && (r.Stuck? <==> stop == Some(Rounds.Blocked))
        && (r.Halted? ==> stop == Some(Rounds.Raised(r.error)))
        && (r.Finished? <==> stop.None?)
        && (r.Finished? ==>
              && minBid == r.minBid && View() == r.roster && registeredClients == Rounds.Clients(r.roster)
              && (winner.None? <==> r.winner.None?)
              && (winner.Some? ==> winner.value.bid == r.winner.value.bid && winner.value.client == r.winner.value.client))
      ensures winner.Some? ==> winner.value.client in old(registeredClients)
      ensures forall i :: 0 <= i < |registeredClients| ==> registeredClients[i] in old(registeredClients)
      ensures forall c :: c in old(registeredClients) ==>
        Detached(old(c.stateInAuction), c.stateInAuction, this)
    {
      ghost var roster0 := registeredClients;
      ghost var v := View();
      ghost var run := Rounds.Run(v, 0, nrMaxSteps, minBid, sumToBid, input, draws, None);
      var k: nat := 0;
      var rest := input;
      stop, winner := None, None;
      ghost var gw: Option<Resolution.Offer<Client>> := None;
      while k < nrMaxSteps
        modifies this`minBid, this`sumToBid, this`registeredClients, roster0`stateInAuction
        invariant View() == v && Entered(v)
        invariant run == Rounds.Run(v, k, nrMaxSteps, minBid, sumToBid, rest, draws, gw)
        invariant winner.None? <==> gw.None?
        invariant winner.Some? ==>
          winner.value.bid == gw.value.bid && winner.value.client == gw.value.client && winner.value.client in roster0
        invariant stop.None?
        invariant forall i :: 0 <= i < |registeredClients| ==> registeredClients[i] in roster0
        invariant forall c :: c in roster0 ==>
          Detached(old(c.stateInAuction), c.stateInAuction, this)
        decreases nrMaxSteps - k
      {
        var played;
        label before:
        played, rest, v := PlayRound(house, k, rest, draws, v);
        forall c | c in roster0
          ensures Detached(old(c.stateInAuction), c.stateInAuction, this)
        {
          DetachedTrans(old(c.stateInAuction), old@before(c.stateInAuction), c.stateInAuction, this);
        }
        k := k + 1;
        match played {
        case Stalled =>
          stop := Some(Rounds.Blocked);
          break;
        case Threw(e) =>
          stop := Some(Rounds.Raised(e));
          break;
        case Played(w) =>
          winner := Some(w);
          gw := Some(Resolution.Offer(w.bid, w.client.nrOfWonAuctions, w.client));
        }
        if |registeredClients| == 1 {
          break;
        }
      }
      rounds := k;
      ClientsOfView(registeredClients);
    }

    /**
      What auctionProcess does, from the state before it to the state after
      it. The rounds are exactly Run on the roster as it stood when the
      auction began; a loop that waits forever ends `Blocked` and one that
      throws ends with its exception. When the loop finishes, the minimum
      bid is Run's and the roster keeps the clients Run leaves (it is not
      cleared after a sale); without a last winner `requireNonNull` throws.
      The product is sold to the last winner when its bid exceeds the
      product's minimum price, and otherwise stays unsold with the roster
      untouched. A sale adds one to the winner's count of won auctions, pays
      the winner's broker the tier's fee, sets the price and takes the
      product out of the catalogue, and leaves no registered client with an
      entry for this auction. When no sale is attempted, no count of wins, no
      broker's money, no price and no catalogue changes. Every client of the
      starting roster keeps its entries, except possibly the one for this
      auction.
     */
    twostate predicate Processed(house: AuctionHouse, input: seq<int>, draws: (nat, nat) -> Bidding.Digit,
                                 verdict: Rounds.Verdict, rounds: nat)
      reads *
    {
      var r := Rounds.Run(old(View()), 0, nrMaxSteps, old(minBid), old(sumToBid), input, draws, None);
      && rounds == r.rounds
      && (r.Stuck? <==> verdict == Rounds.Blocked)
      && (r.Halted? ==> verdict == Rounds.Raised(r.error))
      && (r.Finished? ==> minBid == r.minBid && registeredClients == Rounds.Clients(r.roster))
      && (r.Finished? && r.winner.None? ==> verdict == Rounds.Raised(NullPointer))
      && (r.Finished? && r.winner.Some? && r.winner.value.bid as real <= productToSale.minimumPrice ==>
            verdict == Rounds.NotSold(r.winner.value.bid) && View() == r.roster)
      && (r.Finished? && r.winner.Some? && r.winner.value.bid as real > productToSale.minimumPrice ==>
            && r.winner.value.client.nrOfWonAuctions == old(r.winner.value.client.nrOfWonAuctions) + 1
            && (|| verdict == Rounds.Sold(r.winner.value.bid)
                || verdict in {Rounds.Raised(NullPointer), Rounds.Raised(IllegalState), Rounds.Raised(InvalidParameter)}))
      && (!(r.Finished? && r.winner.Some? && r.winner.value.bid as real > productToSale.minimumPrice) ==>
            && (forall c :: c in old(SaleWinner(input, draws)) ==> c.nrOfWonAuctions == old(c.nrOfWonAuctions))
            && (forall b :: b in old(SaleBroker(input, draws)) ==> b.brokerMoney == old(b.brokerMoney))
            && productToSale.salePrice == old(productToSale.salePrice) && house.productList == old(house.productList))
      && (verdict.Sold? ==>
            && r.Finished? && r.winner.Some? && verdict.price == r.winner.value.bid
            && var w := r.winner.value.client;
            && this in old(w.stateInAuction)
            && var broker := old(w.stateInAuction[this].broker);
            && Commission.Rate(w.kind, w.nrOfAuctionsInvolved).Some?
            && broker.brokerMoney ==
                 old(broker.brokerMoney) + Commission.Fee(verdict.price, Commission.Rate(w.kind, w.nrOfAuctionsInvolved).value)
            && old(SaleBroker(input, draws)) == {broker}
            && productToSale.salePrice == Storage.Holder(Some(verdict.price as real))
            && house.productList == WithoutId(old(house.productList), productToSale.id)
            && (forall c :: c in old(registeredClients) && c in registeredClients ==>
                  c.stateInAuction == old(c.stateInAuction) - {this}))
      && (forall c :: c in old(registeredClients) ==> Detached(old(c.stateInAuction), c.stateInAuction, this))
    }

    /** auctionProcess once both waits are over: the round loop, then the sale, as Processed says. */
    method AuctionProcess(house: AuctionHouse, input: seq<int>, draws: (nat, nat) -> Bidding.Digit)
      returns (verdict: Rounds.Verdict, rounds: nat)
      requires Registered()
      modifies this`minBid, this`sumToBid, this`registeredClients, registeredClients`stateInAuction
      modifies SaleWinner(input, draws)`nrOfWonAuctions, SaleBroker(input, draws)`brokerMoney
      modifies productToSale`salePrice, house`productList
      ensures Processed(house, input, draws, verdict, rounds)
    {
      var stop, winner;
      stop, rounds, winner := RunRounds(house, input, draws);
      if stop.Some? {
        verdict := stop.value;
      } else if winner.None? {
        verdict := Rounds.Raised(NullPointer);
      } else {
        var client := winner.value.client;
        if this in client.stateInAuction {
          assert client.stateInAuction[this] == old(client.stateInAuction)[this];
        }
        label settle:
        verdict := Settle(house, winner.value);
        forall c | c in old(registeredClients)
          ensures Detached(old(c.stateInAuction), c.stateInAuction, this)
        {
          DetachedTrans(old(c.stateInAuction), old@settle(c.stateInAuction), c.stateInAuction, this);
        }
        if verdict.Sold? {
          forall c | c in old(registeredClients) && c in registeredClients
            ensures c.stateInAuction == old(c.stateInAuction) - {this}
          {
            DetachedTwice(old(c.stateInAuction), old@settle(c.stateInAuction), this);
          }
        }
      }
    }

    /**
      The last winner of the round loop, as Run computes it from the current
      state, when it is a registered client: the only client whose count of
      won auctions auctionProcess can change.
     */
    ghost function SaleWinner(input: seq<int>, draws: (nat, nat) -> Bidding.Digit): set<Client>
      reads this`registeredClients, registeredClients`maxBid, registeredClients`stateInAuction
      reads registeredClients`nrOfWonAuctions, this`minBid, this`sumToBid
    {
      var r := Rounds.Run(View(), 0, nrMaxSteps, minBid, sumToBid, input, draws, None);
      if r.Finished? && r.winner.Some? && r.winner.value.client in registeredClients then {r.winner.value.client} else {}
    }

    /** That winner's broker for this auction: the only broker whose money auctionProcess can change. */
    ghost function SaleBroker(input: seq<int>, draws: (nat, nat) -> Bidding.Digit): set<Broker>
      reads this`registeredClients, registeredClients`maxBid, registeredClients`stateInAuction
      reads registeredClients`nrOfWonAuctions, this`minBid, this`sumToBid
    {
      var r := Rounds.Run(View(), 0, nrMaxSteps, minBid, sumToBid, input, draws, None);
      if r.Finished? && r.winner.Some? && r.winner.value.client in registeredClients
         && this in r.winner.value.client.stateInAuction
      then {r.winner.value.client.stateInAuction[this].broker} else {}
    }

    /**
      The end of auctionProcess once the loop has a winner: the product is
      sold when the winning bid exceeds its minimum price, and otherwise
      nothing changes. A sale goes as sellTheProduct says; it ends `Sold`
      when every step of it succeeds.
     */
    method Settle(house: AuctionHouse, winner: BidEntry) returns (verdict: Rounds.Verdict)
      modifies winner.client`nrOfWonAuctions, productToSale`salePrice, house`productList, registeredClients`stateInAuction
      modifies (if this in winner.client.stateInAuction then {winner.client.stateInAuction[this].broker} else {})`brokerMoney
      ensures winner.bid as real <= productToSale.minimumPrice ==>
        && verdict == Rounds.NotSold(winner.bid) && View() == old(View())
        && winner.client.nrOfWonAuctions == old(winner.client.nrOfWonAuctions)
        && (this in old(winner.client.stateInAuction) ==>
              old(winner.client.stateInAuction[this].broker).brokerMoney == old(winner.client.stateInAuction[this].broker.brokerMoney))
        && productToSale.salePrice == old(productToSale.salePrice) && house.productList == old(house.productList)
        && forall c :: c in registeredClients ==> c.stateInAuction == old(c.stateInAuction)
      ensures winner.bid as real > productToSale.minimumPrice ==>
        && winner.client.nrOfWonAuctions == old(winner.client.nrOfWonAuctions) + 1
        && (|| verdict == Rounds.Sold(winner.bid)
            || verdict in {Rounds.Raised(NullPointer), Rounds.Raised(IllegalState), Rounds.Raised(InvalidParameter)})
      ensures verdict.Sold? ==>
        && verdict.price == winner.bid && this in old(winner.client.stateInAuction)
        && var broker := old(winner.client.stateInAuction[this].broker);
        && Commission.Rate(winner.client.kind, winner.client.nrOfAuctionsInvolved).Some?
        && broker.brokerMoney == old(broker.brokerMoney)
             + Commission.Fee(winner.bid, Commission.Rate(winner.client.kind, winner.client.nrOfAuctionsInvolved).value)
        && productToSale.salePrice == Storage.Holder(Some(winner.bid as real))
        && house.productList == WithoutId(old(house.productList), productToSale.id)
        && forall c :: c in registeredClients ==> c.stateInAuction == old(c.stateInAuction) - {this}
      ensures forall c :: c in registeredClients ==> Detached(old(c.stateInAuction), c.stateInAuction, this)
    {
      if winner.bid as real > productToSale.minimumPrice {
        var o := SellTheProduct(house, winner);
        verdict := if o.Pass? then Rounds.Sold(winner.bid) else Rounds.Raised(o.error);
      } else {
        verdict := Rounds.NotSold(winner.bid);
      }
    }

    /**
      startAuction once the quorum is reached: every registered client's
      broker is read for the log, a null dereference for a client without an
      entry; only then does it wait for the start flag, and once the flag is
      set it runs auctionProcess.
     */
    method StartAuction(house: AuctionHouse, input: seq<int>, draws: (nat, nat) -> Bidding.Digit)
      returns (verdict: Rounds.Verdict, rounds: nat)
      requires nrCurrentParticipants >= nrRequiredParticipants && (Registered() ==> startFlag)
      modifies this`minBid, this`sumToBid, this`registeredClients, registeredClients`stateInAuction
      modifies SaleWinner(input, draws)`nrOfWonAuctions, SaleBroker(input, draws)`brokerMoney
      modifies productToSale`salePrice, house`productList
      ensures !old(Registered()) ==>
        && verdict == Rounds.Raised(NullPointer) && rounds == 0 && unchanged(this)
        && productToSale.salePrice == old(productToSale.salePrice) && house.productList == old(house.productList)
        && (forall c :: c in registeredClients ==> unchanged(c))
        && (forall b :: b in old(SaleBroker(input, draws)) ==> unchanged(b))
      ensures old(Registered()) ==> Processed(house, input, draws, verdict, rounds)
    {
      ViewOfAt(registeredClients);
      if exists j :: 0 <= j < |registeredClients| && this !in registeredClients[j].stateInAuction {
        return Rounds.Raised(NullPointer), 0;
      }
      verdict, rounds := AuctionProcess(house, input, draws);
    }
  }
}
