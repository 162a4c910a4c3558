/**
  The bidding rounds of one auction (Auction.auctionProcess, auctionStep,
  checkValidBid and disqualifyClientsFromAuction) as functions of a snapshot
  of the registered clients. The imperative methods of `Institution.Auction`
  are proved to compute exactly these functions; the properties of the
  rounds are proved here, once, about the functions.

  The two nondeterministic inputs are explicit: `draws(round, position)` is
  the `nextInt(10)` of the passive bid of the client at `position` in round
  `round`, and `input` is the sequence of values submitted for active
  clients, in the order they reach the single-slot mailbox `sumToBid`.
  Running out of `input` while waiting means the auction thread would wait
  forever; a round then ends `Starved` and the auction `Blocked`.
 */
module Rounds {
  import opened Errors
  import Bidding
  import Resolution
  import Seqs

  /**
    What a round needs to know of a registered client: its `maxBid`, whether
    it is active in this auction, its `nrOfWonAuctions` (the tie-break), and
    whether it has an entry for this auction at all (every registered client
    does; without one, reading its broker is a null dereference).
   */
  datatype Bidder<C> = Bidder(client: C, maxBid: int, active: bool, wins: int, entered: bool)

  /** The clients of a roster, in order. */
  function Clients<C>(bs: seq<Bidder<C>>): (cs: seq<C>)
    ensures |cs| == |bs|
  {
    seq(|bs|, j requires 0 <= j < |bs| => bs[j].client)
  }

  /** The clients disqualifyClientsFromAuction keeps: those with `maxBid >= minBid`. */
  function Affordable<C>(bs: seq<Bidder<C>>, minBid: int): (kept: seq<Bidder<C>>)
    ensures |kept| <= |bs|
    ensures forall j :: 0 <= j < |kept| ==> kept[j].maxBid >= minBid
  {
    Seqs.Filter(bs, (b: Bidder<C>) => b.maxBid >= minBid)
  }

  predicate AllAfford<C>(bs: seq<Bidder<C>>, minBid: int) {
    forall j :: 0 <= j < |bs| ==> bs[j].maxBid >= minBid
  }

  /**
    Disqualification removes exactly the clients whose maximum is below the
    minimum bid; every survivor can afford it, and a second pass removes
    nothing.
   */
  lemma AffordableSpec<C>(bs: seq<Bidder<C>>, minBid: int)
    ensures forall b :: b in Affordable(bs, minBid) ==> b in bs && b.maxBid >= minBid
    ensures forall b :: b in bs && b.maxBid >= minBid ==> b in Affordable(bs, minBid)
    ensures AllAfford(Affordable(bs, minBid), minBid)
    ensures Affordable(Affordable(bs, minBid), minBid) == Affordable(bs, minBid)
    ensures AllAfford(bs, minBid) <==> Affordable(bs, minBid) == bs
  {
    var p := (b: Bidder<C>) => b.maxBid >= minBid;
    Seqs.FilterMembers(bs, p);
    Seqs.FilterIdempotent(bs, p);
    Seqs.FilterKeepsAll(bs, p);
  }

  /** Survivors keep their relative order. */
  lemma AffordableConcat<C>(a: seq<Bidder<C>>, b: seq<Bidder<C>>, minBid: int)
    ensures Affordable(a + b, minBid) == Affordable(a, minBid) + Affordable(b, minBid)
  {
    Seqs.FilterConcat(a, b, (x: Bidder<C>) => x.maxBid >= minBid);
  }

  /** One client survives disqualification exactly when it can afford the minimum bid. */
  lemma AffordableOne<C>(b: Bidder<C>, minBid: int)
    ensures Affordable([b], minBid) == if b.maxBid >= minBid then [b] else []
  {
    assert [b][1..] == [];
  }

  /** A measure for the retry loop of checkValidBid: an empty slot, a valid value, a value to clamp. */
  function Pending(slot: Option<int>, maxBid: int): nat {
    if slot.None? then 0 else if slot.value > maxBid then 2 else 1
  }

  /**
    checkValidBid together with the waits for the mailbox: starting from the
    slot `sumToBid` and the submissions still to come, a value above `maxBid`
    is replaced by `maxBid`, a value below `minBid` is discarded and the next
    submission awaited, and any other value is accepted. The result is the
    accepted value and the submissions not yet read, or `None` when the
    submissions run out first. An accepted value always lies in
    [minBid, maxBid], so a client whose maximum is below the minimum bid is
    never accepted.
   */
  function Accept(slot: Option<int>, input: seq<int>, minBid: int, maxBid: int): (r: Option<(int, seq<int>)>)
    ensures r.Some? ==> minBid <= r.value.0 <= maxBid
    ensures r.Some? ==> |r.value.1| <= |input| && r.value.1 == input[|input| - |r.value.1|..]
    decreases |input|, Pending(slot, maxBid)
  {
    match slot
    case None =>
      if input == [] then None else Accept(Some(input[0]), input[1..], minBid, maxBid)
    case Some(v) =>
      if v > maxBid then Accept(Some(maxBid), input, minBid, maxBid)
      else if v < minBid then Accept(None, input, minBid, maxBid)
      else Some((v, input))
  }

  /** The values checkValidBid can read, in order: the pending one, then the later submissions. */
  function Submissions(slot: Option<int>, input: seq<int>): seq<int> {
    (if slot.Some? then [slot.value] else []) + input
  }

  /**
    An independent description of the accepted bid for an affordable client:
    the first submission that reaches `minBid`, lowered to `maxBid` if it is
    above it, with the submissions after it left in the mailbox queue.
   */
  function FirstValid(xs: seq<int>, minBid: int, maxBid: int): (r: Option<(int, seq<int>)>)
    requires minBid <= maxBid
    ensures r.Some? ==> minBid <= r.value.0 <= maxBid
  {
    if xs == [] then None
    else if xs[0] >= minBid then Some((if xs[0] > maxBid then maxBid else xs[0], xs[1..]))
    else FirstValid(xs[1..], minBid, maxBid)
  }

  /**
    Every submission below the minimum bid that precedes the accepted one is
    discarded, and an affordable client's wait ends exactly when some
    submission reaches the minimum bid.
   */
  lemma {:induction false} FirstValidSkips(xs: seq<int>, minBid: int, maxBid: int)
    requires minBid <= maxBid
    ensures FirstValid(xs, minBid, maxBid).None? <==> forall k :: 0 <= k < |xs| ==> xs[k] < minBid
    ensures forall n :: 0 <= n <= |xs| && (forall k :: 0 <= k < n ==> xs[k] < minBid) ==>
      FirstValid(xs, minBid, maxBid) == FirstValid(xs[n..], minBid, maxBid)
  {
    if xs != [] {
      FirstValidSkips(xs[1..], minBid, maxBid);
      forall n | 0 < n <= |xs| && (forall k :: 0 <= k < n ==> xs[k] < minBid)
        ensures FirstValid(xs, minBid, maxBid) == FirstValid(xs[n..], minBid, maxBid)
      {
        assert xs[1..][n - 1..] == xs[n..];
        assert forall k :: 0 <= k < n - 1 ==> xs[1..][k] == xs[k + 1];
      }
      assert xs[0..] == xs;
    }
  }

  /** Accept is FirstValid over the values checkValidBid can read. */
  lemma {:induction false} AcceptIsFirstValid(slot: Option<int>, input: seq<int>, minBid: int, maxBid: int)
    requires minBid <= maxBid
    ensures Accept(slot, input, minBid, maxBid) == FirstValid(Submissions(slot, input), minBid, maxBid)
    decreases |input|, Pending(slot, maxBid)
  {
    match slot
    case None =>
      assert Submissions(None, input) == input;
      if input != [] {
        AcceptIsFirstValid(Some(input[0]), input[1..], minBid, maxBid);
        assert Submissions(Some(input[0]), input[1..]) == input;
      }
    case Some(v) =>
      assert Submissions(slot, input) == [v] + input;
      assert ([v] + input)[1..] == input;
      if v > maxBid {
        assert Accept(Some(maxBid), input, minBid, maxBid) == Some((maxBid, input));
      } else if v < minBid {
        AcceptIsFirstValid(None, input, minBid, maxBid);
        assert Submissions(None, input) == input;
      }
  }

  /** What one round produced: the bids in roster order and the mailbox afterwards. */
  datatype Collected = Collected(bids: seq<int>, slot: Option<int>, rest: seq<int>) | Starved

  /**
    auctionStep from roster position `i` on, with the bids of positions
    before `i` in `acc`: an active client's bid is the value Accept
    validates, after which the slot is emptied; a passive client's bid is
    the min-max formula on (minBid, maxBid) with this round's draw for its
    position.
   */
  function Collect<C>(bs: seq<Bidder<C>>, i: nat, minBid: int, slot: Option<int>, input: seq<int>,
                      round: nat, draws: (nat, nat) -> Bidding.Digit, acc: seq<int>): (r: Collected)
    requires i <= |bs| && |acc| == i
    ensures r.Collected? ==> |r.bids| == |bs| && r.bids[..i] == acc
    decreases |bs| - i
  {
    if i == |bs| then Collected(acc, slot, input)
    else if bs[i].active then
      match Accept(slot, input, minBid, bs[i].maxBid)
      case None => Starved
      case Some((v, rest)) => Collect(bs, i + 1, minBid, None, rest, round, draws, acc + [v])
    else
      var bid := Bidding.MinMaxBid(minBid, bs[i].maxBid, draws(round, i));
      Collect(bs, i + 1, minBid, slot, input, round, draws, acc + [bid])
  }

  /**
    One client's turn in a round: given the bid the turn produced (as
    Accept or the min-max formula says) and the mailbox after it, Collect at
    position `i` is Collect from `i + 1` on, or starves with the turn.
   */
  lemma CollectTurn<C>(bs: seq<Bidder<C>>, i: nat, minBid: int, slot: Option<int>, input: seq<int>,
                       round: nat, draws: (nat, nat) -> Bidding.Digit, acc: seq<int>,
                       bid: Option<int>, slot': Option<int>, rest: seq<int>)
    requires i < |bs| && |acc| == i
    requires bs[i].active ==>
      var a := Accept(slot, input, minBid, bs[i].maxBid);
      && (bid.None? <==> a.None?)
      && (bid.Some? ==> bid.value == a.value.0 && rest == a.value.1 && slot' == None)
    requires !bs[i].active ==>
      bid == Some(Bidding.MinMaxBid(minBid, bs[i].maxBid, draws(round, i))) && slot' == slot && rest == input
    ensures Collect(bs, i, minBid, slot, input, round, draws, acc) ==
      if bid.None? then Starved else Collect(bs, i + 1, minBid, slot', rest, round, draws, acc + [bid.value])
  {
  }

  /** The bid a round records for one client. */
  ghost predicate BidFits<C>(b: Bidder<C>, minBid: int, bid: int, r: Bidding.Digit) {
    if b.active then minBid <= bid <= b.maxBid
    else bid == Bidding.MinMaxBid(minBid, b.maxBid, r)
  }

  /** The bid a round records at roster position `j` is as BidFits says. */
  lemma {:induction false} CollectBidAt<C>(bs: seq<Bidder<C>>, i: nat, minBid: int, slot: Option<int>, input: seq<int>,
                                           round: nat, draws: (nat, nat) -> Bidding.Digit, acc: seq<int>, j: nat)
    requires i <= j < |bs| && |acc| == i
    ensures var r := Collect(bs, i, minBid, slot, input, round, draws, acc);
      r.Collected? ==> BidFits(bs[j], minBid, r.bids[j], draws(round, j))
    decreases |bs| - i
  {
    var r := Collect(bs, i, minBid, slot, input, round, draws, acc);
    var bid, slot', input';
    if bs[i].active {
      if Accept(slot, input, minBid, bs[i].maxBid).None? {
        return;
      }
      bid, slot', input' := Accept(slot, input, minBid, bs[i].maxBid).value.0, None, Accept(slot, input, minBid, bs[i].maxBid).value.1;
    } else {
      bid, slot', input' := Bidding.MinMaxBid(minBid, bs[i].maxBid, draws(round, i)), slot, input;
    }
    assert r == Collect(bs, i + 1, minBid, slot', input', round, draws, acc + [bid]);
    if j == i {
      if r.Collected? {
        assert r.bids[..i + 1] == acc + [bid];
        assert r.bids[i] == (acc + [bid])[i];
      }
    } else {
      CollectBidAt(bs, i + 1, minBid, slot', input', round, draws, acc + [bid], j);
    }
  }

  /**
    The mailbox slot is empty after any active client and untouched, with
    the submissions, when every client is passive; a round can only starve
    on an active client.
   */
  lemma {:induction false} CollectMailbox<C>(bs: seq<Bidder<C>>, i: nat, minBid: int, slot: Option<int>, input: seq<int>,
                                             round: nat, draws: (nat, nat) -> Bidding.Digit, acc: seq<int>)
    requires i <= |bs| && |acc| == i
    ensures var r := Collect(bs, i, minBid, slot, input, round, draws, acc);
      r.Collected? && (exists j :: i <= j < |bs| && bs[j].active) ==> r.slot.None?
    ensures var r := Collect(bs, i, minBid, slot, input, round, draws, acc);
      r.Collected? && (forall j :: i <= j < |bs| ==> !bs[j].active) ==> r.slot == slot && r.rest == input
    ensures Collect(bs, i, minBid, slot, input, round, draws, acc).Starved? ==> exists j :: i <= j < |bs| && bs[j].active
    decreases |bs| - i
  {
    if i < |bs| {
      if bs[i].active {
        match Accept(slot, input, minBid, bs[i].maxBid)
        case None =>
        case Some((v, rest)) =>
          CollectMailbox(bs, i + 1, minBid, None, rest, round, draws, acc + [v]);
      } else {
        var bid := Bidding.MinMaxBid(minBid, bs[i].maxBid, draws(round, i));
        CollectMailbox(bs, i + 1, minBid, slot, input, round, draws, acc + [bid]);
      }
    }
  }

  /** When every client can afford the minimum bid, every bid of the round lies between it and the bidder's maximum. */
  lemma RoundBidsInRange<C>(bs: seq<Bidder<C>>, minBid: int, slot: Option<int>, input: seq<int>,
                            round: nat, draws: (nat, nat) -> Bidding.Digit)
    requires AllAfford(bs, minBid)
    ensures var r := Collect(bs, 0, minBid, slot, input, round, draws, []);
      r.Collected? ==> forall j :: 0 <= j < |bs| ==> minBid <= r.bids[j] <= bs[j].maxBid
  {
    forall j | 0 <= j < |bs|
      ensures var r := Collect(bs, 0, minBid, slot, input, round, draws, []);
        r.Collected? ==> minBid <= r.bids[j] <= bs[j].maxBid
    {
      CollectBidAt(bs, 0, minBid, slot, input, round, draws, [], j);
    }
  }

  /** The (bid, client) pairs of a round, with each client's count of won auctions. */
  function Offers<C>(bs: seq<Bidder<C>>, bids: seq<int>): (os: seq<Resolution.Offer<C>>)
    requires |bids| == |bs|
    ensures |os| == |bs|
    ensures forall j :: 0 <= j < |bs| ==> os[j] == Resolution.Offer(bids[j], bs[j].wins, bs[j].client)
  {
    seq(|bs|, j requires 0 <= j < |bs| => Resolution.Offer(bids[j], bs[j].wins, bs[j].client))
  }

  /**
    When every client of a non-empty roster can afford the minimum bid, the
    round has a winner; its bid, the new minimum, is at least the old one;
    and the winner can afford it, so it survives disqualification.
   */
  lemma RoundWinnerSurvives<C>(bs: seq<Bidder<C>>, minBid: int, bids: seq<int>, round: nat, draws: (nat, nat) -> Bidding.Digit)
    requires bs != [] && AllAfford(bs, minBid) && |bids| == |bs|
    requires forall j :: 0 <= j < |bs| ==> minBid <= bids[j] <= bs[j].maxBid
    ensures Resolution.WinningBid(Offers(bs, bids)).Some?
    ensures var w := Resolution.WinningBid(Offers(bs, bids)).value;
      && minBid <= w.bid
      && Retains(Affordable(bs, w.bid), w)
  {
    var os := Offers(bs, bids);
    Resolution.WinningBidSpec(os);
    var w := Resolution.WinningBid(os).value;
    var j :| 0 <= j < |os| && os[j] == w;
    AffordableSpec(bs, w.bid);
    assert bs[j] in Affordable(bs, w.bid);
  }

  /** How one round ended. */
  datatype Step<C> =
    | Advanced(kept: seq<Bidder<C>>, minBid: int, slot: Option<int>, rest: seq<int>, winner: Resolution.Offer<C>)
    | StepStarved
    | StepFailed(error: Error)

  /**
    One iteration of the round loop of auctionProcess: collect the bids,
    take the winner, make the winning bid the new minimum and disqualify the
    clients who cannot afford it. An empty round has no winner, and reading
    its bid is a null dereference; an empty roster after disqualification is
    the IllegalStateException.
   */
  function Round<C>(roster: seq<Bidder<C>>, k: nat, minBid: int, slot: Option<int>, input: seq<int>,
                    draws: (nat, nat) -> Bidding.Digit): (s: Step<C>)
  {
    match Collect(roster, 0, minBid, slot, input, k, draws, [])
    case Starved => StepStarved
    case Collected(bids, slot', rest) =>
      match Resolution.WinningBid(Offers(roster, bids))
      case None => StepFailed(NullPointer)
      case Some(w) =>
        var kept := Affordable(roster, w.bid);
        if kept == [] then StepFailed(IllegalState) else Advanced(kept, w.bid, slot', rest, w)
  }

  /** A round by its parts: the bids collected and the winner of the offers they make. */
  lemma RoundOf<C>(roster: seq<Bidder<C>>, k: nat, minBid: int, slot: Option<int>, input: seq<int>,
                   draws: (nat, nat) -> Bidding.Digit, c: Collected, best: Option<Resolution.Offer<C>>)
    requires c == Collect(roster, 0, minBid, slot, input, k, draws, [])
    requires c.Collected? ==> best == Resolution.WinningBid(Offers(roster, c.bids))
    ensures c.Starved? ==> Round(roster, k, minBid, slot, input, draws) == StepStarved
    ensures c.Collected? && best.None? ==> Round(roster, k, minBid, slot, input, draws) == StepFailed(NullPointer)
    ensures c.Collected? && best.Some? ==>
      var kept := Affordable(roster, best.value.bid);
      Round(roster, k, minBid, slot, input, draws) ==
        if kept == [] then StepFailed(IllegalState) else Advanced(kept, best.value.bid, c.slot, c.rest, best.value)
  {
  }

  /** The winner `w` is still in the roster, with the same count of won auctions. */
  ghost predicate Retains<C>(roster: seq<Bidder<C>>, w: Resolution.Offer<C>) {
    exists b :: b in roster && b.client == w.client && b.wins == w.wins
  }

  /**
    When every client of a non-empty roster can afford the minimum bid, a
    round never fails; when it completes, the new minimum is the winner's
    bid and not below the old one, every survivor can afford it, and the
    winner is among the survivors.
   */
  lemma RoundKeepsFloor<C>(roster: seq<Bidder<C>>, k: nat, minBid: int, slot: Option<int>, input: seq<int>,
                           draws: (nat, nat) -> Bidding.Digit)
    requires roster != [] && AllAfford(roster, minBid)
    ensures !Round(roster, k, minBid, slot, input, draws).StepFailed?
    ensures var s := Round(roster, k, minBid, slot, input, draws);
      s.Advanced? ==>
        && s.kept != [] && minBid <= s.minBid && s.minBid == s.winner.bid
        && AllAfford(s.kept, s.minBid) && Retains(s.kept, s.winner)
  {
    RoundBidsInRange(roster, minBid, slot, input, k, draws);
    var c := Collect(roster, 0, minBid, slot, input, k, draws, []);
    if c.Collected? {
      RoundWinnerSurvives(roster, minBid, c.bids, k, draws);
      var w := Resolution.WinningBid(Offers(roster, c.bids)).value;
      AffordableSpec(roster, w.bid);
      assert Affordable(roster, w.bid) != [];
    }
  }

  /** How the round loop ended. `rounds` counts the rounds begun. */
  datatype RunResult<C> =
    | Finished(rounds: nat, roster: seq<Bidder<C>>, minBid: int, slot: Option<int>, rest: seq<int>,
               winner: Option<Resolution.Offer<C>>)
    | Stuck(rounds: nat)
    | Halted(rounds: nat, error: Error)

  /**
    The round loop of auctionProcess from round `k` on: rounds run while
    fewer than `nrMaxSteps` have begun, and the loop stops early once a
    round leaves exactly one client. `winner` is the last round's winner.
   */
  function Run<C>(roster: seq<Bidder<C>>, k: nat, nrMaxSteps: int, minBid: int, slot: Option<int>, input: seq<int>,
                  draws: (nat, nat) -> Bidding.Digit, winner: Option<Resolution.Offer<C>>): (r: RunResult<C>)
    decreases nrMaxSteps - k
  {
    if k >= nrMaxSteps then Finished(k, roster, minBid, slot, input, winner)
    else
      match Round(roster, k, minBid, slot, input, draws)
      case StepStarved => Stuck(k + 1)
      case StepFailed(e) => Halted(k + 1, e)
      case Advanced(kept, m, slot', rest, w) =>
        if |kept| == 1 then Finished(k + 1, kept, m, slot', rest, Some(w))
        else Run(kept, k + 1, nrMaxSteps, m, slot', rest, draws, Some(w))
  }

  /**
    The loop runs at most `nrMaxSteps` rounds, and it ends before the last
    of them only when exactly one client is left.
   */
  lemma {:induction false} RunBounds<C>(roster: seq<Bidder<C>>, k: nat, nrMaxSteps: int, minBid: int, slot: Option<int>,
                                        input: seq<int>, draws: (nat, nat) -> Bidding.Digit, winner: Option<Resolution.Offer<C>>)
    ensures var r := Run(roster, k, nrMaxSteps, minBid, slot, input, draws, winner);
      k <= r.rounds && (k < nrMaxSteps ==> r.rounds <= nrMaxSteps)
    ensures k >= nrMaxSteps ==> Run(roster, k, nrMaxSteps, minBid, slot, input, draws, winner) == Finished(k, roster, minBid, slot, input, winner)
    ensures var r := Run(roster, k, nrMaxSteps, minBid, slot, input, draws, winner);
      r.Finished? && r.rounds < nrMaxSteps ==> |r.roster| == 1
    decreases nrMaxSteps - k
  {
    if k < nrMaxSteps {
      var r := Run(roster, k, nrMaxSteps, minBid, slot, input, draws, winner);
      match Round(roster, k, minBid, slot, input, draws)
      case StepStarved => assert r == Stuck(k + 1);
      case StepFailed(e) => assert r == Halted(k + 1, e);
      case Advanced(kept, m, slot', rest, w) =>
        if |kept| == 1 {
          assert r == Finished(k + 1, kept, m, slot', rest, Some(w));
        } else {
          assert r == Run(kept, k + 1, nrMaxSteps, m, slot', rest, draws, Some(w));
          RunBounds(kept, k + 1, nrMaxSteps, m, slot', rest, draws, Some(w));
        }
    }
  }

  /**
    When every registered client can afford the minimum bid at the start,
    the loop never fails: the roster never becomes empty and a round always
    has a winner. The minimum bid never decreases, every remaining client can
    still afford it, and after at least one round it equals the last
    winner's bid, and that winner is still registered (the requirement on
    `winner` holds for the `None` the loop starts with).
   */
  lemma {:induction false} RunKeepsFloor<C>(roster: seq<Bidder<C>>, k: nat, nrMaxSteps: int, minBid: int, slot: Option<int>,
                                            input: seq<int>, draws: (nat, nat) -> Bidding.Digit, winner: Option<Resolution.Offer<C>>)
    requires roster != [] && AllAfford(roster, minBid)
    requires winner.Some? ==> winner.value.bid == minBid && Retains(roster, winner.value)
    ensures !Run(roster, k, nrMaxSteps, minBid, slot, input, draws, winner).Halted?
    ensures var r := Run(roster, k, nrMaxSteps, minBid, slot, input, draws, winner);
      r.Finished? ==> r.roster != [] && minBid <= r.minBid && AllAfford(r.roster, r.minBid)
    ensures var r := Run(roster, k, nrMaxSteps, minBid, slot, input, draws, winner);
      r.Finished? && (k < r.rounds || winner.Some?) ==> r.winner.Some?
    ensures var r := Run(roster, k, nrMaxSteps, minBid, slot, input, draws, winner);
      r.Finished? && r.winner.Some? ==> r.winner.value.bid == r.minBid && Retains(r.roster, r.winner.value)
    decreases nrMaxSteps - k
  {
    if k < nrMaxSteps {
      RoundKeepsFloor(roster, k, minBid, slot, input, draws);
      var r := Run(roster, k, nrMaxSteps, minBid, slot, input, draws, winner);
      match Round(roster, k, minBid, slot, input, draws)
      case StepStarved => assert r == Stuck(k + 1);
      case Advanced(kept, m, slot', rest, w) =>
        if |kept| == 1 {
          assert r == Finished(k + 1, kept, m, slot', rest, Some(w));
        } else {
          assert r == Run(kept, k + 1, nrMaxSteps, m, slot', rest, draws, Some(w));
          RunKeepsFloor(kept, k + 1, nrMaxSteps, m, slot', rest, draws, Some(w));
        }
    }
  }

  /**
    The "should not be reached" failure is reachable: a single passive client
    whose maximum is -5 bids -2 with a draw of 1 at minimum bid 0, can no
    longer afford that bid, and is disqualified, leaving the roster empty.
   */
  lemma EmptiedRosterExample<C>(c: C, draws: (nat, nat) -> Bidding.Digit)
    requires draws(0, 0) == 1
    ensures Run([Bidder(c, -5, false, 0, true)], 0, 1, 0, None, [], draws, None) == Halted(1, IllegalState)
  {
    var bs := [Bidder(c, -5, false, 0, true)];
    assert Bidding.MinMaxBid(0, -5, 1) == -2;
    assert Collect(bs, 0, 0, None, [], 0, draws, []) == Collected([-2], None, []);
    var os := Offers(bs, [-2]);
    assert os == [Resolution.Offer(-2, 0, c)];
    Resolution.WinningBidSpec(os);
    assert Resolution.WinningBid(os) == Some(Resolution.Offer(-2, 0, c));
    AffordableSpec(bs, -2);
    assert Affordable(bs, -2) == [];
  }

  /**
    The first round of MinBidDropsExample: both clients bid their maxima,
    the bid of -50 wins and becomes the minimum, and only its client is
    kept.
   */
  lemma MinBidDropsRound<C>(a: C, b: C, draws: (nat, nat) -> Bidding.Digit)
    requires draws(0, 0) == 0 && draws(0, 1) == 0
    ensures var bs := [Bidder(a, -100, false, 0, true), Bidder(b, -50, false, 0, true)];
      Round(bs, 0, 0, None, [], draws) == Advanced([bs[1]], -50, None, [], Resolution.Offer(-50, 0, b))
  {
    var bs := [Bidder(a, -100, false, 0, true), Bidder(b, -50, false, 0, true)];
    assert Bidding.MinMaxBid(0, -100, 0) == -100;
    assert Bidding.MinMaxBid(0, -50, 0) == -50;
    assert Collect(bs, 2, 0, None, [], 0, draws, [-100, -50]) == Collected([-100, -50], None, []);
    assert Collect(bs, 1, 0, None, [], 0, draws, [-100]) == Collected([-100, -50], None, []);
    var none: seq<int> := [];
    assert none + [-100] == [-100];
    assert Collect(bs, 0, 0, None, [], 0, draws, none) == Collected([-100, -50], None, []);
    var os := Offers(bs, [-100, -50]);
    assert os == [Resolution.Offer(-100, 0, a), Resolution.Offer(-50, 0, b)];
    Resolution.WinningBidSpec(os);
    assert Resolution.WinningBid(os) == Some(Resolution.Offer(-50, 0, b));
    AffordableSpec(bs, -50);
    assert Affordable(bs, -50) == [bs[1]];
    RoundOf(bs, 0, 0, None, [], draws, Collected([-100, -50], None, []), Some(Resolution.Offer(-50, 0, b)));
  }

  /**
    The minimum bid can go down: two passive clients whose maxima, -100 and
    -50, are below the starting minimum 0 bid their maxima with a draw of 0;
    the bid of -50 wins and becomes the new minimum, the client at -100 is
    disqualified, and the loop ends with one client and a minimum of -50.
   */
  lemma MinBidDropsExample<C>(a: C, b: C, draws: (nat, nat) -> Bidding.Digit)
    requires draws(0, 0) == 0 && draws(0, 1) == 0
    ensures var r := Run([Bidder(a, -100, false, 0, true), Bidder(b, -50, false, 0, true)], 0, 5, 0, None, [], draws, None);
      r.Finished? && r.minBid == -50 < 0
  {
    MinBidDropsRound(a, b, draws);
  }

  /** How an auction ended. */
  datatype Verdict = Sold(price: int) | NotSold(bestBid: int) | Blocked | Raised(error: Error)
}
