/**
  Winner resolution of one bidding round (AuctionHouse.getWinningBid): the
  highest bid wins; among equal highest bids the client with the most won
  auctions wins; among those the pair that comes first in the round's order.
  The functions follow the stream pipeline of the source: a maximum, a
  filter, a second maximum, a second filter and `findFirst`.
 */
module Resolution {
  import opened Errors
  import Seqs

  /**
    One (bid, client) pair of a round, with the client's count of won
    auctions as it reads when the round is resolved.
   */
  datatype Offer<C> = Offer(bid: int, wins: int, client: C)

  /** `stream.max(naturalOrder()).orElse(null)` over integers. */
  function Max(xs: seq<int>): (m: Option<int>)
    ensures m.None? <==> xs == []
    ensures m.Some? ==> m.value in xs && forall x :: x in xs ==> x <= m.value
  {
    if xs == [] then None
    else
      assert xs == [xs[0]] + xs[1..];
      match Max(xs[1..])
      case None => Some(xs[0])
      case Some(rest) => Some(if xs[0] >= rest then xs[0] else rest)
  }

  function Bids<C>(xs: seq<Offer<C>>): (bs: seq<int>)
    ensures |bs| == |xs| && forall i :: 0 <= i < |xs| ==> bs[i] == xs[i].bid
  {
    seq(|xs|, i requires 0 <= i < |xs| => xs[i].bid)
  }

  function Wins<C>(xs: seq<Offer<C>>): (ws: seq<int>)
    ensures |ws| == |xs| && forall i :: 0 <= i < |xs| ==> ws[i] == xs[i].wins
  {
    seq(|xs|, i requires 0 <= i < |xs| => xs[i].wins)
  }

  /** The pairs whose bid equals `top`, in their original order. */
  function WithBid<C>(xs: seq<Offer<C>>, top: int): seq<Offer<C>> {
    Seqs.Filter(xs, (x: Offer<C>) => x.bid == top)
  }

  /** The pairs whose client has won exactly `most` auctions, in their original order. */
  function WithWins<C>(xs: seq<Offer<C>>, most: int): seq<Offer<C>> {
    Seqs.Filter(xs, (x: Offer<C>) => x.wins == most)
  }

  function FindFirst<C>(xs: seq<Offer<C>>): Option<Offer<C>> {
    if xs == [] then None else Some(xs[0])
  }

  /**
    getWinningBid. On an empty round the first maximum is null, so the
    filters keep nothing and the result is null; this is the `None` branch.
   */
  function WinningBid<C>(xs: seq<Offer<C>>): (w: Option<Offer<C>>)
    ensures w.None? <==> xs == []
    ensures w.Some? ==> w.value in xs && forall x :: x in xs ==> x.bid <= w.value.bid
  {
    match Max(Bids(xs))
    case None => None
    case Some(top) =>
      var tied := WithBid(xs, top);
      TiedNonEmpty(xs);
      BestNonEmpty(xs);
      WithBidMembers(xs, top);
      match Max(Wins(tied))
      case None => None
      case Some(most) =>
        WithWinsMembers(tied, most);
        FindFirst(WithWins(tied, most))
  }

  lemma WithBidMembers<C>(xs: seq<Offer<C>>, top: int)
    ensures forall x :: x in WithBid(xs, top) ==> x in xs && x.bid == top
    ensures forall x :: x in xs && x.bid == top ==> x in WithBid(xs, top)
  {
    Seqs.FilterMembers(xs, (x: Offer<C>) => x.bid == top);
  }

  lemma WithWinsMembers<C>(xs: seq<Offer<C>>, most: int)
    ensures forall x :: x in WithWins(xs, most) ==> x in xs && x.wins == most
    ensures forall x :: x in xs && x.wins == most ==> x in WithWins(xs, most)
  {
    Seqs.FilterMembers(xs, (x: Offer<C>) => x.wins == most);
  }

  /** The head of the two filters is the first pair passing both. */
  lemma {:induction false} BothFiltersHead<C>(xs: seq<Offer<C>>, top: int, most: int, j: nat)
    requires j < |xs| && xs[j].bid == top && xs[j].wins == most
    requires forall k :: 0 <= k < j ==> xs[k].bid != top || xs[k].wins != most
    ensures WithWins(WithBid(xs, top), most) != []
    ensures WithWins(WithBid(xs, top), most)[0] == xs[j]
  {
    if j == 0 {
      assert WithBid(xs, top) == [xs[0]] + WithBid(xs[1..], top);
    } else {
      BothFiltersHead(xs[1..], top, most, j - 1);
      var rest := WithBid(xs[1..], top);
      if xs[0].bid == top {
        assert xs[0].wins != most;
        assert WithBid(xs, top) == [xs[0]] + rest;
        assert WithWins([xs[0]] + rest, most) == WithWins(rest, most) by {
          assert ([xs[0]] + rest)[1..] == rest;
        }
      } else {
        assert WithBid(xs, top) == rest;
      }
    }
  }

  /** The highest bid of a non-empty round, the pairs that reach it, and their highest win count. */
  ghost function TopBid<C>(xs: seq<Offer<C>>): int
    requires xs != []
  {
    Max(Bids(xs)).value
  }

  ghost function MostWins<C>(xs: seq<Offer<C>>): int
    requires xs != []
  {
    TiedNonEmpty(xs);
    Max(Wins(WithBid(xs, TopBid(xs)))).value
  }

  lemma TiedNonEmpty<C>(xs: seq<Offer<C>>)
    requires xs != []
    ensures WithBid(xs, TopBid(xs)) != []
    ensures forall x :: x in xs ==> x.bid <= TopBid(xs)
  {
    var bs := Bids(xs);
    var i :| 0 <= i < |bs| && bs[i] == TopBid(xs);
    WithBidMembers(xs, TopBid(xs));
    assert xs[i] in WithBid(xs, TopBid(xs));
    forall x | x in xs
      ensures x.bid <= TopBid(xs)
    {
      var j :| 0 <= j < |xs| && xs[j] == x;
      assert bs[j] in bs;
    }
  }

  lemma BestNonEmpty<C>(xs: seq<Offer<C>>)
    requires xs != []
    ensures WithWins(WithBid(xs, TopBid(xs)), MostWins(xs)) != []
    ensures forall x :: x in WithBid(xs, TopBid(xs)) ==> x.wins <= MostWins(xs)
  {
    TiedNonEmpty(xs);
    var tied := WithBid(xs, TopBid(xs));
    var ws := Wins(tied);
    var k :| 0 <= k < |ws| && ws[k] == MostWins(xs);
    WithWinsMembers(tied, MostWins(xs));
    assert tied[k] in WithWins(tied, MostWins(xs));
    forall x | x in tied
      ensures x.wins <= MostWins(xs)
    {
      var j :| 0 <= j < |tied| && tied[j] == x;
      assert ws[j] in ws;
    }
  }

  /** On a non-empty round the winner is the head of the doubly filtered list. */
  lemma WinnerIsHead<C>(xs: seq<Offer<C>>)
    requires xs != []
    ensures WithWins(WithBid(xs, TopBid(xs)), MostWins(xs)) != []
    ensures WinningBid(xs) == Some(WithWins(WithBid(xs, TopBid(xs)), MostWins(xs))[0])
  {
    TiedNonEmpty(xs);
    BestNonEmpty(xs);
  }

  /**
    `w` is the pair a round `xs` must produce: one of its pairs, with the
    highest bid, whose client has the most won auctions among the pairs with
    that bid, and which is the first pair of the round with that bid and that
    count.
   */
  ghost predicate IsRoundWinner<C>(xs: seq<Offer<C>>, w: Offer<C>) {
    && w in xs
    && (forall x :: x in xs ==> x.bid <= w.bid)
    && (forall x :: x in xs && x.bid == w.bid ==> x.wins <= w.wins)
    && (forall j :: 0 <= j < |xs| && FirstWith(xs, j, w.bid, w.wins) ==> xs[j] == w)
  }

  /** Index `j` holds the first pair of `xs` with this bid and this count of wins. */
  ghost predicate FirstWith<C>(xs: seq<Offer<C>>, j: int, bid: int, wins: int)
    requires 0 <= j < |xs|
  {
    xs[j].bid == bid && xs[j].wins == wins && forall k :: 0 <= k < j ==> xs[k].bid != bid || xs[k].wins != wins
  }

  /** getWinningBid returns null exactly for an empty round, and otherwise the round's winner. */
  lemma WinningBidSpec<C>(xs: seq<Offer<C>>)
    ensures WinningBid(xs).None? <==> xs == []
    ensures WinningBid(xs).Some? ==> IsRoundWinner(xs, WinningBid(xs).value)
  {
    if xs != [] {
      var top, most := TopBid(xs), MostWins(xs);
      var tied := WithBid(xs, top);
      WinnerIsHead(xs);
      TiedNonEmpty(xs);
      BestNonEmpty(xs);
      var best := WithWins(tied, most);
      var w := best[0];
      assert WinningBid(xs) == Some(w);
      WithBidMembers(xs, top);
      WithWinsMembers(tied, most);
      assert w in best;
      assert w in tied && w.wins == most;
      assert w.bid == top;
      forall j | 0 <= j < |xs| && FirstWith(xs, j, w.bid, w.wins)
        ensures xs[j] == w
      {
        BothFiltersHead(xs, top, most, j);
      }
      assert IsRoundWinner(xs, w);
    }
  }

  /** A round has at most one winner. */
  lemma RoundWinnerUnique<C>(xs: seq<Offer<C>>, w1: Offer<C>, w2: Offer<C>)
    requires IsRoundWinner(xs, w1) && IsRoundWinner(xs, w2)
    ensures w1 == w2
  {
    var i1 :| 0 <= i1 < |xs| && xs[i1] == w1;
    var i2 :| 0 <= i2 < |xs| && xs[i2] == w2;
    assert w1.bid == w2.bid && w1.wins == w2.wins;
    var j := FirstIndexWith(xs, w1.bid, w1.wins, i1);
    assert xs[j] == w1 && xs[j] == w2;
  }

  /** The first index at or before `i` whose pair has this bid and this count. */
  lemma {:induction false} FirstIndexWith<C>(xs: seq<Offer<C>>, bid: int, wins: int, i: nat) returns (j: nat)
    requires i < |xs| && xs[i].bid == bid && xs[i].wins == wins
    ensures j <= i && FirstWith(xs, j, bid, wins)
  {
    if exists k :: 0 <= k < i && xs[k].bid == bid && xs[k].wins == wins {
      var k :| 0 <= k < i && xs[k].bid == bid && xs[k].wins == wins;
      j := FirstIndexWith(xs, bid, wins, k);
    } else {
      j := i;
    }
  }

  /** A round of 100 against 200 between clients with equal wins goes to the 200 bid. */
  lemma HigherBidWins<C>(a: C, b: C)
    ensures WinningBid([Offer(100, 1, a), Offer(200, 1, b)]) == Some(Offer(200, 1, b))
  {
    var r := [Offer(100, 1, a), Offer(200, 1, b)];
    assert r[1..] == [Offer(200, 1, b)];
    assert Bids(r) == [100, 200];
    assert Max([200]) == Some(200);
    assert WithBid([Offer(200, 1, b)], 200) == [Offer(200, 1, b)] + WithBid([], 200);
    assert WithBid(r, 200) == [Offer(200, 1, b)];
    assert Wins([Offer(200, 1, b)]) == [1];
    assert Max([1]) == Some(1);
    assert WithWins([Offer(200, 1, b)], 1) == [Offer(200, 1, b)] + WithWins([], 1);
  }

  /** Two bids of 300: the client with 3 wins beats the one with 2 when it bids second. */
  lemma MoreWinsBreakTie<C>(a: C, b: C)
    ensures WinningBid([Offer(300, 2, a), Offer(300, 3, b)]) == Some(Offer(300, 3, b))
  {
    var r := [Offer(300, 2, a), Offer(300, 3, b)];
    assert r[1..] == [Offer(300, 3, b)];
    assert Bids(r) == [300, 300];
    assert Max([300]) == Some(300);
    assert WithBid([Offer(300, 3, b)], 300) == [Offer(300, 3, b)] + WithBid([], 300);
    assert WithBid(r, 300) == r;
    assert Wins(r) == [2, 3];
    assert Max([3]) == Some(3);
    assert WithWins([Offer(300, 3, b)], 3) == [Offer(300, 3, b)] + WithWins([], 3);
    assert WithWins(r, 3) == [Offer(300, 3, b)];
  }

  /** Two bids of 300: the client with 3 wins beats the one with 2 when it bids first. */
  lemma MoreWinsBreakTieFirst<C>(a: C, b: C)
    ensures WinningBid([Offer(300, 3, b), Offer(300, 2, a)]) == Some(Offer(300, 3, b))
  {
    var r := [Offer(300, 3, b), Offer(300, 2, a)];
    assert r[1..] == [Offer(300, 2, a)];
    assert Bids(r) == [300, 300];
    assert Max([300]) == Some(300);
    assert WithBid([Offer(300, 2, a)], 300) == [Offer(300, 2, a)] + WithBid([], 300);
    assert WithBid(r, 300) == r;
    assert Wins(r) == [3, 2];
    assert Max([2]) == Some(2);
    assert WithWins([Offer(300, 2, a)], 3) == WithWins([], 3);
    assert WithWins(r, 3) == [Offer(300, 3, b)];
  }
}
