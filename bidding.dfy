/**
  The two bidding strategies of the auction house
  (bidding_algorithm/algorithms): the computed bid of a passive client and
  the pass-through bid of an active one. The random draw of
  `new Random().nextInt(10)` is a parameter of type `Digit`.
 */
module Bidding {
  import opened Errors
  import JavaInt

  /** A value `Random.nextInt(10)` can return. */
  type Digit = r: int | 0 <= r <= 9

  /**
    The passive-bid formula `min + (max - min) / (r + 1)` in Java's
    truncating division, on exact integers. The divisor `r + 1` lies in
    [1, 10], so the division is always defined. When `min <= max` the bid
    lies between them; when the client's maximum is below the minimum bid,
    the bid lies between the two the other way round.
   */
  function MinMaxBid(min: int, max: int, r: Digit): (bid: int)
    ensures min <= max ==> min <= bid <= max
    ensures max < min ==> max <= bid <= min
  {
    QuotNotAbove(max - min, r + 1);
    min + JavaInt.Quot(max - min, r + 1)
  }

  /** A truncated quotient by a positive divisor never exceeds the dividend in size. */
  lemma QuotNotAbove(a: int, b: int)
    requires b > 0
    ensures a >= 0 ==> 0 <= JavaInt.Quot(a, b) <= a
    ensures a < 0 ==> a <= JavaInt.Quot(a, b) <= 0
  {
    if a >= 0 {
      JavaInt.DivNotAbove(a, b);
    } else {
      JavaInt.DivNotAbove(-a, b);
    }
  }

  /** SimpleRandomFromMinMax.applyAlgorithm: reads `constrains[0]` and `constrains[1]`. */
  function SimpleRandomFromMinMax(constrains: seq<int>, r: Digit): (bid: Result<int>)
    ensures bid.Ok? <==> |constrains| >= 2
  {
    if |constrains| < 2 then Err(ArrayIndexOutOfBounds)
    else Ok(MinMaxBid(constrains[0], constrains[1], r))
  }

  /** ConcreteBidFromCommand.applyAlgorithm: the first constraint, unchanged. */
  function ConcreteBidFromCommand(constrains: seq<int>): (bid: Result<int>)
    ensures bid.Ok? <==> |constrains| >= 1
    ensures bid.Err? ==> bid.error == ArrayIndexOutOfBounds
  {
    if |constrains| == 0 then Err(ArrayIndexOutOfBounds) else Ok(constrains[0])
  }

  /** With the smallest draw the divisor is 1 and the bid is the client's maximum. */
  lemma MinMaxBidTopDraw(min: int, max: int)
    ensures MinMaxBid(min, max, 0) == max
  {
  }

  /** A larger draw means a larger divisor, so it never gives a larger bid. */
  lemma MinMaxBidAntitone(min: int, max: int, r1: Digit, r2: Digit)
    requires min <= max && r1 <= r2
    ensures MinMaxBid(min, max, r2) <= MinMaxBid(min, max, r1)
  {
    JavaInt.DivAntitone(max - min, r1 + 1, r2 + 1);
  }

  /** Only the first two constraints reach the formula. */
  lemma SimpleRandomReadsTwo(constrains: seq<int>, extra: seq<int>, r: Digit)
    requires |constrains| >= 2
    ensures SimpleRandomFromMinMax(constrains + extra, r) == SimpleRandomFromMinMax(constrains[..2], r)
    ensures SimpleRandomFromMinMax(constrains, r) == Ok(MinMaxBid(constrains[0], constrains[1], r))
  {
  }

  /**
    The pass-through bid: the first constraint when there is one, an
    out-of-bounds failure on an empty array; later elements never matter.
   */
  lemma ConcreteBidIsFirst(constrains: seq<int>, extra: seq<int>)
    ensures ConcreteBidFromCommand(constrains).Ok? <==> |constrains| >= 1
    ensures |constrains| >= 1 ==> ConcreteBidFromCommand(constrains + extra) == Ok(constrains[0])
    ensures ConcreteBidFromCommand([]) == Err(ArrayIndexOutOfBounds)
  {
    if |constrains| >= 1 {
      assert (constrains + extra)[0] == constrains[0];
    }
  }

  /**
    The formula as Java evaluates it on 32-bit `int`s: the difference
    `max - min` and the final sum wrap around.
   */
  function MinMaxBid32(min: int, max: int, r: Digit): (bid: int)
    requires JavaInt.IsInt(min) && JavaInt.IsInt(max)
    ensures JavaInt.IsInt(bid)
  {
    JavaInt.Wrap(min + JavaInt.Quot(JavaInt.Wrap(max - min), r + 1))
  }

  /** Whenever `max - min` fits in an `int`, the 32-bit formula is the exact one. */
  lemma MinMaxBid32Agrees(min: int, max: int, r: Digit)
    requires JavaInt.IsInt(min) && JavaInt.IsInt(max) && JavaInt.IsInt(max - min)
    ensures MinMaxBid32(min, max, r) == MinMaxBid(min, max, r)
  {
    var bid := MinMaxBid(min, max, r);
    assert JavaInt.IsInt(bid) by {
      if min <= max { assert min <= bid <= max; } else { assert max <= bid <= min; }
    }
  }

  /**
    With `min = -1`, `max = INT_MAX` and a draw of 2, `max - min` overflows
    to `INT_MIN` and the 32-bit bid falls far below `min`, although `min <= max`.
   */
  lemma MinMaxBid32Overflow()
    ensures MinMaxBid32(-1, JavaInt.INT_MAX, 2) == -715827883
    ensures MinMaxBid32(-1, JavaInt.INT_MAX, 2) < -1
  {
    assert JavaInt.Wrap(JavaInt.INT_MAX - -1) == JavaInt.INT_MIN;
    assert JavaInt.Quot(JavaInt.INT_MIN, 3) == -715827882;
  }
}
