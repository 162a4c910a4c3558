/**
  The broker's commission (Broker.keepCommission and
  keepCommissionCalculate): a tier table keyed by the kind of client and the
  number of auctions it has been involved in, and the split of a winning bid
  into the broker's fee and the net amount. Rates are exact reals; Java's
  double rounding is not reproduced.
 */
module Commission {
  import opened Errors
  import JavaInt

  /**
    The concrete subclasses of Client. `PhysicalPerson` carries its birthday
    because Lombok's equality for that class compares only that field.
    `OtherKind` stands for any other subclass, which the table rejects.
   */
  datatype ClientKind = JuridicalPerson | PhysicalPerson(birthdayDate: string) | OtherKind

  /** The tier table: a fraction of the bid, or no rate for an unknown kind. */
  function Rate(kind: ClientKind, nrOfAuctionsInvolved: int): (rate: Option<real>)
    ensures rate.None? <==> kind.OtherKind?
    ensures rate.Some? ==> 0.0 < rate.value < 1.0
  {
    match kind
    case JuridicalPerson => if nrOfAuctionsInvolved > 25 then Some(0.1) else Some(0.25)
    case PhysicalPerson(_) => if nrOfAuctionsInvolved > 5 then Some(0.15) else Some(0.2)
    case OtherKind => None
  }

  /** What the broker adds to `brokerMoney`: `commission * bid`. */
  function Fee(bid: int, rate: real): (fee: real)
    ensures bid >= 0 && rate >= 0.0 ==> fee >= 0.0
    ensures bid >= 0 && rate <= 1.0 ==> fee <= bid as real
  {
    var b := bid as real;
    if bid >= 0 && rate <= 1.0 then
      ProductNonNegative(1.0 - rate, b);
      if rate >= 0.0 then ProductNonNegative(rate, b); rate * b else rate * b
    else if bid >= 0 && rate >= 0.0 then ProductNonNegative(rate, b); rate * b
    else rate * b
  }

  /** What keepCommissionCalculate returns: `(int) ((1 - commission) * bid)`. */
  function Net(bid: int, rate: real): (net: int)
    ensures bid >= 0 && 0.0 <= rate <= 1.0 ==> 0 <= net <= bid
  {
    var b := bid as real;
    if bid >= 0 && 0.0 <= rate <= 1.0 then
      ProductNonNegative(1.0 - rate, b);
      ProductNonNegative(rate, b);
      JavaInt.Truncate((1.0 - rate) * b)
    else JavaInt.Truncate((1.0 - rate) * b)
  }

  /**
    The tiers: juridical persons pay 10% exactly when involved in more than
    25 auctions and 25% otherwise; physical persons pay 15% exactly when
    involved in more than 5 and 20% otherwise; any other kind has no rate.
   */
  lemma RateTiers(kind: ClientKind, involved: int)
    ensures kind.JuridicalPerson? ==> (Rate(kind, involved) == Some(0.1) <==> involved > 25)
    ensures kind.JuridicalPerson? ==> (Rate(kind, involved) == Some(0.25) <==> involved <= 25)
    ensures kind.PhysicalPerson? ==> (Rate(kind, involved) == Some(0.15) <==> involved > 5)
    ensures kind.PhysicalPerson? ==> (Rate(kind, involved) == Some(0.2) <==> involved <= 5)
    ensures Rate(kind, involved).None? <==> kind.OtherKind?
  {
  }

  /** Every rate is a proper fraction, and more experience never raises it. */
  lemma RateIsFraction(kind: ClientKind, involved: int, more: int)
    requires Rate(kind, involved).Some? && involved <= more
    ensures 0.0 < Rate(kind, involved).value < 1.0
    ensures Rate(kind, more).Some? && Rate(kind, more).value <= Rate(kind, involved).value
  {
  }

  /**
    For a non-negative bid and a proper fraction, the fee is non-negative,
    the net amount is between 0 and the bid, and fee plus net fall short of
    the bid by less than one unit (the truncation).
   */
  lemma SplitOfBid(bid: int, rate: real)
    requires bid >= 0 && 0.0 < rate < 1.0
    ensures Fee(bid, rate) >= 0.0
    ensures 0 <= Net(bid, rate) <= bid
    ensures Net(bid, rate) as real + Fee(bid, rate) <= bid as real < Net(bid, rate) as real + Fee(bid, rate) + 1.0
  {
    var b := bid as real;
    var kept := (1.0 - rate) * b;
    ProductNonNegative(rate, b);
    ProductNonNegative(1.0 - rate, b);
    assert kept + rate * b == b;
    var n := Net(bid, rate);
    assert n as real <= kept < n as real + 1.0;
  }

  lemma ProductNonNegative(x: real, y: real)
    requires x >= 0.0 && y >= 0.0
    ensures x * y >= 0.0
  {
  }

  /** An organisation involved in 30 auctions winning at 1000: fee 100, net 900. */
  lemma JuridicalExample()
    ensures Rate(JuridicalPerson, 30) == Some(0.1)
    ensures Fee(1000, 0.1) == 100.0 && Net(1000, 0.1) == 900
  {
  }

  /** An individual involved in 2 auctions winning at 1000: fee 200, net 800. */
  lemma PhysicalExample(birthday: string)
    ensures Rate(PhysicalPerson(birthday), 2) == Some(0.2)
    ensures Fee(1000, 0.2) == 200.0 && Net(1000, 0.2) == 800
  {
  }
}
