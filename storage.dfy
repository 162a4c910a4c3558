/**
  A product of the auction house's catalogue (auction.storage.Product).
  Its `salePrice` is a reference to a holder (`AtomicReference<Double>`):
  the no-argument constructor, which every builder uses, creates an empty
  holder, while the four-argument constructor creates none, so that reading
  the price before it is set dereferences null. Prices are exact reals.
 */
module Storage {
  import opened Errors
  import JavaInt

  /** The `salePrice` field: no holder at all, or a holder with or without a value. */
  datatype SalePrice = Unset | Holder(price: Option<real>)

  class Product {
    const id: int
    const name: string
    const minimumPrice: real
    const year: int
    var salePrice: SalePrice

    /** The no-argument constructor followed by the builder's setters: an empty holder. */
    constructor Built(id: int, name: string, minimumPrice: real, year: int)
      ensures this.id == id && this.name == name && this.minimumPrice == minimumPrice && this.year == year
      ensures salePrice == Holder(None)
    {
      this.id := id;
      this.name := name;
      this.minimumPrice := minimumPrice;
      this.year := year;
      salePrice := Holder(None);
    }

    /** The four-argument constructor: the holder is never created. */
    constructor (id: int, name: string, minimumPrice: real, year: int)
      ensures this.id == id && this.name == name && this.minimumPrice == minimumPrice && this.year == year
      ensures salePrice == Unset
    {
      this.id := id;
      this.name := name;
      this.minimumPrice := minimumPrice;
      this.year := year;
      salePrice := Unset;
    }

    /** setSalePrice installs a new holder with the price, replacing any earlier one. */
    method SetSalePrice(price: real)
      modifies this`salePrice
      ensures salePrice == Holder(Some(price))
      ensures GetSalePrice() == Ok(Some(price))
    {
      salePrice := Holder(Some(price));
    }

    /** getSalePrice: the held value (null when the holder is empty); without a holder, a null dereference. */
    function GetSalePrice(): (r: Result<Option<real>>)
      reads this
      ensures r.Err? <==> salePrice.Unset?
      ensures r.Err? ==> r.error == NullPointer
      ensures salePrice.Holder? ==> r.Ok? && r.value == salePrice.price
    {
      match salePrice
      case Unset => Err(NullPointer)
      case Holder(p) => Ok(p)
    }

    /** Lombok's equals with only `id` included. */
    function Equals(other: Product): (r: bool)
      ensures other == this ==> r
      ensures r ==> HashCode() == other.HashCode()
    {
      id == other.id
    }

    /** Lombok's hashCode with only `id` included: `59 * 1 + id` in 32-bit arithmetic. */
    function HashCode(): (h: int)
      ensures JavaInt.IsInt(h)
    {
      JavaInt.Wrap(59 + id)
    }
  }

  /**
    Equality of products is an equivalence that looks at the id alone, and
    equal products hash alike: two products with the same id are equal
    whatever their names, prices and years.
   */
  lemma EqualityByIdOnly(a: Product, b: Product, c: Product)
    ensures a.Equals(a)
    ensures a.Equals(b) <==> a.id == b.id
    ensures a.Equals(b) ==> b.Equals(a) && a.HashCode() == b.HashCode()
    ensures a.Equals(b) && b.Equals(c) ==> a.Equals(c)
  {
  }

  /** A product from a builder has no price; after setSalePrice it has that one, and a later call replaces it. */
  method SalePriceScenario(id: int, name: string, minimumPrice: real, year: int, first: real, second: real)
    returns (p: Product)
    ensures p.GetSalePrice() == Ok(Some(second))
  {
    p := new Product.Built(id, name, minimumPrice, year);
    assert p.GetSalePrice() == Ok(None);
    p.SetSalePrice(first);
    assert p.GetSalePrice() == Ok(Some(first));
    p.SetSalePrice(second);
  }
}
