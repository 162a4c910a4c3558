/**
  The exceptions the auction engine throws, and the wrappers that carry them.
  A Java method that returns a value or throws becomes a function or method
  returning `Result`; one that returns nothing or throws returns `Outcome`;
  a Java reference that may be `null` becomes an `Option`.
 */
module Errors {

  /** The exception classes the core throws, as one closed set. */
  datatype Error =
    | NoSuchAuction           // NoSuchAuctionException
    | AuctionIsFull           // AuctionIsFullException
    | ClientAlreadyInAuction  // ClientAlreadyInAuction
    | NoSuchProduct           // NoSuchProductException
    | InvalidParameter        // java.security.InvalidParameterException
    | IllegalState            // IllegalStateException
    | IllegalArgument         // IllegalArgumentException (Random.nextInt(0))
    | NullPointer             // NullPointerException
    | ArrayIndexOutOfBounds   // ArrayIndexOutOfBoundsException

  datatype Option<+T> = None | Some(value: T)

  datatype Result<+T> = Ok(value: T) | Err(error: Error)

  datatype Outcome = Pass | Fail(error: Error)
}
