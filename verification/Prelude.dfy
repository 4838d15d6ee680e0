/** Result and option types shared by every component. */
module Prelude {
  datatype Option<+T> = None | Some(value: T)

  /** The source's exceptions, one constructor per reason a transaction is rolled back. */
  datatype Error =
    | EmptyLines            // ValidationError: a document needs at least one line
    | ZeroQuantity          // ValidationError: zero-quantity movement
    | InsufficientStock     // InsufficientStockError: the negative-stock guard
    | ConstraintViolation   // IntegrityError: a database check or unique constraint
    | NotFound              // 404, or a missing related row
    | InvalidState          // ValidationError / DomainError on a status precondition
    | InvalidInput          // ValidationError on an argument
    | NotConfigured         // Restaurant Stores does not exist
    | AlreadySent           // AlreadySentError: resend of a delivered record
    | ImmutableVersion      // ImmutableVersionError: edit of a published recipe version

  datatype Result<+T> = Ok(value: T) | Err(error: Error)

  /** Pairwise distinct elements (the source compares `len(xs)` with `len(set(xs))`). */
  predicate Distinct<T(==)>(xs: seq<T>) {
    forall i, j :: 0 <= i < j < |xs| ==> xs[i] != xs[j]
  }

  function Abs(x: int): nat {
    if x < 0 then -x else x
  }
}
