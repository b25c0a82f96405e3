/** Small shared vocabulary: a nullable column or an absent JSON field is an `Option`. */
module Common {

  datatype Option<+T> = None | Some(value: T) {
    /** The `x ?? d` / `x || d` fallback of the source for a nullable value. */
    function GetOr(default: T): T {
      match this
      case Some(v) => v
      case None => default
    }
  }

  /** The outcome of an operation that can fail with an error value. */
  datatype Result<+T, +E> = Ok(value: T) | Err(error: E)

  /** Record ids. The database draws them from `gen_random_uuid()` and the shipment
      route from `randomUUID()`; the model draws them from a counter in the store,
      which keeps the one property the code relies on: a new id is not in use. */
  type Id = nat

  /** Money amounts and totals (PostgreSQL `decimal(10,2)`), kept exact. */
  type Money = real

  /** An instant in milliseconds since the Unix epoch. */
  type Instant = int

  function MaxReal(a: real, b: real): real {
    if a >= b then a else b
  }

  function MaxInt(a: int, b: int): int {
    if a >= b then a else b
  }
}
