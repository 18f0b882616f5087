/** Small failure-carrying datatypes shared by the model of the collector. */
module Outcomes {

  /** A value that may be absent, as Python's `None`. */
  datatype Option<+T> = None | Some(value: T)

  /** The outcome of one call into an exchange client: it either returns a
      value or raises (network error, rate limit, malformed response). */
  datatype Call<+T> = Returned(value: T) | Raised
}
