/** Failure-carrying datatypes shared by every module of the model. */
module Wrappers {

  /** A value that may be absent (JavaScript `undefined`/`null`, Python `None`). */
  datatype Option<+T> = None | Some(value: T)

  /** The outcome of an operation that either returns a value or throws. */
  datatype Result<+T, +E> = Ok(value: T) | Err(error: E)

  /** A file read by a component: absent, present but not parseable, or parsed. */
  datatype Stored<+T, +E> = Missing | Unparsable(error: E) | Present(value: T)

  function Min(a: int, b: int): int { if a <= b then a else b }

  function Max(a: int, b: int): int { if a <= b then b else a }
}

/** Instants supplied by the caller instead of reading a clock. */
module Clock {

  /** A time stamp supplied by the caller: `millis` stands for a `Date.now()`
      reading and `iso` for a `new Date().toISOString()` reading. The source takes
      those readings separately, so nothing relates the two fields. */
  datatype Instant = Instant(millis: nat, iso: string)
}
