/** The crate's error type and result alias (src/lib/mod.rs), plus the
    Option type and the fixed-width integer ranges the core uses. */
module Lib {

  /** `u64` and `u128` as ranges of the unbounded integers. */
  type u64 = x: int | 0 <= x < 0x1_0000_0000_0000_0000
  type u128 = x: int | 0 <= x < 0x1_0000_0000_0000_0000_0000_0000_0000_0000

  /** The crate's error enum. An `std::io::Error` is kept only as its
      description, and a strip-prefix failure carries no data. */
  datatype Error =
    | Generic(message: string)
    | IO(description: string)
    | StripPrefixError

  /** `Result<T> = std::result::Result<T, Error>`, usable with `:-`. */
  datatype Result<+T> = Ok(value: T) | Err(error: Error) {
    predicate IsFailure() {
      Err?
    }

    function PropagateFailure<U>(): Result<U>
      requires Err?
    {
      Err(error)
    }

    function Extract(): T
      requires Ok?
    {
      value
    }
  }

  datatype Option<+T> = None | Some(value: T) {
    /** `Option::ok_or`: turns a missing value into the given error. */
    function OkOr(e: Error): (r: Result<T>)
      ensures r.Ok? <==> Some?
      ensures Some? ==> r.value == value
      ensures None? ==> r.error == e
    {
      match this
      case Some(v) => Ok(v)
      case None => Err(e)
    }
  }
}
