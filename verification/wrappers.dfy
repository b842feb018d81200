/** Option and Result, the two failure-carrying shapes the rest of the model uses
    in place of JavaScript's `null`/`undefined` and thrown errors. */
module Wrappers {

  /** A value that may be absent (`null` or `undefined` in the source). */
  datatype Option<+T> = None | Some(value: T) {

    /** The value, or `default` when absent (the source's `x ?? default`). */
    function GetOr(default: T): T {
      match this
      case Some(v) => v
      case None => default
    }
  }

  /** Either a value or the error a source function would have thrown. */
  datatype Result<+R, +E> = Success(value: R) | Failure(error: E)

  /** A list read back from browser storage through `JSON.parse`: the key was
      missing (or held the empty string), the text did not parse, it parsed to
      something that is not an array, or it parsed to an array. */
  datatype Stored<+T> = Missing | Unparsable | NotArray | ArrayOf(items: seq<T>)
}
