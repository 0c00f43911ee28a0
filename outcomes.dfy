/** Java's exceptions, as values: the parser and the handlers return a Result instead of throwing. */
module Outcomes {

  /** The exceptions the modelled code can raise. */
  datatype Failure =
    | BadRequest         // BadRequestException, thrown by the parser and the POST handler
    | IndexOutOfBounds   // ArrayIndexOutOfBoundsException, from indexing a short `split` result
    | NegativeArraySize  // NegativeArraySizeException, from `new char[n]` with a negative length
    | NullPointer        // NullPointerException, from `line.length()` on a null line
    | InvalidPath        // InvalidPathException, from `Paths.get` on a path holding a NUL

  datatype Option<+T> = None | Some(value: T)

  datatype Result<+T> = Ok(value: T) | Err(error: Failure) {
    predicate IsFailure() { Err? }
    function PropagateFailure<U>(): Result<U> requires Err? { Err(error) }
    function Extract(): T requires Ok? { value }
  }

  /** The outcome of a `void` method that may throw. */
  datatype Outcome = Pass | Fail(error: Failure)

  function GetOrDefault<K, V>(m: map<K, V>, k: K, default: V): V {
    if k in m then m[k] else default
  }
}
