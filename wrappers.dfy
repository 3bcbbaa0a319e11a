/** Optional values and results that may carry a JavaScript exception. */
module Wrappers {

  datatype Option<T> = None | Some(value: T)
  {
    predicate IsSome() { this.Some? }
  }

  /** The exceptions the modelled code can raise. */
  datatype Exception =
    | TypeError            // a property read on `undefined` or `null`
    | ReferenceError       // a read of a name that is declared nowhere
    | Thrown(message: string)  // an explicit `throw new Error(message)`

  datatype Result<T> = Ok(value: T) | Throw(exception: Exception)
  {
    predicate IsOk() { this.Ok? }
  }
}
