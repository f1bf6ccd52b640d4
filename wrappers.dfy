/** Option and Result values, and the Python exceptions the modelled code can raise. */
module Wrappers {

  datatype Option<+T> = None | Some(value: T)

  /** The exceptions the core raises on bad input: `int()` on a malformed literal
      raises ValueError, indexing an empty list (or an empty comprehension) raises
      IndexError, and reading a missing dictionary key raises KeyError. */
  datatype Error = ValueError(literal: string) | IndexError | KeyError(key: string)

  datatype Result<+T> = Ok(value: T) | Err(error: Error)

  function OrEmpty<T>(o: Option<seq<T>>): seq<T>
  {
    match o
    case Some(xs) => xs
    case None => []
  }
}
