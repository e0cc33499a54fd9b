// Result and option values shared by all components.
module Wrappers {
  datatype Option<+T> = None | Some(value: T)

  datatype Result<+T, +E> = Ok(value: T) | Err(error: E)

  // Always true. A quantifier triggered by it speaks of exactly the values that a proof
  // names, which keeps costly definitions folded everywhere else.
  ghost predicate Named<T>(x: T) {
    true
  }
}
