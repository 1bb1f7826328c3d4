/** Stock datatypes. */
module Wrappers {

  datatype Option<T> = None | Some(value: T)

  // Quantifying over the one value of this type keeps a predicate closed: a proof
  // sees what is behind it only where it mentions the value.
  datatype Sealed = Sealed
}
