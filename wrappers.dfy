/** Small option and result types used across the model. */
module Wrappers {

  /** Python's `None` or a value. */
  datatype Option<+T> = None | Some(value: T)

  /** The outcome of an operation that may raise: a value or the reason it failed. */
  datatype Result<+T, +E> = Ok(value: T) | Err(error: E)

  /** An attribute that Python sets late, or never: `Unset` stands for "the attribute was never
      assigned", which is different from an attribute assigned `None`. */
  datatype Field<+T> = Unset | Set(value: T)
}
