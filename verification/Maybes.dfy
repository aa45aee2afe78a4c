/** An optional value. */
module Maybes {
  datatype Maybe<T> = None | Some(value: T)
}
