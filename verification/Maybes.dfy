// A value, or none.
module Maybes {

  datatype Maybe<T> = Nothing | Just(v: T)
}
