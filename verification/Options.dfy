/** Results that may be missing or failed, and the set of a sequence's elements. */
module Options {

  datatype Option<+T> = None | Some(value: T)

  datatype Result<+T> = Ok(value: T) | Err

  function Elements<T(==)>(xs: seq<T>): (s: set<T>) {
    set x | x in xs
  }
}
