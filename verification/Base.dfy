/** Optional values and outcomes that may fail, shared by every other module. */
module Base {

  datatype Option<+T> = None | Some(value: T) {
    /** The nullish fallback `this ?? other`. */
    function Or(other: Option<T>): Option<T> {
      if Some? then this else other
    }
  }

  datatype Result<+T, +E> = Ok(value: T) | Err(error: E)
}
