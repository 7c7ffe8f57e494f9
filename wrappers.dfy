/** Optional values. `None` stands for the places where the Rust code panics
    (a missing `HashMap` key, an `unwrap` on nothing, a `todo!()`). */
module Wrappers {

  datatype Option<+T> = None | Some(value: T) {

    /** True if is None */
    predicate IsFailure() {
      None?
    }

    /** Converts a None into a None of another value type. */
    function PropagateFailure<U>(): Option<U>
      requires None?
    {
      None
    }

    /** The value inside Some */
    function Extract(): T
      requires Some?
    {
      value
    }
  }
}
