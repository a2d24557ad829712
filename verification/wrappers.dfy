/** Optional values, used for the "present or absent" results of the cart:
    the outcome of a lookup by id and the payload read back from storage. */
module Wrappers {

  /** `None` stands for JavaScript's `undefined` / a missing storage entry. */
  datatype Option<+T> = None | Some(value: T)
}
