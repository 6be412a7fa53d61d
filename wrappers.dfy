/** Optional values and the outcome of a lookup by id. */
module Wrappers {

  datatype Option<+T> = None | Some(value: T)

  /** What a store operation that looks up an id yields: the record, or the
      "not found" outcome that the HTTP layer reports as status 404. */
  datatype Result<+T> = Ok(value: T) | NotFound
}
