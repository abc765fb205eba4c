/** The optional value used for request fields and nullable columns. */
module Wrappers {

  /** `None` stands for a JSON field that is missing or null, and for SQL NULL. */
  datatype Option<+T> = None | Some(value: T)
}
