module Wrappers {

  /** An optional value: a nullable field or an absent request parameter. */
  datatype Option<T> = None | Some(value: T)
}
