/** The optional value returned by the stream pipelines (java.util.Optional). */
module Wrappers {

  datatype Option<T> = None | Some(value: T)

}
