/**
 * A value that may be missing: a nil `*model.Model` or fields map, a form
 * parameter the request did not send, or an error slot that holds no error.
 */
module Wrappers {

  datatype Option<+T> = None | Some(value: T) {

    /** What a binding with a `default=` option reads: the sent value, else the default. */
    function GetOr(default: T): T
    {
      match this
      case Some(v) => v
      case None => default
    }
  }
}
