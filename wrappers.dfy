/** Optional values: the model's stand-in for JavaScript's `null` / `undefined`
    and for a network reply that either arrives or fails. */
module Wrappers {

  datatype Option<+T> = None | Some(value: T) {

    /** The wrapped value, or `default` when there is none (JavaScript's `??`). */
    function GetOr(default: T): T {
      match this
      case Some(v) => v
      case None => default
    }
  }
}
