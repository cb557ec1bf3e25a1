/** Optional values: `None` stands for JavaScript's `undefined`/`null` wherever the source allows a missing value. */
module Wrappers {
  datatype Option<+T> = None | Some(value: T) {
    /** `x ?? d` */
    function GetOr(d: T): T {
      match this
      case Some(v) => v
      case None => d
    }
  }
}
