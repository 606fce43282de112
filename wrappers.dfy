/** Option, as Rust's `Option<T>` is used throughout the modelled code. */
module Wrappers {

  datatype Option<+T> = None | Some(value: T) {

    /** `unwrap_or` */
    function GetOr(default: T): T {
      match this
      case Some(v) => v
      case None => default
    }

    /** `or`: this value when present, otherwise `other` */
    function Or(other: Option<T>): Option<T> {
      match this
      case Some(_) => this
      case None => other
    }
  }
}
