/** Nullable values.

    C# `null` (an absent configuration key) is modelled by `Option`; the
    null-coalescing operator `??` becomes `OrElse` (when the fallback may
    itself be null) or `GetOr` (when the fallback is a plain value).
 */
module Wrappers {

  datatype Option<+T> = None | Some(value: T) {

    /** `this ?? default` where `default` is never null */
    function GetOr(default: T): T {
      match this
      case Some(v) => v
      case None => default
    }

    /** `this ?? other` where `other` may be null as well */
    function OrElse(other: Option<T>): Option<T> {
      match this
      case Some(_) => this
      case None => other
    }
  }
}
