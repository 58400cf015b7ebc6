/** The optional-value wrapper used for TypeScript's optional properties
    (`field?: T`) and for values that may be `null`. */
module Wrappers {

  datatype Option<+T> = None | Some(value: T) {

    /** Returns the wrapped value, or `default` when there is none. */
    function GetOr(default: T): T {
      match this
      case Some(v) => v
      case None => default
    }

    /** `this` if it holds a value, otherwise `other`: the object-spread rule
        "a defined property of the later operand wins". */
    function Or(other: Option<T>): Option<T> {
      if Some? then this else other
    }
  }
}
