/**
 * Values of the JavaScript host that the utility library can hand back:
 * the result of reading a property, and the completion of a call that
 * either returns or throws.
 */
module JsValues {

  /** What `obj[key]` evaluates to: the stored value, or `undefined`. */
  datatype Maybe<+V> = Defined(value: V) | Undefined

  /** The host errors the modelled code can raise. */
  datatype ErrorKind =
    /** Raised when a method is looked up on `undefined` (`undefined.reduce`). */
    | TypeError

  /** How a call ends: normally with a value, or by throwing an error. */
  datatype Completion<+R> = Normal(value: R) | Throw(error: ErrorKind)
}
