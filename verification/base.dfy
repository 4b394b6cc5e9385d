/** Failure-carrying datatypes shared by every module of the wallet model. */
module Base {

  /**
   * A request field or record field that may be left out: `None` plays the
   * part of JavaScript's `null` and `undefined`.
   */
  datatype Option<+T> = None | Some(value: T) {

    /** The field's value when it is given, `fallback` when it is left out (a schema default). */
    function OrDefault(fallback: T): (r: T)
      ensures Some? ==> r == value
      ensures None? ==> r == fallback
    {
      match this
      case Some(v) => v
      case None => fallback
    }
  }

  /** The outcome of a request handler: a reply, or the error it answers with. */
  datatype Result<+T, +E> = Success(value: T) | Failure(error: E)
}
