/** Option and Result, used for the widget's "nothing found" and
    configuration-error outcomes. */
module Wrappers {

  datatype Option<+T> = None | Some(value: T)

  datatype Result<+R, +E> = Success(value: R) | Failure(error: E) {

    /** Forgets the error: `Some` of the value on success, `None` otherwise. */
    function ToOption(): (o: Option<R>)
      ensures o.Some? <==> Success?
      ensures o.Some? ==> o.value == value
    {
      match this
      case Success(v) => Some(v)
      case Failure(_) => None
    }
  }
}
