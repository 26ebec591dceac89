/** Values that JavaScript leaves `undefined` or `null`, and operations that can fail. */
module Common {
  datatype Option<+T> = None | Some(value: T)
  {
    /** `x ?? d`, or `x || d` when every present value is truthy. */
    function GetOr(default: T): T
    {
      match this
      case None => default
      case Some(v) => v
    }
  }

  datatype Result<+R, +E> = Success(value: R) | Failure(error: E)
}
