/** Small value wrappers shared by the whole model. */
module Wrappers {

  /** A value that may be missing (Python's `None`). */
  datatype Option<+T> = None | Some(value: T) {

    /** The wrapped value, or `default` when there is none. */
    function GetOr(default: T): T {
      match this
      case Some(v) => v
      case None => default
    }
  }

  /**
   * One member of a JSON request body as `dict.get` sees it: the key is
   * absent, present with `null`, or present with a value.
   */
  datatype Field<+T> = Absent | Null | Present(value: T) {

    /** `data.get(key)`: an absent key and an explicit null both read as None. */
    function Get(): Option<T> {
      match this
      case Present(v) => Some(v)
      case _ => None
    }
  }
}
