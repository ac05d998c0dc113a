/** Option and Result: the absent value and the raised exception of the
    pipeline's Python scripts, made explicit. */
module Wrappers {

  datatype Option<+T> = None | Some(value: T) {
    /** Python's `d.get(key, default)` once the lookup has produced this. */
    function GetOr(default: T): T {
      match this
      case Some(v) => v
      case None => default
    }
  }

  /** The exceptions the scripts let escape, by their Python names. */
  datatype Error =
    | JsonDecodeError        // json.loads on a malformed file, outside any try
    | KeyError(key: string)  // a dictionary subscript with a missing key
    | ValueError             // datetime(...) with an out-of-range field
    | ApiError               // the text-generation service raised
    | AttributeError         // a method called on a JSON value of the wrong kind

  datatype Result<+T> = Ok(value: T) | Err(error: Error)
}
