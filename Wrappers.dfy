/** Failure-compatible wrappers shared by every module of the model. */
module Wrappers {

  /** A value that may be absent: Python's `None`, a missing key, a missing file. */
  datatype Option<+T> = None | Some(value: T) {
    function GetOr(default: T): T {
      match this
      case Some(v) => v
      case None => default
    }
  }

  /** The outcome of reading and parsing a file: absent, present but not parsable, or its parsed contents. */
  datatype FileRead<+T> = NoFile | Unparsable | Parsed(value: T)
}
