/** The Some/None datatype the model uses for values that may be absent:
    a pause instead of an utterance, a failed language-model call, a name
    that was never captured. */
module Wrappers {

  datatype Option<+T> = None | Some(value: T) {

    /** The value held by Some, or the given default for None. */
    function GetOr(default: T): T {
      match this
      case Some(v) => v
      case None => default
    }
  }
}
