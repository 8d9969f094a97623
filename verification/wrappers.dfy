/** Optional values: the model's stand-in for a dictionary entry or an
    environment variable that may be absent. */
module Wrappers {

  datatype Option<+T> = None | Some(value: T) {

    /** The carried value, or `default` when there is none (Python's
        `d.get(k, default)` / `os.getenv(name, default)`). */
    function GetOr(default: T): T {
      match this
      case Some(v) => v
      case None => default
    }
  }
}
