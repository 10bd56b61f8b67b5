/** Optional values: `Some` stands for "the key is present" (or "the field is overridden"). */
module Wrappers {

  datatype Option<+T> = None | Some(value: T) {

    /** The wrapped value, or `default` when there is none. */
    function GetOr(default: T): T {
      match this
      case Some(v) => v
      case None => default
    }
  }

  /** Collapses "absent" and "present but null" into `None`. */
  function Flatten<T>(o: Option<Option<T>>): Option<T> {
    match o
    case Some(inner) => inner
    case None => None
  }
}
