/** Optional values: TypeScript's `T | null`, `T | undefined` and optional properties. */
module Wrappers {

  datatype Option<+T> = None | Some(value: T) {

    /** `x ?? default` */
    function GetOr(default: T): T {
      match this
      case Some(v) => v
      case None => default
    }
  }

  /** The outcome of one backend read: the row(s), or the `error` the client reported. */
  datatype Fetch<+T> = Fetched(value: T) | FetchFailed
}
