/** Vocabulary shared by the ingestion service, the sync job and the bulk client. */
module Common {

  /** A naive (timezone-less) datetime, as whole seconds since 1970-01-01 00:00:00. */
  type Timestamp = int

  /** A value that may be absent: SQL NULL, a failed parse, a missing row. */
  datatype Option<T> = None | Some(value: T) {

    /** The carried value, or `default` when there is none. */
    function GetOr(default: T): T {
      match this
      case Some(v) => v
      case None => default
    }
  }

  function Min(a: int, b: int): int {
    if a <= b then a else b
  }

  function Max(a: int, b: int): int {
    if a <= b then b else a
  }
}
