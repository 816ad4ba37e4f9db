/** Option and Result, and the ways a metrics run can abort. */
module Wrappers {

  datatype Option<+T> = None | Some(value: T) {

    /** The value, or `default` when there is none (Python's `dict.get(key, default)`). */
    function GetOr(default: T): T {
      match this
      case Some(v) => v
      case None => default
    }
  }

  datatype Result<+T, +E> = Ok(value: T) | Err(error: E)

  /** Why a run aborts: an HTTP failure status (raise_for_status raises), a
      response body that is not JSON (a 204 read through the single-shot
      client), or a timestamp that does not parse as an ISO-8601 date. */
  datatype Error = HttpStatus(code: int) | BodyNotJson | BadTimestamp(stamp: string)
}
