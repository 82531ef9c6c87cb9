/** The two result shapes the models share. */
module Wrappers {
  datatype Option<+T> = None | Some(value: T) {
    function GetOr(default: T): T {
      match this
      case Some(v) => v
      case None => default
    }
  }

  /** `Panic` is a run-time panic of the original, kept apart from an error it returns. */
  datatype Result<+T> = Ok(value: T) | Err | Panic

  /** What a writer takes that accepts `n` writes and then fails. */
  function UpTo<T>(writes: seq<T>, n: nat): seq<T> {
    if |writes| <= n then writes else writes[..n]
  }
}
