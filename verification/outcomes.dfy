/** Success/failure values used throughout the chat client model.

    The client wraps every remote call in Arrow's `Either.catch`: a thrown
    exception becomes a left value carrying the throwable, a normal return
    becomes a right value. `Result` is that `Either`, with the throwable
    reduced to its message. */
module Outcomes {

  /** A nullable value: Kotlin's `T?`. */
  datatype Option<+T> = None | Some(value: T)

  /** A caught throwable; only its message is kept. */
  datatype Error = Error(message: string)

  /** Arrow's `Either<Throwable, T>`: `Ok` is `Right`, `Err` is `Left`. */
  datatype Result<+T> = Ok(value: T) | Err(error: Error)

  /** Kotlin's `List.firstOrNull()`. */
  function FirstOrNone<T>(xs: seq<T>): (r: Option<T>)
    ensures r.None? <==> xs == []
    ensures r.Some? ==> r.value in xs && r.value == xs[0]
  {
    if |xs| == 0 then None else Some(xs[0])
  }
}
