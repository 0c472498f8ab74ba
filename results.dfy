/** Error values and the success/failure wrappers that the store and the
    identifier generator return in place of Go's `(value, error)` pairs. */
module Results {

  /** The two ways an operation of the store can fail. */
  datatype Error =
    | NotFound(id: string)              // the identifier is not a key of the map
    | RandomSourceFailed(reason: string) // the secure random source could not fill the buffer

  /** A value, or the error that prevented computing it. */
  datatype Result<T> = Ok(value: T) | Err(error: Error)

  /** The outcome of an operation that returns only an error (nil on success). */
  datatype Outcome = Success | Failure(error: Error)

  /** The text the store attaches to a missing identifier. */
  const NotFoundPrefix: string := "document id doesn't exist: "

  /** The error's message as the store reports it. */
  function Message(e: Error): (m: string)
    ensures e.NotFound? ==> |m| == |NotFoundPrefix| + |e.id|
    ensures e.NotFound? ==> m[..|NotFoundPrefix|] == NotFoundPrefix && m[|NotFoundPrefix|..] == e.id
    ensures e.RandomSourceFailed? ==> m == e.reason
  {
    match e
    case NotFound(id) => NotFoundPrefix + id
    case RandomSourceFailed(reason) => reason
  }

  /** Distinct missing identifiers produce distinct messages. */
  lemma NotFoundMessageInjective(a: string, b: string)
    requires Message(NotFound(a)) == Message(NotFound(b))
    ensures a == b
  {
    assert a == Message(NotFound(a))[|NotFoundPrefix|..];
  }
}
