/** Failure-carrying datatypes shared by the model: `Option` for Python's
    `None`-or-value, `Result` for a value or a raised exception. */
module Wrappers {

  /** A value that may be absent (Python's `Optional[T]`). */
  datatype Option<+T> = None | Some(value: T)

  /** Either a computed value or the error the source raises. */
  datatype Result<+R, +E> = Success(value: R) | Failure(error: E)

  /** The sequence holding the value of `o`, or the empty sequence. */
  function OptionToSeq<T>(o: Option<T>): (s: seq<T>)
    ensures o.None? <==> s == []
    ensures o.Some? ==> |s| == 1 && s[0] == o.value
  {
    match o
    case None => []
    case Some(v) => [v]
  }
}
