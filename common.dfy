/** Small value types shared by every module of the model. */
module Common {

  /** An optional value: JavaScript's `undefined`/`null` versus a present value. */
  datatype Option<T> = None | Some(value: T) {
    /** The value, or `default` when absent (JavaScript's `??`). */
    function GetOr(default: T): T {
      match this
      case Some(v) => v
      case None => default
    }
  }

  /** The outcome of an operation that can throw in the source. */
  datatype Result<T, E> = Success(value: T) | Failure(error: E)

  /** The present value as a zero- or one-element sequence. */
  function OptionToSeq<T>(o: Option<T>): seq<T> {
    match o
    case Some(v) => [v]
    case None => []
  }

  /** `Math.abs` on exact reals. */
  function Abs(x: real): real {
    if x < 0.0 then -x else x
  }
}
