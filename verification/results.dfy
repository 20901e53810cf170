/** Error values of the overtone calculator and the Result type that carries them. */
module Results {

  /** The two ways the calculator raises ValueError:
      a non-positive base handed to the multiple-series generator, and the
      logarithm of a non-positive frequency ratio when a note is resolved. */
  datatype Error = NotPositive | MathDomain

  datatype Result<+T> = Success(value: T) | Failure(error: Error) {
    predicate IsFailure() {
      Failure?
    }

    function PropagateFailure<U>(): Result<U>
      requires Failure?
    {
      Failure(error)
    }

    function Extract(): T
      requires Success?
    {
      value
    }
  }
}
