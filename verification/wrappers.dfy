/**
 * Option and Result wrappers. A Python function that may raise is modelled
 * as returning a Result whose Failure carries the exception that would be
 * raised; a Python value that may be None is modelled as an Option.
 */
module Wrappers {

  datatype Option<+T> = None | Some(value: T) {
    predicate IsFailure() {
      None?
    }

    function PropagateFailure<U>(): Option<U>
      requires None?
    {
      None
    }

    function Extract(): T
      requires Some?
    {
      value
    }

    function GetOr(default: T): T {
      match this
      case Some(v) => v
      case None => default
    }

    function ToResult<E>(error: E): Result<T, E> {
      match this
      case Some(v) => Success(v)
      case None => Failure(error)
    }
  }

  datatype Result<+T, +E> = Success(value: T) | Failure(error: E) {
    predicate IsFailure() {
      Failure?
    }

    function PropagateFailure<U>(): Result<U, E>
      requires Failure?
    {
      Failure(error)
    }

    function Extract(): T
      requires Success?
    {
      value
    }

    function MapSuccess<U>(f: T -> U): Result<U, E> {
      match this
      case Success(v) => Success(f(v))
      case Failure(e) => Failure(e)
    }

    function MapFailure<E2>(f: E -> E2): Result<T, E2> {
      match this
      case Success(v) => Success(v)
      case Failure(e) => Failure(f(e))
    }
  }
}
