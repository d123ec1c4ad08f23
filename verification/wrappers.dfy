/** Failure-compatible wrappers used throughout the model. */
module Wrappers {

  /** A value that may be absent (JavaScript `null` from a lookup). */
  datatype Option<+T> = None | Some(value: T) {

    /** Turns an absent value into the given failure. */
    function ToResult<E>(error: E): Result<T, E>
    {
      match this
      case Some(v) => Success(v)
      case None => Failure(error)
    }
  }

  /** Either a value or the exception that aborted the computation. */
  datatype Result<+T, +E> = Success(value: T) | Failure(error: E) {

    predicate IsFailure() { Failure? }

    function PropagateFailure<U>(): Result<U, E>
      requires Failure?
    {
      Failure(error)
    }

    function Extract(): T
      requires Success?
    {
      value
    }
  }

  /**
   `xs.map(f)` where `f` may throw: every result in order, or the failure of
   the first element whose call fails (later elements are never looked at).
   */
  function MapAll<A, B, E>(xs: seq<A>, f: A -> Result<B, E>): (r: Result<seq<B>, E>)
    ensures r.Success? <==> forall i :: 0 <= i < |xs| ==> f(xs[i]).Success?
    ensures r.Success? ==>
              && |r.value| == |xs|
              && forall i :: 0 <= i < |xs| ==> f(xs[i]) == Success(r.value[i])
  {
    if |xs| == 0 then Success([])
    else
      var head :- f(xs[0]);
      var tail :- MapAll(xs[1..], f);
      Success([head] + tail)
  }

  /** A failing `MapAll` reports the failure of the first element that fails. */
  lemma {:induction false} MapAllFailure<A, B, E>(xs: seq<A>, f: A -> Result<B, E>)
    requires MapAll(xs, f).Failure?
    ensures exists i :: && 0 <= i < |xs|
                        && f(xs[i]) == Failure(MapAll(xs, f).error)
                        && forall j :: 0 <= j < i ==> f(xs[j]).Success?
    decreases |xs|
  {
    if f(xs[0]).Success? {
      MapAllFailure(xs[1..], f);
      var i :| && 0 <= i < |xs| - 1
               && f(xs[1..][i]) == Failure(MapAll(xs[1..], f).error)
               && forall j :: 0 <= j < i ==> f(xs[1..][j]).Success?;
      assert f(xs[i + 1]) == Failure(MapAll(xs, f).error);
      assert forall j :: 0 <= j < i + 1 ==> f(xs[j]).Success? by {
        forall j | 0 <= j < i + 1 ensures f(xs[j]).Success? {
          if j > 0 {
            assert xs[j] == xs[1..][j - 1];
          }
        }
      }
    } else {
      assert f(xs[0]) == Failure(MapAll(xs, f).error);
    }
  }
}
