/** Optional values, results that carry an error, and the fail-fast `map` that
    Swift's `try xs.map { try f($0) }` performs. */
module Wrappers {

  datatype Option<+T> = None | Some(value: T)

  /** A value or the error a throwing Swift call raised. */
  datatype Result<+T, +E> = Success(value: T) | Failure(error: E) {
    predicate IsFailure() {
      Failure?
    }

    function PropagateFailure<U>(): Result<U, E>
      requires Failure?
    {
      Failure(error)
    }

    function Extract(): T
      requires Success?
    {
      value
    }
  }

  /** `try xs.map(f)`: applies `f` to the elements in order and stops at the
      first element whose call throws, propagating that error unchanged. */
  function MapAll<T, U, E>(xs: seq<T>, f: T -> Result<U, E>): (r: Result<seq<U>, E>)
    ensures r.Success? <==> forall i :: 0 <= i < |xs| ==> f(xs[i]).Success?
    ensures r.Success? ==> |r.value| == |xs|
    ensures r.Success? ==> forall i :: 0 <= i < |xs| ==> f(xs[i]) == Success(r.value[i])
    ensures r.Failure? ==>
      exists k :: 0 <= k < |xs| && f(xs[k]) == Failure(r.error)
                  && forall i :: 0 <= i < k ==> f(xs[i]).Success?
  {
    if xs == [] then Success([])
    else
      var head :- f(xs[0]);
      var tail :- MapAll(xs[1..], f);
      assert forall i :: 1 <= i < |xs| ==> xs[i] == xs[1..][i - 1];
      Success([head] + tail)
  }
}
