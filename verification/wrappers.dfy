/** Failure-compatible wrappers used throughout the model: an optional value
    (a Java reference that may be null) and a result that is either a value or
    the error a Java call would have raised. */
module Wrappers {

  datatype Option<+T> = None | Some(value: T) {

    /** The wrapped value, or `default` when there is none. */
    function GetOr(default: T): (r: T)
      ensures Some? ==> r == value
      ensures None? ==> r == default
    {
      match this
      case Some(v) => v
      case None => default
    }
  }

  datatype Result<+T, +E> = Success(value: T) | Failure(error: E) {

    predicate IsFailure() {
      Failure?
    }

    function PropagateFailure<U>(): Result<U, E>
      requires Failure?
    {
      Failure(error)
    }

    function Extract(): T
      requires Success?
    {
      value
    }
  }

  /** Runs a sequence of computations left to right, the way a Java loop that
      calls a throwing method on every element does: the first failure aborts
      the whole sequence, otherwise every value is collected in order. */
  function Collect<T, E>(rs: seq<Result<T, E>>): (r: Result<seq<T>, E>)
    ensures r.Success? <==> forall i :: 0 <= i < |rs| ==> rs[i].Success?
    ensures r.Success? ==> |r.value| == |rs|
    ensures r.Success? ==> forall i :: 0 <= i < |rs| ==> rs[i] == Success(r.value[i])
    ensures r.Failure? ==>
              exists k :: 0 <= k < |rs| && rs[k] == Failure(r.error)
                          && forall i :: 0 <= i < k ==> rs[i].Success?
    decreases |rs|
  {
    if |rs| == 0 then Success([])
    else
      match rs[0]
      case Failure(e) => Failure(e)
      case Success(v) =>
        var rest := Collect(rs[1..]);
        match rest
        case Failure(e) =>
          assert exists k :: 0 <= k < |rs| && rs[k] == Failure(e)
                             && forall i :: 0 <= i < k ==> rs[i].Success? by {
            var k :| 0 <= k < |rs| - 1 && rs[1..][k] == Failure(e)
                     && forall i :: 0 <= i < k ==> rs[1..][i].Success?;
            assert rs[k + 1] == Failure(e);
            forall i | 0 <= i < k + 1 ensures rs[i].Success? {
              if i > 0 { assert rs[i] == rs[1..][i - 1]; }
            }
          }
          Failure(e)
        case Success(vs) => Success([v] + vs)
  }

  /** Collecting `a + b` succeeds exactly when every computation of both
      halves does, and then yields the values of `a` followed by those of `b`. */
  lemma {:induction false} CollectConcat<T, E>(a: seq<Result<T, E>>, b: seq<Result<T, E>>)
    ensures Collect(a + b).Success? <==>
              (forall i :: 0 <= i < |a| ==> a[i].Success?) && (forall j :: 0 <= j < |b| ==> b[j].Success?)
    ensures Collect(a + b).Success? ==> |Collect(a + b).value| == |a| + |b|
    ensures Collect(a + b).Success? ==>
              forall i :: 0 <= i < |a| ==> a[i] == Success(Collect(a + b).value[i])
    ensures Collect(a + b).Success? ==>
              forall j :: 0 <= j < |b| ==> b[j] == Success(Collect(a + b).value[|a| + j])
  {
    var ab := a + b;
    assert forall i :: 0 <= i < |a| ==> a[i] == ab[i];
    assert forall j :: 0 <= j < |b| ==> b[j] == ab[|a| + j];
    if (forall i :: 0 <= i < |a| ==> a[i].Success?) && (forall j :: 0 <= j < |b| ==> b[j].Success?) {
      forall k | 0 <= k < |ab| ensures ab[k].Success? {
        if k >= |a| { assert ab[k] == b[k - |a|]; }
      }
    }
  }

  /** Runs the computations of `a`, then those of `b`, stopping at the first
      failure. */
  function CollectBoth<T, E>(a: seq<Result<T, E>>, b: seq<Result<T, E>>): (r: Result<seq<T>, E>)
    ensures r.Success? <==>
              (forall i :: 0 <= i < |a| ==> a[i].Success?) && (forall j :: 0 <= j < |b| ==> b[j].Success?)
    ensures r.Success? ==> |r.value| == |a| + |b|
    ensures r.Success? ==> forall i :: 0 <= i < |a| ==> a[i] == Success(r.value[i])
    ensures r.Success? ==> forall j :: 0 <= j < |b| ==> b[j] == Success(r.value[|a| + j])
  {
    CollectConcat(a, b);
    Collect(a + b)
  }
}
