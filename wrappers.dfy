/** Option, Result and Outcome: the model's stand-ins for Python's None and raised exceptions. */
module Wrappers {

  datatype Option<+T> = None | Some(value: T) {
    function GetOr(default: T): T {
      match this
      case Some(v) => v
      case None => default
    }
  }

  /** A value, or the exception the Python code would have raised instead. */
  datatype Result<+T, +E> = Success(value: T) | Failure(error: E) {
    predicate IsFailure() {
      Failure?
    }

    function PropagateFailure<U>(): Result<U, E>
      requires Failure?
    {
      Failure(error)
    }

    function Extract(): T
      requires Success?
    {
      value
    }
  }

  /** Completion of a procedure that returns nothing but may raise. */
  datatype Outcome<+E> = Pass | Fail(error: E)

  /** `f` applied to each element in order; the first failure stops everything. */
  function MapResult<A, B, E>(xs: seq<A>, f: A -> Result<B, E>): Result<seq<B>, E>
    decreases |xs|
  {
    if xs == [] then Success([])
    else
      var prev :- MapResult(xs[..|xs| - 1], f);
      var y :- f(xs[|xs| - 1]);
      Success(prev + [y])
  }

  /** One more element: its result is appended, or its failure is the result. */
  lemma MapResultSnoc<A, B, E>(xs: seq<A>, i: nat, f: A -> Result<B, E>)
    requires i < |xs|
    ensures MapResult(xs[..i], f).Success? ==>
      MapResult(xs[..i + 1], f)
      == if f(xs[i]).Success? then Success(MapResult(xs[..i], f).value + [f(xs[i]).value])
         else Failure(f(xs[i]).error)
  {
    assert xs[..i + 1][..i] == xs[..i];
  }

  lemma {:induction false} MapResultFailurePersists<A, B, E>(xs: seq<A>, i: nat, f: A -> Result<B, E>)
    requires i <= |xs|
    requires MapResult(xs[..i], f).Failure?
    ensures MapResult(xs, f) == MapResult(xs[..i], f)
    decreases |xs|
  {
    if i < |xs| {
      var init := xs[..|xs| - 1];
      assert init[..i] == xs[..i];
      MapResultFailurePersists(init, i, f);
    } else {
      assert xs[..i] == xs;
    }
  }

  /** One turn of a loop computing `MapResult`: the next result extends the list, or its
      failure is the failure of the whole map. */
  lemma MapResultStep<A, B, E>(xs: seq<A>, i: nat, f: A -> Result<B, E>, ys: seq<B>)
    requires i < |xs|
    requires MapResult(xs[..i], f) == Success(ys)
    ensures f(xs[i]).Success? ==> MapResult(xs[..i + 1], f) == Success(ys + [f(xs[i]).value])
    ensures f(xs[i]).Failure? ==> MapResult(xs, f) == Failure(f(xs[i]).error)
  {
    MapResultSnoc(xs, i, f);
    if f(xs[i]).Failure? {
      MapResultFailurePersists(xs, i + 1, f);
    }
  }

  /** A successful map has one result per element, each computed from its own element. */
  lemma {:induction false} MapResultElementwise<A, B, E>(xs: seq<A>, f: A -> Result<B, E>)
    requires MapResult(xs, f).Success?
    ensures var ys := MapResult(xs, f).value;
      |ys| == |xs| && forall i :: 0 <= i < |xs| ==> f(xs[i]) == Success(ys[i])
    decreases |xs|
  {
    if xs != [] {
      var init := xs[..|xs| - 1];
      MapResultElementwise(init, f);
      var ys := MapResult(xs, f).value;
      var prev := MapResult(init, f).value;
      var last := f(xs[|xs| - 1]);
      assert last.Success? && ys == prev + [last.value];
      forall i | 0 <= i < |xs| ensures f(xs[i]) == Success(ys[i]) {
        if i < |init| {
          assert xs[i] == init[i];
          assert ys[i] == prev[i];
        }
      }
    }
  }

  /** A successful map whose every element maps to the matching result is that list. */
  lemma {:induction false} MapResultOfSuccesses<A, B, E>(xs: seq<A>, ys: seq<B>, f: A -> Result<B, E>)
    requires |ys| == |xs|
    requires forall i :: 0 <= i < |xs| ==> f(xs[i]) == Success(ys[i])
    ensures MapResult(xs, f) == Success(ys)
    decreases |xs|
  {
    if xs != [] {
      var n := |xs| - 1;
      MapResultOfSuccesses(xs[..n], ys[..n], f);
      assert ys[..n] + [ys[n]] == ys;
    }
  }

  /** A map succeeds exactly when every element does. */
  lemma {:induction false} MapResultSuccessIff<A, B, E>(xs: seq<A>, f: A -> Result<B, E>)
    ensures MapResult(xs, f).Success? <==> forall i :: 0 <= i < |xs| ==> f(xs[i]).Success?
    decreases |xs|
  {
    if xs != [] {
      var n := |xs| - 1;
      MapResultSuccessIff(xs[..n], f);
      assert forall i :: 0 <= i < n ==> xs[..n][i] == xs[i];
    }
  }

  /** A failed map fails with the error of one of its elements. */
  lemma {:induction false} MapResultFailureFrom<A, B, E>(xs: seq<A>, f: A -> Result<B, E>)
    requires MapResult(xs, f).Failure?
    ensures exists i :: 0 <= i < |xs| && f(xs[i]) == Failure(MapResult(xs, f).error)
    decreases |xs|
  {
    var n := |xs| - 1;
    if MapResult(xs[..n], f).Failure? {
      MapResultFailureFrom(xs[..n], f);
      var i :| 0 <= i < n && f(xs[..n][i]) == Failure(MapResult(xs[..n], f).error);
      assert xs[..n][i] == xs[i];
    } else {
      assert f(xs[n]) == Failure(MapResult(xs, f).error);
    }
  }

  /** Two lists whose elements map alike map alike. */
  lemma {:induction false} MapResultPointwise<A, B, E>(xs: seq<A>, ys: seq<A>, f: A -> Result<B, E>)
    requires |xs| == |ys|
    requires forall i :: 0 <= i < |xs| ==> f(xs[i]) == f(ys[i])
    ensures MapResult(xs, f) == MapResult(ys, f)
    decreases |xs|
  {
    if xs != [] {
      var n := |xs| - 1;
      assert forall i :: 0 <= i < n ==> xs[..n][i] == xs[i] && ys[..n][i] == ys[i];
      MapResultPointwise(xs[..n], ys[..n], f);
    }
  }

  /** How many elements a `MapResult` gets through: the index of the first failure, or the
      length when there is none. */
  function Reach<A, B, E>(xs: seq<A>, f: A -> Result<B, E>): (k: nat)
    ensures k <= |xs|
    ensures forall j :: 0 <= j < k ==> f(xs[j]).Success?
    ensures k < |xs| ==> f(xs[k]).Failure?
    decreases |xs|
  {
    if xs == [] || f(xs[0]).Failure? then 0
    else
      var k := 1 + Reach(xs[1..], f);
      assert forall j :: 1 <= j < k ==> xs[j] == xs[1..][j - 1];
      k
  }

  /** A map whose prefix succeeds up to a failing element reaches exactly that element. */
  lemma ReachOfFailure<A, B, E>(xs: seq<A>, i: nat, f: A -> Result<B, E>)
    requires i < |xs| && MapResult(xs[..i], f).Success? && f(xs[i]).Failure?
    ensures Reach(xs, f) == i
  {
    MapResultSuccessIff(xs[..i], f);
    assert forall j :: 0 <= j < i ==> xs[..i][j] == xs[j];
  }

  /** A successful map reaches the end. */
  lemma ReachOfSuccess<A, B, E>(xs: seq<A>, f: A -> Result<B, E>)
    requires MapResult(xs, f).Success?
    ensures Reach(xs, f) == |xs|
  {
    MapResultSuccessIff(xs, f);
  }
}
