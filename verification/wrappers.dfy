/** Failure-compatible wrappers: `Option` for Python's `None`-or-value results and
    `Result` for operations that can raise. */
module Wrappers {

  datatype Option<+T> = None | Some(value: T)

  datatype Result<+T, +E> = Success(value: T) | Failure(error: E) {

    predicate IsFailure() {
      Failure?
    }

    function PropagateFailure<U>(): Result<U, E>
      requires Failure?
    {
      Failure(error)
    }

    function Extract(): T
      requires Success?
    {
      value
    }
  }

  /** Evaluates a sequence of fallible steps in order: all their values when every step
      succeeds, otherwise the error of the first step that fails. */
  function Collect<T, E>(rs: seq<Result<T, E>>): (r: Result<seq<T>, E>)
    ensures r.Success? <==> forall j :: 0 <= j < |rs| ==> rs[j].Success?
    ensures r.Success? ==> |r.value| == |rs| && forall j :: 0 <= j < |rs| ==> r.value[j] == rs[j].value
    ensures forall j :: 0 <= j < |rs| && rs[j].Failure? && (forall i :: 0 <= i < j ==> rs[i].Success?) ==>
      r == Failure(rs[j].error)
    decreases |rs|
  {
    if |rs| == 0 then Success([])
    else match rs[0]
      case Failure(e) => Failure(e)
      case Success(v) =>
        match Collect(rs[1..])
        case Failure(e) => Failure(e)
        case Success(vs) => Success([v] + vs)
  }

  /** Applies `f` to each element in order and keeps the values it produces. */
  function FilterMap<A, B>(f: A -> Option<B>, xs: seq<A>): (r: seq<B>)
    ensures |r| <= |xs|
    decreases |xs|
  {
    if |xs| == 0 then []
    else (match f(xs[0]) case Some(y) => [y] case None => []) + FilterMap(f, xs[1..])
  }

  lemma {:induction false} FilterMapAppend<A, B>(f: A -> Option<B>, xs: seq<A>, ys: seq<A>)
    ensures FilterMap(f, xs + ys) == FilterMap(f, xs) + FilterMap(f, ys)
    decreases |xs|
  {
    if |xs| == 0 {
      assert xs + ys == ys;
    } else {
      assert (xs + ys)[1..] == xs[1..] + ys;
      FilterMapAppend(f, xs[1..], ys);
    }
  }

  lemma {:induction false} FilterMapMembers<A, B>(f: A -> Option<B>, xs: seq<A>, y: B)
    ensures y in FilterMap(f, xs) <==> exists i :: 0 <= i < |xs| && f(xs[i]) == Some(y)
    decreases |xs|
  {
    if |xs| > 0 {
      FilterMapMembers(f, xs[1..], y);
      if exists i :: 1 <= i < |xs| && f(xs[i]) == Some(y) {
        var i :| 1 <= i < |xs| && f(xs[i]) == Some(y);
        assert xs[1..][i - 1] == xs[i];
      }
      if exists i :: 0 <= i < |xs[1..]| && f(xs[1..][i]) == Some(y) {
        var i :| 0 <= i < |xs[1..]| && f(xs[1..][i]) == Some(y);
        assert xs[i + 1] == xs[1..][i];
      }
    }
  }

  lemma {:induction false} FilterMapEmpty<A, B>(f: A -> Option<B>, xs: seq<A>)
    ensures FilterMap(f, xs) == [] <==> forall i :: 0 <= i < |xs| ==> f(xs[i]).None?
    decreases |xs|
  {
    if |xs| > 0 {
      FilterMapEmpty(f, xs[1..]);
      assert forall i :: 1 <= i < |xs| ==> xs[i] == xs[1..][i - 1];
    }
  }
}
