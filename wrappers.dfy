/** Option and Result, with the members that the `:-` operator needs. */
module Wrappers {

  datatype Option<+T> = None | Some(value: T)

  /** A normal completion carrying a value, or an abrupt one carrying an error. */
  datatype Result<+T, +E> = Ok(value: T) | Err(error: E) {

    predicate IsFailure() { Err? }

    function PropagateFailure<U>(): Result<U, E>
      requires Err?
    {
      Err(error)
    }

    function Extract(): T
      requires Ok?
    {
      value
    }
  }

  /**
   * A loop that applies `f` to `xs[j..]` in order and stops at the first
   * failure; `done` holds the results for the elements before `j`.
   */
  function MapFrom<A, B, E>(f: A -> Result<B, E>, xs: seq<A>, j: nat, done: seq<B>): (r: Result<seq<B>, E>)
    requires j <= |xs|
    ensures r.Ok? ==> |r.value| == |done| + |xs| - j
    decreases |xs| - j
  {
    if j == |xs| then Ok(done)
    else
      var y :- f(xs[j]);
      MapFrom(f, xs, j + 1, done + [y])
  }

  /**
   * The loop succeeds iff every remaining element does, and then holds
   * `done` followed by each element's result in order.
   */
  lemma {:induction false} MapFromElementwise<A, B, E>(f: A -> Result<B, E>, xs: seq<A>, j: nat, done: seq<B>)
    requires j <= |xs|
    ensures var r := MapFrom(f, xs, j, done);
      (r.Ok? <==> forall i :: j <= i < |xs| ==> f(xs[i]).Ok?) &&
      (r.Ok? ==> (r.value[..|done|] == done &&
         forall i :: j <= i < |xs| ==> r.value[|done| + i - j] == f(xs[i]).value))
    decreases |xs| - j
  {
    if j < |xs| && f(xs[j]).Ok? {
      var y := f(xs[j]).value;
      MapFromElementwise(f, xs, j + 1, done + [y]);
      var r := MapFrom(f, xs, j + 1, done + [y]);
      if r.Ok? {
        assert r.value[..|done|] == (r.value[..|done| + 1])[..|done|];
      }
    }
  }

  /**
   * A loop that takes `acc` through `step` for each of `xs[i..]` in order
   * and stops at the first failure.
   */
  function FoldFrom<A, S, E>(step: (S, A) -> Result<S, E>, xs: seq<A>, i: nat, acc: S): Result<S, E>
    requires i <= |xs|
    decreases |xs| - i
  {
    if i == |xs| then Ok(acc)
    else
      var next :- step(acc, xs[i]);
      FoldFrom(step, xs, i + 1, next)
  }

  /** The loop over one more element is the loop over the others, then that element's step. */
  lemma {:induction false} FoldFromSnoc<A, S, E>(step: (S, A) -> Result<S, E>, xs: seq<A>, x: A, i: nat, acc: S)
    requires i <= |xs|
    ensures FoldFrom(step, xs + [x], i, acc) == (var before :- FoldFrom(step, xs, i, acc); step(before, x))
    decreases |xs| - i
  {
    if i < |xs| {
      assert (xs + [x])[i] == xs[i];
      var next := step(acc, xs[i]);
      if next.Ok? {
        FoldFromSnoc(step, xs, x, i + 1, next.value);
      }
    } else {
      assert (xs + [x])[i] == x;
    }
  }

  /** Dropping the first element shifts the loop by one. */
  lemma {:induction false} FoldFromShift<A, S, E>(step: (S, A) -> Result<S, E>, xs: seq<A>, i: nat, acc: S)
    requires 1 <= i <= |xs|
    ensures FoldFrom(step, xs, i, acc) == FoldFrom(step, xs[1..], i - 1, acc)
    decreases |xs| - i
  {
    if i < |xs| {
      var next := step(acc, xs[i]);
      if next.Ok? {
        FoldFromShift(step, xs, i + 1, next.value);
      }
    }
  }

  /** The elements of `xs` that `keep` holds of, in order. */
  function Filter<A>(keep: A -> bool, xs: seq<A>): (r: seq<A>)
    ensures forall j :: 0 <= j < |r| ==> keep(r[j]) && r[j] in xs
    ensures |r| <= |xs|
  {
    if xs == [] then []
    else if keep(xs[0]) then [xs[0]] + Filter(keep, xs[1..])
    else Filter(keep, xs[1..])
  }

  /** Elements whose step changes nothing can be left out of the loop. */
  lemma {:induction false} FoldFromFilter<A, S, E>(step: (S, A) -> Result<S, E>, keep: A -> bool, xs: seq<A>, acc: S)
    requires forall s: S, j :: 0 <= j < |xs| && !keep(xs[j]) ==> step(s, xs[j]) == Ok(s)
    ensures FoldFrom(step, xs, 0, acc) == FoldFrom(step, Filter(keep, xs), 0, acc)
    decreases |xs|
  {
    if xs != [] {
      FoldFromShift(step, xs, 1, acc);
      var next := step(acc, xs[0]);
      if !keep(xs[0]) {
        assert next == Ok(acc);
        FoldFromFilter(step, keep, xs[1..], acc);
      } else if next.Ok? {
        FoldFromShift(step, xs, 1, next.value);
        FoldFromFilter(step, keep, xs[1..], next.value);
        var rest := Filter(keep, xs[1..]);
        assert ([xs[0]] + rest)[1..] == rest;
        FoldFromShift(step, [xs[0]] + rest, 1, next.value);
      }
    }
  }
}
