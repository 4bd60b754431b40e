/** Option and Result, the failure-compatible wrappers used throughout the model
    for C#'s nullable references and for the exceptions the source lets escape. */
module Wrappers {

  datatype Option<+T> = None | Some(value: T)

  datatype Result<+T, +E> = Ok(value: T) | Err(error: E) {
    predicate IsFailure() {
      Err?
    }

    function PropagateFailure<U>(): Result<U, E>
      requires Err?
    {
      Err(error)
    }

    function Extract(): T
      requires Ok?
    {
      value
    }
  }

  /** xs.Select(f) materialised, where f may throw: the conversions in order,
      and the first failure aborts the whole list. */
  function MapResult<A, B, E>(xs: seq<A>, f: A -> Result<B, E>): (r: Result<seq<B>, E>)
    ensures r.Ok? ==> |r.value| == |xs|
  {
    if |xs| == 0 then Ok([])
    else
      var init :- MapResult(xs[..|xs| - 1], f);
      var y :- f(xs[|xs| - 1]);
      Ok(init + [y])
  }

  /** The conversion succeeds exactly when every element converts, and then
      holds each element's result, in order. */
  lemma {:induction false} MapResultProps<A, B, E>(xs: seq<A>, f: A -> Result<B, E>)
    ensures MapResult(xs, f).Ok? <==> forall i :: 0 <= i < |xs| ==> f(xs[i]).Ok?
    ensures MapResult(xs, f).Ok? ==> forall i :: 0 <= i < |xs| ==> f(xs[i]) == Ok(MapResult(xs, f).value[i])
  {
    if |xs| > 0 {
      var xs' := xs[..|xs| - 1];
      MapResultProps(xs', f);
      assert forall i :: 0 <= i < |xs'| ==> xs'[i] == xs[i];
    }
  }

  /** Once a prefix fails, what follows changes nothing; otherwise the results
      of the two parts concatenate, and a failure in the second part fails the whole. */
  lemma {:induction false} MapResultAppend<A, B, E>(a: seq<A>, b: seq<A>, f: A -> Result<B, E>)
    ensures MapResult(a, f).Err? ==> MapResult(a + b, f) == MapResult(a, f)
    ensures MapResult(a, f).Ok? && MapResult(b, f).Ok? ==>
      MapResult(a + b, f) == Ok(MapResult(a, f).value + MapResult(b, f).value)
    ensures MapResult(a, f).Ok? && MapResult(b, f).Err? ==> MapResult(a + b, f) == MapResult(b, f)
    decreases |b|
  {
    if |b| == 0 {
      assert a + b == a;
      if MapResult(a, f).Ok? {
        assert MapResult(a, f).value + [] == MapResult(a, f).value;
      }
    } else {
      var b' := b[..|b| - 1];
      assert (a + b)[..|a + b| - 1] == a + b';
      MapResultAppend(a, b', f);
      assert b[..|b| - 1] == b';
      if MapResult(a, f).Ok? && MapResult(b', f).Ok? && f(b[|b| - 1]).Ok? {
        var x, y, z := MapResult(a, f).value, MapResult(b', f).value, f(b[|b| - 1]).value;
        assert (x + y) + [z] == x + (y + [z]);
      }
    }
  }

  /** The results of a loop of `list.AddRange(f(x))` over xs, where f may
      throw: the concatenation in order, and the first failure aborts. */
  function FlatMapResult<A, B, E>(xs: seq<A>, f: A -> Result<seq<B>, E>): Result<seq<B>, E>
  {
    if |xs| == 0 then Ok([])
    else
      var init :- FlatMapResult(xs[..|xs| - 1], f);
      var ys :- f(xs[|xs| - 1]);
      Ok(init + ys)
  }

  lemma FlatMapResultSnoc<A, B, E>(xs: seq<A>, x: A, f: A -> Result<seq<B>, E>)
    ensures FlatMapResult(xs + [x], f) ==
      if FlatMapResult(xs, f).Err? then FlatMapResult(xs, f)
      else if f(x).Err? then Err(f(x).error)
      else Ok(FlatMapResult(xs, f).value + f(x).value)
  {
    assert (xs + [x])[..|xs|] == xs;
  }

  /** Running two loops one after the other: a failure in the first ends the
      whole; otherwise the results concatenate, or the second one's failure
      ends the whole. */
  lemma {:induction false} FlatMapResultAppend<A, B, E>(a: seq<A>, b: seq<A>, f: A -> Result<seq<B>, E>)
    ensures FlatMapResult(a, f).Err? ==> FlatMapResult(a + b, f) == FlatMapResult(a, f)
    ensures FlatMapResult(a, f).Ok? && FlatMapResult(b, f).Ok? ==>
      FlatMapResult(a + b, f) == Ok(FlatMapResult(a, f).value + FlatMapResult(b, f).value)
    ensures FlatMapResult(a, f).Ok? && FlatMapResult(b, f).Err? ==> FlatMapResult(a + b, f) == FlatMapResult(b, f)
    decreases |b|
  {
    if |b| == 0 {
      assert a + b == a;
      if FlatMapResult(a, f).Ok? {
        assert FlatMapResult(a, f).value + [] == FlatMapResult(a, f).value;
      }
    } else {
      var b' := b[..|b| - 1];
      var z := b[|b| - 1];
      assert a + b == (a + b') + [z];
      assert b == b' + [z];
      FlatMapResultAppend(a, b', f);
      FlatMapResultSnoc(a + b', z, f);
      FlatMapResultSnoc(b', z, f);
      if FlatMapResult(a, f).Ok? && FlatMapResult(b', f).Ok? && f(z).Ok? {
        var x, y, w := FlatMapResult(a, f).value, FlatMapResult(b', f).value, f(z).value;
        assert (x + y) + w == x + (y + w);
      }
    }
  }

  /** Every result comes from one of the elements. */
  lemma {:induction false} FlatMapResultMembers<A, B, E>(xs: seq<A>, f: A -> Result<seq<B>, E>)
    ensures FlatMapResult(xs, f).Ok? ==>
      forall y :: y in FlatMapResult(xs, f).value ==>
        exists i :: 0 <= i < |xs| && f(xs[i]).Ok? && y in f(xs[i]).value
  {
    if |xs| > 0 && FlatMapResult(xs, f).Ok? {
      var xs' := xs[..|xs| - 1];
      FlatMapResultMembers(xs', f);
      forall y | y in FlatMapResult(xs, f).value
        ensures exists i :: 0 <= i < |xs| && f(xs[i]).Ok? && y in f(xs[i]).value
      {
        if y in FlatMapResult(xs', f).value {
          var i :| 0 <= i < |xs'| && f(xs'[i]).Ok? && y in f(xs'[i]).value;
          assert xs[i] == xs'[i];
        } else {
          assert y in f(xs[|xs| - 1]).value;
        }
      }
    }
  }

  /** When every element answers with exactly one value, the concatenation is
      those values in order. */
  lemma {:induction false} FlatMapResultSingletons<A, B, E>(xs: seq<A>, f: A -> Result<seq<B>, E>, ys: seq<B>)
    requires |ys| == |xs| && forall i :: 0 <= i < |xs| ==> f(xs[i]) == Ok([ys[i]])
    ensures FlatMapResult(xs, f) == Ok(ys)
  {
    if |xs| > 0 {
      var n := |xs| - 1;
      FlatMapResultSingletons(xs[..n], f, ys[..n]);
      assert ys[..n] + [ys[n]] == ys;
    }
  }

  /** A successful concatenation contains every element's answer. */
  lemma {:induction false} FlatMapResultContains<A, B, E>(xs: seq<A>, f: A -> Result<seq<B>, E>, i: nat, y: B)
    requires FlatMapResult(xs, f).Ok? && i < |xs|
    ensures f(xs[i]).Ok?
    ensures y in f(xs[i]).value ==> y in FlatMapResult(xs, f).value
  {
    var n := |xs| - 1;
    if i < n {
      FlatMapResultContains(xs[..n], f, i, y);
    }
  }
}
