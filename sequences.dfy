/** Mapping a partial step over a sequence, stopping at the first element it rejects. */
module Sequences {
  import opened Wrappers

  /** Applies `f` to every element in order. The first element `f` rejects makes the whole
      result `Failure(e)`: this is how an exception thrown inside a JavaScript loop ends the loop
      and the enclosing call. */
  function MapAll<A, B, E>(xs: seq<A>, f: A -> Option<B>, e: E): (r: Result<seq<B>, E>)
    ensures r.Success? ==> |r.value| == |xs|
    ensures r.Failure? ==> r.error == e
  {
    if xs == [] then Success([])
    else
      var n := |xs| - 1;
      match MapAll(xs[..n], f, e)
      case Failure(err) => Failure(err)
      case Success(ys) =>
        match f(xs[n])
        case None => Failure(e)
        case Some(y) => Success(ys + [y])
  }

  /** One more element: MapAll goes on from where it stopped. */
  lemma {:induction false} MapAllSnoc<A, B, E>(xs: seq<A>, x: A, f: A -> Option<B>, e: E)
    ensures MapAll(xs, f, e).Failure? ==> MapAll(xs + [x], f, e) == MapAll(xs, f, e)
    ensures MapAll(xs, f, e).Success? && f(x).None? ==> MapAll(xs + [x], f, e) == Failure(e)
    ensures MapAll(xs, f, e).Success? && f(x).Some? ==>
              MapAll(xs + [x], f, e) == Success(MapAll(xs, f, e).value + [f(x).value])
  {
    assert (xs + [x])[..|xs|] == xs;
  }

  /** MapAll over two accepted elements. */
  lemma {:induction false} MapAllPair<A, B, E>(x: A, y: A, f: A -> Option<B>, e: E)
    requires f(x).Some? && f(y).Some?
    ensures MapAll([x, y], f, e) == Success([f(x).value, f(y).value])
  {
    var none: seq<A> := [];
    var empty: seq<B> := [];
    assert MapAll(none, f, e) == Success(empty);
    MapAllSnoc(none, x, f, e);
    assert none + [x] == [x];
    assert empty + [f(x).value] == [f(x).value];
    assert MapAll([x], f, e) == Success([f(x).value]);
    MapAllSnoc([x], y, f, e);
    assert [x] + [y] == [x, y];
    assert [f(x).value] + [f(y).value] == [f(x).value, f(y).value];
  }

  /** Once MapAll has failed on a prefix, it fails on every extension. */
  lemma {:induction false} MapAllAbort<A, B, E>(xs: seq<A>, ys: seq<A>, f: A -> Option<B>, e: E)
    requires MapAll(xs, f, e).Failure?
    ensures MapAll(xs + ys, f, e).Failure?
    decreases |ys|
  {
    if ys == [] {
      assert xs + ys == xs;
    } else {
      var n := |ys| - 1;
      MapAllAbort(xs, ys[..n], f, e);
      assert xs + ys == (xs + ys[..n]) + [ys[n]];
      MapAllSnoc(xs + ys[..n], ys[n], f, e);
    }
  }

  /** MapAll succeeds exactly when every element is accepted, and then yields one result per
      element, in order; otherwise it fails with `e`. */
  lemma {:induction false} MapAllSpec<A, B, E>(xs: seq<A>, f: A -> Option<B>, e: E)
    ensures MapAll(xs, f, e).Success? <==> forall i :: 0 <= i < |xs| ==> f(xs[i]).Some?
    ensures MapAll(xs, f, e).Success? ==>
      && |MapAll(xs, f, e).value| == |xs|
      && forall i :: 0 <= i < |xs| ==> MapAll(xs, f, e).value[i] == f(xs[i]).value
    ensures MapAll(xs, f, e).Failure? ==> MapAll(xs, f, e).error == e
  {
    if xs != [] {
      var n := |xs| - 1;
      MapAllSpec(xs[..n], f, e);
      assert forall i :: 0 <= i < n ==> xs[..n][i] == xs[i];
    }
  }
}
