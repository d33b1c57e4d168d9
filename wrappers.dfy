/** Optional values and results: the `None` a Python function returns, and the
    exception that aborts a run, are both modelled as values. */
module Wrappers {

  datatype Option<+T> = None | Some(value: T)

  datatype Result<+T, +E> = Ok(value: T) | Err(error: E)

  /** A loop that applies `f` to each element in turn and stops at the first
      exception: the results of all elements, or the first error. */
  function MapResult<A, B, E>(xs: seq<A>, f: A -> Result<B, E>): (r: Result<seq<B>, E>)
    ensures r.Ok? <==> forall i :: 0 <= i < |xs| ==> f(xs[i]).Ok?
    ensures r.Ok? ==> |r.value| == |xs| && forall i :: 0 <= i < |xs| ==> r.value[i] == f(xs[i]).value
    ensures r.Err? ==>
      exists i :: 0 <= i < |xs| && f(xs[i]) == Err(r.error) && forall j :: 0 <= j < i ==> f(xs[j]).Ok?
  {
    if |xs| == 0 then Ok([])
    else
      var init := xs[..|xs| - 1];
      assert forall i :: 0 <= i < |init| ==> init[i] == xs[i];
      match MapResult(init, f)
      case Err(e) => Err(e)
      case Ok(ys) =>
        match f(xs[|xs| - 1])
        case Err(e) => Err(e)
        case Ok(y) => Ok(ys + [y])
  }

  /** One more iteration of the loop that `MapResult` describes. */
  lemma MapResultStep<A, B, E>(xs: seq<A>, i: nat, f: A -> Result<B, E>)
    requires i < |xs|
    ensures MapResult(xs[..i + 1], f) ==
      if MapResult(xs[..i], f).Err? then MapResult(xs[..i], f)
      else if f(xs[i]).Err? then Err(f(xs[i]).error)
      else Ok(MapResult(xs[..i], f).value + [f(xs[i]).value])
  {
    assert xs[..i + 1][..i] == xs[..i];
  }

  /** Once the loop has stopped at an error, the later elements do not
      matter. */
  lemma {:induction false} MapResultStops<A, B, E>(xs: seq<A>, i: nat, f: A -> Result<B, E>)
    requires i <= |xs| && MapResult(xs[..i], f).Err?
    ensures MapResult(xs, f) == MapResult(xs[..i], f)
    decreases |xs| - i
  {
    if i < |xs| {
      MapResultStep(xs, i, f);
      MapResultStops(xs, i + 1, f);
    } else {
      assert xs[..i] == xs;
    }
  }
}
