/** Failure-compatible wrappers shared by every module of the model.
    `Option` stands for a value that pandas would hold as NaN (a missing
    cell, a key absent from a lookup table); `Result` stands for a step
    whose Python counterpart raises (for example `float()` on text that is
    not a number), which ends a one-shot script. */
module Wrappers {

  datatype Option<+T> = None | Some(value: T)

  /** `Err` carries the text that could not be converted. */
  datatype Result<+T> = Ok(value: T) | Err(input: string)

  /** Applies a step that may fail to every element, as a vectorised
      pandas conversion does: the first failure fails the whole column. */
  function TryMap<A, B>(xs: seq<A>, f: A -> Result<B>): (r: Result<seq<B>>)
    ensures r.Ok? <==> forall i :: 0 <= i < |xs| ==> f(xs[i]).Ok?
    ensures r.Ok? ==> |r.value| == |xs| && forall i :: 0 <= i < |xs| ==> r.value[i] == f(xs[i]).value
    decreases |xs|
  {
    if xs == [] then Ok([])
    else
      var init, last := xs[..|xs| - 1], xs[|xs| - 1];
      match (TryMap(init, f), f(last))
      case (Err(e), _) => Err(e)
      case (Ok(_), Err(e)) => Err(e)
      case (Ok(ys), Ok(y)) => Ok(ys + [y])
  }

  /** The conversion succeeds exactly when every element converts, and
      then its results are exactly the elements' results. */
  lemma TryMapMembers<A, B>(xs: seq<A>, f: A -> Result<B>)
    ensures TryMap(xs, f).Ok? <==> forall x :: x in xs ==> f(x).Ok?
    ensures TryMap(xs, f).Ok? ==> forall y :: y in TryMap(xs, f).value <==> exists x :: x in xs && f(x).Ok? && y == f(x).value
  {
    var r := TryMap(xs, f);
    if r.Ok? {
      forall y ensures y in r.value <==> exists x :: x in xs && f(x).Ok? && y == f(x).value {
        if y in r.value {
          var i :| 0 <= i < |r.value| && r.value[i] == y;
          assert xs[i] in xs;
        }
        if exists x :: x in xs && f(x).Ok? && y == f(x).value {
          var x :| x in xs && f(x).Ok? && y == f(x).value;
          var i :| 0 <= i < |xs| && xs[i] == x;
          assert r.value[i] == y;
        }
      }
    } else {
      var i :| 0 <= i < |xs| && !f(xs[i]).Ok?;
      assert xs[i] in xs;
    }
  }
}
