/** Option and Result values used across the model for Python's `None`
    results and for the exceptions a function raises. */
module Wrappers {

  datatype Option<+T> = None | Some(value: T) {
    function GetOr(default: T): T {
      if Some? then value else default
    }
  }

  /** `Err` carries the message of the exception the source would raise. */
  datatype Result<+T> = Ok(value: T) | Err(error: string)

  /** Applies `f` to each element in order, as a loop that lets the first
      exception escape; the result is that exception or every value. */
  function MapAll<T, U>(xs: seq<T>, f: T -> Result<U>): (r: Result<seq<U>>)
    ensures r.Ok? <==> forall i :: 0 <= i < |xs| ==> f(xs[i]).Ok?
    ensures r.Ok? ==> |r.value| == |xs| && forall i :: 0 <= i < |xs| ==> f(xs[i]) == Ok(r.value[i])
    decreases |xs|
  {
    if xs == [] then Ok([])
    else
      var init := MapAll(xs[..|xs| - 1], f);
      var last := f(xs[|xs| - 1]);
      if init.Err? then Err(init.error)
      else if last.Err? then Err(last.error)
      else Ok(init.value + [last.value])
  }

  lemma MapAllStep<T, U>(xs: seq<T>, f: T -> Result<U>, i: nat)
    requires i < |xs|
    ensures MapAll(xs[..i + 1], f) ==
      var init := MapAll(xs[..i], f);
      if init.Err? then init
      else if f(xs[i]).Err? then Err(f(xs[i]).error)
      else Ok(init.value + [f(xs[i]).value])
  {
    assert xs[..i + 1][..i] == xs[..i];
  }

  /** Once a prefix fails, the whole run fails the same way. */
  lemma {:induction false} MapAllErr<T, U>(xs: seq<T>, f: T -> Result<U>, n: nat)
    requires n <= |xs| && MapAll(xs[..n], f).Err?
    ensures MapAll(xs, f) == MapAll(xs[..n], f)
    decreases |xs| - n
  {
    if n < |xs| {
      MapAllStep(xs, f, n);
      MapAllErr(xs, f, n + 1);
    } else {
      assert xs[..n] == xs;
    }
  }
}

