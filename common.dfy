/** Option and Result values, and the "stop at the first failure" walk over a
    sequence that a Python `for` loop performs when its body may raise. */
module Common {

  datatype Option<+T> = None | Some(value: T)

  /** A value, or the exception (or other failure) that replaced it. */
  datatype Result<+T, +E> = Ok(value: T) | Err(error: E) {
    predicate IsFailure() { Err? }

    function PropagateFailure<U>(): Result<U, E>
      requires Err?
    {
      Err(error)
    }

    function Extract(): T
      requires Ok?
    {
      value
    }
  }

  /** Applies `f` to the elements of `xs` from first to last and collects the
      results; the first failure ends the walk and becomes the result. */
  function MapAll<A, B, E>(xs: seq<A>, f: A -> Result<B, E>): Result<seq<B>, E>
  {
    if xs == [] then Ok([])
    else
      var ys :- MapAll(xs[..|xs| - 1], f);
      var y :- f(xs[|xs| - 1]);
      Ok(ys + [y])
  }

  /** The walk succeeds exactly when every step succeeds, and then it holds
      every step's value, position by position. */
  lemma {:induction false} MapAllOk<A, B, E>(xs: seq<A>, f: A -> Result<B, E>)
    ensures MapAll(xs, f).Ok? <==> forall i :: 0 <= i < |xs| ==> f(xs[i]).Ok?
    ensures MapAll(xs, f).Ok? ==>
      |MapAll(xs, f).value| == |xs| &&
      forall i :: 0 <= i < |xs| ==> MapAll(xs, f).value[i] == f(xs[i]).value
  {
    if xs != [] {
      var p := xs[..|xs| - 1];
      MapAllOk(p, f);
      assert forall i :: 0 <= i < |p| ==> p[i] == xs[i];
    }
  }

  /** A failing step preceded only by successful ones decides the result. */
  lemma {:induction false} MapAllFirstError<A, B, E>(xs: seq<A>, f: A -> Result<B, E>, k: int)
    requires 0 <= k < |xs| && f(xs[k]).Err?
    requires forall i :: 0 <= i < k ==> f(xs[i]).Ok?
    ensures MapAll(xs, f) == Err(f(xs[k]).error)
  {
    var p := xs[..|xs| - 1];
    assert forall i :: 0 <= i < |p| ==> p[i] == xs[i];
    if k < |xs| - 1 {
      MapAllFirstError(p, f, k);
    } else {
      MapAllOk(p, f);
    }
  }

  /** Walking `p + q` is walking `p`, then (if that succeeded) walking `q`. */
  lemma {:induction false} MapAllAppend<A, B, E>(p: seq<A>, q: seq<A>, f: A -> Result<B, E>)
    ensures MapAll(p + q, f) ==
      match MapAll(p, f)
      case Err(e) => Err(e)
      case Ok(ys) =>
        match MapAll(q, f)
        case Err(e) => Err(e)
        case Ok(zs) => Ok(ys + zs)
  {
    if q == [] {
      assert p + q == p;
      match MapAll(p, f)
      case Err(_) =>
      case Ok(ys) => assert ys + [] == ys;
    } else {
      var q' := q[..|q| - 1];
      assert (p + q)[..|p + q| - 1] == p + q';
      assert (p + q)[|p + q| - 1] == q[|q| - 1];
      MapAllAppend(p, q', f);
      match MapAll(p, f)
      case Err(_) =>
      case Ok(ys) =>
        match MapAll(q', f)
        case Err(_) =>
        case Ok(zs) =>
          match f(q[|q| - 1])
          case Err(_) =>
          case Ok(z) => assert ys + zs + [z] == ys + (zs + [z]);
    }
  }

  /** One more step of a walk that has succeeded so far: it extends the
      results, or its failure is the failure of the whole walk. */
  lemma MapAllStep<A, B, E>(done: seq<A>, x: A, rest: seq<A>, f: A -> Result<B, E>, ys: seq<B>)
    requires MapAll(done, f) == Ok(ys)
    ensures f(x).Ok? ==> MapAll(done + [x], f) == Ok(ys + [f(x).value])
    ensures f(x).Err? ==> MapAll(done + [x] + rest, f) == Err(f(x).error)
  {
    MapAllAppend(done, [x], f);
    assert [x][..0] == [];
    MapAllAppend(done + [x], rest, f);
  }
}
