/** Failure-compatible wrappers used throughout the model, and the
    short-circuiting `collect` of an iterator of results into a result of a
    vector (the first failure wins, later items are not looked at). */
module Results {

  datatype Option<+T> = None | Some(value: T)

  datatype Result<+T, +E> = Ok(value: T) | Err(error: E) {
    predicate IsFailure() {
      Err?
    }

    function PropagateFailure<U>(): Result<U, E>
      requires Err?
    {
      Err(error)
    }

    function Extract(): T
      requires Ok?
    {
      value
    }
  }

  /** Success or failure of an operation that changes state and returns nothing. */
  datatype Outcome<+E> = Pass | Fail(error: E)

  /** `xs.iter().map(f).collect::<Result<Vec<_>, _>>()`: all mapped values in
      order when every item maps to `Ok`, otherwise the error of the first
      item that does not. */
  function Collect<T, U, E>(xs: seq<T>, f: T -> Result<U, E>): (r: Result<seq<U>, E>)
    ensures r.Ok? <==> forall i | 0 <= i < |xs| :: f(xs[i]).Ok?
    ensures r.Ok? ==> |r.value| == |xs| && forall i | 0 <= i < |xs| :: f(xs[i]) == Ok(r.value[i])
    ensures r.Err? ==>
      exists i | 0 <= i < |xs| :: f(xs[i]) == Err(r.error) && forall j | 0 <= j < i :: f(xs[j]).Ok?
  {
    if xs == [] then Ok([])
    else
      match f(xs[0])
      case Err(e) => Err(e)
      case Ok(y) =>
        match Collect(xs[1..], f)
        case Err(e) =>
          assert forall i | 1 <= i < |xs| :: xs[1..][i - 1] == xs[i];
          Err(e)
        case Ok(ys) =>
          assert forall i | 1 <= i < |xs| :: xs[1..][i - 1] == xs[i];
          Ok([y] + ys)
  }

  /** When every item maps to `Ok`, the collected vector is exactly the mapped values. */
  lemma CollectAllOk<T, U, E>(xs: seq<T>, f: T -> Result<U, E>, ys: seq<U>)
    requires |xs| == |ys| && forall i | 0 <= i < |xs| :: f(xs[i]) == Ok(ys[i])
    ensures Collect(xs, f) == Ok(ys)
  {
    var r := Collect(xs, f);
    assert forall i | 0 <= i < |xs| :: f(xs[i]).Ok?;
    assert forall i | 0 <= i < |xs| :: Ok(r.value[i]) == f(xs[i]) == Ok(ys[i]);
    assert r.value == ys;
  }
}
