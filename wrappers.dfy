/** Failure-compatible result types and the error taxonomy of the synchronisation layer. */
module Wrappers {

  datatype Option<+T> = None | Some(value: T)

  /** The outcome of an operation that may throw; usable with `:-`. */
  datatype Result<+T, +E> = Ok(value: T) | Err(error: E) {
    predicate IsFailure() { Err? }

    function PropagateFailure<U>(): Result<U, E>
      requires Err?
    {
      Err(error)
    }

    function Extract(): T
      requires Ok?
    {
      value
    }
  }

  /** What a decode step throws. */
  datatype DecodeError =
    | InvalidAddress   // address(): "not a valid address"
    | InvalidInteger   // bigInt(): the text is not an integer
    | InvalidLocation  // locationIdFromDecStr(): value at or above the field bound
    | NumberOverflow   // BigNumber.toNumber(): value beyond the safe integer range
    | UndefinedValue   // a positional read past the end of a list

  /** JavaScript's `Array.prototype.map` with a callback that may throw:
      the callbacks run in order and the first throw propagates. */
  function MapAll<A, B, E>(xs: seq<A>, f: A -> Result<B, E>): (r: Result<seq<B>, E>)
    ensures r.Ok? <==> forall i :: 0 <= i < |xs| ==> f(xs[i]).Ok?
    ensures r.Ok? ==> |r.value| == |xs| && forall i :: 0 <= i < |xs| ==> f(xs[i]) == Ok(r.value[i])
    ensures r.Err? ==> exists i :: 0 <= i < |xs| && f(xs[i]) == Err(r.error) && forall j :: 0 <= j < i ==> f(xs[j]).Ok?
  {
    if |xs| == 0 then Ok([])
    else
      match f(xs[0])
      case Err(e) => Err(e)
      case Ok(y) =>
        match MapAll(xs[1..], f)
        case Err(e) =>
          MapAllErrShift(xs, f, e);
          Err(e)
        case Ok(ys) =>
          assert forall i :: 1 <= i < |xs| ==> xs[i] == xs[1..][i - 1];
          Ok([y] + ys)
  }

  /** A first failure in the tail of `xs` is a first failure of `xs` once the head succeeded. */
  lemma MapAllErrShift<A, B, E>(xs: seq<A>, f: A -> Result<B, E>, e: E)
    requires |xs| > 0 && f(xs[0]).Ok?
    requires exists i :: 0 <= i < |xs[1..]| && f(xs[1..][i]) == Err(e) && forall j :: 0 <= j < i ==> f(xs[1..][j]).Ok?
    ensures exists i :: 0 <= i < |xs| && f(xs[i]) == Err(e) && forall j :: 0 <= j < i ==> f(xs[j]).Ok?
  {
    var i :| 0 <= i < |xs[1..]| && f(xs[1..][i]) == Err(e) && forall j :: 0 <= j < i ==> f(xs[1..][j]).Ok?;
    assert f(xs[i + 1]) == Err(e);
    forall j | 0 <= j < i + 1 ensures f(xs[j]).Ok? {
      if j > 0 { assert xs[j] == xs[1..][j - 1]; }
    }
  }
}
