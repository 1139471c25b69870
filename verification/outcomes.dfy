/** Failure-compatible result of the board's operations, and the random
    source they draw from. */
module Outcomes {

  /** Ways an operation can fail. `DrawsExhausted` and `DrawOutOfRange` mean
      the supplied draws do not describe a run of the random source;
      `EmptyRemove` is removing the first coin of an empty list. */
  datatype Error =
    | DrawsExhausted
    | DrawOutOfRange(bound: nat, value: int)
    | EmptyRemove

  datatype Result<+T> = Ok(value: T) | Err(error: Error) {

    predicate IsFailure() {
      Err?
    }

    function PropagateFailure<U>(): Result<U>
      requires Err?
    {
      Err(error)
    }

    function Extract(): T
      requires Ok?
    {
      value
    }
  }

  /** One value taken from the random source, and what is left of it. */
  datatype Drawn = Drawn(value: int, rest: seq<int>)

  /** A call `nextInt(bound)`: the next draw, which must lie in `[0, bound)`. */
  function NextInt(draws: seq<int>, bound: nat): (r: Result<Drawn>)
    ensures r.Ok? <==> |draws| > 0 && 0 <= draws[0] < bound
    ensures r.Ok? ==> 0 <= r.value.value < bound
    ensures r.Ok? ==> r.value.value == draws[0] && r.value.rest == draws[1..]
    ensures r.Err? ==> r.error != EmptyRemove
  {
    if |draws| == 0 then Err(DrawsExhausted)
    else if 0 <= draws[0] < bound then Ok(Drawn(draws[0], draws[1..]))
    else Err(DrawOutOfRange(bound, draws[0]))
  }
}
