/** Failure-carrying results for the generator.

    Every way the Go program can stop early is an `Error` here: an error value it
    returns (`ParseError`, `ReadError`) and a run-time panic it does not recover
    from (`Unsupported` for the `panic` in `ParseExpr`, `IndexOutOfRange` for a
    slice index on an empty slice). */
module Outcome {

  datatype Option<+T> = None | Some(value: T)

  datatype Error =
    | ParseError(msg: string)       // go/parser rejected the file
    | ReadError(msg: string)        // os.ReadDir or os.ReadFile failed
    | Unsupported(kind: string)     // ParseExpr met a node kind outside its grammar
    | IndexOutOfRange               // x[0] on an empty slice

  datatype Result<+T> = Ok(value: T) | Fail(err: Error)

  /** Runs two list-producing steps one after the other: the first failure
      wins, otherwise the lists are concatenated in order. */
  function Then<T>(first: Result<seq<T>>, second: Result<seq<T>>): (r: Result<seq<T>>)
    ensures first.Fail? ==> r == first
    ensures first.Ok? && second.Fail? ==> r == second
    ensures first.Ok? && second.Ok? ==> r == Ok(first.value + second.value)
  {
    match first
    case Fail(_) => first
    case Ok(a) =>
      match second
      case Fail(_) => second
      case Ok(b) => Ok(a + b)
  }

  lemma ThenAssoc<T>(a: Result<seq<T>>, b: Result<seq<T>>, c: Result<seq<T>>)
    ensures Then(Then(a, b), c) == Then(a, Then(b, c))
  {
    if a.Ok? && b.Ok? && c.Ok? {
      assert (a.value + b.value) + c.value == a.value + (b.value + c.value);
    }
  }
}
