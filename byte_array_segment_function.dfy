/** `ByteArraySegmentFunction`: a function of a `byte`-valued array argument with start and end indices (`R apply(ArrayRef arr, Int from, Int to)`), with the default
    method `andThen`. `H` is the world state a call runs against. */
module ByteArraySegmentFunction {
  import opened Java
  import C = Combinators

  type ByteArraySegmentFunction<!R, !H> = C.Body<(ArrayRef, Int, Int), R, H>

  /** `java.util.function.Function<R, S>`, the transform `andThen` accepts. */
  type Function<!R, S, !H> = C.Body<R, S, H>

  /** `andThen(after)`: rejects a null `after`, otherwise applies this function and
      then `after` to its result. */
  function AndThen<R(!new), S(!new), H(!new)>(f: ByteArraySegmentFunction<R, H>, after: Option<Function<R, S, H>>): (r: Result<ByteArraySegmentFunction<S, H>>)
    ensures after.None? ==> r == Failure(NullPointerException)
    ensures after.Some? ==> r.Success? && C.PipesInto(f, after.value, r.value)
  {
    match RequireNonNull(after)
    case Failure(e) => Failure(e)
    case Success(g) => Success(C.Pipe(f, g))
  }

  /** `f.andThen(g).andThen(h)` agrees with `f.andThen(g.andThen(h))`. */
  lemma AndThenChain<R(!new), S(!new), Q(!new), H(!new)>(f: ByteArraySegmentFunction<R, H>, g: Function<R, S, H>, h: Function<S, Q, H>)
    ensures C.Agree(AndThen(AndThen(f, Some(g)).value, Some(h)).value, AndThen(f, Some(C.Pipe(g, h))).value)
  {
    C.PipeAssociative(f, g, h);
  }

  /** With operands that count their calls: `apply` runs once, first, on the given
      arguments; `after` runs once, on `apply`'s result. */
  lemma AndThenCalls<R(!new), S(!new)>(f: ((ArrayRef, Int, Int)) -> R, g: R -> S, arr: ArrayRef, from: Int, to: Int, log: seq<nat>)
    ensures AndThen(C.Counted(0, f), Some(C.Counted(1, g))).value((arr, from, to), log) == C.Return(g(f((arr, from, to))), log + [0, 1])
  {
    C.PipeCalls(f, g, (arr, from, to), log);
  }
}
