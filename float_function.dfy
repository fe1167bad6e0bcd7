/** `FloatFunction`: a function of a single `float`-valued argument (`R apply(Float value)`), with the default
    method `andThen`. `H` is the world state a call runs against. */
module FloatFunction {
  import opened Java
  import C = Combinators

  type FloatFunction<!R, !H> = C.Body<Float, R, H>

  /** `java.util.function.Function<R, S>`, the transform `andThen` accepts. */
  type Function<!R, S, !H> = C.Body<R, S, H>

  /** `andThen(after)`: rejects a null `after`, otherwise applies this function and
      then `after` to its result. */
  function AndThen<R(!new), S(!new), H(!new)>(f: FloatFunction<R, H>, after: Option<Function<R, S, H>>): (r: Result<FloatFunction<S, H>>)
    ensures after.None? ==> r == Failure(NullPointerException)
    ensures after.Some? ==> r.Success? && C.PipesInto(f, after.value, r.value)
  {
    match RequireNonNull(after)
    case Failure(e) => Failure(e)
    case Success(g) => Success(C.Pipe(f, g))
  }

  /** `f.andThen(g).andThen(h)` agrees with `f.andThen(g.andThen(h))`. */
  lemma AndThenChain<R(!new), S(!new), Q(!new), H(!new)>(f: FloatFunction<R, H>, g: Function<R, S, H>, h: Function<S, Q, H>)
    ensures C.Agree(AndThen(AndThen(f, Some(g)).value, Some(h)).value, AndThen(f, Some(C.Pipe(g, h))).value)
  {
    C.PipeAssociative(f, g, h);
  }

  /** With operands that count their calls: `apply` runs once, first, on the given
      arguments; `after` runs once, on `apply`'s result. */
  lemma AndThenCalls<R(!new), S(!new)>(f: Float -> R, g: R -> S, value: Float, log: seq<nat>)
    ensures AndThen(C.Counted(0, f), Some(C.Counted(1, g))).value(value, log) == C.Return(g(f(value)), log + [0, 1])
  {
    C.PipeCalls(f, g, value, log);
  }
}
