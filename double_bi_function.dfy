/** `DoubleBiFunction`: a function of two `double`-valued arguments (`R apply(Double left, Double right)`), with the default
    method `andThen`. `H` is the world state a call runs against. */
module DoubleBiFunction {
  import opened Java
  import C = Combinators

  type DoubleBiFunction<!R, !H> = C.Body<(Double, Double), R, H>

  /** `java.util.function.Function<R, S>`, the transform `andThen` accepts. */
  type Function<!R, S, !H> = C.Body<R, S, H>

  /** `andThen(after)`: rejects a null `after`, otherwise applies this function and
      then `after` to its result. */
  function AndThen<R(!new), S(!new), H(!new)>(f: DoubleBiFunction<R, H>, after: Option<Function<R, S, H>>): (r: Result<DoubleBiFunction<S, H>>)
    ensures after.None? ==> r == Failure(NullPointerException)
    ensures after.Some? ==> r.Success? && C.PipesInto(f, after.value, r.value)
  {
    match RequireNonNull(after)
    case Failure(e) => Failure(e)
    case Success(g) => Success(C.Pipe(f, g))
  }

  /** `f.andThen(g).andThen(h)` agrees with `f.andThen(g.andThen(h))`. */
  lemma AndThenChain<R(!new), S(!new), Q(!new), H(!new)>(f: DoubleBiFunction<R, H>, g: Function<R, S, H>, h: Function<S, Q, H>)
    ensures C.Agree(AndThen(AndThen(f, Some(g)).value, Some(h)).value, AndThen(f, Some(C.Pipe(g, h))).value)
  {
    C.PipeAssociative(f, g, h);
  }

  /** With operands that count their calls: `apply` runs once, first, on the given
      arguments; `after` runs once, on `apply`'s result. */
  lemma AndThenCalls<R(!new), S(!new)>(f: ((Double, Double)) -> R, g: R -> S, left: Double, right: Double, log: seq<nat>)
    ensures AndThen(C.Counted(0, f), Some(C.Counted(1, g))).value((left, right), log) == C.Return(g(f((left, right))), log + [0, 1])
  {
    C.PipeCalls(f, g, (left, right), log);
  }
}
