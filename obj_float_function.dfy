/** `ObjFloatFunction`: a function of an object-valued argument and a `float`-valued argument (`R apply(T obj, Float value)`), with the default
    method `andThen`. `H` is the world state a call runs against. */
module ObjFloatFunction {
  import opened Java
  import C = Combinators

  type ObjFloatFunction<!T, !R, !H> = C.Body<(T, Float), R, H>

  /** `java.util.function.Function<R, S>`, the transform `andThen` accepts. */
  type Function<!R, S, !H> = C.Body<R, S, H>

  /** `andThen(after)`: rejects a null `after`, otherwise applies this function and
      then `after` to its result. */
  function AndThen<T(!new), R(!new), S(!new), H(!new)>(f: ObjFloatFunction<T, R, H>, after: Option<Function<R, S, H>>): (r: Result<ObjFloatFunction<T, S, H>>)
    ensures after.None? ==> r == Failure(NullPointerException)
    ensures after.Some? ==> r.Success? && C.PipesInto(f, after.value, r.value)
  {
    match RequireNonNull(after)
    case Failure(e) => Failure(e)
    case Success(g) => Success(C.Pipe(f, g))
  }

  /** `f.andThen(g).andThen(h)` agrees with `f.andThen(g.andThen(h))`. */
  lemma AndThenChain<T(!new), R(!new), S(!new), Q(!new), H(!new)>(f: ObjFloatFunction<T, R, H>, g: Function<R, S, H>, h: Function<S, Q, H>)
    ensures C.Agree(AndThen(AndThen(f, Some(g)).value, Some(h)).value, AndThen(f, Some(C.Pipe(g, h))).value)
  {
    C.PipeAssociative(f, g, h);
  }

  /** With operands that count their calls: `apply` runs once, first, on the given
      arguments; `after` runs once, on `apply`'s result. */
  lemma AndThenCalls<T(!new), R(!new), S(!new)>(f: ((T, Float)) -> R, g: R -> S, obj: T, value: Float, log: seq<nat>)
    ensures AndThen(C.Counted(0, f), Some(C.Counted(1, g))).value((obj, value), log) == C.Return(g(f((obj, value))), log + [0, 1])
  {
    C.PipeCalls(f, g, (obj, value), log);
  }
}
