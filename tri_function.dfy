/** `TriFunction`: a function of three object-valued arguments (`R apply(T t, U u, V v)`), with the default
    method `andThen`. `H` is the world state a call runs against. */
module TriFunction {
  import opened Java
  import C = Combinators

  type TriFunction<!T, !U, !V, !R, !H> = C.Body<(T, U, V), R, H>

  /** `java.util.function.Function<R, S>`, the transform `andThen` accepts. */
  type Function<!R, S, !H> = C.Body<R, S, H>

  /** `andThen(after)`: rejects a null `after`, otherwise applies this function and
      then `after` to its result. */
  function AndThen<T(!new), U(!new), V(!new), R(!new), S(!new), H(!new)>(f: TriFunction<T, U, V, R, H>, after: Option<Function<R, S, H>>): (r: Result<TriFunction<T, U, V, S, H>>)
    ensures after.None? ==> r == Failure(NullPointerException)
    ensures after.Some? ==> r.Success? && C.PipesInto(f, after.value, r.value)
  {
    match RequireNonNull(after)
    case Failure(e) => Failure(e)
    case Success(g) => Success(C.Pipe(f, g))
  }

  /** `f.andThen(g).andThen(h)` agrees with `f.andThen(g.andThen(h))`. */
  lemma AndThenChain<T(!new), U(!new), V(!new), R(!new), S(!new), Q(!new), H(!new)>(f: TriFunction<T, U, V, R, H>, g: Function<R, S, H>, h: Function<S, Q, H>)
    ensures C.Agree(AndThen(AndThen(f, Some(g)).value, Some(h)).value, AndThen(f, Some(C.Pipe(g, h))).value)
  {
    C.PipeAssociative(f, g, h);
  }

  /** With operands that count their calls: `apply` runs once, first, on the given
      arguments; `after` runs once, on `apply`'s result. */
  lemma AndThenCalls<T(!new), U(!new), V(!new), R(!new), S(!new)>(f: ((T, U, V)) -> R, g: R -> S, t: T, u: U, v: V, log: seq<nat>)
    ensures AndThen(C.Counted(0, f), Some(C.Counted(1, g))).value((t, u, v), log) == C.Return(g(f((t, u, v))), log + [0, 1])
  {
    C.PipeCalls(f, g, (t, u, v), log);
  }
}
