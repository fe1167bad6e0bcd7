/** `ObjLongArraySegmentFunction`: a function of an object-valued argument and a `long`-valued array argument with start and end indices (`R apply(T obj, ArrayRef arr, Int from, Int to)`), with the default
    method `andThen`. `H` is the world state a call runs against. */
module ObjLongArraySegmentFunction {
  import opened Java
  import C = Combinators

  type ObjLongArraySegmentFunction<!T, !R, !H> = C.Body<(T, ArrayRef, Int, Int), R, H>

  /** `java.util.function.Function<R, S>`, the transform `andThen` accepts. */
  type Function<!R, S, !H> = C.Body<R, S, H>

  /** `andThen(after)`: rejects a null `after`, otherwise applies this function and
      then `after` to its result. */
  function AndThen<T(!new), R(!new), S(!new), H(!new)>(f: ObjLongArraySegmentFunction<T, R, H>, after: Option<Function<R, S, H>>): (r: Result<ObjLongArraySegmentFunction<T, S, H>>)
    ensures after.None? ==> r == Failure(NullPointerException)
    ensures after.Some? ==> r.Success? && C.PipesInto(f, after.value, r.value)
  {
    match RequireNonNull(after)
    case Failure(e) => Failure(e)
    case Success(g) => Success(C.Pipe(f, g))
  }

  /** `f.andThen(g).andThen(h)` agrees with `f.andThen(g.andThen(h))`. */
  lemma AndThenChain<T(!new), R(!new), S(!new), Q(!new), H(!new)>(f: ObjLongArraySegmentFunction<T, R, H>, g: Function<R, S, H>, h: Function<S, Q, H>)
    ensures C.Agree(AndThen(AndThen(f, Some(g)).value, Some(h)).value, AndThen(f, Some(C.Pipe(g, h))).value)
  {
    C.PipeAssociative(f, g, h);
  }

  /** With operands that count their calls: `apply` runs once, first, on the given
      arguments; `after` runs once, on `apply`'s result. */
  lemma AndThenCalls<T(!new), R(!new), S(!new)>(f: ((T, ArrayRef, Int, Int)) -> R, g: R -> S, obj: T, arr: ArrayRef, from: Int, to: Int, log: seq<nat>)
    ensures AndThen(C.Counted(0, f), Some(C.Counted(1, g))).value((obj, arr, from, to), log) == C.Return(g(f((obj, arr, from, to))), log + [0, 1])
  {
    C.PipeCalls(f, g, (obj, arr, from, to), log);
  }
}
