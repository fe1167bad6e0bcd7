/** `ToShortFunction<T>`: a function from an object-valued argument to a `short`
    (`short applyAsShort(T t)`), with the default method `compose`. `H` is the world
    state a call runs against. */
module ToShortFunction {
  import opened Java
  import C = Combinators

  type ToShortFunction<!T, !H> = C.Body<T, Short, H>

  /** `java.util.function.Function<U, T>`, the transform `compose` accepts. */
  type Function<!U, T, !H> = C.Body<U, T, H>

  /** `compose(before)`: rejects a null `before`, otherwise applies `before` and then
      this function to its result. */
  function Compose<T(!new), U(!new), H(!new)>(f: ToShortFunction<T, H>, before: Option<Function<U, T, H>>): (r: Result<ToShortFunction<U, H>>)
    ensures before.None? ==> r == Failure(NullPointerException)
    ensures before.Some? ==> r.Success? && C.PipesInto(before.value, f, r.value)
  {
    match RequireNonNull(before)
    case Failure(e) => Failure(e)
    case Success(b) => Success(C.Pipe(b, f))
  }

  /** `f.compose(g).compose(e)` agrees with `f.compose(g∘e)`, where `g∘e` is `e.andThen(g)`. */
  lemma ComposeChain<T(!new), U(!new), X(!new), H(!new)>(f: ToShortFunction<T, H>, g: Function<U, T, H>, e: Function<X, U, H>)
    ensures C.Agree(Compose(Compose(f, Some(g)).value, Some(e)).value, Compose(f, Some(C.Pipe(e, g))).value)
  {
    C.PipeAssociative(e, g, f);
  }

  /** With operands that count their calls: `before` runs once, first; `applyAsShort`
      runs once, on `before`'s result. */
  lemma ComposeCalls<T(!new), U(!new)>(f: T -> Short, b: U -> T, u: U, log: seq<nat>)
    ensures Compose(C.Counted(1, f), Some(C.Counted(0, b))).value(u, log) == C.Return(f(b(u)), log + [0, 1])
  {
    C.PipeCalls(b, f, u, log);
  }
}
