/** `CharUnaryOperator`: an operator from `char` to `char` (`char applyAsChar(char operand)`),
    with the static factory `identity` and the default methods `andThen` and `compose`.
    `H` is the world state a call runs against. */
module CharUnaryOperator {
  import opened Java
  import C = Combinators

  type CharUnaryOperator<!H> = C.Body<Char, Char, H>

  /** `identity()`: `x -> x`. */
  function Identity<H(!new)>(): (r: CharUnaryOperator<H>)
    ensures C.ReturnsInput(r)
  {
    C.Identity()
  }

  /** `andThen(after)`: rejects a null `after`, otherwise applies this operator and
      then `after` to its result. */
  function AndThen<H(!new)>(op: CharUnaryOperator<H>, after: Option<CharUnaryOperator<H>>): (r: Result<CharUnaryOperator<H>>)
    ensures after.None? ==> r == Failure(NullPointerException)
    ensures after.Some? ==> r.Success? && C.PipesInto(op, after.value, r.value)
  {
    match RequireNonNull(after)
    case Failure(e) => Failure(e)
    case Success(g) => Success(C.Pipe(op, g))
  }

  /** `compose(before)`: rejects a null `before`, otherwise applies `before` and then
      this operator to its result. */
  function Compose<H(!new)>(op: CharUnaryOperator<H>, before: Option<CharUnaryOperator<H>>): (r: Result<CharUnaryOperator<H>>)
    ensures before.None? ==> r == Failure(NullPointerException)
    ensures before.Some? ==> r.Success? && C.PipesInto(before.value, op, r.value)
  {
    match RequireNonNull(before)
    case Failure(e) => Failure(e)
    case Success(b) => Success(C.Pipe(b, op))
  }

  /** `op.compose(before)` agrees with `before.andThen(op)`. */
  lemma ComposeIsFlippedAndThen<H(!new)>(op: CharUnaryOperator<H>, before: CharUnaryOperator<H>)
    ensures C.Agree(Compose(op, Some(before)).value, AndThen(before, Some(op)).value)
  {
    C.PipesIntoDetermines(before, op, Compose(op, Some(before)).value, AndThen(before, Some(op)).value);
  }

  /** `a.andThen(b).andThen(c)` agrees with `a.andThen(b.andThen(c))`. */
  lemma AndThenAssociative<H(!new)>(a: CharUnaryOperator<H>, b: CharUnaryOperator<H>, c: CharUnaryOperator<H>)
    ensures C.Agree(AndThen(AndThen(a, Some(b)).value, Some(c)).value, AndThen(a, Some(AndThen(b, Some(c)).value)).value)
  {
    C.PipeAssociative(a, b, c);
  }
}
