/** `ShortUnaryOperator`: an operator from `short` to `short` (`short applyAsShort(short operand)`),
    with the static factory `identity` and the default methods `andThen` and `compose`.
    `H` is the world state a call runs against. */
module ShortUnaryOperator {
  import opened Java
  import C = Combinators

  type ShortUnaryOperator<!H> = C.Body<Short, Short, H>

  /** `identity()`: `x -> x`. */
  function Identity<H(!new)>(): (r: ShortUnaryOperator<H>)
    ensures C.ReturnsInput(r)
  {
    C.Identity()
  }

  /** `andThen(after)`: rejects a null `after`, otherwise applies this operator and
      then `after` to its result. */
  function AndThen<H(!new)>(op: ShortUnaryOperator<H>, after: Option<ShortUnaryOperator<H>>): (r: Result<ShortUnaryOperator<H>>)
    ensures after.None? ==> r == Failure(NullPointerException)
    ensures after.Some? ==> r.Success? && C.PipesInto(op, after.value, r.value)
  {
    match RequireNonNull(after)
    case Failure(e) => Failure(e)
    case Success(g) => Success(C.Pipe(op, g))
  }

  /** `compose(before)`: rejects a null `before`, otherwise applies `before` and then
      this operator to its result. */
  function Compose<H(!new)>(op: ShortUnaryOperator<H>, before: Option<ShortUnaryOperator<H>>): (r: Result<ShortUnaryOperator<H>>)
    ensures before.None? ==> r == Failure(NullPointerException)
    ensures before.Some? ==> r.Success? && C.PipesInto(before.value, op, r.value)
  {
    match RequireNonNull(before)
    case Failure(e) => Failure(e)
    case Success(b) => Success(C.Pipe(b, op))
  }

  /** `op.compose(before)` agrees with `before.andThen(op)`. */
  lemma ComposeIsFlippedAndThen<H(!new)>(op: ShortUnaryOperator<H>, before: ShortUnaryOperator<H>)
    ensures C.Agree(Compose(op, Some(before)).value, AndThen(before, Some(op)).value)
  {
    C.PipesIntoDetermines(before, op, Compose(op, Some(before)).value, AndThen(before, Some(op)).value);
  }

  /** `identity()` is a left and a right unit of both `andThen` and `compose`. */
  lemma IdentityUnits<H(!new)>(op: ShortUnaryOperator<H>)
    ensures C.Agree(AndThen(Identity(), Some(op)).value, op) && C.Agree(AndThen(op, Some(Identity())).value, op)
    ensures C.Agree(Compose(Identity(), Some(op)).value, op) && C.Agree(Compose(op, Some(Identity())).value, op)
  {
    C.IdentityUnit(op);
  }
}
