/** `ShortPredicate`: a predicate over a single `short`-valued argument, with the default methods `and`, `or` and `negated`.
    `H` is the world state a call runs against. */
module ShortPredicate {
  import opened Java
  import C = Combinators

  /** `boolean test(Short value)` */
  type ShortPredicate<!H> = C.Body<Short, bool, H>

  /** `and(other)`: rejects a null `other`, otherwise returns the short-circuiting
      intersection that evaluates this predicate first. */
  function And<H(!new)>(p: ShortPredicate<H>, other: Option<ShortPredicate<H>>): (r: Result<ShortPredicate<H>>)
    ensures other.None? ==> r == Failure(NullPointerException)
    ensures other.Some? ==> r.Success? && C.ShortCircuitAnd(p, other.value, r.value)
  {
    match RequireNonNull(other)
    case Failure(e) => Failure(e)
    case Success(q) => Success(C.Conj(p, q))
  }

  /** `or(other)`: rejects a null `other`, otherwise returns the short-circuiting
      union that evaluates this predicate first. */
  function Or<H(!new)>(p: ShortPredicate<H>, other: Option<ShortPredicate<H>>): (r: Result<ShortPredicate<H>>)
    ensures other.None? ==> r == Failure(NullPointerException)
    ensures other.Some? ==> r.Success? && C.ShortCircuitOr(p, other.value, r.value)
  {
    match RequireNonNull(other)
    case Failure(e) => Failure(e)
    case Success(q) => Success(C.Disj(p, q))
  }

  /** `negated()`: has no operand to check and always returns the complement. */
  function Negated<H(!new)>(p: ShortPredicate<H>): (r: ShortPredicate<H>)
    ensures C.Complement(p, r)
  {
    C.Neg(p)
  }

  /** For operands without effects, the compounds compute `&&`, `||` and `!` of the
      operands' results and leave the state alone. */
  lemma Connectives<H(!new)>(p: ShortPredicate<H>, q: ShortPredicate<H>, value: Short, h: H)
    requires C.Pure(p) && C.Pure(q)
    ensures And(p, Some(q)).value(value, h) == C.Return(p(value, h).value && q(value, h).value, h)
    ensures Or(p, Some(q)).value(value, h) == C.Return(p(value, h).value || q(value, h).value, h)
    ensures Negated(p)(value, h) == C.Return(!p(value, h).value, h)
  {
    C.PureConnectives(p, q);
  }

  /** With operands that log their calls: `test` is called once; `other` is called at
      most once, only when the result is still open, and receives the identical
      arguments. */
  lemma Calls(p: Short -> bool, q: Short -> bool, value: Short, log: seq<C.Call<Short>>)
    ensures And(C.Recorded(0, p), Some(C.Recorded(1, q))).value(value, log)
         == C.Return(p(value) && q(value), log + [C.Call(0, value)] + (if p(value) then [C.Call(1, value)] else []))
    ensures Or(C.Recorded(0, p), Some(C.Recorded(1, q))).value(value, log)
         == C.Return(p(value) || q(value), log + [C.Call(0, value)] + (if p(value) then [] else [C.Call(1, value)]))
    ensures Negated(C.Recorded(0, p))(value, log) == C.Return(!p(value), log + [C.Call(0, value)])
  {
    C.ConjCalls(p, q, value, log);
    C.DisjCalls(p, q, value, log);
    C.NegCalls(p, value, log);
  }

  /** `negated().negated()` agrees with the original predicate on every call. */
  lemma DoubleNegation<H(!new)>(p: ShortPredicate<H>)
    ensures C.Agree(Negated(Negated(p)), p)
  {
    C.DoubleNegation(p);
  }
}
