/** `FloatBiPredicate`: a predicate over two `float`-valued arguments, with the default methods `and`, `or` and `negated`.
    `H` is the world state a call runs against. */
module FloatBiPredicate {
  import opened Java
  import C = Combinators

  /** `boolean test(Float left, Float right)` */
  type FloatBiPredicate<!H> = C.Body<(Float, Float), bool, H>

  /** `and(other)`: rejects a null `other`, otherwise returns the short-circuiting
      intersection that evaluates this predicate first. */
  function And<H(!new)>(p: FloatBiPredicate<H>, other: Option<FloatBiPredicate<H>>): (r: Result<FloatBiPredicate<H>>)
    ensures other.None? ==> r == Failure(NullPointerException)
    ensures other.Some? ==> r.Success? && C.ShortCircuitAnd(p, other.value, r.value)
  {
    match RequireNonNull(other)
    case Failure(e) => Failure(e)
    case Success(q) => Success(C.Conj(p, q))
  }

  /** `or(other)`: rejects a null `other`, otherwise returns the short-circuiting
      union that evaluates this predicate first. */
  function Or<H(!new)>(p: FloatBiPredicate<H>, other: Option<FloatBiPredicate<H>>): (r: Result<FloatBiPredicate<H>>)
    ensures other.None? ==> r == Failure(NullPointerException)
    ensures other.Some? ==> r.Success? && C.ShortCircuitOr(p, other.value, r.value)
  {
    match RequireNonNull(other)
    case Failure(e) => Failure(e)
    case Success(q) => Success(C.Disj(p, q))
  }

  /** `negated()`: has no operand to check and always returns the complement. */
  function Negated<H(!new)>(p: FloatBiPredicate<H>): (r: FloatBiPredicate<H>)
    ensures C.Complement(p, r)
  {
    C.Neg(p)
  }

  /** For operands without effects, the compounds compute `&&`, `||` and `!` of the
      operands' results and leave the state alone. */
  lemma Connectives<H(!new)>(p: FloatBiPredicate<H>, q: FloatBiPredicate<H>, left: Float, right: Float, h: H)
    requires C.Pure(p) && C.Pure(q)
    ensures And(p, Some(q)).value((left, right), h) == C.Return(p((left, right), h).value && q((left, right), h).value, h)
    ensures Or(p, Some(q)).value((left, right), h) == C.Return(p((left, right), h).value || q((left, right), h).value, h)
    ensures Negated(p)((left, right), h) == C.Return(!p((left, right), h).value, h)
  {
    C.PureConnectives(p, q);
  }

  /** With operands that log their calls: `test` is called once; `other` is called at
      most once, only when the result is still open, and receives the identical
      arguments. */
  lemma Calls(p: ((Float, Float)) -> bool, q: ((Float, Float)) -> bool, left: Float, right: Float, log: seq<C.Call<(Float, Float)>>)
    ensures And(C.Recorded(0, p), Some(C.Recorded(1, q))).value((left, right), log)
         == C.Return(p((left, right)) && q((left, right)), log + [C.Call(0, (left, right))] + (if p((left, right)) then [C.Call(1, (left, right))] else []))
    ensures Or(C.Recorded(0, p), Some(C.Recorded(1, q))).value((left, right), log)
         == C.Return(p((left, right)) || q((left, right)), log + [C.Call(0, (left, right))] + (if p((left, right)) then [] else [C.Call(1, (left, right))]))
    ensures Negated(C.Recorded(0, p))((left, right), log) == C.Return(!p((left, right)), log + [C.Call(0, (left, right))])
  {
    C.ConjCalls(p, q, (left, right), log);
    C.DisjCalls(p, q, (left, right), log);
    C.NegCalls(p, (left, right), log);
  }
}
