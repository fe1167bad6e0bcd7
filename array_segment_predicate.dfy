/** `ArraySegmentPredicate`: a predicate over an array argument with start and end indices, with the default methods `and`, `or` and `negated`.
    `H` is the world state a call runs against. */
module ArraySegmentPredicate {
  import opened Java
  import C = Combinators

  /** `boolean test(ArrayRef arr, Int from, Int to)` */
  type ArraySegmentPredicate<!H> = C.Body<(ArrayRef, Int, Int), bool, H>

  /** `and(other)`: rejects a null `other`, otherwise returns the short-circuiting
      intersection that evaluates this predicate first. */
  function And<H(!new)>(p: ArraySegmentPredicate<H>, other: Option<ArraySegmentPredicate<H>>): (r: Result<ArraySegmentPredicate<H>>)
    ensures other.None? ==> r == Failure(NullPointerException)
    ensures other.Some? ==> r.Success? && C.ShortCircuitAnd(p, other.value, r.value)
  {
    match RequireNonNull(other)
    case Failure(e) => Failure(e)
    case Success(q) => Success(C.Conj(p, q))
  }

  /** `or(other)`: rejects a null `other`, otherwise returns the short-circuiting
      union that evaluates this predicate first. */
  function Or<H(!new)>(p: ArraySegmentPredicate<H>, other: Option<ArraySegmentPredicate<H>>): (r: Result<ArraySegmentPredicate<H>>)
    ensures other.None? ==> r == Failure(NullPointerException)
    ensures other.Some? ==> r.Success? && C.ShortCircuitOr(p, other.value, r.value)
  {
    match RequireNonNull(other)
    case Failure(e) => Failure(e)
    case Success(q) => Success(C.Disj(p, q))
  }

  /** `negated()`: has no operand to check and always returns the complement. */
  function Negated<H(!new)>(p: ArraySegmentPredicate<H>): (r: ArraySegmentPredicate<H>)
    ensures C.Complement(p, r)
  {
    C.Neg(p)
  }

  /** For operands without effects, the compounds compute `&&`, `||` and `!` of the
      operands' results and leave the state alone. */
  lemma Connectives<H(!new)>(p: ArraySegmentPredicate<H>, q: ArraySegmentPredicate<H>, arr: ArrayRef, from: Int, to: Int, h: H)
    requires C.Pure(p) && C.Pure(q)
    ensures And(p, Some(q)).value((arr, from, to), h) == C.Return(p((arr, from, to), h).value && q((arr, from, to), h).value, h)
    ensures Or(p, Some(q)).value((arr, from, to), h) == C.Return(p((arr, from, to), h).value || q((arr, from, to), h).value, h)
    ensures Negated(p)((arr, from, to), h) == C.Return(!p((arr, from, to), h).value, h)
  {
    C.PureConnectives(p, q);
  }

  /** With operands that log their calls: `test` is called once; `other` is called at
      most once, only when the result is still open, and receives the identical
      arguments (no check relates the indices to each other or to the array). */
  lemma Calls(p: ((ArrayRef, Int, Int)) -> bool, q: ((ArrayRef, Int, Int)) -> bool, arr: ArrayRef, from: Int, to: Int, log: seq<C.Call<(ArrayRef, Int, Int)>>)
    ensures And(C.Recorded(0, p), Some(C.Recorded(1, q))).value((arr, from, to), log)
         == C.Return(p((arr, from, to)) && q((arr, from, to)), log + [C.Call(0, (arr, from, to))] + (if p((arr, from, to)) then [C.Call(1, (arr, from, to))] else []))
    ensures Or(C.Recorded(0, p), Some(C.Recorded(1, q))).value((arr, from, to), log)
         == C.Return(p((arr, from, to)) || q((arr, from, to)), log + [C.Call(0, (arr, from, to))] + (if p((arr, from, to)) then [] else [C.Call(1, (arr, from, to))]))
    ensures Negated(C.Recorded(0, p))((arr, from, to), log) == C.Return(!p((arr, from, to)), log + [C.Call(0, (arr, from, to))])
  {
    C.ConjCalls(p, q, (arr, from, to), log);
    C.DisjCalls(p, q, (arr, from, to), log);
    C.NegCalls(p, (arr, from, to), log);
  }

  /** `negated().negated()` agrees with the original predicate on every call. */
  lemma DoubleNegation<H(!new)>(p: ArraySegmentPredicate<H>)
    ensures C.Agree(Negated(Negated(p)), p)
  {
    C.DoubleNegation(p);
  }
}
