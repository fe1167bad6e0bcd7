/** `ObjCharArraySegmentPredicate`: a predicate over an object-valued argument and a `char`-valued array argument with start and end indices, with the default methods `and`, `or` and `negated`.
    `H` is the world state a call runs against. */
module ObjCharArraySegmentPredicate {
  import opened Java
  import C = Combinators

  /** `boolean test(T obj, ArrayRef arr, Int from, Int to)` */
  type ObjCharArraySegmentPredicate<!T, !H> = C.Body<(T, ArrayRef, Int, Int), bool, H>

  /** `and(other)`: rejects a null `other`, otherwise returns the short-circuiting
      intersection that evaluates this predicate first. */
  function And<T(!new), H(!new)>(p: ObjCharArraySegmentPredicate<T, H>, other: Option<ObjCharArraySegmentPredicate<T, H>>): (r: Result<ObjCharArraySegmentPredicate<T, H>>)
    ensures other.None? ==> r == Failure(NullPointerException)
    ensures other.Some? ==> r.Success? && C.ShortCircuitAnd(p, other.value, r.value)
  {
    match RequireNonNull(other)
    case Failure(e) => Failure(e)
    case Success(q) => Success(C.Conj(p, q))
  }

  /** `or(other)`: rejects a null `other`, otherwise returns the short-circuiting
      union that evaluates this predicate first. */
  function Or<T(!new), H(!new)>(p: ObjCharArraySegmentPredicate<T, H>, other: Option<ObjCharArraySegmentPredicate<T, H>>): (r: Result<ObjCharArraySegmentPredicate<T, H>>)
    ensures other.None? ==> r == Failure(NullPointerException)
    ensures other.Some? ==> r.Success? && C.ShortCircuitOr(p, other.value, r.value)
  {
    match RequireNonNull(other)
    case Failure(e) => Failure(e)
    case Success(q) => Success(C.Disj(p, q))
  }

  /** `negated()`: has no operand to check and always returns the complement. */
  function Negated<T(!new), H(!new)>(p: ObjCharArraySegmentPredicate<T, H>): (r: ObjCharArraySegmentPredicate<T, H>)
    ensures C.Complement(p, r)
  {
    C.Neg(p)
  }

  /** For operands without effects, the compounds compute `&&`, `||` and `!` of the
      operands' results and leave the state alone. */
  lemma Connectives<T(!new), H(!new)>(p: ObjCharArraySegmentPredicate<T, H>, q: ObjCharArraySegmentPredicate<T, H>, obj: T, arr: ArrayRef, from: Int, to: Int, h: H)
    requires C.Pure(p) && C.Pure(q)
    ensures And(p, Some(q)).value((obj, arr, from, to), h) == C.Return(p((obj, arr, from, to), h).value && q((obj, arr, from, to), h).value, h)
    ensures Or(p, Some(q)).value((obj, arr, from, to), h) == C.Return(p((obj, arr, from, to), h).value || q((obj, arr, from, to), h).value, h)
    ensures Negated(p)((obj, arr, from, to), h) == C.Return(!p((obj, arr, from, to), h).value, h)
  {
    C.PureConnectives(p, q);
  }

  /** With operands that log their calls: `test` is called once; `other` is called at
      most once, only when the result is still open, and receives the identical
      arguments (no check relates the indices to each other or to the array). */
  lemma Calls<T(!new)>(p: ((T, ArrayRef, Int, Int)) -> bool, q: ((T, ArrayRef, Int, Int)) -> bool, obj: T, arr: ArrayRef, from: Int, to: Int, log: seq<C.Call<(T, ArrayRef, Int, Int)>>)
    ensures And(C.Recorded(0, p), Some(C.Recorded(1, q))).value((obj, arr, from, to), log)
         == C.Return(p((obj, arr, from, to)) && q((obj, arr, from, to)), log + [C.Call(0, (obj, arr, from, to))] + (if p((obj, arr, from, to)) then [C.Call(1, (obj, arr, from, to))] else []))
    ensures Or(C.Recorded(0, p), Some(C.Recorded(1, q))).value((obj, arr, from, to), log)
         == C.Return(p((obj, arr, from, to)) || q((obj, arr, from, to)), log + [C.Call(0, (obj, arr, from, to))] + (if p((obj, arr, from, to)) then [] else [C.Call(1, (obj, arr, from, to))]))
    ensures Negated(C.Recorded(0, p))((obj, arr, from, to), log) == C.Return(!p((obj, arr, from, to)), log + [C.Call(0, (obj, arr, from, to))])
  {
    C.ConjCalls(p, q, (obj, arr, from, to), log);
    C.DisjCalls(p, q, (obj, arr, from, to), log);
    C.NegCalls(p, (obj, arr, from, to), log);
  }

  /** `negated().negated()` agrees with the original predicate on every call. */
  lemma DoubleNegation<T(!new), H(!new)>(p: ObjCharArraySegmentPredicate<T, H>)
    ensures C.Agree(Negated(Negated(p)), p)
  {
    C.DoubleNegation(p);
  }
}
